/** A torn ping that does harm: a short write, two more requests and a message are enough to make the
    receiver take two bytes of the ping and three of the message for a header. */
module TornExample {
  import opened Channel
  import opened Sequences
  import opened Wire
  import S = SenderSpec
  import R = ReceiverSpec
  import opened SenderStream
  import opened Link

  const ZEROS_7: seq<byte> := [0, 0, 0, 0, 0, 0, 0]

  /** The pipe takes two bytes of the first ping, then everything. */
  ghost predicate ShortThenWhole(w: Writer)
  {
    w(0, 5) == Took(2) && w(1, 5) == Took(5) && w(2, 22) == Took(22)
  }

  /** The watch fires and finds room. */
  function PingsOut(): S.State {
    TornPing().(cur := None, data := ZEROS_7, calls := 2, watch := 0, live := {})
  }

  function MessageStarted(m: Message): S.State {
    PingsOut().(cur := Some(Msg(m)), started := [Ping, Ping, Msg(m)], offered := [m], invokes := 1)
  }

  function MessageOut(m: Message): S.State {
    MessageStarted(m).(cur := None, data := ZEROS_7 + Encode(Msg(m)), calls := 3, invokes := 0)
  }

  lemma FireStep(w: Writer)
    requires ShortThenWhole(w)
    ensures S.Enabled(TornPing(), S.DoFire(1, true))
    ensures S.Step(TornPing(), S.DoFire(1, true), w) == PingsOut()
  {
    var s := TornPing();
    assert s.data + Encode(Ping)[0..5] == ZEROS_7;
    assert S.Transmit(s, w) == S.WriteUpTo(s, 5, w);
  }

  lemma MessageSteps(m: Message, w: Writer)
    requires ShortThenWhole(w) && m.text == []
    ensures S.Step(PingsOut(), S.DoSend(m), w) == MessageStarted(m)
    ensures S.Enabled(MessageStarted(m), S.DoInvoke)
    ensures S.Step(MessageStarted(m), S.DoInvoke, w) == MessageOut(m)
  {
    hide Encode;
    var s := MessageStarted(m).(invokes := 0);
    assert s.data + Encode(Msg(m))[0..22] == ZEROS_7 + Encode(Msg(m));
    var t := s.(calls := 3, written := 22, data := ZEROS_7 + Encode(Msg(m)));
    assert S.Transmit(s, w) == S.WriteUpTo(s, 22, w) == (t, S.Sent);
    assert S.Write(s, w) == (S.Rest(t), false);
  }

  /** The receiver reads one ping. */
  function PingRead(): R.State { R.FRESH.(taken := 5, calls := 1, frames := [Known(Ping)]) }

  lemma ReadStep(m: Message, r: Reader)
    requires r(0, 5) == Got(5) && m.text == []
    ensures R.Step(R.FRESH, R.DoRead(true), MessageOut(m).data, r) == PingRead()
  {
    hide Encode;
    var stream := MessageOut(m).data;
    var b: seq<byte> := [0, 0, 0, 0, 0];
    assert [] + stream[0..5] == b;
    assert Get32(b[..4]) == 0;
    assert b[..5] == b;
    assert R.Fill(R.FRESH, stream, r) == (R.FRESH.(taken := 5, calls := 1, partial := b), R.Full);
  }

  /** What it finds next: two zeros and the first three bytes of the message. */
  lemma NextHeader(m: Message)
    requires m.text == []
    ensures !HeadOk(MessageOut(m).data[5..])
  {
    var b := MessageOut(m).data[5..];
    var h: seq<byte> := [0, 0, 17, 0];
    assert Encode(Msg(m))[..3] == [17, 0, 0];
    assert b[..4] == h && b[4] == 0;
    assert Get32(h) == 17 * 0x1_0000;
  }

  lemma NotPrefix(m: Message)
    requires m.text == []
    ensures !(MessageOut(m).data <= EncodeAll([Ping, Ping, Msg(m)]))
  {
    hide Encode;
    var x := EncodeAll([Msg(m)]);
    assert EncodeAll([Ping, Ping, Msg(m)]) == Encode(Ping) + (Encode(Ping) + x);
    assert Encode(Ping)[2] == 0 && Encode(Msg(m))[0] == 17 by { FirstBytes(m); }
    assert MessageOut(m).data[7] == 17 && (Encode(Ping) + (Encode(Ping) + x))[7] == 0;
  }

  lemma FirstBytes(m: Message)
    requires m.text == []
    ensures Encode(Ping)[2] == 0 && Encode(Msg(m))[0] == 17
  {
  }

  function Story(m: Message): seq<Event> {
    [AtSender(S.DoPing), AtSender(S.DoPing), AtSender(S.DoFire(1, true)), AtSender(S.DoSend(m)), AtSender(S.DoInvoke),
     AtReceiver(R.DoRead(true))]
  }

  /** One more event of a story. */
  lemma RunNext(es: seq<Event>, n: nat, k: Kernel, y: System)
    requires n < |es| && Run(0, es[..n], k) == Some(y) && Enabled(y, es[n]) && y.r.taken <= |y.s.data|
    ensures Run(0, es[..n + 1], k) == Some(Step(y, es[n], k))
  {
    hide Step;
    assert Init(es[..n + 1]) == es[..n];
  }

  /** The whole run: nothing was lost or closed, yet the pipe does not hold a prefix of the packets
      started, and the header that the receiver comes to is one that it cannot take. */
  lemma TornMessageExample(m: Message, k: Kernel)
    requires m.text == [] && ShortThenWhole(k.w) && k.r(0, 5) == Got(5)
    ensures Run(0, Story(m), k) == Some(System(MessageOut(m), PingRead()))
    ensures var y := System(MessageOut(m), PingRead());
      && y.s.open && y.s.cur.None? && y.s.data == ZEROS_7 + Encode(Msg(m)) && y.s.started == [Ping, Ping, Msg(m)]
      && !(y.s.data <= EncodeAll(y.s.started))
      && y.r.open && y.r.partial == [] && !HeadOk(y.r.partial + y.s.data[y.r.taken..])
    ensures !Harmless(0, Story(m), k)
  {
    hide Harmless, Run, Encode, EncodeAll, HeadOk, S.Step, R.Step;
    PingTwice(k.w);
    FireStep(k.w);
    MessageSteps(m, k.w);
    ReadStep(m, k.r);
    NextHeader(m);
    NotPrefix(m);
    RunStory(m, k);
    assert [] + MessageOut(m).data[5..] == MessageOut(m).data[5..];
    PrefixExactly(0, Story(m), k);
  }

  lemma RunStory(m: Message, k: Kernel)
    requires S.Step(S.Fresh(0), S.DoPing, k.w) == HalfPing() && S.Step(HalfPing(), S.DoPing, k.w) == TornPing()
    requires S.Enabled(TornPing(), S.DoFire(1, true))
    requires S.Step(TornPing(), S.DoFire(1, true), k.w) == PingsOut()
    requires S.Step(PingsOut(), S.DoSend(m), k.w) == MessageStarted(m) && S.Enabled(MessageStarted(m), S.DoInvoke)
    requires S.Step(MessageStarted(m), S.DoInvoke, k.w) == MessageOut(m)
    requires R.Step(R.FRESH, R.DoRead(true), MessageOut(m).data, k.r) == PingRead()
    ensures Run(0, Story(m), k) == Some(System(MessageOut(m), PingRead()))
  {
    hide Run, S.Step, R.Step, Encode;
    var es := Story(m);
    RunNothing(k);
    assert es[..0] == [];
    RunNext(es, 0, k, System(S.Fresh(0), R.FRESH));
    RunNext(es, 1, k, System(HalfPing(), R.FRESH));
    RunNext(es, 2, k, System(TornPing(), R.FRESH));
    RunNext(es, 3, k, System(PingsOut(), R.FRESH));
    RunNext(es, 4, k, System(MessageStarted(m), R.FRESH));
    RunNext(es, 5, k, System(MessageOut(m), R.FRESH));
    assert es[..6] == es;
  }

  lemma RunNothing(k: Kernel)
    ensures Run(0, [], k) == Some(System(S.Fresh(0), R.FRESH))
  {
  }
}
