/** Write watches: how many of them one call may leave behind, and when it asks for one on a channel
    that is gone. The write function picks the next packet and calls schedule_write, which calls it
    back; once the inner call has returned, every outer one asks for its own watch. */
module SenderWatches {
  import opened Channel
  import opened Wire
  import opened SenderSpec
  import opened SenderControl
  import opened SenderDrain

  /* ---------- How many watches ---------- */

  /** The watches made after number `a` up to number `b`. */
  function Between(a: nat, b: nat): set<nat> {
    if b <= a then {} else Between(a, b - 1) + {b}
  }

  /** No pipe makes one call leave more new watches than there are packets waiting, plus one. */
  lemma {:induction false} ScheduleWatches(s: State, o: Writer)
    requires Control(s)
    ensures var t := ScheduleWrite(s, o);
      && s.lastWatch <= t.lastWatch <= s.lastWatch + Pending(s) + 1
      && t.live == s.live + Between(s.lastWatch, t.lastWatch)
      && (s.open && !t.open ==> t.live == s.live)
    decreases Pending(s), 1
  {
    hide Write;
    if s.open && s.watch == 0 {
      WriteWatches(s, o);
    }
  }

  lemma {:induction false} WriteWatches(s: State, o: Writer)
    requires Control(s) && s.open
    ensures var t := Write(s, o).0;
      && s.lastWatch <= t.lastWatch <= s.lastWatch + Pending(s)
      && t.live == s.live + Between(s.lastWatch, t.lastWatch)
      && (!t.open ==> t.live == s.live)
    decreases Pending(s), 0
  {
    hide Encode, PacketSize, Transmit, ScheduleWrite;
    TransmitShape(s, o);
    var (s1, r) := Transmit(s, o);
    assert 0 !in s.live;
    if r == Sent && (s1.queue != [] || s1.bye) {
      NextPacketControl(s1);
      ScheduleWatches(NextPacket(s1), o);
    }
  }

  /* ---------- Pipes that stop after some calls ---------- */

  /** The pipe takes everything offered by the first `n` calls and answers `last` from then on. */
  function Until(n: nat, last: WriteAnswer): Writer {
    (i: nat, len: nat) => if i < n then Took(len) else last
  }

  /** The state after the current packet has gone out. */
  function Sent1(s: State): State { Transmit(s, (i: nat, len: nat) => Took(len)).0 }

  lemma TransmitUntil(s: State, n: nat, last: WriteAnswer)
    requires InFlight(s) && Sent1(s).calls <= n
    ensures Transmit(s, Until(n, last)) == (Sent1(s), Sent)
    ensures s.calls <= Sent1(s).calls
  {
    hide Encode, PacketSize;
  }

  /** The write call that starts a packet gets the answer `last`. */
  lemma TransmitStopped(s: State, last: WriteAnswer)
    requires InFlight(s) && s.cur.Some? && last in {Took(0), WriteError}
    ensures var (t, r) := Transmit(s, Until(s.calls, last));
      && r == (if last == WriteError then Failed else Waiting)
      && t == s.(calls := s.calls + 1)
  {
    hide Encode, PacketSize;
    assert s.data + Encode(s.cur.value)[s.written..s.written] == s.data;
  }

  /** A pipe that fills up just before the last packet that waits. */
  lemma {:induction false} MostWrites(s: State) returns (n: nat)
    requires Control(s) && s.open && s.cur.Some?
    ensures n >= s.calls
    ensures var (t, more) := Write(s, Until(n, Took(0)));
      more && t.open && t.lastWatch == s.lastWatch + if s.watch == 0 then Pending(s) else 0
    decreases Pending(s)
  {
    hide Encode, PacketSize, Transmit, ScheduleWrite;
    if s.watch == 0 && Pending(s) > 0 {
      var s1 := Sent1(s);
      TransmitUntil(s, s1.calls, Took(0));
      TransmitShape(s, Until(s1.calls, Took(0)));
      NextPacketControl(s1);
      n := MostWrites(NextPacket(s1));
      TransmitUntil(s, n, Took(0));
      WriteSends(s, Until(n, Took(0)));
      ScheduleAsks(NextPacket(s1), Until(n, Took(0)));
    } else {
      n := s.calls;
      TransmitStopped(s, Took(0));
    }
  }

  lemma WriteSends(s: State, o: Writer)
    requires Transmit(s, o).1 == Sent && (Transmit(s, o).0.queue != [] || Transmit(s, o).0.bye)
    ensures Write(s, o) == (ScheduleWrite(NextPacket(Transmit(s, o).0), o), true)
  {
  }

  lemma ScheduleAsks(s: State, o: Writer)
    requires s.open && s.watch == 0
    ensures ScheduleWrite(s, o) == if Write(s, o).1 then AddWatch(Write(s, o).0) else Write(s, o).0
  {
  }

  /** The bound is reached: some pipe makes one call leave a watch for every packet that waits, and
      one for the packet in flight. */
  lemma MostWatches(s: State)
    requires Control(s) && s.open && s.watch == 0 && s.cur.Some?
    ensures exists o: Writer :: ScheduleWrite(s, o).lastWatch == s.lastWatch + Pending(s) + 1
  {
    hide Write, ScheduleWrite;
    var n := MostWrites(s);
    ScheduleAsks(s, Until(n, Took(0)));
  }

  /** Two watches that were not there before. */
  predicate Twice(s: State, t: State) { s.lastWatch + 1 in t.live && s.lastWatch + 2 in t.live }

  lemma {:induction false} BetweenIs(a: nat, b: nat)
    ensures forall k: nat :: k in Between(a, b) <==> a < k <= b
  {
    if a < b { BetweenIs(a, b - 1); }
  }

  /** Exactly when one call can leave a second watch: it writes at all and some packet waits. */
  lemma SecondWatch(s: State)
    requires Control(s)
    ensures (exists o: Writer :: Twice(s, ScheduleWrite(s, o))) <==> s.open && s.watch == 0 && Pending(s) > 0
  {
    hide Write, ScheduleWrite, PacketSize;
    if s.open && s.watch == 0 && Pending(s) > 0 {
      MostWatches(s);
      var o: Writer :| ScheduleWrite(s, o).lastWatch == s.lastWatch + Pending(s) + 1;
      ScheduleWatches(s, o);
      BetweenIs(s.lastWatch, s.lastWatch + Pending(s) + 1);
      assert Twice(s, ScheduleWrite(s, o));
    } else {
      forall o: Writer
        ensures !Twice(s, ScheduleWrite(s, o))
      {
        ScheduleWatches(s, o);
        ScheduleControl(s, o);
        OnlyWhenUnwatched(s, o);
      }
    }
  }

  lemma OnlyWhenUnwatched(s: State, o: Writer)
    ensures !(s.open && s.watch == 0) ==> ScheduleWrite(s, o) == s
  {
    hide Write;
  }

  /** Two messages and a pipe that takes the first header only: two watches for one packet. */
  lemma SecondWatchExample(m0: Message, m1: Message, o: Writer)
    requires m0.text == m1.text == [] && o(0, 22) == Took(22) && o(1, 22) == Took(0)
    ensures var s := Send(Send(Fresh(0), m0), m1);
      && Inv(s) && s.invokes == 1 && s.live == {}
      && var t := Invoke(s, o); t.live == {1, 2} && t.watch == 2 && t.cur == Some(Msg(m1))
  {
    FreshInv(0);
    SendInv(Fresh(0), m0);
    SendInv(Send(Fresh(0), m0), m1);
    TwoMessages(m0, m1, o);
  }

  /** A queue of two messages without text, of which the pipe takes the first. */
  lemma TwoMessages(m0: Message, m1: Message, o: Writer)
    requires m0.text == m1.text == [] && o(0, 22) == Took(22)
    ensures var s := Send(Send(Fresh(0), m0), m1).(invokes := 0);
      && Transmit(s, o).1 == Sent
      && var t := NextPacket(Transmit(s, o).0);
         && t.open && t.watch == 0 && t.live == {} && t.lastWatch == 0 && t.invokes == 0 && t.calls == 1
         && t.cur == Some(Msg(m1)) && t.written == 0 && t.queue == [] && !t.bye && !t.done
         && Write(s, o) == (ScheduleWrite(t, o), true)
  {
    hide ScheduleWrite;
  }

  /* ---------- A watch for a channel that is gone ---------- */

  /** The write function reports that something is left to write although it has closed the channel;
      schedule_write then asks GLib for a watch on it. */
  predicate AsksTooLate(s: State, o: Writer) { Write(s, o).1 && !Write(s, o).0.open }

  /** On a pipe that takes everything this happens exactly if a bye is due. */
  lemma TooLateWhenDraining(s: State, o: Writer)
    requires Control(s) && s.open && s.watch == 0 && TakesEverything(o)
    ensures AsksTooLate(s, o) <==> s.bye
  {
    hide Encode, PacketSize, Transmit, ScheduleWrite;
    WriteDrains(s, o);
    TransmitShape(s, o);
    TransmitAll(s, o);
  }

  /** On arbitrary pipes: some answer causes it if and only if nothing is watched and some packet
      waits behind the one in flight. */
  lemma TooLateExactly(s: State)
    requires Control(s) && s.open
    ensures (exists o: Writer :: AsksTooLate(s, o)) <==> s.watch == 0 && Pending(s) > 0
  {
    hide Encode, PacketSize, Transmit, ScheduleWrite, AsksTooLate;
    if s.watch == 0 && Pending(s) > 0 {
      var s1 := Sent1(s);
      var o := Until(s1.calls, WriteError);
      TransmitUntil(s, s1.calls, WriteError);
      TransmitShape(s, o);
      NextPacketControl(s1);
      WriteSends(s, o);
      FirstWriteFails(NextPacket(s1));
      assert AsksTooLate(s, o) by { DefinitionOfTooLate(s, o); }
    } else {
      forall o: Writer
        ensures !AsksTooLate(s, o)
      {
        NotTooLate(s, o);
      }
    }
  }

  lemma DefinitionOfTooLate(s: State, o: Writer)
    ensures AsksTooLate(s, o) <==> Write(s, o).1 && !Write(s, o).0.open
  {
  }

  lemma FirstWriteFails(s: State)
    requires Control(s) && s.open && s.watch == 0 && s.cur.Some?
    ensures !ScheduleWrite(s, Until(s.calls, WriteError)).open
  {
    hide Transmit;
    TransmitStopped(s, WriteError);
  }

  lemma NotTooLate(s: State, o: Writer)
    requires Control(s) && s.open && (s.watch != 0 || Pending(s) == 0)
    ensures !AsksTooLate(s, o)
  {
    hide Encode, PacketSize, Transmit;
    TransmitShape(s, o);
    var (s1, r) := Transmit(s, o);
    if r == Sent && Pending(s) > 0 {
      OnlyWhenUnwatched(NextPacket(s1), o);
    }
  }

  /** First cause: the inner call sends the bye and closes. */
  lemma TooLateAfterBye(m: Message, o: Writer)
    requires TakesEverything(o)
    ensures var s := Close(Send(Fresh(0), m), o);
      && Inv(s) && s.invokes == 1
      && var t := s.(invokes := 0);
         AsksTooLate(t, o) && Write(t, o).0.exit == Drained && Write(t, o).0.started == [Msg(m), Bye]
  {
    FreshInv(0);
    SendInv(Fresh(0), m);
    CloseInv(Send(Fresh(0), m), o);
    var s := Close(Send(Fresh(0), m), o).(invokes := 0);
    assert s.started == [Msg(m)] && Backlog(s) == [Msg(m), Bye];
    WriteDrains(s, o);
    TransmitShape(s, o);
    TransmitAll(s, o);
  }

  /** Second cause: a write error in the inner call; neither a close nor a bye is needed. */
  lemma TooLateAfterError(m0: Message, m1: Message, o: Writer)
    requires m0.text == m1.text == [] && o(0, 22) == Took(22) && o(1, 22) == WriteError
    ensures var s := Send(Send(Fresh(0), m0), m1);
      && Inv(s) && s.invokes == 1 && !s.done && !s.bye
      && var t := s.(invokes := 0);
         AsksTooLate(t, o) && Write(t, o).0.exit == Aborted
  {
    FreshInv(0);
    SendInv(Fresh(0), m0);
    SendInv(Send(Fresh(0), m0), m1);
    TwoMessages(m0, m1, o);
  }
}
