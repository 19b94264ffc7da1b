/** Where every message goes: written, in flight, queued or dropped, and in which order. */
module SenderLedger {
  import opened Channel
  import opened Sequences
  import opened Wire
  import opened SenderSpec
  import opened SenderControl

  /** The messages among a sequence of packets. */
  function Messages(ps: seq<Packet>): seq<Message> {
    if ps == [] then []
    else Messages(Init(ps)) + if Last(ps).Msg? then [Last(ps).message] else []
  }

  lemma MessagesSnoc(ps: seq<Packet>, p: Packet)
    ensures Messages(ps + [p]) == Messages(ps) + if p.Msg? then [p.message] else []
  {
    assert Init(ps + [p]) == ps;
  }

  lemma {:induction false} MessagesConcat(a: seq<Packet>, b: seq<Packet>)
    ensures Messages(a + b) == Messages(a) + Messages(b)
  {
    if b == [] {
      assert a + b == a;
    } else {
      MessagesConcat(a, Init(b));
      assert a + b == (a + Init(b)) + [Last(b)];
      MessagesSnoc(a + Init(b), Last(b));
    }
  }

  /** What has been put in flight so far, followed by what still waits. */
  function Kept(s: State): seq<Message> { Messages(s.started) + s.queue }

  /** Nothing is lost without being counted, nothing is made up, nothing overtakes. */
  ghost predicate Balanced(kept: seq<Message>, offered: seq<Message>, dropped: seq<Message>)
  {
    && Subseq(kept, offered)
    && multiset(offered) == multiset(kept) + multiset(dropped)
  }

  ghost predicate Ledger(s: State) { Balanced(Kept(s), s.offered, s.dropped) }

  lemma NextPacketKept(s: State)
    requires s.queue != [] || s.bye
    ensures Kept(NextPacket(s)) == Kept(s)
  {
    MessagesSnoc(s.started, if s.queue != [] then Msg(s.queue[0]) else Bye);
  }

  /** Writing moves messages along; it never adds, drops or reorders one. */
  lemma {:induction false} WriteKept(s: State, o: Writer)
    requires Control(s) && s.open
    ensures var t := Write(s, o).0;
      Kept(t) == Kept(s) && t.offered == s.offered && t.dropped == s.dropped && t.limit == s.limit
    ensures |Write(s, o).0.queue| <= |s.queue| && Write(s, o).0.invokes == s.invokes
    decreases Pending(s), 0
  {
    hide Encode, PacketSize, Transmit, Kept;
    TransmitShape(s, o);
    var (s1, r) := Transmit(s, o);
    assert Kept(s1) == Kept(s) by { SameKept(s, s1); }
    match r
    case Failed => SameKept(s1, Shutdown(s1.(watch := 0), Aborted));
    case Waiting =>
    case Sent =>
      if s1.queue != [] || s1.bye {
        NextPacketControl(s1);
        NextPacketKept(s1);
        ScheduleKept(NextPacket(s1), o);
      } else {
        SameKept(s1, Rest(s1));
      }
  }

  lemma SameKept(s: State, t: State)
    requires s.started == t.started && s.queue == t.queue
    ensures Kept(s) == Kept(t)
  {
  }

  lemma {:induction false} ScheduleKept(s: State, o: Writer)
    requires Control(s)
    ensures var t := ScheduleWrite(s, o);
      Kept(t) == Kept(s) && t.offered == s.offered && t.dropped == s.dropped && t.limit == s.limit
    ensures |ScheduleWrite(s, o).queue| <= |s.queue| && ScheduleWrite(s, o).invokes == s.invokes
    decreases Pending(s), 1
  {
    hide Write, Kept;
    if s.open && s.watch == 0 {
      WriteKept(s, o);
      SameKept(Write(s, o).0, AddWatch(Write(s, o).0));
    }
  }

  /** Steps that neither offer nor drop leave the whole ledger alone. */
  predicate Quiet(e: Event) { !e.DoSend? && !e.DoSetBacklog? }

  lemma QuietKept(s: State, e: Event, o: Writer)
    requires Inv(s) && Enabled(s, e) && Quiet(e)
    ensures var t := Step(s, e, o);
      Kept(t) == Kept(s) && t.offered == s.offered && t.dropped == s.dropped && t.limit == s.limit
    ensures |Step(s, e, o).queue| <= |s.queue|
  {
    hide Write, ScheduleWrite, Kept, PacketSize;
    match e
    case DoPing =>
      if PingAllowed(s) {
        var t := PreparePing(s);
        PreparePingControl(s);
        assert Kept(t) == Kept(s) by { MessagesSnoc(s.started, Ping); NewPacketKept(s, t, Ping); }
        ScheduleKept(t, o);
      }
    case DoClose =>
      if !s.done {
        if s.cur.None? && s.queue == [] {
          var t := Start(s, Bye).(done := true, bye := false);
          PrepareByeControl(s);
          assert Kept(t) == Kept(s) by { MessagesSnoc(s.started, Bye); NewPacketKept(s, t, Bye); }
          ScheduleKept(t, o);
        } else {
          SameKept(s, Close(s, o));
        }
      }
    case DoShutdown => SameKept(s, Shutdown(s, Aborted));
    case DoFire(w, out) =>
      if out {
        WriteKept(s, o);
        SameKept(Write(s, o).0, Fire(s, w, out, o));
      } else {
        SameKept(s, Fire(s, w, out, o));
      }
    case DoInvoke =>
      SameKept(s, s.(invokes := s.invokes - 1));
      ScheduleKept(s.(invokes := s.invokes - 1), o);
  }

  lemma NewPacketKept(s: State, t: State, p: Packet)
    requires t.started == s.started || (t.started == s.started + [p] && !p.Msg?)
    requires t.queue == s.queue
    ensures Kept(t) == Kept(s)
  {
    MessagesSnoc(s.started, p);
  }

  /* ---------- Offering a message ---------- */

  /** How many of the newest messages a full queue gives up. */
  function Casualties(s: State): nat {
    if s.limit < 0 || |s.queue| < s.limit then 0 else |s.queue| / 2
  }

  /** Exactly what happens to the queue: the newest half goes if it is full, then the message
      enters unless there still is no room. */
  lemma EnqueueEffect(s: State, m: Message)
    ensures var t := Enqueue(s, m);
      var k := |s.queue| - Casualties(s);
      if s.limit < 0 || k < s.limit
      then t.queue == s.queue[..k] + [m] && t.dropped == s.dropped + s.queue[k..]
      else t.queue == s.queue[..k] && t.dropped == s.dropped + s.queue[k..] + [m]
    ensures Enqueue(s, m) == s.(queue := Enqueue(s, m).queue, dropped := Enqueue(s, m).dropped)
  {
    if CanPut(s) {
      assert s.queue[..|s.queue|] == s.queue && s.queue[|s.queue|..] == [];
    }
  }

  lemma SendLedger(s: State, m: Message)
    requires Inv(s) && Ledger(s)
    ensures Ledger(Send(s, m))
  {
    hide Enqueue, Balanced, Messages, PacketSize;
    if !s.done {
      var a := Messages(s.started);
      if s.cur.None? {
        MessagesSnoc(s.started, Msg(m));
        assert Kept(s) == a && s.queue == [];
        assert Kept(Send(s, m)) == a + [m];
        Accept(a, m, s.offered, s.dropped);
      } else {
        EnqueueEffect(s.(offered := s.offered + [m]), m);
        var k := |s.queue| - Casualties(s);
        Drop(a, s.queue, k, s.offered, s.dropped);
        Accept(a + s.queue[..k], m, s.offered, s.dropped + s.queue[k..]);
        assert a + (s.queue[..k] + [m]) == a + s.queue[..k] + [m];
      }
    }
  }

  /** A new message enters or is dropped. */
  lemma Accept(kept: seq<Message>, m: Message, offered: seq<Message>, dropped: seq<Message>)
    requires Balanced(kept, offered, dropped)
    ensures Balanced(kept + [m], offered + [m], dropped) && Balanced(kept, offered + [m], dropped + [m])
  {
    hide Subseq;
    SubseqSnoc(kept, offered, m);
    MultisetSnoc(kept, m);
    MultisetSnoc(offered, m);
    MultisetSnoc(dropped, m);
  }

  /** Queued messages from position `k` on are dropped. */
  lemma Drop(a: seq<Message>, q: seq<Message>, k: nat, offered: seq<Message>, dropped: seq<Message>)
    requires k <= |q| && Balanced(a + q, offered, dropped)
    ensures Balanced(a + q[..k], offered, dropped + q[k..])
  {
    SubseqPrefix(q, k);
    assert q == q[..k] + q[k..];
    Replace(a, q, q[..k], q[k..], offered, dropped);
  }

  /** A queue is replaced by some of its messages, the others are dropped. */
  lemma Replace(a: seq<Message>, q: seq<Message>, some: seq<Message>, others: seq<Message>,
                offered: seq<Message>, dropped: seq<Message>)
    requires Balanced(a + q, offered, dropped)
    requires Subseq(some, q) && multiset(q) == multiset(some) + multiset(others)
    ensures Balanced(a + some, offered, dropped + others)
  {
    hide Subseq;
    SubseqSuffix(a, some, q);
    SubseqTrans(a + some, a + q, offered);
  }

  lemma BacklogLedger(s: State, backlog: int, keep: seq<bool>)
    requires Ledger(s)
    ensures Ledger(SetBacklog(s, backlog, keep))
  {
    hide Balanced, Select, Reject, Messages;
    SelectIsSubseq(s.queue, keep);
    SelectSplits(s.queue, keep);
    Replace(Messages(s.started), s.queue, Select(s.queue, keep), Reject(s.queue, keep), s.offered, s.dropped);
  }

  lemma StepLedger(s: State, e: Event, o: Writer)
    requires Inv(s) && Enabled(s, e) && Ledger(s)
    ensures Ledger(Step(s, e, o))
  {
    hide Write, ScheduleWrite, SetBacklog, Send, PacketSize;
    match e
    case DoSend(m) => SendLedger(s, m);
    case DoSetBacklog(b, keep) => BacklogLedger(s, b, keep);
    case _ => QuietKept(s, e, o);
  }

  /* ---------- A fixed limit ---------- */

  ghost predicate Bounded(s: State)
  {
    s.limit != 0 && (s.limit >= 0 ==> |s.queue| <= s.limit)
  }

  /** The first and, if `newest`, the last message offered are kept. */
  ghost predicate Ends(kept: seq<Message>, offered: seq<Message>, newest: bool)
  {
    && (offered == [] <==> kept == [])
    && (offered != [] ==> kept[0] == offered[0])
    && (newest && offered != [] ==> Last(kept) == Last(offered))
  }

  ghost predicate KeepsEnds(s: State) { Ends(Kept(s), s.offered, s.limit != 1) }

  lemma NormalizedBounded(backlog: int)
    ensures Bounded(Fresh(backlog)) && KeepsEnds(Fresh(backlog)) && Ledger(Fresh(backlog))
  {
  }

  /** While the limit stays fixed the queue respects it, its head is never dropped, and with a
      limit other than one the newest message is always retained. */
  lemma StepFixedLimit(s: State, e: Event, o: Writer)
    requires Inv(s) && Enabled(s, e) && Bounded(s) && KeepsEnds(s) && !e.DoSetBacklog?
    ensures Bounded(Step(s, e, o)) && KeepsEnds(Step(s, e, o)) && Step(s, e, o).limit == s.limit
  {
    hide Write, ScheduleWrite, Send, Kept, PacketSize;
    if e.DoSend? {
      SendFixedLimit(s, e.m);
    } else {
      QuietKept(s, e, o);
    }
  }

  lemma SendFixedLimit(s: State, m: Message)
    requires Inv(s) && Bounded(s) && KeepsEnds(s)
    ensures Bounded(Send(s, m)) && KeepsEnds(Send(s, m)) && Send(s, m).limit == s.limit
  {
    hide Enqueue, Ends, Messages, PacketSize;
    if !s.done {
      var a := Messages(s.started);
      if s.cur.None? {
        MessagesSnoc(s.started, Msg(m));
        assert Kept(s) == a && s.queue == [] && Kept(Send(s, m)) == a + [m];
        EndsAfterOffer(a, [], 0, m, s.offered, s.limit != 1);
      } else {
        EnqueueEffect(s.(offered := s.offered + [m]), m);
        var k := |s.queue| - Casualties(s);
        EndsAfterOffer(a, s.queue, k, m, s.offered, s.limit != 1);
        assert a + (s.queue[..k] + [m]) == a + s.queue[..k] + [m];
      }
    }
  }

  lemma EndsAfterOffer(a: seq<Message>, q: seq<Message>, k: nat, m: Message, offered: seq<Message>, newest: bool)
    requires Ends(a + q, offered, newest) && k <= |q| && (q != [] ==> k > 0)
    ensures Ends(a + q[..k] + [m], offered + [m], newest)
    ensures q != [] && !newest ==> Ends(a + q[..k], offered + [m], newest)
  {
    if a + q != [] {
      assert (a + q[..k])[0] == (a + q)[0];
    }
  }

  /** The queue head, and whatever is in flight, survive every message offered. */
  lemma SendKeepsHead(s: State, m: Message)
    requires Inv(s) && Bounded(s)
    ensures Send(s, m).started == s.started || Send(s, m).started == s.started + [Msg(m)]
    ensures s.cur.Some? ==> Send(s, m).cur == s.cur
    ensures s.queue != [] ==> Send(s, m).queue != [] && Send(s, m).queue[0] == s.queue[0]
  {
    hide Enqueue;
    EnqueueEffect(s.(offered := s.offered + [m]), m);
  }
}
