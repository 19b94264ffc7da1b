/** What each call of the sender achieves, on every pipe, told by what has to be sent and by what
    happens to the one write call that may be made. */
module SenderEffects {
  import opened Channel
  import opened Sequences
  import opened Wire
  import opened SenderSpec
  import opened SenderControl
  import opened SenderLedger
  import opened SenderStream
  import opened SenderDrain

  /* ---------- A ping or a bye with nothing before it ---------- */

  /** A packet of five bytes meets an idle pipe: it goes out, or a part of it and a watch waits for
      the rest, or the connection is lost. A bye that is out ends the connection. */
  ghost predicate Outcome(s: State, p: Packet, t: State, o: Writer)
  {
    match o(s.calls, HEADER_SIZE)
    case WriteError =>
      !t.open && t.exit == Aborted && t.data == s.data && t.cur.None? && t.closedSignals == s.closedSignals + 1
    case Took(n) =>
      && t.exit != Aborted && t.data == s.data + Encode(p)[..Min(n, HEADER_SIZE)]
      && if n < HEADER_SIZE then t.open && t.cur == Some(p) && t.written == n && t.watch != 0 && t.watch in t.live
         else if p == Bye then !t.open && t.exit == Drained && t.cur.None? && t.closedSignals == s.closedSignals + 1
         else t.open && t.cur.None?
  }

  lemma LoneTransmit(s: State, o: Writer)
    requires s.cur.Some? && !s.cur.value.Msg? && s.written == 0
    ensures Transmit(s, o) == WriteUpTo(s, HEADER_SIZE, o)
  {
    hide Encode;
  }

  lemma LonePacket(s: State, o: Writer)
    requires s.open && s.exit == Running && s.watch == 0 && s.queue == [] && !s.bye
    requires s.cur.Some? && !s.cur.value.Msg? && s.written == 0 && (s.done <==> s.cur == Some(Bye))
    ensures var t := ScheduleWrite(s, o);
      && Outcome(s, s.cur.value, t, o) && t.started == s.started && t.queue == [] && !t.bye
      && t.offered == s.offered && t.dropped == s.dropped && t.invokes == s.invokes
      && (s.done ==> t.done)
  {
    hide Encode, Transmit;
    LoneTransmit(s, o);
  }

  lemma BacklogIs(s: State, t: State, p: Packet)
    requires s.queue == [] && t.queue == [] && !s.bye && !t.bye && t.started == s.started + [p]
    ensures Backlog(t) == Backlog(s) + [p]
  {
  }

  /* ---------- Close ---------- */

  lemma Idle(s: State)
    requires Inv(s) && !s.done
    ensures s.open && s.exit == Running && !s.bye && (s.cur.None? ==> s.queue == [])
  {
  }

  /** Closing adds a bye to what has to be sent and nothing else. If something is unfinished, the bye
      waits for it; if not, the bye is tried at once, unless an idle watch is left, which will. */
  lemma CloseSaysBye(s: State, o: Writer)
    requires Inv(s) && !s.done
    ensures var t := Close(s, o);
      && t.done && Backlog(t) == Backlog(s) + [Bye]
      && t.queue == s.queue && t.offered == s.offered && t.dropped == s.dropped && t.invokes == s.invokes
      && (s.cur.Some? ==>
            t.open && t.bye && t.cur == s.cur && t.written == s.written && t.data == s.data && t.live == s.live)
      && (s.cur.None? && s.watch == 0 ==> Outcome(s, Bye, t, o))
      && (s.cur.None? && s.watch != 0 ==>
            t.open && t.cur == Some(Bye) && t.written == 0 && t.data == s.data && t.live == s.live)
  {
    hide Encode, PacketSize, Backlog, ScheduleWrite, Outcome;
    Idle(s);
    if s.cur.None? {
      var t := Start(s, Bye).(done := true, bye := false);
      if s.watch == 0 {
        LonePacket(t, o);
        SameOutcome(s, t, Bye, ScheduleWrite(t, o), o);
      } else {
        StaysAsIs(t, o);
      }
      BacklogIs(s, Close(s, o), Bye);
    } else {
      ByeLast(s, Close(s, o));
    }
  }

  lemma StaysAsIs(s: State, o: Writer)
    requires s.watch != 0
    ensures ScheduleWrite(s, o) == s
  {
  }

  lemma SameOutcome(s: State, s': State, p: Packet, t: State, o: Writer)
    requires Outcome(s', p, t, o) && s.calls == s'.calls && s.data == s'.data && s.closedSignals == s'.closedSignals
    ensures Outcome(s, p, t, o)
  {
  }

  lemma ByeLast(s: State, t: State)
    requires t.started == s.started && t.queue == s.queue && !s.bye && t.bye
    ensures Backlog(t) == Backlog(s) + [Bye]
  {
    assert s.started + Packets(s.queue) + [] + [Bye] == s.started + Packets(s.queue) + [Bye];
  }

  /** A close loses the connection exactly if it tries the bye at once and the pipe refuses it. */
  lemma CloseAborts(s: State, o: Writer)
    requires Inv(s) && !s.done
    ensures Close(s, o).exit == Aborted <==> s.cur.None? && s.watch == 0 && o(s.calls, HEADER_SIZE).WriteError?
  {
    hide Close, Encode, PacketSize, Backlog;
    CloseSaysBye(s, o);
    CloseRuns(s, o);
  }

  lemma CloseRuns(s: State, o: Writer)
    requires Inv(s)
    ensures Close(s, o).open ==> Close(s, o).exit == Running
  {
    hide Close, PacketSize;
    CloseInv(s, o);
  }

  /** An idle sender on a pipe that takes everything says its bye and is gone when close returns. */
  lemma IdleCloseDrains(s: State, o: Writer)
    requires Inv(s) && !s.done && s.cur.None? && s.watch == 0 && TakesEverything(o)
    ensures var t := Close(s, o);
      && t.exit == Drained && !t.open && t.closedSignals == 1
      && t.started == s.started + [Bye] && t.data == s.data + [0, 0, 0, 0, 2]
  {
    hide Close, ScheduleWrite, PacketSize;
    Idle(s);
    CloseSaysBye(s, o);
    CloseInv(s, o);
    ByeBytes();
    assert Encode(Bye)[..HEADER_SIZE] == Encode(Bye);
    assert Backlog(s) == s.started && Backlog(Close(s, o)) == Close(s, o).started;
  }

  /* ---------- Ping ---------- */

  /** A ping is accepted exactly if the sender is not closed and has no message in flight or queued. It
      is one more packet to send, unless an untouched ping is still to be sent, and it is tried at
      once unless a watch will. A refused ping changes nothing. */
  lemma PingEffect(s: State, o: Writer)
    requires Inv(s)
    ensures var (t, ok) := SendPing(s, o);
      && (ok <==> !s.done && s.queue == [] && (s.cur.None? || s.cur == Some(Ping)))
      && (!ok ==> t == s)
      && (ok ==>
            && Backlog(t) == Backlog(s) + (if s.cur.Some? && s.written == 0 then [] else [Ping])
            && t.offered == s.offered && t.dropped == s.dropped && !t.bye && t.queue == []
            && (s.watch == 0 ==> Outcome(s, Ping, t, o))
            && (s.watch != 0 ==>
                  t.open && t.cur == Some(Ping) && t.written == 0 && t.data == s.data && t.live == s.live))
  {
    hide Encode, PacketSize, Backlog, ScheduleWrite, Outcome;
    if !s.done { NotBye(s); }
    if PingAllowed(s) {
      Idle(s);
      var p := PreparePing(s);
      if s.watch == 0 {
        LonePacket(p, o);
        SameOutcome(s, p, Ping, ScheduleWrite(p, o), o);
      } else {
        StaysAsIs(p, o);
      }
      var t := ScheduleWrite(p, o);
      if s.cur.Some? && s.written == 0 {
        assert s.cur == Some(Ping);
        SameBacklog(s, t);
        assert Backlog(s) + [] == Backlog(s);
      } else {
        BacklogIs(s, t, Ping);
      }
    }
  }

  /** A sender that is not closed never has a bye in flight. */
  lemma NotBye(s: State)
    requires Inv(s) && !s.done
    ensures s.cur != Some(Bye)
  {
  }

  /* ---------- Send ---------- */

  /** A message for an idle sender is the next packet to send, and a write is queued for it. */
  lemma SendStarts(s: State, m: Message)
    requires Inv(s) && !s.done && s.cur.None?
    ensures var t := Send(s, m);
      && Backlog(t) == Backlog(s) + [Msg(m)] && t.cur == Some(Msg(m)) && t.written == 0
      && t.offered == s.offered + [m] && t.dropped == s.dropped && t.invokes == s.invokes + 1
      && t.data == s.data && t.live == s.live && t.open
  {
    hide Backlog, PacketSize;
    Idle(s);
    BacklogIs(s, Send(s, m), Msg(m));
  }

  /** Behind an unfinished packet a message that fits is the last one to send; nothing else changes. */
  lemma SendQueues(s: State, m: Message)
    requires Inv(s) && !s.done && s.cur.Some? && (s.limit < 0 || |s.queue| < s.limit)
    ensures var t := Send(s, m);
      t == s.(queue := s.queue + [m], offered := s.offered + [m]) && Backlog(t) == Backlog(s) + [Msg(m)]
  {
    Idle(s);
    PacketsSnoc(s.queue, m);
    var t := Send(s, m);
    assert t.started + (Packets(s.queue) + [Msg(m)]) + [] == s.started + Packets(s.queue) + [] + [Msg(m)];
  }

  lemma {:induction false} PacketsSnoc(q: seq<Message>, m: Message)
    ensures Packets(q + [m]) == Packets(q) + [Msg(m)]
  {
    if q == [] {
      assert Packets([m]) == [Msg(m)] + Packets([m][1..]);
    } else {
      PacketsSnoc(q[1..], m);
      assert (q + [m])[1..] == q[1..] + [m];
    }
  }

  /* ---------- Backlog ---------- */

  /** A queue that fits the new limit keeps all its messages; nothing but the limit changes. */
  lemma BacklogThatFits(s: State, backlog: int, keep: seq<bool>)
    requires backlog < 0 || |s.queue| <= if backlog == 0 then 1000 else backlog
    ensures var t := SetBacklog(s, backlog, keep);
      && t == s.(limit := t.limit)
      && (if backlog < 0 then t.limit < 0 else t.limit == if backlog == 0 then 1000 else backlog)
  {
  }

  /** One that does not fit loses some messages; everything else stays, and no message vanishes
      without being counted. */
  lemma BacklogTooSmall(s: State, backlog: int, keep: seq<bool>)
    requires backlog >= 0 && |s.queue| > if backlog == 0 then 1000 else backlog
    ensures var t := SetBacklog(s, backlog, keep);
      && t == s.(limit := if backlog == 0 then 1000 else backlog, queue := t.queue, dropped := t.dropped)
      && Subseq(t.queue, s.queue) && s.dropped <= t.dropped
      && multiset(s.queue) == multiset(t.queue) + multiset(t.dropped[|s.dropped|..])
  {
    SelectIsSubseq(s.queue, keep);
    SelectSplits(s.queue, keep);
    assert (s.dropped + Reject(s.queue, keep))[|s.dropped|..] == Reject(s.queue, keep);
  }

  /* ---------- The end ---------- */

  /** A shutdown ends everything at once, announces it if it was not announced before, and takes the
      named watch away. What was written, queued or dropped stays on record. Another one does nothing. */
  lemma ShutdownEnds(s: State, why: Exit)
    requires Inv(s) && why != Running
    ensures var t := Shutdown(s, why);
      && !t.open && t.done && !t.bye && t.cur.None? && t.closedSignals == 1
      && t.exit == (if s.open then why else s.exit)
      && t.watch == 0 && (forall w :: w in t.live <==> w in s.live && w != s.watch)
      && t.data == s.data && t.started == s.started && t.queue == s.queue
      && t.offered == s.offered && t.dropped == s.dropped && t.invokes == s.invokes
      && Shutdown(t, Aborted) == t
  {
    hide PacketSize;
    assert Shutdown(s, why).live - {0} == Shutdown(s, why).live by { assert 0 !in s.live; }
  }

  /** When the other end hangs up the connection is lost, and the watch that noticed it goes away. */
  lemma HangUp(s: State, w: nat, o: Writer)
    requires Inv(s) && w in s.live
    ensures var t := Fire(s, w, false, o);
      && !t.open && t.done && t.cur.None? && t.closedSignals == 1 && t.exit == (if s.open then Aborted else s.exit)
      && t.live == s.live - {w} && t.data == s.data && t.started == s.started && t.queue == s.queue
  {
    hide PacketSize;
    assert 0 !in s.live;
    assert s.live - {0} - {w} == s.live - {w};
  }

  /** The number of bytes that the next write call offers. */
  function Offer(s: State): nat {
    if s.cur.None? then 0
    else if s.written < FixedPart(s.cur.value) then FixedPart(s.cur.value) - s.written
    else if s.written < PacketSize(s.cur.value) then PacketSize(s.cur.value) - s.written
    else 0
  }

  lemma TransmitFails(s: State, o: Writer)
    requires InFlight(s) && s.cur.Some? && o(s.calls, Offer(s)).WriteError?
    ensures Transmit(s, o) == (s.(calls := s.calls + 1), Failed)
  {
    hide Encode, PacketSize;
    FixedPartFits(s.cur.value);
  }

  /** A write call that fails ends the connection: nothing is written, and nobody will call again. */
  lemma WriteFails(s: State, o: Writer)
    requires Control(s) && s.open && s.cur.Some? && o(s.calls, Offer(s)).WriteError?
    ensures var (t, more) := Write(s, o);
      && !more && !t.open && t.exit == Aborted && t.closedSignals == 1 && t.cur.None?
      && t.data == s.data && t.started == s.started && t.queue == s.queue && t.live == s.live
  {
    hide Encode, PacketSize, Transmit, Offer;
    TransmitFails(s, o);
    assert 0 !in s.live;
    assert s.live - {0} == s.live;
  }

  /** A watch stays exactly if the write function says that something is left to write. */
  lemma WatchStays(s: State, w: nat, o: Writer)
    requires Inv(s) && s.open && w in s.live
    ensures w in Fire(s, w, true, o).live <==> Write(s, o).1
  {
    hide Write, PacketSize;
    WriteControl(s, o);
  }
}
