/** The sender gets everything out: at once if the pipe takes everything, eventually if it takes something. */
module SenderDrain {
  import opened Channel
  import opened Wire
  import opened SenderSpec
  import opened SenderControl
  import opened SenderLedger
  import opened SenderStream

  function Packets(q: seq<Message>): seq<Packet> {
    if q == [] then [] else [Msg(q[0])] + Packets(q[1..])
  }

  /** All packets the sender has started or is committed to. */
  function Backlog(s: State): seq<Packet> {
    s.started + Packets(s.queue) + if s.bye then [Bye] else []
  }

  lemma TransmitAll(s: State, o: Writer)
    requires InFlight(s) && TakesEverything(o)
    ensures Transmit(s, o).1 == Sent
  {
    hide Encode, PacketSize;
  }

  lemma NextPacketBacklog(s: State)
    requires s.queue != [] || s.bye
    ensures Backlog(NextPacket(s)) == Backlog(s)
  {
    if s.queue != [] {
      assert s.started + ([Msg(s.queue[0])] + Packets(s.queue[1..]))
          == s.started + [Msg(s.queue[0])] + Packets(s.queue[1..]);
    } else {
      assert s.started + Packets([]) == s.started;
    }
  }

  /** Everything queued, and the bye if one is due, has gone out in order. */
  ghost predicate Drains(s: State, t: State)
  {
    && t.started == Backlog(s)
    && t.cur.None? && t.queue == [] && !t.bye && t.watch == 0
    && (t.open <==> !s.done)
    && (s.done && s.open ==> t.exit == Drained && t.closedSignals == 1)
  }

  lemma {:induction false} WriteDrains(s: State, o: Writer)
    requires Control(s) && s.open && s.watch == 0 && TakesEverything(o)
    ensures var t := Write(s, o).0; Drains(s, t.(watch := 0))
    decreases Pending(s), 0
  {
    hide Encode, PacketSize, Transmit, Backlog;
    TransmitShape(s, o);
    TransmitAll(s, o);
    var s1 := Transmit(s, o).0;
    assert Backlog(s1) == Backlog(s) by { SameBacklog(s, s1); }
    if s1.queue != [] || s1.bye {
      NextPacketControl(s1);
      NextPacketBacklog(s1);
      ScheduleDrains(NextPacket(s1), o);
    } else {
      EmptyBacklog(s1);
      RestControl(s1);
    }
  }

  lemma SameBacklog(s: State, t: State)
    requires s.started == t.started && s.queue == t.queue && s.bye == t.bye
    ensures Backlog(s) == Backlog(t)
  {
  }

  lemma EmptyBacklog(s: State)
    requires s.queue == [] && !s.bye
    ensures Backlog(s) == s.started
  {
  }

  /** If the pipe takes everything, one call from an unwatched state drains the queue in order,
      then the bye, then closes. The field write_watch_id may name one last idle watch. */
  lemma {:induction false} ScheduleDrains(s: State, o: Writer)
    requires Control(s) && s.open && s.watch == 0 && TakesEverything(o)
    ensures Drains(s, ScheduleWrite(s, o).(watch := 0))
    ensures s.done ==> ScheduleWrite(s, o).watch == 0
    decreases Pending(s), 1
  {
    hide Write, Backlog;
    WriteDrains(s, o);
    WriteUnwatched(s, o);
  }

  /* ---------- Progress on a slow pipe ---------- */

  function QueueBytes(q: seq<Message>): nat {
    if q == [] then 0 else PacketSize(Msg(q[0])) + QueueBytes(q[1..])
  }

  /** Bytes the sender still has to write. */
  function Remaining(s: State): nat {
    (if s.cur.Some? && s.written <= PacketSize(s.cur.value) then PacketSize(s.cur.value) - s.written else 0)
    + QueueBytes(s.queue) + if s.bye then PacketSize(Bye) else 0
  }

  lemma WriteUpToBytes(s: State, end: nat, o: Writer)
    requires s.cur.Some? && s.written < end <= PacketSize(s.cur.value) && NeverFails(o)
    ensures var (t, r) := WriteUpTo(s, end, o);
      && r != Failed && t.cur == s.cur && s.written <= t.written <= end
      && t.written - s.written == |t.data| - |s.data|
      && (Gives(o, s.calls) ==> t.written > s.written)
  {
    hide PacketSize, Encode;
  }

  lemma TransmitBytes(s: State, o: Writer)
    requires InFlight(s) && NeverFails(o)
    ensures var (t, r) := Transmit(s, o);
      && r != Failed
      && t.written - s.written == |t.data| - |s.data| >= 0
      && (s.cur.Some? && Gives(o, s.calls) ==> t.written > s.written)
  {
    hide Encode, PacketSize, FixedPart, WriteUpTo, NeverFails, Gives;
    if s.cur.Some? {
      FixedPartFits(s.cur.value);
      var p := s.cur.value;
      if s.written < FixedPart(p) { WriteUpToBytes(s, FixedPart(p), o); }
      var (s1, r) := if s.written < FixedPart(p) then WriteUpTo(s, FixedPart(p), o) else (s, Sent);
      if r == Sent && s1.written < PacketSize(p) { WriteUpToBytes(s1, PacketSize(p), o); }
    }
  }

  /** A write turns remaining bytes into bytes in the pipe, and it does turn some if the pipe has room. */
  lemma {:induction false} WriteBytes(s: State, o: Writer)
    requires Control(s) && s.open && NeverFails(o)
    ensures var t := Write(s, o).0;
      && Remaining(t) + |t.data| == Remaining(s) + |s.data| && |t.data| >= |s.data|
      && (s.cur.Some? && Gives(o, s.calls) ==> Remaining(t) < Remaining(s))
      && (t.open || t.exit == Drained) && (t.done <==> s.done)
    decreases Pending(s), 0
  {
    hide Encode, PacketSize, Transmit, NeverFails, Gives;
    TransmitShape(s, o);
    TransmitBytes(s, o);
    var (s1, r) := Transmit(s, o);
    if r == Sent && (s1.queue != [] || s1.bye) {
      NextPacketControl(s1);
      NextPacketRemaining(s1);
      ScheduleBytes(NextPacket(s1), o);
    }
  }

  lemma NextPacketRemaining(s: State)
    requires s.queue != [] || s.bye
    ensures Remaining(NextPacket(s)) == QueueBytes(s.queue) + if s.bye then PacketSize(Bye) else 0
  {
    hide PacketSize;
  }

  lemma {:induction false} ScheduleBytes(s: State, o: Writer)
    requires Control(s) && NeverFails(o)
    ensures var t := ScheduleWrite(s, o);
      && Remaining(t) + |t.data| == Remaining(s) + |s.data| && |t.data| >= |s.data|
      && (t.open || t == s || t.exit == Drained) && (t.done <==> s.done)
    decreases Pending(s), 1
  {
    hide Write, PacketSize, QueueBytes, NeverFails;
    if s.open && s.watch == 0 {
      WriteBytes(s, o);
    }
  }

  /** What the main loop may do for a sender: run a queued invoke or a watch that finds room. */
  predicate SenderTurn(e: Event) { e.DoInvoke? || (e.DoFire? && e.out) }

  /** An unfinished packet has a turn to come. */
  lemma SomeTurn(s: State)
    requires Inv(s) && s.cur.Some?
    ensures exists e :: SenderTurn(e) && Enabled(s, e)
  {
    if s.invokes > 0 {
      assert SenderTurn(DoInvoke) && Enabled(s, DoInvoke);
    } else {
      var w :| w in s.live;
      assert SenderTurn(DoFire(w, true)) && Enabled(s, DoFire(w, true));
    }
  }

  /** A queued invoke is used up in any case; a watch is of use if there is something to write and
      the pipe has room for some of it. */
  ghost predicate Useful(s: State, e: Event, o: Writer)
  {
    e.DoInvoke? || (s.cur.Some? && Gives(o, s.calls))
  }

  /** Whichever turn comes next, and whatever the pipe takes: no byte is lost, and a useful turn
      leaves less to do. */
  lemma TurnProgress(s: State, e: Event, o: Writer)
    requires Inv(s) && SenderTurn(e) && Enabled(s, e) && NeverFails(o) && s.exit != Aborted
    ensures var t := Step(s, e, o);
      && Inv(t) && Quiet(e) && t.exit != Aborted && (t.done <==> s.done)
      && Remaining(t) + |t.data| == Remaining(s) + |s.data|
      && Remaining(t) <= Remaining(s) && t.invokes <= s.invokes
      && (Useful(s, e, o) ==> Remaining(t) + t.invokes < Remaining(s) + s.invokes)
  {
    hide Write, ScheduleWrite, PacketSize, QueueBytes, Remaining, NeverFails, Gives;
    StepInv(s, e, o);
    match e
    case DoInvoke =>
      var s1 := s.(invokes := s.invokes - 1);
      SameRemaining(s, s1);
      ScheduleKept(s1, o);
      ScheduleBytes(s1, o);
    case DoFire(w, out) =>
      WriteKept(s, o);
      WriteBytes(s, o);
      SameRemaining(Write(s, o).0, Step(s, e, o));
  }

  lemma SameRemaining(s: State, t: State)
    requires s.cur == t.cur && s.written == t.written && s.queue == t.queue && s.bye == t.bye
    ensures Remaining(s) == Remaining(t)
  {
  }

  /** `t` is what a series of turns makes of `s`. */
  ghost predicate Serves(s: State, es: seq<Event>, o: Writer, t: State)
    decreases |es|
  {
    if es == [] then t == s
    else SenderTurn(es[0]) && Enabled(s, es[0]) && Serves(Step(s, es[0], o), es[1..], o, t)
  }

  /** How many of these turns are of use. */
  ghost function UsefulTurns(s: State, es: seq<Event>, o: Writer): nat
    decreases |es|
  {
    if es == [] || !Enabled(s, es[0]) then 0
    else (if Useful(s, es[0], o) then 1 else 0) + UsefulTurns(Step(s, es[0], o), es[1..], o)
  }

  /** Any series of turns, in any order and on any pipe that does not fail, holds only so many useful
      ones as there is work. It drops and reorders nothing; when no packet is unfinished any more,
      everything kept has been written in order, and a closed sender has said its bye. */
  lemma {:induction false} EventuallyDelivered(s: State, es: seq<Event>, o: Writer, t: State)
    requires Inv(s) && Stream(s) && s.exit != Aborted && NeverFails(o) && Serves(s, es, o, t)
    ensures UsefulTurns(s, es, o) + Remaining(t) + t.invokes <= Remaining(s) + s.invokes
    ensures Inv(t) && Stream(t) && Kept(t) == Kept(s) && t.dropped == s.dropped && (t.done <==> s.done)
    ensures t.cur.None? ==>
      && t.data == EncodeAll(t.started) && t.queue == [] && Messages(t.started) == Kept(s)
      && (s.done ==> t.exit == Drained)
    decreases |es|
  {
    hide Step, Remaining, EncodeAll, PacketSize, Messages, Useful, SenderTurn, NeverFails;
    if es == [] {
      if t.cur.None? { assert t.queue == [] && Kept(t) == Messages(t.started); }
    } else {
      var u := Step(s, es[0], o);
      TurnProgress(s, es[0], o);
      TurnKeeps(s, es[0], o);
      EventuallyDelivered(u, es[1..], o, t);
    }
  }

  lemma TurnKeeps(s: State, e: Event, o: Writer)
    requires Inv(s) && Stream(s) && SenderTurn(e) && Enabled(s, e)
    ensures var t := Step(s, e, o); Stream(t) && Kept(t) == Kept(s) && t.offered == s.offered && t.dropped == s.dropped
  {
    hide Step, Stream, Kept;
    StepStream(s, e, o);
    QuietKept(s, e, o);
  }
}
