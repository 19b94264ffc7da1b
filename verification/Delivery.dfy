/** Total delivery: whatever the order of turns, what the sender keeps arrives. */
module Delivery {
  import opened Channel
  import opened Sequences
  import opened Wire
  import S = SenderSpec
  import opened SenderControl
  import opened SenderLedger
  import opened SenderStream
  import opened SenderDrain
  import opened SenderEffects
  import R = ReceiverSpec
  import Batch = ReceiverBatch
  import opened Link

  /* ---------- The receiver makes progress ---------- */

  lemma PhaseProgress(r: R.State, end: nat, stream: seq<byte>, o: Reader)
    requires r.taken <= |stream| && NeverEnds(o)
    ensures var (t, p) := R.Phase(r, end, stream, o);
      && p != R.Failed
      && (r.taken < |stream| && |r.partial| < end && Yields(o, r.calls) ==> t.taken > r.taken)
  {
  }

  /** A frame that is not complete misses bytes in some phase, so the read callback takes some. */
  lemma FillProgress(r: R.State, stream: seq<byte>, o: Reader)
    requires r.taken <= |stream| && NeverEnds(o) && !Complete(r.partial)
    ensures R.Fill(r, stream, o).1 != R.Failed
    ensures r.taken < |stream| && Yields(o, r.calls) ==> R.Fill(r, stream, o).0.taken > r.taken
  {
    hide R.Phase, Get32, NeverEnds, Yields, SizeField, FixedField, Kind;
    R.PhaseShape(r, HEADER_SIZE, stream, o);
    PhaseProgress(r, HEADER_SIZE, stream, o);
    var (s1, r1) := R.Phase(r, HEADER_SIZE, stream, o);
    if r1 == R.Full {
      R.PhaseShape(s1, FixedField(s1.partial), stream, o);
      PhaseProgress(s1, FixedField(s1.partial), stream, o);
      var (s2, r2) := R.Phase(s1, FixedField(s1.partial), stream, o);
      HeaderStable(s1.partial, stream[s1.taken..s2.taken]);
      if r2 == R.Full {
        R.PhaseShape(s2, SizeField(s2.partial), stream, o);
        PhaseProgress(s2, SizeField(s2.partial), stream, o);
      }
    }
  }

  lemma CallbackProgress(r: R.State, stream: seq<byte>, o: Reader)
    requires Batch.Inv(r, stream) && r.watched && NeverEnds(o)
    ensures var t := R.Callback(r, true, stream, o);
      && t.taken >= r.taken && t.paused == r.paused && (t.open || Known(Bye) in t.frames)
      && (r.taken < |stream| && Yields(o, r.calls) ==> t.taken > r.taken)
  {
    hide R.Fill, Frames, Batch.Summarize, Decode, FrameSize, NeverEnds, Yields, R.SignalsFor;
    FillProgress(r, stream, o);
    Batch.FillShape(r, stream, o);
  }

  /* ---------- Turns of both ends ---------- */

  /** What the two main loops may do, in any order. */
  predicate Turn(e: Event) {
    match e
    case AtSender(e) => SenderTurn(e)
    case AtReceiver(e) => e == R.DoRead(true)
  }

  /** The pipe has room for `cap` bytes. It takes something when it is not full and yields something
      when it is not empty; a write to a full pipe may well take nothing, and so may a read from an
      empty one yield nothing. */
  ghost predicate Fair(y: System, k: Kernel, cap: nat)
  {
    && (|y.s.data| - y.r.taken < cap ==> Gives(k.w, y.s.calls))
    && (y.r.taken < |y.s.data| ==> Yields(k.r, y.r.calls))
  }

  /** `z` is what a series of turns makes of `y`. */
  ghost predicate Reaches(y: System, es: seq<Event>, k: Kernel, cap: nat, z: System)
    decreases |es|
  {
    if es == [] then z == y
    else
      && Turn(es[0]) && Enabled(y, es[0]) && y.r.taken <= |y.s.data| && Fair(y, k, cap)
      && Reaches(Step(y, es[0], k), es[1..], k, cap, z)
  }

  /** A queued invoke, a write with something to write and room for it, a read with something to read. */
  predicate Productive(y: System, e: Event, cap: nat) {
    match e
    case AtSender(e) => e.DoInvoke? || (y.s.cur.Some? && |y.s.data| - y.r.taken < cap)
    case AtReceiver(e) => y.r.taken < |y.s.data|
  }

  function ProductiveTurns(y: System, es: seq<Event>, k: Kernel, cap: nat): nat
    decreases |es|
  {
    if es == [] || !Enabled(y, es[0]) || y.r.taken > |y.s.data| then 0
    else (if Productive(y, es[0], cap) then 1 else 0) + ProductiveTurns(Step(y, es[0], k), es[1..], k, cap)
  }

  /** The work that is left: each byte has to be written and read, each invoke has to be run. */
  function Work(y: System): int { 2 * Remaining(y.s) + y.s.invokes + |y.s.data| - y.r.taken }

  /** Nothing has failed, and the receiver listens unless it has seen the bye. */
  ghost predicate Alive(y: System)
  {
    && Linked(y) && Stream(y.s) && y.s.exit != S.Aborted
    && y.r.paused == 0 && (y.r.open || Known(Bye) in y.r.frames)
  }

  lemma SenderTurnKeeps(y: System, e: S.Event, k: Kernel, cap: nat)
    requires Alive(y) && SenderTurn(e) && S.Enabled(y.s, e) && NeverFails(k.w) && Fair(y, k, cap)
    ensures var z := Step(y, AtSender(e), k);
      && Alive(z) && Kept(z.s) == Kept(y.s) && (z.s.done <==> y.s.done)
      && 0 <= Work(z) + (if Productive(y, AtSender(e), cap) then 1 else 0) <= Work(y)
  {
    hide S.Step, Remaining, Kept, Stream, Ledger, SenderControl.Inv, Batch.Parsed, NeverFails, Gives, Yields;
    StepKeeps(y, AtSender(e), k);
    TurnProgress(y.s, e, k.w);
    TurnKeeps(y.s, e, k.w);
    TakenBound(y);
    TakenBound(Step(y, AtSender(e), k));
  }

  lemma TakenBound(y: System)
    requires Linked(y)
    ensures y.r.taken <= |y.s.data| && Work(y) >= 0
  {
  }

  lemma ReceiverTurnKeeps(y: System, k: Kernel, cap: nat)
    requires Alive(y) && y.r.watched && NeverEnds(k.r) && Fair(y, k, cap)
    ensures var e := AtReceiver(R.DoRead(true));
      var z := Step(y, e, k);
      && Alive(z) && z.s == y.s
      && 0 <= Work(z) + (if Productive(y, e, cap) then 1 else 0) <= Work(y)
  {
    hide R.Callback, Remaining, Stream, Ledger, SenderControl.Inv, Batch.Parsed, NeverEnds, Gives, Yields;
    StepKeeps(y, AtReceiver(R.DoRead(true)), k);
    CallbackProgress(y.r, y.s.data, k.r);
    TakenBound(y);
    TakenBound(Step(y, AtReceiver(R.DoRead(true)), k));
  }

  /** Any series of turns keeps what has to be delivered and holds only so many productive ones. */
  lemma {:induction false} TurnsKeep(y: System, es: seq<Event>, k: Kernel, cap: nat, z: System)
    requires Alive(y) && NeverFails(k.w) && NeverEnds(k.r) && Reaches(y, es, k, cap, z)
    ensures Alive(z) && Kept(z.s) == Kept(y.s) && (z.s.done <==> y.s.done)
    ensures 0 <= ProductiveTurns(y, es, k, cap) + Work(z) <= Work(y)
    decreases |es|
  {
    hide Alive, Kept, Work, Productive, NeverFails, NeverEnds, Fair, S.Step, R.Step;
    if es == [] {
      AliveWork(y);
    } else {
      match es[0] {
        case AtSender(e) => SenderTurnKeeps(y, e, k, cap);
        case AtReceiver(e) => ReceiverTurnKeeps(y, k, cap);
      }
      TurnsKeep(Step(y, es[0], k), es[1..], k, cap, z);
    }
  }

  lemma AliveWork(y: System)
    requires Alive(y)
    ensures Work(y) >= 0
  {
    TakenBound(y);
  }

  /* ---------- When nothing is left to do ---------- */

  /** Everything kept has been received, and after a close both ends have closed, each once. */
  ghost predicate Arrived(y: System)
  {
    && Received(y.r.signals) == Kept(y.s)
    && (y.s.done ==> y.s.exit == S.Drained && y.s.closedSignals == 1 && !y.r.open && y.r.closedSignals == 1)
  }

  ghost predicate SomethingToDo(y: System, cap: nat)
  {
    exists e :: Turn(e) && Enabled(y, e) && Productive(y, e, cap)
  }

  /** A receiver that has parsed the encodings of some packets has received their messages. */
  lemma AllFramesReceived(r: R.State, stream: seq<byte>, ps: seq<Packet>)
    requires Batch.Inv(r, stream) && ByeOnlyLast(ps) && r.frames == KnownAll(ps)
    ensures Received(r.signals) == Messages(ps)
  {
    hide Frames, Batch.Summarize, Messages, Received;
    ReceivedFrames(r.frames);
    MessagesOfFrames(ps);
  }

  lemma LastIsBye(ps: seq<Packet>)
    requires ps != [] && Last(ps) == Bye
    ensures Known(Bye) in KnownAll(ps)
  {
    KnownSnoc(Init(ps), Bye);
    assert ps == Init(ps) + [Bye];
  }

  lemma {:induction false} KnownBye(ps: seq<Packet>)
    requires Known(Bye) in KnownAll(ps)
    ensures Bye in ps
  {
    if ps[0] != Bye { KnownBye(ps[1..]); }
  }

  /** An encoding that is cut short is not a complete frame. */
  lemma CutShort(p: Packet, w: nat)
    requires w < PacketSize(p)
    ensures !Complete(Encode(p)[..w])
  {
    hide Encode, FrameSize, PacketSize;
    var b := Encode(p);
    EncodeFrames(p);
    if w >= HEADER_SIZE {
      HeaderStable(b[..w], b[w..]);
      assert b == b[..w] + b[w..];
    }
  }

  /** No bye is parsed as long as some packet is unfinished. */
  lemma UnfinishedNoBye(s: S.State)
    requires Control(s) && Stream(s) && s.cur.Some?
    ensures Known(Bye) !in Frames(s.data).0
  {
    hide EncodeAll, Encode, Frames, Complete, PacketSize;
    var ps := Init(s.started);
    assert ByeOnlyLast(ps) && Bye !in ps by {
      assert forall i :: 0 <= i < |ps| ==> ps[i] == s.started[i];
    }
    FramesOfPackets(ps);
    if Known(Bye) in KnownAll(ps) { KnownBye(ps); }
    var x := Encode(s.cur.value)[..s.written];
    CutShort(s.cur.value, s.written);
    Batch.FramesAppend(EncodeAll(ps), x);
    Batch.FramesIncomplete(x);
    assert [] + x == x;
  }

  /** Once all packets are in the pipe and the receiver has parsed a bye or every byte, all is done. */
  lemma AllParsed(y: System)
    requires Alive(y) && y.s.cur.None?
    requires Known(Bye) in y.r.frames || y.r.taken == |y.s.data|
    ensures Arrived(y)
  {
    hide EncodeAll, Frames, Batch.Summarize, Messages, Received, Subseq;
    var s, r := y.s, y.r;
    assert s.data == EncodeAll(s.started) && s.queue == [];
    FramesOfPackets(s.started);
    assert s.data == s.data[..r.taken] + s.data[r.taken..];
    Batch.FramesMonotone(s.data[..r.taken], s.data[r.taken..]);
    assert r.taken == |s.data| ==> s.data[..r.taken] == s.data;
    AllFramesReceived(r, s.data, s.started);
    assert Kept(s) == Messages(s.started);
    if s.done { LastIsBye(s.started); }
  }

  /** A state without a productive turn is one in which everything has arrived. */
  lemma NothingLeft(y: System, cap: nat)
    requires Alive(y) && cap > 0
    ensures Arrived(y) || SomethingToDo(y, cap)
  {
    hide EncodeAll, Stream, Frames, Ledger, Arrived, PacketSize;
    var read := AtReceiver(R.DoRead(true));
    if Turn(read) && Enabled(y, read) && Productive(y, read, cap) {
      assert SomethingToDo(y, cap);
    } else if y.s.cur.None? {
      AllParsed(y);
    } else {
      if !y.r.open {
        UnfinishedNoBye(y.s);
        assert y.s.data == y.s.data[..y.r.taken] + y.s.data[y.r.taken..];
        Batch.FramesMonotone(y.s.data[..y.r.taken], y.s.data[y.r.taken..]);
        assert false;
      }
      SomeTurn(y.s);
      var e :| SenderTurn(e) && S.Enabled(y.s, e);
      assert Turn(AtSender(e)) && Enabled(y, AtSender(e)) && Productive(y, AtSender(e), cap);
    }
  }

  /** From any state of any run in which nothing has failed and the reader is not paused: any series
      of turns of the two ends, interleaved in any way over a pipe of any capacity, holds at most as
      many productive turns as there is work; and after each such series either everything that the
      sender kept has been received, in order, and both ends have closed if the sender was closed,
      or a productive turn is still to come. */
  lemma EverythingArrives(backlog: int, es: seq<Event>, k: Kernel, turns: seq<Event>, cap: nat, z: System)
    requires Run(backlog, es, k).Some? && Untorn(backlog, es, k)
    requires var y := Run(backlog, es, k).value;
      && y.s.exit != S.Aborted && y.r.paused == 0 && (y.r.open || Known(Bye) in y.r.frames)
      && Reaches(y, turns, k, cap, z)
    requires cap > 0 && NeverFails(k.w) && NeverEnds(k.r)
    ensures var y := Run(backlog, es, k).value;
      && ProductiveTurns(y, turns, k, cap) + Work(z) <= Work(y) && Work(z) >= 0
      && Kept(z.s) == Kept(y.s) && (z.s.done <==> y.s.done)
      && (Arrived(z) || SomethingToDo(z, cap))
  {
    hide Run, Untorn, Reaches, ProductiveTurns, Linked, Stream, Kept, Work, Arrived, SomethingToDo;
    hide NeverFails, NeverEnds;
    RunKeeps(backlog, es, k);
    RunStream(backlog, es, k);
    var y := Run(backlog, es, k).value;
    TurnsKeep(y, turns, k, cap, z);
    NothingLeft(z, cap);
    AliveWork(z);
  }

  /* ---------- Closing ---------- */

  /** A close on a pipe that does not fail loses nothing: everything kept is still to be delivered. */
  lemma CloseKeepsAlive(y: System, k: Kernel)
    requires Alive(y) && !y.s.done && NeverFails(k.w)
    ensures var z := Step(y, AtSender(S.DoClose), k);
      Alive(z) && z.s.done && Kept(z.s) == Kept(y.s) && z.r == y.r
  {
    hide S.Close, Kept, Stream, Ledger, Batch.Parsed, Encode, PacketSize;
    StepKeeps(y, AtSender(S.DoClose), k);
    CloseSaysBye(y.s, k.w);
    CloseAborts(y.s, k.w);
    CloseStream(y.s, k.w);
    QuietKept(y.s, S.DoClose, k.w);
  }

  /** From any run in which nothing has failed and the reader is not paused, a close and then any turns
      of the two ends: when no productive turn is left, and there are only so many, everything that
      the sender kept at its close has been received, then its bye, and both ends have closed once. */
  lemma CloseIsGraceful(backlog: int, es: seq<Event>, k: Kernel, turns: seq<Event>, cap: nat, z: System)
    requires Run(backlog, es, k).Some? && Untorn(backlog, es, k) && !Run(backlog, es, k).value.s.done
    requires Run(backlog, es, k).value.r.paused == 0 && Run(backlog, es, k).value.r.open
    requires var y := Run(backlog, es, k).value;
      y.r.taken <= |y.s.data| && Reaches(Step(y, AtSender(S.DoClose), k), turns, k, cap, z)
    requires cap > 0 && NeverFails(k.w) && NeverEnds(k.r)
    ensures var y := Run(backlog, es, k).value;
      var c := Step(y, AtSender(S.DoClose), k);
      && ProductiveTurns(c, turns, k, cap) + Work(z) <= Work(c) && Work(z) >= 0
      && (SomethingToDo(z, cap)
          || (&& Received(z.r.signals) == Kept(y.s) && Known(Bye) in z.r.frames
              && z.s.started != [] && Last(z.s.started) == Bye
              && z.s.exit == S.Drained && z.s.closedSignals == 1 && !z.r.open && z.r.closedSignals == 1))
  {
    hide Run, Untorn, Reaches, ProductiveTurns, Stream, Kept, Work, SomethingToDo, S.Close, Ledger;
    hide NeverFails, NeverEnds;
    hide Batch.Parsed, Received, PacketSize;
    RunKeeps(backlog, es, k);
    RunStream(backlog, es, k);
    var y := Run(backlog, es, k).value;
    var c := Step(y, AtSender(S.DoClose), k);
    CloseKeepsAlive(y, k);
    TurnsKeep(c, turns, k, cap, z);
    NothingLeft(z, cap);
    AliveWork(z);
  }
}
