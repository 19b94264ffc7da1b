/** The receiver as a state machine: what each call of client/src/dbuslog_receiver.c does to its fields. */
module ReceiverSpec {
  import opened Channel
  import opened Wire

  /** What the receiver tells its listeners. */
  datatype Signal = GotMessage(message: Message) | Skipped(count: uint32)

  datatype State = State(
    open: bool,
    partial: seq<byte>,       // the bytes read of the current frame
    seen: bool,               // some message has been received
    last: uint32,             // index of the last one
    paused: nat,
    watched: bool,            // the read watch exists
    taken: nat,               // bytes taken from the pipe
    calls: nat,               // number of read calls made
    // history
    frames: seq<Frame>,
    signals: seq<Signal>,
    closedSignals: nat)

  const FRESH := State(true, [], false, 0, 0, true, 0, 0, [], [], 0)

  /* ---------- Signals ---------- */

  /** The number of lost messages the receiver reports between indices, in its 32-bit arithmetic. */
  function SkipCount(last: uint32, index: uint32): uint32 {
    var expected := (last + 1) % TWO_32;
    if index > expected then index - expected else expected - index
  }

  function SignalsFor(seen: bool, last: uint32, m: Message): seq<Signal> {
    (if seen && SkipCount(last, m.index) != 0 then [Skipped(SkipCount(last, m.index))] else []) + [GotMessage(m)]
  }

  /** A complete frame is delivered; the result says whether to go on reading. */
  function Deliver(s: State, f: Frame): (State, bool) {
    var s1 := s.(partial := [], frames := s.frames + [f]);
    if f.Known? && f.packet.Msg? then
      var m := f.packet.message;
      (s1.(seen := true, last := m.index, signals := s.signals + SignalsFor(s.seen, s.last, m)), true)
    else (s1, f != Known(Bye))
  }

  /* ---------- Reading ---------- */

  datatype Progress = Failed | Waiting | Full

  /** One read call that asks for the bytes missing up to `end`. */
  function ReadUpTo(s: State, end: nat, stream: seq<byte>, o: Reader): (State, Progress)
    requires |s.partial| < end && s.taken <= |stream|
  {
    var want := end - |s.partial|;
    match o(s.calls, want)
    case Got(n) =>
      var k := Min(Min(n, want), |stream| - s.taken);
      var s1 := s.(calls := s.calls + 1, taken := s.taken + k, partial := s.partial + stream[s.taken..s.taken + k]);
      (s1, if |s1.partial| < end then Waiting else Full)
    case _ => (s.(calls := s.calls + 1), Failed)
  }

  /** A read phase: nothing to do if these bytes are already there. */
  function Phase(s: State, end: nat, stream: seq<byte>, o: Reader): (State, Progress)
    requires s.taken <= |stream|
  {
    if |s.partial| < end then ReadUpTo(s, end, stream, o) else (s, Full)
  }

  lemma PhaseShape(s: State, end: nat, stream: seq<byte>, o: Reader)
    requires s.taken <= |stream|
    ensures var (t, r) := Phase(s, end, stream, o);
      && s.taken <= t.taken <= |stream|
      && t == s.(calls := t.calls, taken := t.taken, partial := s.partial + stream[s.taken..t.taken])
      && (|s.partial| >= end ==> t == s && r == Full)
      && (|s.partial| < end ==> |t.partial| <= end)
      && (r == Full <==> |t.partial| >= end)
      && (r == Failed ==> t.partial == s.partial)
  {
    assert s.partial + stream[s.taken..s.taken] == s.partial;
  }

  /** Header, fixed part, rest: whichever of them are still missing. */
  function Fill(s: State, stream: seq<byte>, o: Reader): (r: (State, Progress))
    requires s.taken <= |stream|
    ensures r.1 == Full ==> Complete(r.0.partial)
  {
    var (s1, r1) := Phase(s, HEADER_SIZE, stream, o);
    PhaseShape(s, HEADER_SIZE, stream, o);
    if r1 != Full then (s1, r1)
    else
      var (s2, r2) := Phase(s1, FixedField(s1.partial), stream, o);
      PhaseShape(s1, FixedField(s1.partial), stream, o);
      HeaderStable(s1.partial, stream[s1.taken..s2.taken]);
      if r2 != Full then (s2, r2)
      else
        PhaseShape(s2, SizeField(s2.partial), stream, o);
        var s3 := Phase(s2, SizeField(s2.partial), stream, o).0;
        HeaderStable(s2.partial, stream[s2.taken..s3.taken]);
        Phase(s2, SizeField(s2.partial), stream, o)
  }

  /** One run of the read function. False means that the receiver is done. */
  function Read(s: State, stream: seq<byte>, o: Reader): (State, bool)
    requires s.taken <= |stream|
  {
    var (s1, r) := Fill(s, stream, o);
    match r
    case Failed => (s1, false)
    case Waiting => (s1, true)
    case Full =>
      var n := FrameSize(s1.partial);
      FramePrefix(s1.partial);
      Deliver(s1, Decode(s1.partial[..n]))
  }

  lemma FramePrefix(b: seq<byte>)
    requires Complete(b)
    ensures Complete(b[..FrameSize(b)]) && FrameSize(b[..FrameSize(b)]) == FrameSize(b)
  {
    HeaderStable(b[..FrameSize(b)], b[FrameSize(b)..]);
    assert b == b[..FrameSize(b)] + b[FrameSize(b)..];
  }

  function Close(s: State): State {
    s.(partial := [], watched := false, open := false,
       closedSignals := s.closedSignals + if s.open then 1 else 0)
  }

  /** The main loop runs the read watch; `ready` says that there may be something to read. */
  function Callback(s: State, ready: bool, stream: seq<byte>, o: Reader): State
    requires s.taken <= |stream|
  {
    if ready then
      var (s1, more) := Read(s, stream, o);
      if more then s1 else Close(s1)
    else Close(s)
  }

  function Pause(s: State): State { s.(paused := s.paused + 1, watched := false) }

  function Resume(s: State): State {
    if s.paused > 0 then
      var s1 := s.(paused := s.paused - 1);
      if s1.paused == 0 && s.open then s1.(watched := true) else s1
    else s
  }

  datatype Event = DoRead(ready: bool) | DoPause | DoResume | DoClose

  predicate Enabled(s: State, e: Event) {
    e.DoRead? ==> s.watched
  }

  function Step(s: State, e: Event, stream: seq<byte>, o: Reader): State
    requires s.taken <= |stream|
  {
    match e
    case DoRead(ready) => Callback(s, ready, stream, o)
    case DoPause => Pause(s)
    case DoResume => Resume(s)
    case DoClose => Close(s)
  }
}
