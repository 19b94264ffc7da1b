/** The resumable receiver computes what a parser that sees the whole stream at once would compute. */
module ReceiverBatch {
  import opened Channel
  import opened Sequences
  import opened Wire
  import opened ReceiverSpec

  /* ---------- The batch parser ---------- */

  /** What is known after a sequence of frames: the signals so far, and the last index if any. */
  datatype Summary = Summary(signals: seq<Signal>, seen: bool, last: uint32)

  function Summarize(fs: seq<Frame>): Summary {
    if fs == [] then Summary([], false, 0)
    else
      var s := Summarize(Init(fs));
      if Last(fs).Known? && Last(fs).packet.Msg? then
        var m := Last(fs).packet.message;
        Summary(s.signals + SignalsFor(s.seen, s.last, m), true, m.index)
      else s
  }

  function Batch(stream: seq<byte>): seq<Signal> { Summarize(Frames(stream).0).signals }

  lemma SummarizeSnoc(fs: seq<Frame>, f: Frame)
    ensures Init(fs + [f]) == fs && Last(fs + [f]) == f
  {
  }

  /** One step of the batch parser. */
  lemma FrameHead(b: seq<byte>)
    requires Complete(b)
    ensures var n := FrameSize(b);
      && Complete(b[..n]) && FrameSize(b[..n]) == n
      && Frames(b) == if Decode(b[..n]) == Known(Bye) then ([Known(Bye)], b[n..])
                      else ([Decode(b[..n])] + Frames(b[n..]).0, Frames(b[n..]).1)
  {
    hide Decode, FixedField, SizeField, Kind;
    FramePrefix(b);
  }

  lemma FramesIncomplete(b: seq<byte>)
    requires !Complete(b)
    ensures Frames(b) == ([], b)
  {
  }

  /** Parsing can be interrupted anywhere and resumed from the bytes left over. */
  lemma {:induction false} FramesAppend(b: seq<byte>, x: seq<byte>)
    requires Known(Bye) !in Frames(b).0
    ensures var (fs, rest) := Frames(b);
      Frames(b + x) == (fs + Frames(rest + x).0, Frames(rest + x).1)
    decreases |b|
  {
    hide Decode, FixedField, SizeField, Kind, Frames, FrameSize;
    if Complete(b) {
      HeaderStable(b, x);
      var n := FrameSize(b);
      assert (b + x)[..n] == b[..n] && (b + x)[n..] == b[n..] + x;
      FrameHead(b);
      FrameHead(b + x);
      FramesAppend(b[n..], x);
      var d := Decode(b[..n]);
      var (fs, rest) := Frames(b[n..]);
      assert [d] + (fs + Frames(rest + x).0) == ([d] + fs) + Frames(rest + x).0;
    } else {
      FramesIncomplete(b);
      assert [] + Frames(b + x).0 == Frames(b + x).0;
    }
  }

  /** What has been parsed of a prefix is final. */
  lemma {:induction false} FramesMonotone(b: seq<byte>, x: seq<byte>)
    ensures Frames(b).0 <= Frames(b + x).0
    ensures Known(Bye) in Frames(b).0 ==> Frames(b + x).0 == Frames(b).0
    decreases |b|
  {
    hide Decode, FixedField, SizeField, Kind;
    if Complete(b) {
      HeaderStable(b, x);
      var n := FrameSize(b);
      assert (b + x)[..n] == b[..n] && (b + x)[n..] == b[n..] + x;
      FrameHead(b);
      FrameHead(b + x);
      FramesMonotone(b[n..], x);
    }
  }

  lemma {:induction false} SummarizeMonotone(a: seq<Frame>, b: seq<Frame>)
    requires a <= b
    ensures Summarize(a).signals <= Summarize(b).signals
  {
    if a == b {
    } else {
      SummarizeMonotone(a, Init(b));
    }
  }

  /* ---------- The invariant of the receiver ---------- */

  ghost predicate Parsed(s: State, stream: seq<byte>)
  {
    && s.taken <= |stream|
    && Frames(stream[..s.taken]).0 == s.frames
    && Summary(s.signals, s.seen, s.last) == Summarize(s.frames)
    && (s.open ==> Frames(stream[..s.taken]).1 == s.partial && Known(Bye) !in s.frames)
  }

  ghost predicate Watching(s: State)
  {
    && (s.watched <==> s.open && s.paused == 0)
    && s.closedSignals == (if s.open then 0 else 1)
    && !Complete(s.partial)
  }

  ghost predicate Inv(s: State, stream: seq<byte>) { Parsed(s, stream) && Watching(s) }

  lemma FreshInv(stream: seq<byte>)
    ensures Inv(FRESH, stream)
  {
    assert stream[..0] == [];
  }

  /** More bytes may arrive at any time. */
  lemma StreamGrows(s: State, stream: seq<byte>, more: seq<byte>)
    requires Inv(s, stream)
    ensures Inv(s, stream + more)
  {
    assert (stream + more)[..s.taken] == stream[..s.taken];
  }

  /** The three phases together: bytes move from the pipe to the current frame, never past its end. */
  lemma FillShape(s: State, stream: seq<byte>, o: Reader)
    requires s.taken <= |stream| && !Complete(s.partial)
    ensures var (t, r) := Fill(s, stream, o);
      && s.taken <= t.taken <= |stream|
      && t == s.(calls := t.calls, taken := t.taken, partial := s.partial + stream[s.taken..t.taken])
      && (r == Full ==> Complete(t.partial) && |t.partial| == FrameSize(t.partial))
      && (r != Full ==> !Complete(t.partial))
  {
    hide Get32, FixedField, SizeField, Phase, FrameSize;
    PhaseShape(s, HEADER_SIZE, stream, o);
    var (s1, r1) := Phase(s, HEADER_SIZE, stream, o);
    if r1 == Full {
      SizeIsLargest(s1.partial);
      assert |s1.partial| <= FrameSize(s1.partial);
      BodyShape(s1, stream, o);
      var t := Fill(s, stream, o).0;
      Joined(s.partial, stream, s.taken, s1.taken, t.taken);
    }
  }

  /** The second and the third phase, once the header is there. */
  lemma BodyShape(s: State, stream: seq<byte>, o: Reader)
    requires s.taken <= |stream| && HEADER_SIZE <= |s.partial| <= FrameSize(s.partial)
    requires |s.partial| < FrameSize(s.partial) || |s.partial| == HEADER_SIZE
    ensures var (s2, r2) := Phase(s, FixedField(s.partial), stream, o);
      && s.taken <= s2.taken <= |stream|
      && s2 == s.(calls := s2.calls, taken := s2.taken, partial := s.partial + stream[s.taken..s2.taken])
      && (r2 != Full ==> !Complete(s2.partial))
      && (r2 == Full ==> |s2.partial| >= HEADER_SIZE)
    ensures var (s2, r2) := Phase(s, FixedField(s.partial), stream, o);
      (r2 == Full ==> (
        var (t, r) := Phase(s2, SizeField(s2.partial), stream, o);
        && s.taken <= t.taken <= |stream|
        && t == s.(calls := t.calls, taken := t.taken, partial := s.partial + stream[s.taken..t.taken])
        && (r == Full ==> Complete(t.partial) && |t.partial| == FrameSize(t.partial))
        && (r != Full ==> !Complete(t.partial))))
  {
    hide Get32, FixedField, SizeField, Phase, FrameSize;
    SizeIsLargest(s.partial);
    PhaseShape(s, FixedField(s.partial), stream, o);
    var (s2, r2) := Phase(s, FixedField(s.partial), stream, o);
    HeaderStable(s.partial, stream[s.taken..s2.taken]);
    if r2 == Full {
      PhaseShape(s2, SizeField(s2.partial), stream, o);
      var t := Phase(s2, SizeField(s2.partial), stream, o).0;
      HeaderStable(s2.partial, stream[s2.taken..t.taken]);
      Joined(s.partial, stream, s.taken, s2.taken, t.taken);
    }
  }

  lemma Joined(p: seq<byte>, stream: seq<byte>, a: nat, b: nat, c: nat)
    requires a <= b <= c <= |stream|
    ensures p + stream[a..b] + stream[b..c] == p + stream[a..c]
  {
  }

  lemma SizeIsLargest(b: seq<byte>)
    requires |b| >= HEADER_SIZE
    ensures FrameSize(b) >= FixedField(b) >= HEADER_SIZE && FrameSize(b) >= SizeField(b)
    ensures FrameSize(b) == FixedField(b) || FrameSize(b) == SizeField(b)
  {
  }

  /* ---------- Every step keeps the invariant ---------- */

  /** Bytes of an unfinished frame change nothing but the frame. */
  lemma ParsedPartial(s: State, stream: seq<byte>, x: seq<byte>)
    requires Parsed(s, stream) && s.open && s.taken + |x| <= |stream| && x == stream[s.taken..s.taken + |x|]
    ensures var b := stream[..s.taken + |x|];
      Frames(b) == (s.frames + Frames(s.partial + x).0, Frames(s.partial + x).1)
  {
    hide Frames, Summarize;
    FramesAppend(stream[..s.taken], x);
    assert stream[..s.taken + |x|] == stream[..s.taken] + x;
  }

  lemma ReadKeeps(s: State, stream: seq<byte>, o: Reader)
    requires Inv(s, stream) && s.open
    ensures var (t, more) := Read(s, stream, o);
      && s.taken <= t.taken && t.open == s.open && t.paused == s.paused && t.watched == s.watched
      && t.closedSignals == s.closedSignals
      && (if more then Inv(t, stream) else Inv(Close(t), stream))
  {
    hide Fill, Decode, Frames, Summarize, Complete, FrameSize;
    FillShape(s, stream, o);
    var (s1, r) := Fill(s, stream, o);
    ParsedPartial(s, stream, stream[s.taken..s1.taken]);
    NothingComplete([]);
    if r == Full {
      OneFrame(s1.partial);
      DeliverKeeps(s, s1, Decode(s1.partial[..FrameSize(s1.partial)]), stream);
    } else {
      FramesIncomplete(s1.partial);
      assert s.frames + [] == s.frames;
    }
  }

  lemma NothingComplete(b: seq<byte>)
    requires b == []
    ensures !Complete(b)
  {
  }

  lemma DeliverKeeps(s: State, s1: State, f: Frame, stream: seq<byte>)
    requires Inv(s, stream) && s.open && s.taken <= s1.taken <= |stream|
    requires s1 == s.(calls := s1.calls, taken := s1.taken, partial := s1.partial)
    requires Frames(stream[..s1.taken]) == (s.frames + [f], [])
    ensures var (t, more) := Deliver(s1, f);
      if more then Inv(t, stream) else Inv(Close(t), stream)
  {
    hide Frames, Complete, SignalsFor, Summarize;
    NothingComplete([]);
    SummarizeDelivered(s, f);
    var (t, more) := Deliver(s1, f);
    assert more <==> f != Known(Bye);
    assert Known(Bye) in s.frames + [f] <==> f == Known(Bye);
  }

  /** The signals of one more frame are the ones that the receiver adds. */
  lemma SummarizeDelivered(s: State, f: Frame)
    requires Summary(s.signals, s.seen, s.last) == Summarize(s.frames)
    ensures var t := Deliver(s, f).0; Summary(t.signals, t.seen, t.last) == Summarize(s.frames + [f])
  {
    hide SignalsFor;
    SummarizeSnoc(s.frames, f);
  }

  /** A buffer that holds exactly one frame. */
  lemma OneFrame(b: seq<byte>)
    requires Complete(b) && |b| == FrameSize(b)
    ensures Complete(b[..FrameSize(b)]) && FrameSize(b[..FrameSize(b)]) == FrameSize(b)
    ensures Frames(b) == ([Decode(b[..FrameSize(b)])], [])
  {
    hide Decode, FixedField, SizeField, Kind, Frames;
    FrameHead(b);
    assert b[FrameSize(b)..] == [];
    FramesIncomplete([]);
    var d := Decode(b[..FrameSize(b)]);
    assert [d] + Frames([]).0 == [d];
  }

  lemma CloseKeeps(s: State, stream: seq<byte>)
    requires Inv(s, stream)
    ensures Inv(Close(s), stream)
  {
  }

  /** After any read, empty or not, the receiver has parsed exactly the bytes it has taken. */
  lemma StepInv(s: State, e: Event, stream: seq<byte>, o: Reader)
    requires Inv(s, stream) && Enabled(s, e)
    ensures Inv(Step(s, e, stream, o), stream) && s.taken <= Step(s, e, stream, o).taken
  {
    hide Read, Frames, Summarize, Complete;
    CloseKeeps(s, stream);
    match e
    case DoRead(ready) => if ready { ReadKeeps(s, stream, o); }
    case _ =>
  }

  /* ---------- The refinement ---------- */

  /** At any time the receiver has signalled a prefix of what the batch parser makes of the whole
      stream: all of it if every byte has been taken or a bye has been read. */
  lemma SignalsRefineBatch(s: State, stream: seq<byte>)
    requires Inv(s, stream)
    ensures s.frames <= Frames(stream).0 && s.signals <= Batch(stream)
    ensures s.taken == |stream| || Known(Bye) in s.frames ==> s.frames == Frames(stream).0 && s.signals == Batch(stream)
  {
    hide Frames, Summarize, Watching;
    Split(stream, s.taken);
    FramesMonotone(stream[..s.taken], stream[s.taken..]);
    SummarizeMonotone(s.frames, Frames(stream).0);
  }

  lemma Split(b: seq<byte>, n: nat)
    requires n <= |b|
    ensures b == b[..n] + b[n..] && (n == |b| ==> b[..n] == b)
  {
  }

  /** Two receivers that have taken the same bytes have signalled the same, however the bytes were cut. */
  lemma ChunkingIsInvisible(s: State, t: State, stream: seq<byte>)
    requires Inv(s, stream) && Inv(t, stream) && s.taken == t.taken
    ensures s.signals == t.signals && s.frames == t.frames && (s.open && t.open ==> s.partial == t.partial)
  {
  }

  /* ---------- Every run ---------- */

  /** Bytes arrive from anywhere, and the receiver is called whenever it may be. */
  datatype Input = Arrive(bytes: seq<byte>) | Happen(e: Event)

  datatype Session = Session(r: State, stream: seq<byte>)

  /** A run from an empty stream; none if some event could not happen when it was its turn. */
  function RunOn(ins: seq<Input>, o: Reader): Option<Session> {
    if ins == [] then Some(Session(FRESH, []))
    else
      match RunOn(Init(ins), o)
      case None => None
      case Some(y) =>
        match Last(ins)
        case Arrive(bytes) => Some(y.(stream := y.stream + bytes))
        case Happen(e) =>
          if Enabled(y.r, e) && y.r.taken <= |y.stream| then Some(y.(r := Step(y.r, e, y.stream, o))) else None
  }

  lemma {:induction false} RunKeeps(ins: seq<Input>, o: Reader)
    requires RunOn(ins, o).Some?
    ensures var y := RunOn(ins, o).value; Inv(y.r, y.stream)
  {
    hide Inv, Step;
    if ins == [] {
      FreshInv([]);
    } else {
      RunKeeps(Init(ins), o);
      var y := RunOn(Init(ins), o).value;
      match Last(ins)
      case Arrive(bytes) => StreamGrows(y.r, y.stream, bytes);
      case Happen(e) => StepInv(y.r, e, y.stream, o);
    }
  }

  /** For every stream, however it arrives and however it is cut into reads, with pauses at any time:
      the receiver has signalled a prefix of what the batch parser makes of all that has arrived, and
      all of it once every byte or a bye has been read. */
  lemma RunRefinesBatch(ins: seq<Input>, o: Reader)
    requires RunOn(ins, o).Some?
    ensures var y := RunOn(ins, o).value;
      && y.r.taken <= |y.stream| && y.r.signals <= Batch(y.stream)
      && (y.r.taken == |y.stream| || Known(Bye) in y.r.frames ==> y.r.signals == Batch(y.stream))
  {
    hide RunOn, Frames, Summarize, Batch;
    RunKeeps(ins, o);
    var y := RunOn(ins, o).value;
    SignalsRefineBatch(y.r, y.stream);
  }

  /** The bytes that the receiver has taken. */
  function Taken(y: Session): seq<byte> { y.stream[..Min(y.r.taken, |y.stream|)] }

  /** Two runs with different arrivals, reads and kernels that have taken the same bytes have
      signalled the same. */
  lemma RunsAgree(ins: seq<Input>, o: Reader, ins': seq<Input>, o': Reader)
    requires RunOn(ins, o).Some? && RunOn(ins', o').Some?
    requires Taken(RunOn(ins, o).value) == Taken(RunOn(ins', o').value)
    ensures RunOn(ins, o).value.r.signals == RunOn(ins', o').value.r.signals
  {
    hide RunOn, Frames, Summarize;
    RunKeeps(ins, o);
    RunKeeps(ins', o');
  }
}
