/** What each call of the receiver achieves: when it closes, how far one callback gets, what pauses do,
    and in which order its signals come. */
module ReceiverEffects {
  import opened Channel
  import opened Sequences
  import opened Wire
  import opened ReceiverSpec
  import opened ReceiverBatch

  /* ---------- Closing ---------- */

  /** The receiver has closed without delivering anything more. */
  ghost predicate Ended(s: State, t: State)
  {
    && !t.open && !t.watched && t.closedSignals == 1 && t.partial == []
    && t.signals == s.signals && t.frames == s.frames && t.taken == s.taken && t.paused == s.paused
  }

  /** The number of bytes that the next read call asks for. */
  function Want(p: seq<byte>): int {
    if |p| < HEADER_SIZE then HEADER_SIZE - |p|
    else if |p| < FixedField(p) then FixedField(p) - |p|
    else SizeField(p) - |p|
  }

  /** A read call that fails or finds the end of the stream closes the channel, once and silently;
      what was read of an unfinished frame is dropped. */
  lemma ReadFails(s: State, stream: seq<byte>, o: Reader)
    requires Inv(s, stream) && s.watched && Want(s.partial) > 0 && !o(s.calls, Want(s.partial)).Got?
    ensures Ended(s, Callback(s, true, stream, o))
  {
    hide Fill, Want, Frames, Summarize, Decode, FrameSize, SignalsFor;
    OpenFrame(s, stream);
    FillStops(s, stream, o);
  }

  lemma FillStops(s: State, stream: seq<byte>, o: Reader)
    requires s.taken <= |stream| && Want(s.partial) > 0 && !o(s.calls, Want(s.partial)).Got?
    ensures Fill(s, stream, o) == (s.(calls := s.calls + 1), Failed)
  {
    hide Get32, FixedField, SizeField;
    SizeIsLargestIf(s.partial);
  }

  /** A call is always made: some byte of the frame is missing. */
  lemma SomethingWanted(s: State, stream: seq<byte>)
    requires Inv(s, stream)
    ensures Want(s.partial) > 0
  {
    hide Get32, Frames, Summarize;
    SizeIsLargestIf(s.partial);
  }

  lemma SizeIsLargestIf(p: seq<byte>)
    ensures |p| >= HEADER_SIZE ==> FixedField(p) >= HEADER_SIZE
  {
  }

  /** So does a hang-up. */
  lemma HangUp(s: State, stream: seq<byte>, o: Reader)
    requires Inv(s, stream) && s.watched
    ensures Ended(s, Callback(s, false, stream, o))
  {
    hide Frames, Summarize;
  }

  /** Whether a call fails does not depend on the number of bytes asked for. */
  ghost predicate Blunt(o: Reader)
  {
    forall i, a, b :: o(i, a).Got? ==> o(i, b).Got?
  }

  ghost predicate SomeFailed(o: Reader, from: nat, to: nat)
  {
    exists i :: from <= i < to && !o(i, 0).Got?
  }

  lemma PhaseFails(s: State, end: nat, stream: seq<byte>, o: Reader)
    requires s.taken <= |stream| && Blunt(o)
    ensures var (t, r) := Phase(s, end, stream, o);
      && t.calls == s.calls + (if |s.partial| < end then 1 else 0)
      && (r == Failed <==> SomeFailed(o, s.calls, t.calls))
  {
    if |s.partial| < end {
      var a := o(s.calls, end - |s.partial|);
      assert a.Got? <==> o(s.calls, 0).Got?;
    }
  }

  lemma FillFails(s: State, stream: seq<byte>, o: Reader)
    requires s.taken <= |stream| && Blunt(o)
    ensures var (t, r) := Fill(s, stream, o);
      s.calls <= t.calls && (r == Failed <==> SomeFailed(o, s.calls, t.calls))
  {
    hide Phase, Get32, FixedField, SizeField, Blunt;
    PhaseShape(s, HEADER_SIZE, stream, o);
    PhaseFails(s, HEADER_SIZE, stream, o);
    var (s1, r1) := Phase(s, HEADER_SIZE, stream, o);
    if r1 == Full {
      PhaseShape(s1, FixedField(s1.partial), stream, o);
      PhaseFails(s1, FixedField(s1.partial), stream, o);
      var (s2, r2) := Phase(s1, FixedField(s1.partial), stream, o);
      if r2 == Full {
        HeaderStable(s1.partial, stream[s1.taken..s2.taken]);
        PhaseShape(s2, SizeField(s2.partial), stream, o);
        PhaseFails(s2, SizeField(s2.partial), stream, o);
      }
    }
  }

  /** A read callback closes the receiver exactly if one of its calls failed or it delivered a bye. */
  lemma ClosesExactly(s: State, stream: seq<byte>, o: Reader)
    requires Inv(s, stream) && s.watched && Blunt(o)
    ensures var t := Callback(s, true, stream, o);
      && (!t.open <==> SomeFailed(o, s.calls, t.calls) || Known(Bye) in t.frames)
      && t.closedSignals == (if t.open then 0 else 1)
  {
    hide Fill, Frames, Summarize, Decode, Get32, FixedField, SizeField, SignalsFor, Blunt, SomeFailed;
    FillFails(s, stream, o);
    FillShape(s, stream, o);
    assert Known(Bye) !in s.frames;
  }

  /* ---------- How far one callback gets ---------- */

  /** Every call gets as much as it asks for, if there is as much. */
  ghost predicate Generous(o: Reader)
  {
    forall i, len :: o(i, len).Got? && o(i, len).n >= len
  }

  lemma PhaseAll(s: State, end: nat, stream: seq<byte>, o: Reader)
    requires s.taken <= |stream| && Generous(o)
    ensures var (t, r) := Phase(s, end, stream, o);
      && r == (if |s.partial| + |stream| - s.taken >= end then Full else Waiting)
      && t.taken == if |s.partial| >= end then s.taken
                    else if r == Full then s.taken + end - |s.partial| else |stream|
  {
  }

  /** What is ahead: the bytes of the current frame that have been read, and the rest of the stream. */
  function Ahead(s: State, stream: seq<byte>): seq<byte>
    requires s.taken <= |stream|
  {
    s.partial + stream[s.taken..]
  }

  /** A phase stops at its end or at the end of the stream, and what is ahead stays the same. */
  lemma PhaseAhead(s: State, end: nat, stream: seq<byte>, o: Reader)
    requires s.taken <= |stream| && Generous(o)
    ensures var (t, r) := Phase(s, end, stream, o);
      && t.taken <= |stream| && Ahead(t, stream) == Ahead(s, stream)
      && |t.partial| >= |s.partial| && t.partial[..|s.partial|] == s.partial
      && r == (if |Ahead(s, stream)| >= end then Full else Waiting)
      && (r == Full ==> |t.partial| >= end)
      && (r == Waiting ==> t.taken == |stream|)
  {
    hide Phase, Generous;
    PhaseShape(s, end, stream, o);
    PhaseAll(s, end, stream, o);
    var t := Phase(s, end, stream, o).0;
    assert s.partial + stream[s.taken..t.taken] + stream[t.taken..] == s.partial + stream[s.taken..];
  }

  lemma CompleteIs(h: seq<byte>, b: seq<byte>)
    requires HEADER_SIZE <= |h| <= |b| && b[..|h|] == h
    ensures FixedField(b) == FixedField(h) && SizeField(b) == SizeField(h)
    ensures Complete(b) <==> |b| >= FixedField(h) && |b| >= SizeField(h)
  {
    hide Get32, FixedField, SizeField;
    HeaderStable(h, b[|h|..]);
    assert b == h + b[|h|..];
    SizeIsLargest(b);
  }

  lemma FillAll(s: State, stream: seq<byte>, o: Reader)
    requires s.taken <= |stream| && Generous(o)
    ensures var (t, r) := Fill(s, stream, o);
      && r == (if Complete(Ahead(s, stream)) then Full else Waiting)
      && (r == Waiting ==> t.taken == |stream|)
  {
    hide Phase, Get32, FixedField, SizeField, Generous, Ahead, Complete;
    var ahead := Ahead(s, stream);
    PhaseAhead(s, HEADER_SIZE, stream, o);
    var (s1, r1) := Phase(s, HEADER_SIZE, stream, o);
    if r1 == Full {
      PrefixAhead(s1, stream);
      CompleteIs(s1.partial, ahead);
      PhaseAhead(s1, FixedField(s1.partial), stream, o);
      var (s2, r2) := Phase(s1, FixedField(s1.partial), stream, o);
      if r2 == Full {
        CompleteIs(s1.partial, s2.partial);
        PhaseAhead(s2, SizeField(s2.partial), stream, o);
      }
    } else {
      ShortIsIncomplete(ahead);
    }
  }

  lemma PrefixAhead(s: State, stream: seq<byte>)
    requires s.taken <= |stream|
    ensures |s.partial| <= |Ahead(s, stream)| && Ahead(s, stream)[..|s.partial|] == s.partial
  {
  }

  lemma ShortIsIncomplete(b: seq<byte>)
    requires |b| < HEADER_SIZE
    ensures !Complete(b)
  {
  }

  function FirstFrame(b: seq<byte>): Frame
    requires Complete(b)
  {
    FramePrefix(b);
    Decode(b[..FrameSize(b)])
  }

  /** If the rest of the frame is there, one callback takes exactly this rest and delivers the frame;
      if it is not, the callback takes everything there is and delivers nothing. */
  lemma OneFramePerCallback(s: State, stream: seq<byte>, o: Reader)
    requires Inv(s, stream) && s.watched && Generous(o)
    ensures var t := Callback(s, true, stream, o);
      var ahead := Ahead(s, stream);
      if Complete(ahead) then
        && t.frames == s.frames + [FirstFrame(ahead)]
        && t.taken == s.taken + FrameSize(ahead) - |s.partial| && t.partial == []
      else t.frames == s.frames && t.signals == s.signals && t.taken == |stream| && t.partial == ahead && t.open
  {
    hide Fill, Frames, Summarize, Decode, Get32, FixedField, SizeField, SignalsFor, Generous, FrameSize, Complete;
    OpenFrame(s, stream);
    FillAll(s, stream, o);
    FillShape(s, stream, o);
    var (t, r) := Fill(s, stream, o);
    assert Ahead(s, stream) == t.partial + stream[t.taken..];
    if r == Full {
      SameFrame(t.partial, stream[t.taken..]);
    } else {
      assert t.partial + [] == t.partial;
    }
  }

  /** The size of a frame, told by its first five bytes: a 32-bit size, but never less than the fixed
      part, which is the header for pings and byes and 22 bytes for all others, also unknown ones. */
  function SizeOf(b: seq<byte>): nat
    requires |b| >= HEADER_SIZE
  {
    var size, least := (HEADER_SIZE + Value(b[..4])) % TWO_32, if b[4] == 0 || b[4] == 2 then 5 else 22;
    if size < least then least else size
  }

  lemma FrameSizes(b: seq<byte>)
    requires |b| >= HEADER_SIZE
    ensures FrameSize(b) == SizeOf(b)
  {
    ValueFour(b[..4], []);
    assert b[..4] + [] == b[..4];
  }

  /** What one complete frame does, by its type: a message is signalled; a ping and an unknown packet are
      skipped; a bye closes. In all cases exactly the bytes of the frame are taken. */
  ghost predicate Handled(s: State, b: seq<byte>, t: State)
    requires Complete(b)
  {
    var k, size := b[4], SizeOf(b);
    && size <= |b|
    && t.taken == s.taken + size - |s.partial| && t.partial == []
    && |t.frames| == |s.frames| + 1 && t.frames[..|s.frames|] == s.frames
    && (t.open <==> k != 2)
    && (k == 0 ==> Last(t.frames) == Known(Ping))
    && (k == 2 ==> Last(t.frames) == Known(Bye))
    && (k > 2 ==> Last(t.frames) == Unknown(k))
    && (if k != 1 then t.signals == s.signals && t.seen == s.seen && t.last == s.last
        else
          && t.seen && size >= 22 && t.last == Value(b[13..17])
          && s.signals < t.signals && Last(t.signals).GotMessage?
          && Last(t.signals).message.index == t.last && Last(t.signals).message.text == b[22..size])
  }

  lemma OneCallback(s: State, stream: seq<byte>, o: Reader)
    requires Inv(s, stream) && s.watched && Generous(o) && Complete(Ahead(s, stream))
    ensures Handled(s, Ahead(s, stream), Callback(s, true, stream, o))
  {
    hide Fill, Frames, Summarize, Decode, Get32, FixedField, SizeField, SignalsFor, Generous, FrameSize, Complete;
    hide Value, Kind, SizeOf;
    OpenFrame(s, stream);
    FillAll(s, stream, o);
    FillShape(s, stream, o);
    var (t, r) := Fill(s, stream, o);
    var b := Ahead(s, stream);
    assert b == t.partial + stream[t.taken..];
    SameFrame(t.partial, stream[t.taken..]);
    CompleteHasHeader(b);
    FrameSizes(b);
    DecodeByKind(b);
    LastSignal(s.seen, s.last, s.signals, FirstFrame(b));
  }

  lemma CompleteHasHeader(b: seq<byte>)
    requires Complete(b)
    ensures |b| >= FrameSize(b) >= HEADER_SIZE
  {
  }

  lemma DecodeByKind(b: seq<byte>)
    requires Complete(b)
    ensures var f, k := FirstFrame(b), b[4];
      && (k == 0 <==> f == Known(Ping)) && (k == 2 <==> f == Known(Bye)) && (k > 2 ==> f == Unknown(k))
      && (k == 1 <==> f.Known? && f.packet.Msg?)
      && (k == 1 ==> |b| >= FrameSize(b) >= 22 && f.packet.message.text == b[22..FrameSize(b)]
                     && f.packet.message.index == Value(b[13..17]))
  {
    FramePrefix(b);
    var p := b[..FrameSize(b)];
    assert p[4] == b[4];
    if b[4] == 1 {
      assert p[13..17] == b[13..17] && p[22..] == b[22..FrameSize(b)];
      ValueFour(p[13..17], []);
      assert p[13..17] + [] == p[13..17];
    }
  }

  lemma LastSignal(seen: bool, last: uint32, signals: seq<Signal>, f: Frame)
    ensures f.Known? && f.packet.Msg? ==>
      var more := signals + SignalsFor(seen, last, f.packet.message);
      signals < more && Last(more) == GotMessage(f.packet.message)
  {
  }

  lemma OpenFrame(s: State, stream: seq<byte>)
    requires Inv(s, stream)
    ensures !Complete(s.partial) && s.taken <= |stream| && (s.watched ==> s.open)
  {
  }

  lemma SameFrame(b: seq<byte>, x: seq<byte>)
    requires Complete(b) && |b| == FrameSize(b)
    ensures Complete(b + x) && FrameSize(b + x) == |b| && (b + x)[..|b|] == b && b[..|b|] == b
  {
    HeaderStable(b, x);
  }

  /* ---------- Pausing ---------- */

  /** A resume undoes a pause. */
  lemma ResumeUndoesPause(s: State, stream: seq<byte>)
    requires Inv(s, stream)
    ensures Resume(Pause(s)) == s && !Pause(s).watched && Pause(s).paused == s.paused + 1
  {
  }

  function Pauses(s: State, n: nat): State { if n == 0 then s else Pause(Pauses(s, n - 1)) }

  function Resumes(s: State, n: nat): State { if n == 0 then s else Resume(Resumes(s, n - 1)) }

  lemma {:induction false} PausesCount(s: State, n: nat)
    ensures Pauses(s, n) == s.(paused := s.paused + n, watched := n == 0 && s.watched)
  {
    if n > 0 { PausesCount(s, n - 1); }
  }

  lemma {:induction false} ResumesCount(s: State, n: nat)
    requires n <= s.paused && !s.watched && s.paused > 0
    ensures Resumes(s, n) == s.(paused := s.paused - n, watched := n == s.paused && s.open)
  {
    if n > 0 { ResumesCount(s, n - 1); }
  }

  /** It takes as many resumes as there were pauses to listen again; one more changes nothing. */
  lemma PausesNest(s: State, stream: seq<byte>, n: nat, m: nat)
    requires Inv(s, stream) && s.paused == 0 && m <= n
    ensures Resumes(Pauses(s, n), m).watched <==> s.open && m == n
    ensures Resumes(Pauses(s, n), n) == s && Resume(s) == s
  {
    hide Frames, Summarize;
    PausesCount(s, n);
    if n > 0 {
      ResumesCount(Pauses(s, n), m);
      ResumesCount(Pauses(s, n), n);
    }
  }

  /* ---------- The order of signals ---------- */

  /** A skip report stands between the two messages that it is about, and it stands there exactly if
      the second does not carry the index expected after the first. */
  ghost predicate WellReported(signals: seq<Signal>)
  {
    && (forall i :: 0 <= i < |signals| && signals[i].Skipped? ==>
          && 0 < i < |signals| - 1 && signals[i - 1].GotMessage? && signals[i + 1].GotMessage?
          && signals[i].count == SkipCount(signals[i - 1].message.index, signals[i + 1].message.index) != 0)
    && (forall i :: 0 < i < |signals| && signals[i].GotMessage? && signals[i - 1].GotMessage? ==>
          SkipCount(signals[i - 1].message.index, signals[i].message.index) == 0)
  }

  /** The last signal is the last message, if there is one. */
  ghost predicate EndsWith(s: Summary)
  {
    && (s.signals != [] <==> s.seen)
    && (s.seen ==> Last(s.signals).GotMessage? && Last(s.signals).message.index == s.last)
  }

  lemma {:induction false} SummaryReported(fs: seq<Frame>)
    ensures WellReported(Summarize(fs).signals) && EndsWith(Summarize(fs))
  {
    hide SkipCount;
    if fs != [] {
      SummaryReported(Init(fs));
      var s, f := Summarize(Init(fs)), Last(fs);
      if f.Known? && f.packet.Msg? {
        OneMoreReported(s, f.packet.message);
      }
    }
  }

  lemma OneMoreReported(s: Summary, m: Message)
    requires WellReported(s.signals) && EndsWith(s)
    ensures var t := Summary(s.signals + SignalsFor(s.seen, s.last, m), true, m.index);
      WellReported(t.signals) && EndsWith(t)
  {
    hide SkipCount, WellReported;
    var x := SkipCount(s.last, m.index);
    if s.seen && x != 0 {
      assert SignalsFor(s.seen, s.last, m) == [Skipped(x), GotMessage(m)];
      ReportAndMessage(s.signals, m);
    } else {
      assert SignalsFor(s.seen, s.last, m) == [GotMessage(m)];
      MessageOnly(s.signals, m);
    }
  }

  lemma ReportAndMessage(signals: seq<Signal>, m: Message)
    requires WellReported(signals) && signals != [] && Last(signals).GotMessage?
    requires SkipCount(Last(signals).message.index, m.index) != 0
    ensures WellReported(signals + [Skipped(SkipCount(Last(signals).message.index, m.index)), GotMessage(m)])
  {
    hide SkipCount;
    var n, x := |signals|, SkipCount(Last(signals).message.index, m.index);
    var more := signals + [Skipped(x), GotMessage(m)];
    assert more[n] == Skipped(x) && more[n + 1] == GotMessage(m) && more[n - 1] == Last(signals);
    assert forall i :: 0 <= i < n ==> more[i] == signals[i];
  }

  lemma MessageOnly(signals: seq<Signal>, m: Message)
    requires WellReported(signals)
    requires signals != [] ==> Last(signals).GotMessage? && SkipCount(Last(signals).message.index, m.index) == 0
    ensures WellReported(signals + [GotMessage(m)])
  {
    hide SkipCount;
    var more := signals + [GotMessage(m)];
    assert forall i :: 0 <= i < |signals| ==> more[i] == signals[i];
  }

  /** In every run on every stream the signals are in this order. */
  lemma SignalsInOrder(ins: seq<Input>, o: Reader)
    requires RunOn(ins, o).Some?
    ensures WellReported(RunOn(ins, o).value.r.signals)
  {
    hide RunOn, Frames, Summarize, WellReported;
    RunKeeps(ins, o);
    SummaryReported(RunOn(ins, o).value.r.frames);
    ReportedBy(RunOn(ins, o).value);
  }

  lemma ReportedBy(y: Session)
    requires Inv(y.r, y.stream)
    ensures y.r.signals == Summarize(y.r.frames).signals
  {
    hide Summarize;
  }
}
