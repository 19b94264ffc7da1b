/** The skip counter: what the receiver reports as lost is exactly what was lost. */
module Gaps {
  import opened Channel
  import opened Sequences
  import opened Wire
  import S = SenderSpec
  import opened SenderControl
  import opened SenderLedger
  import opened SenderStream
  import R = ReceiverSpec
  import Batch = ReceiverBatch
  import opened Link

  /** Sum of all skip reports. */
  function Skips(signals: seq<R.Signal>): nat {
    if signals == [] then 0
    else Skips(Init(signals)) + if Last(signals).Skipped? then Last(signals).count else 0
  }

  lemma SkipsSnoc(signals: seq<R.Signal>, x: R.Signal)
    ensures Skips(signals + [x]) == Skips(signals) + if x.Skipped? then x.count else 0
  {
    assert Init(signals + [x]) == signals;
  }

  /* ---------- Numbering ---------- */

  /** Each index is the successor of the one before, in 32-bit arithmetic, as the core numbers messages. */
  ghost predicate Chain(ms: seq<Message>)
  {
    forall i :: 0 < i < |ms| ==> ms[i].index == (ms[i - 1].index + 1) % TWO_32
  }

  /** Numbered one after the other without a wrap. */
  ghost predicate Consecutive(ms: seq<Message>)
  {
    forall i :: 0 <= i < |ms| ==> ms[i].index == ms[0].index + i
  }

  /** How far an index is behind `base`, counting up with wrap-around. */
  function From(base: uint32, index: uint32): nat { (index - base) % TWO_32 }

  function Base(ms: seq<Message>): uint32 { if ms == [] then 0 else ms[0].index }

  /** The indices go up from `base` and do not come round to it. */
  ghost predicate Ascending(base: uint32, ms: seq<Message>)
  {
    forall i, j :: 0 <= i < j < |ms| ==> From(base, ms[i].index) < From(base, ms[j].index)
  }

  /** Fewer than 2^32 successors do not come round. */
  lemma {:induction false} ChainAscends(ms: seq<Message>)
    requires Chain(ms) && |ms| <= TWO_32
    ensures forall i :: 0 <= i < |ms| ==> From(Base(ms), ms[i].index) == i
    ensures Ascending(Base(ms), ms)
  {
    if |ms| > 1 {
      var a := Init(ms);
      assert Chain(a) by { assert forall i :: 0 <= i < |a| ==> a[i] == ms[i]; }
      ChainAscends(a);
      assert From(Base(ms), ms[|a| - 1].index) == |a| - 1 by { assert a[|a| - 1] == ms[|a| - 1]; }
      OneFurther(Base(ms), ms[|a| - 1].index);
      forall i | 0 <= i < |ms|
        ensures From(Base(ms), ms[i].index) == i
      {
        if i < |a| { assert ms[i] == a[i]; }
      }
    }
  }

  lemma OneFurther(base: uint32, index: uint32)
    requires From(base, index) < TWO_32 - 1
    ensures From(base, (index + 1) % TWO_32) == From(base, index) + 1
  {
    assert From(base, index) == if index >= base then index - base else index - base + TWO_32;
  }

  lemma {:induction false} SubseqAscending(base: uint32, a: seq<Message>, b: seq<Message>)
    requires Subseq(a, b) && Ascending(base, b)
    ensures Ascending(base, a)
    ensures a != [] ==> b != [] && From(base, Last(a).index) <= From(base, Last(b).index)
  {
    hide From;
    if a != [] {
      assert Ascending(base, Init(b));
      if Last(a) == Last(b) && Subseq(Init(a), Init(b)) {
        SubseqAscending(base, Init(a), Init(b));
        AscendingSnoc(base, Init(a), Last(a));
        assert a == Init(a) + [Last(a)];
      } else {
        SubseqAscending(base, a, Init(b));
      }
    }
  }

  lemma AscendingSnoc(base: uint32, a: seq<Message>, m: Message)
    requires Ascending(base, a) && (a != [] ==> From(base, Last(a).index) < From(base, m.index))
    ensures Ascending(base, a + [m])
  {
    hide From;
  }

  /* ---------- The skip formula ---------- */

  /** How many indices lie between two received ones. */
  function Missing(last: uint32, index: uint32): nat { (index - last - 1) % TWO_32 }

  /** The index did not fall behind the expected one, or did by half the index space. */
  predicate RightSkip(last: uint32, index: uint32) {
    var expected := (last + 1) % TWO_32;
    index >= expected || expected - index == TWO_32 / 2
  }

  /** The skip formula in its 32-bit arithmetic: exactly when it is the number of missing indices. */
  lemma SkipExact(last: uint32, index: uint32)
    ensures R.SkipCount(last, index) == Missing(last, index) <==> RightSkip(last, index)
  {
    var expected := (last + 1) % TWO_32;
    assert Missing(last, index) == if index >= expected then index - expected else index - expected + TWO_32;
  }

  /** Where it goes wrong: two messages are lost across the wrap of the index. */
  lemma SkipWrapExample()
    ensures R.SkipCount(0xFFFF_FFFE, 1) == 0xFFFF_FFFE && Missing(0xFFFF_FFFE, 1) == 2
  {
  }

  /** By how much all skip reports together exceed the numbers of missing indices. */
  function Miscount(ms: seq<Message>): int {
    if |ms| < 2 then 0
    else
      var last, index := Last(Init(ms)).index, Last(ms).index;
      Miscount(Init(ms)) + R.SkipCount(last, index) - Missing(last, index)
  }

  /** Every report is right. */
  ghost predicate AllRight(ms: seq<Message>)
  {
    forall i :: 0 < i < |ms| ==> RightSkip(ms[i - 1].index, ms[i].index)
  }

  /** The indices wrap at most once, so the reports add up exactly if each of them is right; before
      the wrap they are. */
  lemma {:induction false} MiscountExact(base: uint32, ms: seq<Message>)
    requires Ascending(base, ms)
    ensures Miscount(ms) == 0 <==> AllRight(ms)
    ensures ms != [] && Last(ms).index >= base ==> Miscount(ms) == 0
  {
    hide From, R.SkipCount, Missing, RightSkip;
    if |ms| > 1 {
      var a, m := Init(ms), Last(ms);
      assert Ascending(base, a);
      assert forall i :: 0 <= i < |a| ==> a[i] == ms[i];
      MiscountExact(base, a);
      SkipExact(Last(a).index, m.index);
      NoWrapIsRight(base, Last(a).index, m.index);
      assert AllRight(ms) <==> AllRight(a) && RightSkip(Last(a).index, m.index);
    }
  }

  lemma NoWrapIsRight(base: uint32, last: uint32, index: uint32)
    requires From(base, last) < From(base, index)
    ensures index >= base ==> last >= base
    ensures (index >= base <==> last >= base) ==> RightSkip(last, index)
  {
    assert From(base, last) == if last >= base then last - base else last - base + TWO_32;
    assert From(base, index) == if index >= base then index - base else index - base + TWO_32;
  }

  /* ---------- Accounting ---------- */

  /** Received plus skipped is the span of the indices received, but for wrong reports. */
  ghost predicate Span(s: Batch.Summary, base: uint32, ms: seq<Message>)
  {
    && (ms == [] <==> !s.seen)
    && (ms == [] ==> Skips(s.signals) == 0)
    && (ms != [] ==>
          && s.last == Last(ms).index
          && |ms| + Skips(s.signals) == From(base, Last(ms).index) - From(base, ms[0].index) + 1 + Miscount(ms))
  }

  lemma {:induction false} SpanOfFrames(base: uint32, fs: seq<Frame>)
    requires Ascending(base, FrameMessages(fs))
    ensures Span(Batch.Summarize(fs), base, FrameMessages(fs))
  {
    hide Span, Ascending, From, R.SignalsFor;
    if fs == [] {
      EmptySpan(base);
    } else {
      var ms, f := FrameMessages(Init(fs)), Last(fs);
      if f.Known? && f.packet.Msg? {
        AscendingInit(base, ms, f.packet.message);
        SpanOfFrames(base, Init(fs));
        SpanStep(Batch.Summarize(Init(fs)), base, ms, f.packet.message);
      } else {
        assert ms == FrameMessages(fs);
        SpanOfFrames(base, Init(fs));
      }
    }
  }

  lemma EmptySpan(base: uint32)
    ensures Span(Batch.Summary([], false, 0), base, [])
  {
  }

  lemma AscendingInit(base: uint32, ms: seq<Message>, m: Message)
    requires Ascending(base, ms + [m])
    ensures Ascending(base, ms) && (ms != [] ==> From(base, Last(ms).index) < From(base, m.index))
  {
    hide From;
    assert forall i :: 0 <= i < |ms| ==> ms[i] == (ms + [m])[i];
    assert (ms + [m])[|ms|] == m;
  }

  lemma MissingBetween(base: uint32, last: uint32, index: uint32)
    requires From(base, last) < From(base, index)
    ensures Missing(last, index) == From(base, index) - From(base, last) - 1
  {
    assert From(base, last) == if last >= base then last - base else last - base + TWO_32;
    assert From(base, index) == if index >= base then index - base else index - base + TWO_32;
  }

  lemma SpanStep(s: Batch.Summary, base: uint32, ms: seq<Message>, m: Message)
    requires Span(s, base, ms) && Ascending(base, ms + [m])
    ensures Span(Batch.Summary(s.signals + R.SignalsFor(s.seen, s.last, m), true, m.index), base, ms + [m])
  {
    hide Skips, From, Missing, R.SkipCount, Miscount;
    var x := R.SkipCount(s.last, m.index);
    AscendingInit(base, ms, m);
    MiscountSnoc(ms, m);
    if s.seen { MissingBetween(base, s.last, m.index); }
    if s.seen && x != 0 {
      SkipsSnoc(s.signals, R.Skipped(x));
      SkipsSnoc(s.signals + [R.Skipped(x)], R.GotMessage(m));
      assert s.signals + ([R.Skipped(x)] + [R.GotMessage(m)]) == s.signals + [R.Skipped(x)] + [R.GotMessage(m)];
    } else {
      SkipsSnoc(s.signals, R.GotMessage(m));
      assert s.signals + ([] + [R.GotMessage(m)]) == s.signals + [R.GotMessage(m)];
    }
  }

  lemma MiscountSnoc(ms: seq<Message>, m: Message)
    ensures Miscount(ms + [m]) ==
            if ms == [] then 0
            else Miscount(ms) + R.SkipCount(Last(ms).index, m.index) - Missing(Last(ms).index, m.index)
  {
    hide R.SkipCount, Missing;
    assert Init(ms + [m]) == ms;
  }

  /** At any moment of any run over at most 2^32 messages numbered by the core: received plus skipped
      is the span from the first to the last index received, but for wrong reports, and there is none
      exactly if every gap meets the condition of the formula. */
  lemma SpanAccountingWrapped(backlog: int, es: seq<Event>, k: Kernel)
    requires Run(backlog, es, k).Some? && Harmless(backlog, es, k)
    requires var offered := Run(backlog, es, k).value.s.offered; Chain(offered) && |offered| <= TWO_32
    ensures var y := Run(backlog, es, k).value;
      var ms, base := Received(y.r.signals), Base(y.s.offered);
      && Ascending(base, ms) && Subseq(ms, y.s.offered)
      && (if ms == [] then Skips(y.r.signals) == 0
          else
            && |ms| + Skips(y.r.signals) == From(base, Last(ms).index) - From(base, ms[0].index) + 1 + Miscount(ms)
            && From(base, Last(ms).index) < |y.s.offered|)
      && (Miscount(ms) == 0 <==> AllRight(ms))
  {
    hide Run, Harmless, Linked, Skips, Received, Subseq, FrameMessages, From, Miscount, AllRight;
    var y := Run(backlog, es, k).value;
    RunKeeps(backlog, es, k);
    EndToEnd(backlog, es, k);
    var ms, all, base := Received(y.r.signals), Messages(y.s.started), Base(y.s.offered);
    SubseqPrefix(all, |ms|);
    assert ms == all[..|ms|];
    SubseqTrans(ms, all, y.s.offered);
    ChainAscends(y.s.offered);
    SubseqAscending(base, ms, y.s.offered);
    SummaryOf(y);
    ReceivedFrames(y.r.frames);
    SpanOfFrames(base, y.r.frames);
    MiscountExact(base, ms);
  }

  lemma {:induction false} ConsecutiveIsChain(ms: seq<Message>)
    requires Consecutive(ms)
    ensures Chain(ms) && |ms| <= TWO_32
  {
    if ms != [] { assert ms[|ms| - 1].index == ms[0].index + |ms| - 1; }
  }

  /** Without a wrap an index is as far behind the first one as the numbers say. */
  lemma FromPlain(offered: seq<Message>, index: uint32)
    requires Consecutive(offered) && From(Base(offered), index) < |offered|
    ensures index == Base(offered) + From(Base(offered), index)
  {
    assert offered[|offered| - 1].index == offered[0].index + |offered| - 1;
  }

  /** If the numbers do not wrap every report is right, and received plus skipped is the span from the
      first to the last index received. */
  lemma SpanAccounting(backlog: int, es: seq<Event>, k: Kernel)
    requires Run(backlog, es, k).Some? && Harmless(backlog, es, k)
    requires Consecutive(Run(backlog, es, k).value.s.offered)
    ensures var y := Run(backlog, es, k).value;
      var ms := Received(y.r.signals);
      && AllRight(ms)
      && (if ms == [] then Skips(y.r.signals) == 0
          else |ms| + Skips(y.r.signals) == Last(ms).index - ms[0].index + 1)
  {
    hide Run, Harmless, Skips, Received, Subseq, From, Miscount, AllRight, Consecutive, Chain;
    var y := Run(backlog, es, k).value;
    var ms := Received(y.r.signals);
    ConsecutiveIsChain(y.s.offered);
    SpanAccountingWrapped(backlog, es, k);
    MiscountExact(Base(y.s.offered), ms);
    if ms != [] {
      FromPlain(y.s.offered, Last(ms).index);
      FromPlain(y.s.offered, ms[0].index);
    } else {
      NothingWrong(ms);
    }
  }

  lemma NothingWrong(ms: seq<Message>)
    requires ms == []
    ensures AllRight(ms) && Miscount(ms) == 0
  {
  }

  lemma SummaryOf(y: System)
    requires Linked(y)
    ensures Batch.Summarize(y.r.frames).signals == y.r.signals
  {
    hide Batch.Summarize;
  }

  /** No event of the run changes the backlog. */
  ghost predicate FixedBacklog(es: seq<Event>)
  {
    forall i :: 0 <= i < |es| ==> !(es[i].AtSender? && es[i].s.DoSetBacklog?)
  }

  /** With a fixed backlog the queue never exceeds it and both ends of the offer are kept. */
  lemma {:induction false} RunFixedLimit(backlog: int, es: seq<Event>, k: Kernel)
    requires Run(backlog, es, k).Some? && FixedBacklog(es)
    ensures var s := Run(backlog, es, k).value.s;
      Bounded(s) && KeepsEnds(s) && s.limit == S.NormalizeBacklog(backlog)
  {
    hide S.Step, R.Step, Ledger, SenderControl.Inv, Batch.Inv, KeepsEnds, Bounded;
    if es == [] {
      NormalizedBounded(backlog);
    } else {
      assert FixedBacklog(Init(es)) by { assert forall i :: 0 <= i < |es| - 1 ==> Init(es)[i] == es[i]; }
      RunFixedLimit(backlog, Init(es), k);
      RunKeeps(backlog, Init(es), k);
      if Last(es).AtSender? {
        StepFixedLimit(Run(backlog, Init(es), k).value.s, Last(es).s, k.w);
      }
    }
  }

  /* ---------- The newest message ---------- */

  /** When the newest message is lost: if the limit is one and one message already waits. Otherwise
      it is kept, as the last one. */
  lemma NewestDropped(s: S.State, m: Message)
    requires SenderControl.Inv(s) && Bounded(s) && !s.done
    ensures var t := S.Send(s, m);
      if s.limit == 1 && s.queue != [] then Kept(t) == Kept(s) && t.dropped == s.dropped + [m]
      else Kept(t) != [] && Last(Kept(t)) == m
  {
    hide S.Enqueue, Messages, PacketSize;
    if s.cur.None? {
      MessagesSnoc(s.started, Msg(m));
    } else {
      EnqueueEffect(s.(offered := s.offered + [m]), m);
    }
  }

  /** The last message that the sender accepted found a limit of one and a message waiting already. */
  ghost predicate NewestLost(backlog: int, es: seq<Event>, k: Kernel)
    requires Run(backlog, es, k).Some?
  {
    if es == [] then false
    else
      var s, e := Run(backlog, Init(es), k).value.s, Last(es);
      if e.AtSender? && e.s.DoSend? && !s.done then s.limit == 1 && s.queue != []
      else NewestLost(backlog, Init(es), k)
  }

  /** What `NewestLost` means for the accounts. */
  ghost predicate NewestIs(lost: bool, kept: seq<Message>, offered: seq<Message>)
  {
    if lost then offered != [] && Subseq(kept, Init(offered))
    else offered != [] ==> kept != [] && Last(kept) == Last(offered)
  }

  lemma SendNewest(s: S.State, m: Message)
    requires SenderControl.Inv(s) && Ledger(s) && Bounded(s) && !s.done
    ensures NewestIs(s.limit == 1 && s.queue != [], Kept(S.Send(s, m)), S.Send(s, m).offered)
  {
    hide S.Enqueue, Kept, Subseq;
    NewestDropped(s, m);
    EnqueueEffect(s.(offered := s.offered + [m]), m);
    assert Init(s.offered + [m]) == s.offered;
  }

  lemma {:induction false} RunNewest(backlog: int, es: seq<Event>, k: Kernel)
    requires Run(backlog, es, k).Some? && FixedBacklog(es)
    ensures var s := Run(backlog, es, k).value.s; NewestIs(NewestLost(backlog, es, k), Kept(s), s.offered)
  {
    hide S.Step, R.Step, Ledger, SenderControl.Inv, Batch.Inv, Bounded, KeepsEnds, NewestIs, Kept;
    if es == [] {
      FreshNewest(backlog);
    } else {
      assert FixedBacklog(Init(es)) by { assert forall i :: 0 <= i < |es| - 1 ==> Init(es)[i] == es[i]; }
      RunNewest(backlog, Init(es), k);
      RunKeeps(backlog, Init(es), k);
      RunFixedLimit(backlog, Init(es), k);
      var s, e := Run(backlog, Init(es), k).value.s, Last(es);
      if e.AtSender? {
        if e.s.DoSend? {
          SendIs(s, e.s.m, k.w);
          if !s.done { SendNewest(s, e.s.m); }
        } else {
          QuietKept(s, e.s, k.w);
        }
      }
    }
  }

  lemma SendIs(s: S.State, m: Message, o: Writer)
    ensures S.Step(s, S.DoSend(m), o) == S.Send(s, m) && (s.done ==> S.Send(s, m) == s)
  {
  }

  lemma FreshNewest(backlog: int)
    ensures NewestIs(false, Kept(S.Fresh(backlog)), [])
  {
  }

  /** Among ascending numbers a lost newest message shows. */
  lemma NewestShows(base: uint32, lost: bool, kept: seq<Message>, offered: seq<Message>)
    requires NewestIs(lost, kept, offered) && Ascending(base, offered) && kept != [] && offered != []
    ensures lost <==> From(base, Last(kept).index) < From(base, Last(offered).index)
    ensures !lost ==> Last(kept).index == Last(offered).index
  {
    hide Subseq, From;
    if lost {
      var a := Init(offered);
      assert Ascending(base, a);
      SubseqAscending(base, kept, a);
    }
  }

  /** With a backlog of one the third message of a burst disappears without a trace. */
  lemma BacklogOneExample(m0: Message, m1: Message, m2: Message)
    ensures var s := S.Send(S.Send(S.Send(S.Fresh(1), m0), m1), m2);
      Kept(s) == [m0, m1] && s.dropped == [m2] && s.offered == [m0, m1, m2]
  {
    MessagesSnoc([], Msg(m0));
  }

  /* ---------- After a graceful close ---------- */

  /** Everything the sender had to say has been read. */
  predicate Finished(y: System) { y.s.exit == S.Drained && y.r.taken == |y.s.data| }

  /** After a graceful close that was read to its end, over at most 2^32 messages numbered by the core:
      received plus skipped is what was offered, less what was offered after the last message
      received, plus what wrong reports count too much. Something was offered after that one exactly
      if the last message accepted found a limit of one and a message waiting. */
  lemma GapAccountingWrapped(backlog: int, es: seq<Event>, k: Kernel)
    requires Run(backlog, es, k).Some? && Untorn(backlog, es, k) && FixedBacklog(es)
    requires var offered := Run(backlog, es, k).value.s.offered; Chain(offered) && |offered| <= TWO_32
    requires Finished(Run(backlog, es, k).value)
    ensures var y := Run(backlog, es, k).value;
      var ms, base := Received(y.r.signals), Base(y.s.offered);
      && (ms == [] <==> y.s.offered == [])
      && (ms == [] ==> Skips(y.r.signals) == 0 && !NewestLost(backlog, es, k))
      && (ms != [] ==>
            && ms[0] == y.s.offered[0]
            && var after := From(base, Last(y.s.offered).index) - From(base, Last(ms).index);
               && |ms| + Skips(y.r.signals) == |y.s.offered| - after + Miscount(ms)
               && after >= 0 && (after > 0 <==> NewestLost(backlog, es, k)))
      && (Miscount(ms) == 0 <==> AllRight(ms))
      && (backlog != 1 ==> (|ms| + Skips(y.r.signals) == |y.s.offered| <==> AllRight(ms)))
      && multiset(y.s.offered) == multiset(ms) + multiset(y.s.dropped)
  {
    hide Run, Untorn, Stream, Linked, Skips, Received, Subseq, Messages, NewestLost, NewestIs, From, Miscount, AllRight;
    var y := Run(backlog, es, k).value;
    var base, lost := Base(y.s.offered), NewestLost(backlog, es, k);
    RunKeeps(backlog, es, k);
    RunStream(backlog, es, k);
    RunFixedLimit(backlog, es, k);
    UntornIsHarmless(backlog, es, k);
    SpanAccountingWrapped(backlog, es, k);
    Faithful(y);
    AllSent(y);
    RunNewest(backlog, es, k);
    ChainAscends(y.s.offered);
    if y.s.offered != [] {
      NewestShows(base, lost, Kept(y.s), y.s.offered);
      hide Chain, Ascending;
      assert backlog != 1 ==> !lost;
    } else {
      NothingLost(lost, Kept(y.s));
      NothingWrong([]);
    }
  }

  /** If the numbers do not wrap every message is either received or reported as skipped, exactly if the
      last message accepted did not find a limit of one and a full queue. Otherwise the report falls
      short by the messages after the last one received. */
  lemma GapAccounting(backlog: int, es: seq<Event>, k: Kernel)
    requires Run(backlog, es, k).Some? && Untorn(backlog, es, k) && FixedBacklog(es)
    requires Consecutive(Run(backlog, es, k).value.s.offered)
    requires Finished(Run(backlog, es, k).value)
    ensures var y := Run(backlog, es, k).value;
      var ms := Received(y.r.signals);
      && (|ms| + Skips(y.r.signals) == |y.s.offered| <==> !NewestLost(backlog, es, k))
      && (ms == [] <==> y.s.offered == [])
      && (ms != [] ==> ms[0] == y.s.offered[0])
      && (ms != [] ==>
            |ms| + Skips(y.r.signals) == |y.s.offered| - (Last(y.s.offered).index - Last(ms).index))
      && (backlog != 1 ==> |ms| + Skips(y.r.signals) == |y.s.offered|)
      && multiset(y.s.offered) == multiset(ms) + multiset(y.s.dropped)
  {
    hide Run, Untorn, Skips, Received, NewestLost, From, Miscount, AllRight, Chain;
    var y := Run(backlog, es, k).value;
    var ms := Received(y.r.signals);
    ConsecutiveIsChain(y.s.offered);
    GapAccountingWrapped(backlog, es, k);
    UntornIsHarmless(backlog, es, k);
    SpanAccounting(backlog, es, k);
    if ms != [] {
      ChainAscends(y.s.offered);
      LastsPlain(y.s.offered, Last(ms));
    }
  }

  lemma LastsPlain(offered: seq<Message>, m: Message)
    requires Consecutive(offered) && offered != []
    requires From(Base(offered), m.index) <= From(Base(offered), Last(offered).index)
    requires From(Base(offered), Last(offered).index) == |offered| - 1
    ensures From(Base(offered), Last(offered).index) - From(Base(offered), m.index) == Last(offered).index - m.index
  {
    hide Consecutive, From;
    FromPlain(offered, m.index);
    FromPlain(offered, Last(offered).index);
  }

  lemma NothingLost(lost: bool, kept: seq<Message>)
    requires NewestIs(lost, kept, [])
    ensures !lost
  {
  }

  lemma AllSent(y: System)
    requires Linked(y) && y.s.exit == S.Drained
    ensures Kept(y.s) == Messages(y.s.started)
    ensures multiset(y.s.offered) == multiset(Kept(y.s)) + multiset(y.s.dropped)
  {
    hide Messages, Subseq;
  }

  /* ---------- Graceful close ---------- */

  lemma {:induction false} ByeOnce(ps: seq<Packet>)
    requires ByeOnlyLast(ps) && ps != [] && Last(ps) == Bye
    ensures multiset(ps)[Bye] == 1
  {
    assert ps == Init(ps) + [Bye];
    assert forall i :: 0 <= i < |Init(ps)| ==> Init(ps)[i] == ps[i];
  }

  /** A sender that drained has written everything it kept, then exactly one bye, and nothing after
      it; its closed signal was emitted exactly once. A receiver that has read all of it has
      received everything kept, has seen the bye and has closed, exactly once. */
  lemma GracefulClose(backlog: int, es: seq<Event>, k: Kernel)
    requires Run(backlog, es, k).Some? && Untorn(backlog, es, k)
    requires Run(backlog, es, k).value.s.exit == S.Drained
    ensures var y := Run(backlog, es, k).value;
      && y.s.data == EncodeAll(y.s.started) && Messages(y.s.started) == Kept(y.s) && y.s.queue == []
      && y.s.started != [] && Last(y.s.started) == Bye && multiset(y.s.started)[Bye] == 1
      && !y.s.open && y.s.closedSignals == 1
    ensures var y := Run(backlog, es, k).value;
      y.r.taken == |y.s.data| ==>
        Received(y.r.signals) == Kept(y.s) && !y.r.open && y.r.closedSignals == 1
  {
    hide Run, Untorn, Received, EncodeAll, Messages, Encode, Frames;
    var y := Run(backlog, es, k).value;
    RunKeeps(backlog, es, k);
    RunStream(backlog, es, k);
    ByeOnce(y.s.started);
    Faithful(y);
    AllSent(y);
  }

  /** After a close nothing more is accepted and no ping is started. */
  lemma ClosedAcceptsNothing(s: S.State, m: Message, o: Writer, later: Writer)
    requires SenderControl.Inv(s)
    ensures var t := S.Close(s, o);
      t.done && S.Send(t, m) == t && S.SendPing(t, later) == (t, false) && S.Close(t, later) == t
  {
    hide S.ScheduleWrite;
    if !s.done && s.cur.None? && s.queue == [] {
      var t := S.Start(s, Bye).(done := true, bye := false);
      PrepareByeControl(s);
      StaysDone(t, o);
    }
  }
}
