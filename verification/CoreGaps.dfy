/** Gap accounting for the senders of a core: the core's numbering is what the skip counter relies on. */
module CoreGaps {
  import opened Channel
  import opened Sequences
  import opened Wire
  import S = SenderSpec
  import R = ReceiverSpec
  import opened SenderLedger
  import opened Link
  import C = Cores
  import opened Gaps

  /* ---------- Every sender of the core runs as a sender of a link ---------- */

  /** A reader that gets nothing. */
  const SILENT: Reader := (i: nat, len: nat) => Got(0)

  /** A run of a sender, before anything has been read, ends in this state. */
  ghost predicate Ends(backlog: int, es: seq<Event>, o: Writer, s: S.State)
  {
    Run(backlog, es, Kernel(o, SILENT)) == Some(System(s, R.FRESH))
  }

  ghost predicate Reachable(s: S.State, o: Writer)
  {
    exists backlog, es :: Ends(backlog, es, o, s)
  }

  ghost predicate AllReachable(c: C.State, w: nat -> Writer)
  {
    forall id :: id in c.pool ==> Reachable(c.pool[id], w(id))
  }

  lemma StepReachable(s: S.State, e: S.Event, o: Writer)
    requires Reachable(s, o) && S.Enabled(s, e)
    ensures Reachable(S.Step(s, e, o), o)
  {
    hide S.Step;
    var backlog, es :| Ends(backlog, es, o, s);
    var fs := es + [AtSender(e)];
    assert Init(fs) == es;
    assert Ends(backlog, fs, o, S.Step(s, e, o));
  }

  lemma FreshReachable(backlog: int, o: Writer)
    ensures Reachable(S.Fresh(backlog), o)
  {
    assert Ends(backlog, [], o, S.Fresh(backlog));
  }

  lemma SendReachable(s: S.State, m: Message, o: Writer)
    requires Reachable(s, o)
    ensures Reachable(S.Send(s, m), o)
  {
    hide Reachable;
    StepReachable(s, S.DoSend(m), o);
  }

  lemma ApplyReachable(c: C.State, op: C.Op, w: nat -> Writer)
    requires AllReachable(c, w)
    ensures AllReachable(C.Apply(c, op, w), w)
  {
    hide Reachable, S.Step;
    if C.Possible(c, op) {
      match op
      case MakeSender => FreshReachable(c.backlog, w(c.made));
      case DropSender(id) =>
      case AtSender(id, e) => StepReachable(c.pool[id], e, w(id));
    }
  }

  lemma {:induction false} ApplyAllReachable(c: C.State, ops: seq<C.Op>, w: nat -> Writer)
    requires AllReachable(c, w)
    ensures AllReachable(C.ApplyAll(c, ops, w), w)
  {
    hide AllReachable, C.Apply;
    if ops != [] {
      ApplyAllReachable(c, Init(ops), w);
      ApplyReachable(C.ApplyAll(c, Init(ops), w), Last(ops), w);
    }
  }

  lemma OfferReachable(c: C.State, id: nat, m: Message, w: nat -> Writer)
    requires AllReachable(c, w)
    ensures AllReachable(C.Offer(c, id, m), w)
  {
    hide Reachable, S.Send;
    if id in c.pool { SendReachable(c.pool[id], m, w(id)); }
  }

  lemma {:induction false} FanOutReachable(c: C.State, snapshot: seq<nat>, m: Message,
                                           between: nat -> seq<C.Op>, w: nat -> Writer)
    requires AllReachable(c, w)
    ensures AllReachable(C.FanOut(c, snapshot, m, between, w), w)
  {
    hide AllReachable, C.ApplyAll, C.Offer;
    if snapshot != [] {
      FanOutReachable(c, Init(snapshot), m, between, w);
      var d := C.FanOut(c, Init(snapshot), m, between, w);
      OfferReachable(d, Last(snapshot), m, w);
      ApplyAllReachable(C.Offer(d, Last(snapshot), m), between(|snapshot| - 1), w);
    }
  }

  lemma {:induction false} SetLimitsReachable(pool: map<nat, S.State>, ids: seq<nat>, b: int, keep: nat -> seq<bool>,
                                              w: nat -> Writer)
    requires forall id :: id in ids ==> id in pool
    requires forall id :: id in pool ==> Reachable(pool[id], w(id))
    ensures var limited := C.SetLimits(pool, ids, b, keep);
      forall id :: id in limited ==> Reachable(limited[id], w(id))
  {
    hide Reachable, S.SetBacklog;
    if ids != [] {
      SetLimitsReachable(pool, Init(ids), b, keep, w);
      var rest, id := C.SetLimits(pool, Init(ids), b, keep), Last(ids);
      if id in rest { StepReachable(rest[id], S.DoSetBacklog(b, keep(id)), w(id)); }
    }
  }

  lemma CoreStepReachable(c: C.State, e: C.Event, w: nat -> Writer)
    requires AllReachable(c, w) && forall id :: id in c.senders ==> id in c.pool
    ensures AllReachable(C.Step(c, e, w), w)
  {
    hide Reachable, C.FanOut, C.Apply, C.SetLimits;
    match e
    case Log(m, between) =>
      FanOutReachable(c.(next := (c.next + 1) % TWO_32), c.senders, m.(index := c.next), between, w);
    case Meanwhile(op) => ApplyReachable(c, op, w);
    case Limit(backlog, keep) =>
      SetLimitsReachable(c.pool, c.senders, S.NormalizeBacklog(backlog), keep, w);
  }

  lemma {:induction false} CoreRunReachable(c: C.State, es: seq<C.Event>, w: nat -> Writer, d: C.State)
    requires AllReachable(c, w) && C.Reaches(c, es, w, d)
    ensures AllReachable(d, w)
    decreases |es|
  {
    hide AllReachable, C.Step;
    if es != [] {
      CoreStepReachable(c, es[0], w);
      CoreRunReachable(C.Step(c, es[0], w), es[1..], w, d);
    }
  }

  /** So what is proved about the runs of a link holds for the senders of every core. */
  lemma SendersOfCore(initial: int, es: seq<C.Event>, w: nat -> Writer, d: C.State)
    requires C.Reaches(C.Fresh(initial), es, w, d)
    ensures forall id :: id in d.pool ==> exists backlog, hs :: Ends(backlog, hs, w(id), d.pool[id])
  {
    CoreRunReachable(C.Fresh(initial), es, w, d);
  }

  /* ---------- Gap accounting ---------- */

  /** A sender of a core that was closed gracefully and read to its end, by any reader and in any
      interleaving, having been handed at most 2^32 messages before its close: if every skip report is
      right, then received plus skipped is the number of these messages, exactly if the last of them
      did not find a limit of one and a message waiting. With any other backlog it is that number
      exactly if every report is right. They all are if the numbers, which come from the core, do not
      wrap. */
  lemma CoreGapAccounting(initial: int, ces: seq<C.Event>, w: nat -> Writer, d: C.State, id: nat,
                          backlog: int, es: seq<Event>, k: Kernel)
    requires C.Reaches(C.Fresh(initial), ces, w, d) && id in d.pool
    requires Run(backlog, es, k).Some? && Run(backlog, es, k).value.s == d.pool[id]
    requires Untorn(backlog, es, k) && FixedBacklog(es) && Finished(Run(backlog, es, k).value)
    requires |C.CallsBeforeClose(d, id)| <= TWO_32
    ensures var y := Run(backlog, es, k).value;
      var ms, calls := Received(y.r.signals), C.CallsBeforeClose(d, id);
      var accounted := |ms| + Skips(y.r.signals);
      && id in d.closedAt && y.s.offered == calls && calls <= C.CallsTo(d.log, id)
      && (AllRight(ms) ==> (accounted == |calls| <==> !NewestLost(backlog, es, k)))
      && (backlog != 1 ==> (accounted == |calls| <==> AllRight(ms)))
      && (calls != [] && calls[0].index + |calls| <= TWO_32 ==> AllRight(ms))
  {
    hide Run, Untorn, NewestLost, C.CallsTo, C.CallsBeforeClose, Received, Skips, Consecutive, Ledger, Chain, AllRight;
    hide From, Miscount;
    C.CoreIsSound(initial, ces, w, d);
    DrainedIsDone(backlog, es, k);
    GapAccountingWrapped(backlog, es, k);
    var calls := C.CallsBeforeClose(d, id);
    if calls != [] && calls[0].index + |calls| <= TWO_32 {
      UntornIsHarmless(backlog, es, k);
      SpanAccounting(backlog, es, k);
    }
  }

  lemma DrainedIsDone(backlog: int, es: seq<Event>, k: Kernel)
    requires Run(backlog, es, k).Some? && Finished(Run(backlog, es, k).value)
    ensures Run(backlog, es, k).value.s.done
  {
    hide Run, Ledger;
    RunKeeps(backlog, es, k);
  }
}
