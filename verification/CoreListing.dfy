/** Who is on the core's list, and what being on it means: from the moment it is made until it is
    dropped or its channel closes, a sender is handed every message that is logged. */
module CoreListing {
  import opened Channel
  import opened Sequences
  import opened Wire
  import S = SenderSpec
  import SenderControl
  import opened SenderLedger
  import opened Cores

  /* ---------- One change of the list ---------- */

  /** A new sender is last on the list, has a handler, and starts fresh; nobody else is touched. */
  lemma NewIsListed(c: State, behind: set<nat>)
    requires Inv(c, behind)
    ensures var d := NewSender(c);
      && d.senders == c.senders + [c.made] && c.made !in c.pool && d.pool.Keys == c.pool.Keys + {c.made}
      && d.handlers.Keys == c.handlers.Keys + {c.made}
      && d.pool[c.made] == S.Fresh(c.backlog) && (forall id :: id in c.pool ==> d.pool[id] == c.pool[id])
      && d.log == c.log && d.next == c.next && d.made == c.made + 1
  {
    hide Sound, Distinct;
  }

  /** Exactly who is listed after an operation: a new sender joins; one that is dropped, or whose
      channel the operation closes, leaves; all others stay. */
  lemma ListedExactly(c: State, op: Op, w: nat -> Writer, behind: set<nat>, id: nat)
    requires Inv(c, behind) && Possible(c, op)
    ensures var d := Apply(c, op, w);
      id in d.senders <==>
        match op
        case MakeSender => id in c.senders || id == c.made
        case DropSender(x) => id in c.senders && id != x
        case AtSender(x, e) => id in c.senders && (id == x ==> S.Step(c.pool[x], e, w(x)).open)
  {
    hide S.Step, SoundSender;
    Known(c, behind);
    match op
    case MakeSender =>
    case DropSender(x) => WithoutSpec(c.senders, x);
    case AtSender(x, e) =>
      WithoutSpec(c.senders, x);
      InPool(c, x, behind);
      QuietSound(c.pool[x], e, w(x), x in c.senders || x in behind, x in behind, c.next);
  }

  lemma Known(c: State, behind: set<nat>)
    requires Inv(c, behind)
    ensures Distinct(c.senders) && (forall x :: x in c.handlers <==> x in c.senders)
    ensures forall x :: x in c.senders ==> x in c.pool && c.pool[x].open
  {
    hide Distinct;
  }

  /** Those who leave leave the others in their order. */
  lemma {:induction false} WithoutKeepsOrder(ids: seq<nat>, id: nat)
    ensures Subseq(Without(ids, id), ids)
  {
    if ids != [] {
      var rest := ids[1..];
      assert ids == [ids[0]] + rest;
      if ids[0] == id {
        SuffixOf([ids[0]], rest);
      } else {
        WithoutKeepsOrder(rest, id);
        SubseqSuffix([ids[0]], Without(rest, id), rest);
      }
    }
  }

  lemma {:induction false} SuffixOf(p: seq<nat>, a: seq<nat>)
    ensures Subseq(a, p + a)
  {
    if a != [] {
      SuffixOf(p, Init(a));
      SubseqSnoc(Init(a), p + Init(a), Last(a));
      assert a == Init(a) + [Last(a)] && p + a == p + Init(a) + [Last(a)];
    }
  }

  /* ---------- Being served ---------- */

  /** As long as its channel is open, this sender is on the list. */
  ghost predicate Served(c: State, id: nat)
  {
    id in c.pool && (c.pool[id].open ==> id in c.senders)
  }

  /** What an operation other than its removal does for a sender that is served. */
  ghost predicate StillServed(c: State, d: State, id: nat)
  {
    Served(d, id) && id in c.pool && (d.pool[id].open ==> c.pool[id].open)
  }

  lemma ServedIsStill(c: State, id: nat)
    requires Served(c, id)
    ensures StillServed(c, c, id)
  {
  }

  lemma ApplyServed(c: State, op: Op, w: nat -> Writer, behind: set<nat>, id: nat)
    requires Inv(c, behind) && Served(c, id) && op != DropSender(id)
    ensures StillServed(c, Apply(c, op, w), id)
  {
    hide S.Step, SoundSender;
    Known(c, behind);
    if Possible(c, op) {
      ListedExactly(c, op, w, behind, id);
      if op.AtSender? && op.id == id && !c.pool[id].open {
        InPool(c, id, behind);
        SenderControl.StaysClosed(c.pool[id], op.e, w(id)) by { SoundIsInv(c, behind, id); }
      }
      if op.MakeSender? { NewIsListed(c, behind); }
    }
  }

  lemma SoundIsInv(c: State, behind: set<nat>, id: nat)
    requires Inv(c, behind) && id in c.pool
    ensures SenderControl.Inv(c.pool[id])
  {
    hide SenderControl.Inv, Listed;
    InPool(c, id, behind);
  }

  lemma {:induction false} ApplyAllServed(c: State, ops: seq<Op>, w: nat -> Writer, behind: set<nat>, id: nat)
    requires Inv(c, behind) && (forall x :: x in behind ==> x < c.made)
    requires Served(c, id) && DropSender(id) !in ops
    ensures StillServed(c, ApplyAll(c, ops, w), id)
  {
    hide Inv, Apply, Served;
    ServedIsStill(c, id);
    if ops != [] {
      assert Last(ops) in ops && forall op :: op in Init(ops) ==> op in ops;
      ApplyAllServed(c, Init(ops), w, behind, id);
      ApplyAllKeeps(c, Init(ops), w, behind);
      ApplyServed(ApplyAll(c, Init(ops), w), Last(ops), w, behind, id);
    }
  }

  lemma OfferServed(c: State, x: nat, m: Message, id: nat)
    requires Served(c, id)
    ensures StillServed(c, Offer(c, x, m), id)
  {
  }

  lemma {:induction false} FanOutServed(c: State, done: seq<nat>, todo: seq<nat>, m: Message,
                                        between: nat -> seq<Op>, w: nat -> Writer, id: nat)
    requires Distinct(done + todo) && Inv(c, Members(done + todo)) && m.index == (c.next + TWO_32 - 1) % TWO_32
    requires forall x :: x in done + todo ==> x in c.pool
    requires Served(c, id) && forall i :: DropSender(id) !in between(i)
    ensures StillServed(c, FanOut(c, done, m, between, w), id)
  {
    hide SoundSender, Listed, Sound, ApplyAll, Offer, Served;
    ServedIsStill(c, id);
    if done != [] {
      var x := Last(done);
      assert Init(done) + ([x] + todo) == done + todo;
      FanOutKeeps(c, Init(done), [x] + todo, m, between, w);
      FanOutServed(c, Init(done), [x] + todo, m, between, w, id);
      var d := FanOut(c, Init(done), m, between, w);
      OfferKeeps(d, x, m, Members([x] + todo));
      OfferServed(d, x, m, id);
      assert Members([x] + todo) - {x} == Members(todo) by { LastIsNew(done, todo); }
      KnownAreMade(d);
      assert forall y :: y in todo ==> y in done + todo;
      ApplyAllServed(Offer(d, x, m), between(|done| - 1), w, Members(todo), id);
    }
  }

  lemma SendServed(c: State, m: Message, between: nat -> seq<Op>, w: nat -> Writer, id: nat)
    requires Inv(c, {}) && Served(c, id) && forall i :: DropSender(id) !in between(i)
    ensures StillServed(c, Send(c, m, between, w), id)
  {
    hide FanOut, SoundSender;
    var c1 := c.(next := (c.next + 1) % TWO_32);
    NextIsLate(c, c1);
    assert c.senders + [] == c.senders;
    FanOutServed(c1, c.senders, [], m.(index := c.next), between, w, id);
  }

  lemma SetBacklogServed(c: State, backlog: int, keep: nat -> seq<bool>, id: nat)
    requires Inv(c, {}) && Served(c, id)
    ensures StillServed(c, SetBacklog(c, backlog, keep), id)
  {
    hide Sound, Select, Reject, S.NormalizeBacklog;
    SetLimitsSpec(c.pool, c.senders, S.NormalizeBacklog(backlog), keep);
  }

  /* ---------- Whole runs ---------- */

  /** Nobody asks for this sender to be dropped. */
  ghost predicate NotDropped(e: Event, id: nat)
  {
    match e
    case Log(m, between) => forall i :: DropSender(id) !in between(i)
    case Meanwhile(op) => op != DropSender(id)
    case Limit(backlog, keep) => true
  }

  /** The messages logged, as they are numbered from `next` on. */
  function Logged(next: uint32, es: seq<Event>): seq<Message>
    decreases |es|
  {
    if es == [] then []
    else if es[0].Log? then [es[0].m.(index := next)] + Logged((next + 1) % TWO_32, es[1..])
    else Logged(next, es[1..])
  }

  lemma StepServed(c: State, e: Event, w: nat -> Writer, id: nat)
    requires Inv(c, {}) && Served(c, id) && NotDropped(e, id) && forall x :: x in c.senders ==> x in c.pool
    ensures StillServed(c, Step(c, e, w), id)
  {
    hide Inv, Served, Send, Apply, SetBacklog;
    match e
    case Log(m, between) => SendServed(c, m, between, w, id);
    case Meanwhile(op) => ApplyServed(c, op, w, {}, id);
    case Limit(backlog, keep) => SetBacklogServed(c, backlog, keep, id);
  }

  /** A message is one call for each listed sender and none for the others. */
  lemma {:induction false} CallsOnce(log: seq<(nat, Message)>, ids: seq<nat>, m: Message, id: nat)
    requires Distinct(ids)
    ensures CallsTo(log + Calls(ids, m), id) == CallsTo(log, id) + if id in ids then [m] else []
  {
    if ids == [] {
      assert log + Calls(ids, m) == log;
      assert CallsTo(log, id) + [] == CallsTo(log, id);
    } else {
      var rest, x := Init(ids), Last(ids);
      assert Distinct(rest) && x !in rest;
      assert id in ids <==> id in rest || id == x by { assert ids == rest + [x]; }
      CallsOnce(log, rest, m, id);
      assert log + Calls(ids, m) == (log + Calls(rest, m)) + [(x, m)];
      CallsToSnoc(log + Calls(rest, m), x, m, id);
      assert CallsTo(log, id) + [] == CallsTo(log, id);
    }
  }

  /** The calls that one event makes to a sender. */
  lemma StepCalls(c: State, e: Event, w: nat -> Writer, id: nat)
    requires Inv(c, {}) && forall x :: x in c.senders ==> x in c.pool
    ensures var d := Step(c, e, w);
      && d.next == (if e.Log? then (c.next + 1) % TWO_32 else c.next)
      && CallsTo(d.log, id) ==
         CallsTo(c.log, id) + if e.Log? && id in c.senders then [e.m.(index := c.next)] else []
  {
    hide Send, Apply, CallsTo, SoundSender;
    assert CallsTo(c.log, id) + [] == CallsTo(c.log, id);
    match e
    case Log(m, between) =>
      SendReachesAll(c, m, between, w);
      CallsOnce(c.log, c.senders, m.(index := c.next), id);
    case Meanwhile(op) => ApplyKeeps(c, op, w, {});
    case Limit(backlog, keep) =>
  }

  /** A sender that is served and whose channel is open in the end has been listed all the time and has
      been handed every message that was logged, in order, under the numbers of the core. */
  lemma {:induction false} ServedThroughout(c: State, es: seq<Event>, w: nat -> Writer, d: State, id: nat)
    requires Inv(c, {}) && Accepted(c) && Reaches(c, es, w, d)
    requires Served(c, id) && (forall e :: e in es ==> NotDropped(e, id)) && id in d.pool && d.pool[id].open
    ensures c.pool[id].open && id in d.senders
    ensures CallsTo(d.log, id) == CallsTo(c.log, id) + Logged(c.next, es)
    decreases |es|
  {
    hide Inv, Accepted, Step, CallsTo, NotDropped;
    if es == [] {
      assert CallsTo(c.log, id) + [] == CallsTo(c.log, id);
    } else {
      var b, e := Step(c, es[0], w), es[0];
      assert e in es && forall x :: x in es[1..] ==> x in es;
      StepServed(c, e, w, id);
      StepKeeps(c, e, w);
      StepCalls(c, e, w, id);
      ServedThroughout(b, es[1..], w, d, id);
      if e.Log? {
        assert CallsTo(c.log, id) + [e.m.(index := c.next)] + Logged(b.next, es[1..])
            == CallsTo(c.log, id) + ([e.m.(index := c.next)] + Logged(b.next, es[1..]));
      } else {
        assert CallsTo(c.log, id) + [] + Logged(b.next, es[1..]) == CallsTo(c.log, id) + Logged(b.next, es[1..]);
      }
    }
  }

  /** A new sender is handed exactly the messages logged from then on, until it is dropped or its
      channel closes, and as long as it is not closed to messages it accepts all of them. */
  lemma NewIsServed(c: State, es: seq<Event>, w: nat -> Writer, d: State)
    requires Inv(c, {}) && Accepted(c) && Reaches(NewSender(c), es, w, d)
    requires (forall e :: e in es ==> NotDropped(e, c.made)) && c.made in d.pool && d.pool[c.made].open
    ensures c.made in d.senders && CallsTo(d.log, c.made) == Logged(c.next, es)
    ensures !d.pool[c.made].done ==> d.pool[c.made].offered == Logged(c.next, es)
  {
    hide Inv, Accepted, NotDropped, CallsTo, Apply;
    var b := NewSender(c);
    NewIsListed(c, {});
    ApplyKeeps(c, MakeSender, w, {});
    ApplyAccepted(c, MakeSender, w, {});
    assert Apply(c, MakeSender, w) == b by { MakeIs(c, w); }
    ServedThroughout(b, es, w, d, c.made);
    NeverCalledYet(c);
    assert [] + Logged(c.next, es) == Logged(c.next, es);
    RunKeeps(b, es, w, d);
    AcceptedOpen(d, c.made);
  }

  lemma {:induction false} CallsIn(ids: seq<nat>, m: Message, id: nat)
    requires id in ids
    ensures (id, m) in Calls(ids, m)
  {
    if id != Last(ids) {
      assert id in Init(ids) by { assert ids == Init(ids) + [Last(ids)]; }
      CallsIn(Init(ids), m, id);
    }
  }

  /** In particular it is handed the next one, whatever happens while that is being sent. */
  lemma NewHearsTheNext(c: State, m: Message, between: nat -> seq<Op>, w: nat -> Writer)
    requires Inv(c, {})
    ensures (c.made, m.(index := c.next)) in Send(NewSender(c), m, between, w).log
  {
    hide Inv, Send;
    NewIsListed(c, {});
    NewSenderKeeps(c, {});
    SendReachesAll(NewSender(c), m, between, w);
    CallsIn(NewSender(c).senders, m.(index := c.next), c.made);
  }

  lemma MakeIs(c: State, w: nat -> Writer)
    ensures Apply(c, MakeSender, w) == NewSender(c)
  {
  }

  lemma NeverCalledYet(c: State)
    requires Accepted(c)
    ensures CallsTo(c.log, c.made) == []
  {
    NeverCalled(c.log, c.made);
  }

  lemma AcceptedOpen(c: State, id: nat)
    requires Accepted(c) && id in c.pool
    ensures !c.pool[id].done ==> c.pool[id].offered == CallsTo(c.log, id)
  {
    hide CallsTo;
  }

  /* ---------- What happens meanwhile ---------- */

  /** The number of senders made by some operations. */
  function Made(ops: seq<Op>): nat {
    if ops == [] then 0 else Made(Init(ops)) + if Last(ops).MakeSender? then 1 else 0
  }

  function MadeMeanwhile(between: nat -> seq<Op>, n: nat): nat {
    if n == 0 then 0 else MadeMeanwhile(between, n - 1) + Made(between(n - 1))
  }

  lemma {:induction false} ApplyAllMakes(c: State, ops: seq<Op>, w: nat -> Writer)
    ensures ApplyAll(c, ops, w).made == c.made + Made(ops)
  {
    hide S.Step;
    if ops != [] { ApplyAllMakes(c, Init(ops), w); }
  }

  /** What happens between the sends of one message does happen: each sender made then exists afterwards,
      and it has not been handed the message. */
  lemma {:induction false} FanOutMakes(c: State, snapshot: seq<nat>, m: Message,
                                       between: nat -> seq<Op>, w: nat -> Writer)
    ensures FanOut(c, snapshot, m, between, w).made == c.made + MadeMeanwhile(between, |snapshot|)
  {
    hide ApplyAll;
    if snapshot != [] {
      FanOutMakes(c, Init(snapshot), m, between, w);
      ApplyAllMakes(Offer(FanOut(c, Init(snapshot), m, between, w), Last(snapshot), m), between(|snapshot| - 1), w);
    }
  }

  lemma NewcomersMissIt(c: State, m: Message, between: nat -> seq<Op>, w: nat -> Writer, id: nat)
    requires Inv(c, {}) && Accepted(c) && id >= c.made
    ensures var d := Send(c, m, between, w);
      d.made == c.made + MadeMeanwhile(between, |c.senders|) && CallsTo(d.log, id) == []
  {
    hide FanOut, CallsTo, Calls, SoundSender;
    FanOutMakes(c.(next := (c.next + 1) % TWO_32), c.senders, m.(index := c.next), between, w);
    SendReachesAll(c, m, between, w);
    CallsOnce(c.log, c.senders, m.(index := c.next), id);
    NeverCalled(c.log, id);
  }
}
