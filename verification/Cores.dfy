/** The core's sender list: numbering of messages and fan-out to every sender, however the list
    changes while a message is being sent. */
module Cores {
  import opened Channel
  import opened Sequences
  import opened Wire
  import S = SenderSpec
  import SenderControl
  import opened SenderLedger
  import Gaps

  /** Senders are named by their identity; `pool` holds the state of every sender ever made. */
  datatype State = State(
    backlog: int,
    senders: seq<nat>,
    handlers: map<nat, nat>,   // closed-signal handler of each listed sender
    pool: map<nat, S.State>,
    made: nat,
    next: uint32,              // next_msg_index
    // history
    log: seq<(nat, Message)>,  // which sender was handed which message
    closedAt: map<nat, nat>)   // how long the log was when a sender ceased to accept messages

  /* ---------- Changing the list ---------- */

  function NewSender(c: State): State {
    c.(senders := c.senders + [c.made], handlers := c.handlers[c.made := c.made + 1],
       pool := c.pool[c.made := S.Fresh(c.backlog)], made := c.made + 1)
  }

  function Without(senders: seq<nat>, id: nat): (r: seq<nat>)
    ensures forall x :: x in r ==> x in senders
  {
    if senders == [] then []
    else if senders[0] == id then senders[1..]
    else [senders[0]] + Without(senders[1..], id)
  }

  function RemoveSender(c: State, id: nat): State {
    if id in c.senders then c.(senders := Without(c.senders, id), handlers := c.handlers - {id}) else c
  }

  /** A sender changes to `t`; the history notes if it has ceased to accept messages. */
  function Noted(c: State, id: nat, t: S.State): State
    requires id in c.pool
  {
    if t.done && !c.pool[id].done then c.(closedAt := c.closedAt[id := |c.log|]) else c
  }

  /** Something happens at a sender; if its channel goes away its closed handler removes it. */
  function Poke(c: State, id: nat, e: S.Event, w: nat -> Writer): State
    requires id in c.pool && S.Enabled(c.pool[id], e)
  {
    var t := S.Step(c.pool[id], e, w(id));
    var c1 := Noted(c, id, t).(pool := c.pool[id := t]);
    if t.closedSignals > c.pool[id].closedSignals && id in c.handlers then RemoveSender(c1, id) else c1
  }

  function SetLimits(pool: map<nat, S.State>, ids: seq<nat>, backlog: int, keep: nat -> seq<bool>): map<nat, S.State>
    requires forall id :: id in ids ==> id in pool
  {
    if ids == [] then pool
    else
      var rest := SetLimits(pool, Init(ids), backlog, keep);
      var id := Last(ids);
      if id in rest then rest[id := S.SetBacklog(rest[id], backlog, keep(id))] else rest
  }

  function SetBacklog(c: State, backlog: int, keep: nat -> seq<bool>): State
    requires forall id :: id in c.senders ==> id in c.pool
  {
    var b := S.NormalizeBacklog(backlog);
    if c.backlog == b then c else c.(backlog := b, pool := SetLimits(c.pool, c.senders, b, keep))
  }

  /** What may happen in between, from inside a closed handler or the main loop. */
  datatype Op =
    | MakeSender
    | DropSender(id: nat)
    | AtSender(id: nat, e: S.Event)

  /** Only the core itself offers messages and changes limits. */
  predicate Possible(c: State, op: Op) {
    op.AtSender? ==> op.id in c.pool && S.Enabled(c.pool[op.id], op.e) && Quiet(op.e)
  }

  function Apply(c: State, op: Op, w: nat -> Writer): State {
    if !Possible(c, op) then c
    else match op
      case MakeSender => NewSender(c)
      case DropSender(id) => RemoveSender(c, id)
      case AtSender(id, e) => Poke(c, id, e, w)
  }

  function ApplyAll(c: State, ops: seq<Op>, w: nat -> Writer): State
    decreases |ops|
  {
    if ops == [] then c else Apply(ApplyAll(c, Init(ops), w), Last(ops), w)
  }

  /* ---------- Sending ---------- */

  function Offer(c: State, id: nat, m: Message): State {
    if id in c.pool then c.(pool := c.pool[id := S.Send(c.pool[id], m)], log := c.log + [(id, m)]) else c
  }

  /** The message goes to the senders of the snapshot one by one; `between(i)` happens after the i-th. */
  function FanOut(c: State, snapshot: seq<nat>, m: Message, between: nat -> seq<Op>, w: nat -> Writer): State {
    if snapshot == [] then c
    else ApplyAll(Offer(FanOut(c, Init(snapshot), m, between, w), Last(snapshot), m), between(|snapshot| - 1), w)
  }

  function Send(c: State, m: Message, between: nat -> seq<Op>, w: nat -> Writer): State {
    FanOut(c.(next := (c.next + 1) % TWO_32), c.senders, m.(index := c.next), between, w)
  }

  /* ---------- The invariant ---------- */

  ghost predicate Distinct(ids: seq<nat>)
  {
    forall i, j :: 0 <= i < j < |ids| ==> ids[i] != ids[j]
  }

  /** The list has no duplicates, has a handler for exactly its members, and lists open senders
      that have the core's backlog. */
  ghost predicate Listed(c: State)
  {
    && Distinct(c.senders)
    && c.backlog == S.NormalizeBacklog(c.backlog)
    && (forall id :: id in c.handlers <==> id in c.senders)
    && (forall id :: id in c.senders ==> id in c.pool && c.pool[id].open && c.pool[id].limit == c.backlog)
    && (forall id :: id in c.pool ==> id < c.made)
  }

  /** A sender is a sound state machine that was offered consecutive numbers. While it is still
      served, its last number is the latest one, or the one before if it is late. */
  ghost predicate SoundSender(s: S.State, served: bool, late: bool, next: uint32)
  {
    && SenderControl.Inv(s) && Ledger(s) && Gaps.Chain(s.offered)
    && (served && !s.done && s.offered != [] ==>
          (Last(s.offered).index + 1) % TWO_32 == if late then (next + TWO_32 - 1) % TWO_32 else next)
  }

  /** The ones in `behind` have not been given the latest message yet. */
  ghost predicate Sound(c: State, behind: set<nat>)
  {
    forall id :: id in c.pool ==>
      SoundSender(c.pool[id], id in c.senders || id in behind, id in behind, c.next)
  }

  lemma Unserved(s: S.State, served: bool, late: bool, next: uint32)
    requires SoundSender(s, true, late, next)
    ensures SoundSender(s, served, late, next)
  {
  }

  ghost predicate Inv(c: State, behind: set<nat>) { Listed(c) && Sound(c, behind) }

  /** A new core has the normalized backlog it was asked for. */
  function Fresh(backlog: int): State { State(S.NormalizeBacklog(backlog), [], map[], map[], 0, 0, [], map[]) }

  lemma FreshInv(backlog: int)
    ensures Inv(Fresh(backlog), {})
    ensures var c := Fresh(backlog);
      && c.senders == [] && c.pool == map[] && c.next == 0 && c.log == []
      && (if backlog < 0 then c.backlog < 0 else c.backlog == if backlog == 0 then 1000 else backlog)
  {
  }

  /** Normalizing twice changes nothing, so a new sender gets the backlog of the core. */
  lemma NormalizeTwice(b: int)
    ensures S.NormalizeBacklog(S.NormalizeBacklog(b)) == S.NormalizeBacklog(b)
  {
  }

  lemma {:induction false} WithoutSpec(senders: seq<nat>, id: nat)
    requires Distinct(senders)
    ensures Distinct(Without(senders, id))
    ensures forall x :: x in Without(senders, id) <==> x in senders && x != id
  {
    if senders != [] {
      var rest := senders[1..];
      assert forall x :: x in senders <==> x == senders[0] || x in rest;
      assert Distinct(rest) && senders[0] !in rest by {
        assert forall i :: 0 <= i < |rest| ==> rest[i] == senders[i + 1];
      }
      WithoutSpec(rest, id);
    }
  }

  lemma NewSenderKeeps(c: State, behind: set<nat>)
    requires Inv(c, behind) && c.made !in behind
    ensures Inv(NewSender(c), behind)
  {
    hide SoundSender;
    FreshSender(c.backlog, c.next);
  }

  lemma FreshSender(backlog: int, next: uint32)
    ensures SoundSender(S.Fresh(backlog), true, false, next)
  {
    SenderControl.FreshInv(backlog);
    NormalizedBounded(backlog);
  }

  /** Shrinking the list keeps everybody sound. */
  lemma SoundWithout(c: State, senders: seq<nat>, handlers: map<nat, nat>, behind: set<nat>)
    requires Sound(c, behind) && forall id :: id in senders ==> id in c.senders
    ensures Sound(c.(senders := senders, handlers := handlers), behind)
  {
    hide SoundSender;
    forall id | id in c.pool
      ensures SoundSender(c.pool[id], id in senders || id in behind, id in behind, c.next)
    {
      if id in c.senders {
        Unserved(c.pool[id], id in senders || id in behind, id in behind, c.next);
      }
    }
  }

  lemma RemoveKeeps(c: State, id: nat, behind: set<nat>)
    requires Inv(c, behind)
    ensures Inv(RemoveSender(c, id), behind) && RemoveSender(c, id).pool == c.pool
  {
    hide Sound;
    if id in c.senders {
      WithoutSpec(c.senders, id);
      SoundWithout(c, Without(c.senders, id), c.handlers - {id}, behind);
    }
  }

  /** A quiet step of a sender that is sound leaves it sound. */
  lemma QuietSound(s: S.State, e: S.Event, o: Writer, served: bool, late: bool, next: uint32)
    requires SoundSender(s, served, late, next) && S.Enabled(s, e) && Quiet(e)
    ensures var t := S.Step(s, e, o);
      SoundSender(t, served, late, next) && t.offered == s.offered && t.limit == s.limit
      && (s.open && !t.open ==> t.closedSignals > s.closedSignals)
      && (t.open ==> s.open && t.closedSignals == s.closedSignals)
  {
    hide S.Step, Ledger, Gaps.Chain;
    SenderControl.StepInv(s, e, o);
    StepLedger(s, e, o);
    QuietKept(s, e, o);
    if s.done { SenderControl.StepStaysDone(s, e, o); }
    if !s.open { SenderControl.StaysClosed(s, e, o); }
  }

  lemma InPool(c: State, id: nat, behind: set<nat>)
    requires Sound(c, behind) && id in c.pool
    ensures SoundSender(c.pool[id], id in c.senders || id in behind, id in behind, c.next)
  {
  }

  lemma SoundUpdate(c: State, id: nat, t: S.State, behind: set<nat>)
    requires Sound(c, behind) && SoundSender(t, id in c.senders || id in behind, id in behind, c.next)
    ensures Sound(c.(pool := c.pool[id := t]), behind)
  {
    hide SoundSender;
  }

  /** A sender that stays open may stay on the list. */
  lemma ListedStays(c: State, id: nat, t: S.State)
    requires Listed(c) && id in c.pool && t.limit == c.pool[id].limit && (id in c.senders ==> t.open)
    ensures Listed(c.(pool := c.pool[id := t]))
  {
    hide Distinct, S.NormalizeBacklog;
  }

  /** A sender that is closed has to leave it. */
  lemma ListedLeaves(c: State, id: nat, t: S.State)
    requires Listed(c) && id in c.pool && id in c.senders
    ensures Listed(c.(pool := c.pool[id := t], senders := Without(c.senders, id), handlers := c.handlers - {id}))
  {
    hide Distinct, S.NormalizeBacklog, Without;
    WithoutSpec(c.senders, id);
  }

  /** The note does not concern the invariant. */
  lemma NotedKeeps(c: State, id: nat, t: S.State, behind: set<nat>)
    requires Inv(c, behind) && id in c.pool
    ensures Inv(Noted(c, id, t), behind) && Noted(c, id, t) == c.(closedAt := Noted(c, id, t).closedAt)
  {
    hide SoundSender, Distinct, S.NormalizeBacklog;
  }

  lemma PokeKeeps(c: State, id: nat, e: S.Event, w: nat -> Writer, behind: set<nat>)
    requires Inv(c, behind) && id in c.pool && S.Enabled(c.pool[id], e) && Quiet(e)
    ensures Inv(Poke(c, id, e, w), behind)
    ensures var d := Poke(c, id, e, w); d.log == c.log && d.next == c.next && d.made == c.made
    ensures Poke(c, id, e, w).pool.Keys == c.pool.Keys
  {
    hide S.Step, SoundSender, Sound;
    var s, t := c.pool[id], S.Step(c.pool[id], e, w(id));
    var c0 := Noted(c, id, t);
    NotedKeeps(c, id, t, behind);
    InPool(c, id, behind);
    QuietSound(s, e, w(id), id in c.senders || id in behind, id in behind, c.next);
    SoundUpdate(c0, id, t, behind);
    InList(c, id);
    hide Listed, Noted;
    if t.closedSignals > s.closedSignals && id in c.handlers {
      WithoutSpec(c.senders, id);
      ListedLeaves(c0, id, t);
      SoundWithout(c0.(pool := c.pool[id := t]), Without(c.senders, id), c.handlers - {id}, behind);
    } else {
      ListedStays(c0, id, t);
    }
  }

  lemma InList(c: State, id: nat)
    requires Listed(c)
    ensures Distinct(c.senders) && (id in c.handlers <==> id in c.senders)
    ensures id in c.senders ==> id in c.pool && c.pool[id].open
  {
  }

  lemma ApplyKeeps(c: State, op: Op, w: nat -> Writer, behind: set<nat>)
    requires Inv(c, behind) && forall id :: id in behind ==> id < c.made
    ensures var d := Apply(c, op, w);
      Inv(d, behind) && d.log == c.log && d.next == c.next && c.made <= d.made && c.pool.Keys <= d.pool.Keys
  {
    hide Listed, Sound, S.Step;
    if Possible(c, op) {
      match op
      case MakeSender => NewSenderKeeps(c, behind);
      case DropSender(id) => RemoveKeeps(c, id, behind);
      case AtSender(id, e) => PokeKeeps(c, id, e, w, behind);
    }
  }

  lemma {:induction false} ApplyAllKeeps(c: State, ops: seq<Op>, w: nat -> Writer, behind: set<nat>)
    requires Inv(c, behind) && forall id :: id in behind ==> id < c.made
    ensures var d := ApplyAll(c, ops, w);
      Inv(d, behind) && d.log == c.log && d.next == c.next && c.made <= d.made && c.pool.Keys <= d.pool.Keys
  {
    hide Inv, Apply;
    if ops != [] {
      ApplyAllKeeps(c, Init(ops), w, behind);
      ApplyKeeps(ApplyAll(c, Init(ops), w), Last(ops), w, behind);
    }
  }

  /* ---------- Fan-out ---------- */

  lemma OfferSound(s: S.State, m: Message, served: bool, next: uint32)
    requires SoundSender(s, true, true, next) && m.index == (next + TWO_32 - 1) % TWO_32
    ensures var t := S.Send(s, m);
      SoundSender(t, served, false, next) && t.open == s.open && t.limit == s.limit
      && t.offered == if s.done then s.offered else s.offered + [m]
  {
    hide SenderControl.Inv, Ledger;
    SenderControl.SendInv(s, m);
    SendLedger(s, m);
    EnqueueEffect(s.(offered := s.offered + [m]), m);
  }

  lemma OfferKeeps(c: State, id: nat, m: Message, behind: set<nat>)
    requires Inv(c, behind) && id in behind && id in c.pool && m.index == (c.next + TWO_32 - 1) % TWO_32
    ensures var d := Offer(c, id, m);
      Inv(d, behind - {id}) && d.log == c.log + [(id, m)] && d.next == c.next && d.made == c.made
      && d.pool.Keys == c.pool.Keys
  {
    hide SoundSender, S.Send;
    OfferSound(c.pool[id], m, id in c.senders, c.next);
    var d := Offer(c, id, m);
    assert Sound(d, behind - {id});
  }

  function Members(ids: seq<nat>): set<nat> { set id | id in ids }

  /** The calls a message makes: one for each member of the snapshot, in order. */
  function Calls(ids: seq<nat>, m: Message): seq<(nat, Message)> {
    if ids == [] then [] else Calls(Init(ids), m) + [(Last(ids), m)]
  }

  lemma {:induction false} FanOutKeeps(c: State, done: seq<nat>, todo: seq<nat>, m: Message,
                                       between: nat -> seq<Op>, w: nat -> Writer)
    requires Distinct(done + todo) && Inv(c, Members(done + todo)) && m.index == (c.next + TWO_32 - 1) % TWO_32
    requires forall id :: id in done + todo ==> id in c.pool
    ensures var d := FanOut(c, done, m, between, w);
      Inv(d, Members(todo)) && d.log == c.log + Calls(done, m) && d.next == c.next
      && c.made <= d.made && c.pool.Keys <= d.pool.Keys
  {
    hide SoundSender, Listed, Sound, ApplyAll, Offer;
    if done == [] {
      assert done + todo == todo;
    } else {
      var id := Last(done);
      assert Init(done) + ([id] + todo) == done + todo;
      FanOutKeeps(c, Init(done), [id] + todo, m, between, w);
      var d := FanOut(c, Init(done), m, between, w);
      OfferKeeps(d, id, m, Members([id] + todo));
      assert Members([id] + todo) - {id} == Members(todo) by { LastIsNew(done, todo); }
      KnownAreMade(d);
      assert forall x :: x in todo ==> x in done + todo;
      ApplyAllKeeps(Offer(d, id, m), between(|done| - 1), w, Members(todo));
    }
  }

  lemma LastIsNew(done: seq<nat>, todo: seq<nat>)
    requires done != [] && Distinct(done + todo)
    ensures Last(done) !in todo
  {
    var ids := done + todo;
    assert ids[|done| - 1] == Last(done);
    assert forall i :: 0 <= i < |todo| ==> ids[|done| + i] == todo[i];
  }

  lemma KnownAreMade(c: State)
    requires exists b :: Inv(c, b)
    ensures forall id :: id in c.pool ==> id < c.made
  {
  }

  /** One message: every sender listed when it was sent is handed it exactly once, in list order,
      whatever is made, dropped or closed meanwhile; and the list stays sound. */
  lemma SendReachesAll(c: State, m: Message, between: nat -> seq<Op>, w: nat -> Writer)
    requires Inv(c, {})
    ensures var d := Send(c, m, between, w);
      && Inv(d, {})
      && d.log == c.log + Calls(c.senders, m.(index := c.next))
      && d.next == (c.next + 1) % TWO_32
  {
    hide FanOut;
    var c1 := c.(next := (c.next + 1) % TWO_32);
    NextIsLate(c, c1);
    assert c.senders + [] == c.senders;
    FanOutKeeps(c1, c.senders, [], m.(index := c.next), between, w);
    assert Members([]) == {};
  }

  /** When the counter moves on, the listed senders become late. */
  lemma NextIsLate(c: State, c1: State)
    requires Inv(c, {}) && c1 == c.(next := (c.next + 1) % TWO_32)
    ensures Inv(c1, Members(c1.senders))
    ensures (c1.next + TWO_32 - 1) % TWO_32 == c.next
  {
    hide SenderControl.Inv, Ledger, Gaps.Chain;
  }

  /* ---------- Backlog ---------- */

  lemma {:induction false} SetLimitsSpec(pool: map<nat, S.State>, ids: seq<nat>, b: int, keep: nat -> seq<bool>)
    requires Distinct(ids) && forall id :: id in ids ==> id in pool
    ensures SetLimits(pool, ids, b, keep).Keys == pool.Keys
    ensures forall id :: id in pool ==>
      SetLimits(pool, ids, b, keep)[id] == if id in ids then S.SetBacklog(pool[id], b, keep(id)) else pool[id]
  {
    hide S.SetBacklog;
    if ids != [] {
      var rest := Init(ids);
      assert Distinct(rest) && Last(ids) !in rest;
      assert forall id :: id in ids <==> id in rest || id == Last(ids) by { assert ids == rest + [Last(ids)]; }
      SetLimitsSpec(pool, rest, b, keep);
    }
  }

  lemma BacklogSound(s: S.State, b: int, keep: seq<bool>, served: bool, late: bool, next: uint32)
    requires SoundSender(s, served, late, next)
    ensures var t := S.SetBacklog(s, b, keep);
      SoundSender(t, served, late, next) && t.open == s.open && t.limit == S.NormalizeBacklog(b)
  {
    hide Ledger, Gaps.Chain, Select, Reject;
    SenderControl.StepInv(s, S.DoSetBacklog(b, keep), (i, len) => WriteError);
    BacklogLedger(s, b, keep);
  }

  /** After a change of backlog every listed sender has the new one, and all stay sound. */
  lemma SetBacklogKeeps(c: State, backlog: int, keep: nat -> seq<bool>)
    requires Inv(c, {})
    ensures Inv(SetBacklog(c, backlog, keep), {})
    ensures SetBacklog(c, backlog, keep).backlog == S.NormalizeBacklog(backlog)
  {
    hide SoundSender, S.SetBacklog, S.NormalizeBacklog;
    var b := S.NormalizeBacklog(backlog);
    NormalizeTwice(backlog);
    if c.backlog != b {
      SetLimitsSpec(c.pool, c.senders, b, keep);
      forall id | id in c.pool {
        BacklogSound(c.pool[id], b, keep(id), id in c.senders || id in {}, id in {}, c.next);
      }
    }
  }

  /* ---------- What reaches a sender ---------- */

  /** The messages a sender was handed. */
  function CallsTo(log: seq<(nat, Message)>, id: nat): seq<Message> {
    if log == [] then []
    else CallsTo(Init(log), id) + if Last(log).0 == id then [Last(log).1] else []
  }

  /** The messages a sender was handed before it ceased to accept any, at its close or when its
      connection was lost. */
  function CallsBeforeClose(c: State, id: nat): seq<Message> {
    if id in c.closedAt && c.closedAt[id] <= |c.log| then CallsTo(c.log[..c.closedAt[id]], id)
    else CallsTo(c.log, id)
  }

  /** A sender has accepted exactly these. */
  ghost predicate Accepts(c: State, id: nat, s: S.State)
  {
    && (s.done <==> id in c.closedAt)
    && (s.done ==> c.closedAt[id] <= |c.log|)
    && s.offered == CallsBeforeClose(c, id)
  }

  ghost predicate Accepted(c: State)
  {
    && (forall i :: 0 <= i < |c.log| ==> c.log[i].0 < c.made)
    && (forall id :: id in c.closedAt ==> id < c.made)
    && (forall id :: id in c.pool ==> Accepts(c, id, c.pool[id]))
  }

  lemma {:induction false} NeverCalled(log: seq<(nat, Message)>, id: nat)
    requires forall i :: 0 <= i < |log| ==> log[i].0 < id
    ensures CallsTo(log, id) == []
  {
    if log != [] {
      assert Last(log).0 < id;
      NeverCalled(Init(log), id);
    }
  }

  lemma CallsToSnoc(log: seq<(nat, Message)>, id: nat, m: Message, x: nat)
    ensures CallsTo(log + [(id, m)], x) == if x == id then CallsTo(log, x) + [m] else CallsTo(log, x)
  {
    assert Init(log + [(id, m)]) == log;
  }

  /** A quiet step accepts nothing, and if it is the close it is noted. */
  lemma PokeAccepts(c: State, id: nat, e: S.Event, o: Writer, behind: set<nat>)
    requires Inv(c, behind) && Accepted(c) && id in c.pool && S.Enabled(c.pool[id], e) && Quiet(e)
    ensures var t := S.Step(c.pool[id], e, o); Accepts(Noted(c, id, t), id, t)
  {
    hide S.Step, SoundSender, CallsTo;
    InPool(c, id, behind);
    QuietSound(c.pool[id], e, o, id in c.senders || id in behind, id in behind, c.next);
    if c.pool[id].done { SenderControl.StepStaysDone(c.pool[id], e, o); }
    assert c.log[..|c.log|] == c.log;
  }

  lemma PokeAccepted(c: State, id: nat, e: S.Event, w: nat -> Writer, behind: set<nat>)
    requires Inv(c, behind) && Accepted(c) && id in c.pool && S.Enabled(c.pool[id], e) && Quiet(e)
    ensures Accepted(Poke(c, id, e, w))
  {
    hide S.Step, Sound, CallsTo;
    PokeAccepts(c, id, e, w(id), behind);
    hide Inv, Quiet, S.Enabled;
  }

  lemma ApplyAccepted(c: State, op: Op, w: nat -> Writer, behind: set<nat>)
    requires Inv(c, behind) && Accepted(c)
    ensures Accepted(Apply(c, op, w))
  {
    hide S.Step, Sound, Poke, CallsTo;
    if Possible(c, op) {
      match op
      case MakeSender => NeverCalled(c.log, c.made);
      case DropSender(id) =>
      case AtSender(id, e) => PokeAccepted(c, id, e, w, behind);
    }
  }

  lemma {:induction false} ApplyAllAccepted(c: State, ops: seq<Op>, w: nat -> Writer, behind: set<nat>)
    requires Inv(c, behind) && (forall id :: id in behind ==> id < c.made) && Accepted(c)
    ensures Accepted(ApplyAll(c, ops, w))
  {
    hide Inv, Apply, Accepted;
    if ops != [] {
      ApplyAllKeeps(c, Init(ops), w, behind);
      ApplyAllAccepted(c, Init(ops), w, behind);
      ApplyAccepted(ApplyAll(c, Init(ops), w), Last(ops), w, behind);
    }
  }

  lemma OfferAccepted(c: State, id: nat, m: Message)
    requires Listed(c) && Accepted(c)
    ensures Accepted(Offer(c, id, m))
  {
    hide CallsTo, CallsBeforeClose, S.NormalizeBacklog, Distinct, S.Send;
    if id in c.pool {
      var d := Offer(c, id, m);
      forall x | x in d.pool
        ensures Accepts(d, x, d.pool[x])
      {
        CallsGrow(c, d, id, m, x);
        OfferIs(c.pool[id], m);
      }
    }
  }

  lemma OfferIs(s: S.State, m: Message)
    ensures S.Send(s, m).done == s.done
    ensures S.Send(s, m).offered == if s.done then s.offered else s.offered + [m]
  {
  }

  /** A call counts for the sender it is made to, unless that has ceased to accept messages. */
  lemma CallsGrow(c: State, d: State, id: nat, m: Message, x: nat)
    requires d.log == c.log + [(id, m)] && d.closedAt == c.closedAt && (x in c.closedAt ==> c.closedAt[x] <= |c.log|)
    ensures CallsBeforeClose(d, x) ==
            if x == id && x !in c.closedAt then CallsBeforeClose(c, x) + [m] else CallsBeforeClose(c, x)
  {
    hide CallsTo;
    if x in c.closedAt {
      assert (c.log + [(id, m)])[..c.closedAt[x]] == c.log[..c.closedAt[x]];
    } else {
      CallsToSnoc(c.log, id, m, x);
    }
  }

  lemma {:induction false} FanOutAccepted(c: State, done: seq<nat>, todo: seq<nat>, m: Message,
                                          between: nat -> seq<Op>, w: nat -> Writer)
    requires Distinct(done + todo) && Inv(c, Members(done + todo)) && m.index == (c.next + TWO_32 - 1) % TWO_32
    requires (forall id :: id in done + todo ==> id in c.pool) && Accepted(c)
    ensures Accepted(FanOut(c, done, m, between, w))
  {
    hide SoundSender, Listed, Sound, ApplyAll, Offer, Accepted;
    if done != [] {
      var id := Last(done);
      assert Init(done) + ([id] + todo) == done + todo;
      FanOutKeeps(c, Init(done), [id] + todo, m, between, w);
      FanOutAccepted(c, Init(done), [id] + todo, m, between, w);
      var d := FanOut(c, Init(done), m, between, w);
      OfferKeeps(d, id, m, Members([id] + todo));
      OfferAccepted(d, id, m);
      assert Members([id] + todo) - {id} == Members(todo) by { LastIsNew(done, todo); }
      KnownAreMade(d);
      assert forall x :: x in todo ==> x in done + todo;
      ApplyAllAccepted(Offer(d, id, m), between(|done| - 1), w, Members(todo));
    }
  }

  /** Fan-out keeps the accounts of every sender. */
  lemma SendAccepted(c: State, m: Message, between: nat -> seq<Op>, w: nat -> Writer)
    requires Inv(c, {}) && Accepted(c)
    ensures Accepted(Send(c, m, between, w))
  {
    hide FanOut, SoundSender, CallsTo;
    var c1 := c.(next := (c.next + 1) % TWO_32);
    NextIsLate(c, c1);
    assert c.senders + [] == c.senders;
    FanOutAccepted(c1, c.senders, [], m.(index := c.next), between, w);
  }

  lemma SetBacklogAccepted(c: State, backlog: int, keep: nat -> seq<bool>)
    requires Inv(c, {}) && Accepted(c)
    ensures Accepted(SetBacklog(c, backlog, keep))
  {
    hide Sound, CallsTo, Select, Reject, S.NormalizeBacklog;
    SetLimitsSpec(c.pool, c.senders, S.NormalizeBacklog(backlog), keep);
  }

  /* ---------- Every run of the core ---------- */

  datatype Event =
    | Log(m: Message, between: nat -> seq<Op>)
    | Meanwhile(op: Op)
    | Limit(backlog: int, keep: nat -> seq<bool>)

  function Step(c: State, e: Event, w: nat -> Writer): State
    requires forall id :: id in c.senders ==> id in c.pool
  {
    match e
    case Log(m, between) => Send(c, m, between, w)
    case Meanwhile(op) => Apply(c, op, w)
    case Limit(backlog, keep) => SetBacklog(c, backlog, keep)
  }

  /** `d` can be reached from `c` by these events. */
  ghost predicate Reaches(c: State, es: seq<Event>, w: nat -> Writer, d: State)
    decreases |es|
  {
    if es == [] then d == c
    else (forall id :: id in c.senders ==> id in c.pool) && Reaches(Step(c, es[0], w), es[1..], w, d)
  }

  lemma StepKeeps(c: State, e: Event, w: nat -> Writer)
    requires Inv(c, {}) && Accepted(c) && forall id :: id in c.senders ==> id in c.pool
    ensures Inv(Step(c, e, w), {}) && Accepted(Step(c, e, w))
  {
    hide Inv, Accepted, Send, Apply, SetBacklog;
    match e
    case Log(m, between) =>
      SendReachesAll(c, m, between, w);
      SendAccepted(c, m, between, w);
    case Meanwhile(op) =>
      ApplyKeeps(c, op, w, {});
      ApplyAccepted(c, op, w, {});
    case Limit(backlog, keep) =>
      SetBacklogKeeps(c, backlog, keep);
      SetBacklogAccepted(c, backlog, keep);
  }

  lemma {:induction false} RunKeeps(c: State, es: seq<Event>, w: nat -> Writer, d: State)
    requires Inv(c, {}) && Accepted(c) && Reaches(c, es, w, d)
    ensures Inv(d, {}) && Accepted(d)
    decreases |es|
  {
    hide Inv, Accepted, Step;
    if es != [] {
      StepKeeps(c, es[0], w);
      RunKeeps(Step(c, es[0], w), es[1..], w, d);
    }
  }

  lemma {:induction false} CallsToPrefix(log: seq<(nat, Message)>, n: nat, id: nat)
    requires n <= |log|
    ensures CallsTo(log[..n], id) <= CallsTo(log, id)
    decreases |log|
  {
    if n < |log| {
      CallsToPrefix(Init(log), n, id);
      assert Init(log)[..n] == log[..n];
    } else {
      assert log[..n] == log;
    }
  }

  /** In every run of the core: the list has no duplicates, a handler for exactly its members, and
      only open senders with the core's backlog; and every sender ever made has accepted the
      messages it was handed before its close, numbered one after the other. */
  lemma CoreIsSound(backlog: int, es: seq<Event>, w: nat -> Writer, d: State)
    requires Reaches(Fresh(backlog), es, w, d)
    ensures Distinct(d.senders) && forall id :: id in d.handlers <==> id in d.senders
    ensures forall id :: id in d.senders ==> id in d.pool && d.pool[id].open && d.pool[id].limit == d.backlog
    ensures forall id :: id in d.pool ==>
      && d.pool[id].offered == CallsBeforeClose(d, id) && (d.pool[id].done <==> id in d.closedAt)
      && CallsBeforeClose(d, id) <= CallsTo(d.log, id)
      && Ledger(d.pool[id]) && Gaps.Chain(d.pool[id].offered)
      && var ms := d.pool[id].offered; (ms != [] ==> ms[0].index + |ms| <= TWO_32) ==> Gaps.Consecutive(ms)
  {
    FreshInv(backlog);
    RunKeeps(Fresh(backlog), es, w, d);
    hide Ledger, SenderControl.Inv, Gaps.Chain, Gaps.Consecutive, CallsTo;
    forall id | id in d.pool
      ensures CallsBeforeClose(d, id) <= CallsTo(d.log, id)
    {
      if id in d.closedAt && d.closedAt[id] <= |d.log| { CallsToPrefix(d.log, d.closedAt[id], id); }
    }
    forall id | id in d.pool
      ensures var ms := d.pool[id].offered; (ms != [] ==> ms[0].index + |ms| <= TWO_32) ==> Gaps.Consecutive(ms)
    {
      var ms := d.pool[id].offered;
      if ms != [] ==> ms[0].index + |ms| <= TWO_32 {
        ChainIsConsecutive(ms);
      }
    }
  }

  /** The numbers are consecutive as long as the counter does not wrap. */
  lemma {:induction false} ChainIsConsecutive(ms: seq<Message>)
    requires Gaps.Chain(ms) && (ms != [] ==> ms[0].index + |ms| <= TWO_32)
    ensures Gaps.Consecutive(ms)
  {
    if |ms| > 1 {
      var a := Init(ms);
      assert a[0] == ms[0];
      assert Gaps.Chain(a) by { assert forall i :: 0 <= i < |a| ==> a[i] == ms[i]; }
      ChainIsConsecutive(a);
      assert ms[|ms| - 2] == a[|a| - 1];
      forall i | 0 <= i < |ms|
        ensures ms[i].index == ms[0].index + i
      {
        if i < |a| { assert ms[i] == a[i]; }
      }
    }
  }
}
