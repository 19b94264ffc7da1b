/** The server's category table, the events it emits, and what they mean to a table kept by id. */
module Categories {
  import opened Wire

  /** The three bits of DBUSLOG_CATEGORY_FLAG_MASK; the other bits are dropped at creation. */
  datatype Flags = Flags(enabled: bool, enabledByDefault: bool, hideName: bool)

  /** What a client can see of a category. */
  datatype Entry = Entry(name: string, id: uint32, flags: Flags)

  datatype Category = Category(entry: Entry, level: nat)

  const LEVEL_COUNT: nat := 9

  datatype Event =
    | Added(name: string, id: uint32, flags: Flags)
    | Removed(id: uint32)
    | Changed(id: uint32, flags: Flags)

  datatype Table = Table(
    cats: map<string, Category>,
    lastCid: uint32,
    // history
    events: seq<Event>,
    created: nat)

  const EMPTY := Table(map[], 0, [], 0)

  /** The next id; zero is skipped when the counter wraps. */
  function NextCid(last: uint32): (id: uint32)
    ensures id != 0 && (id == (last + 1) % TWO_32 || (last + 1 == TWO_32 && id == 1))
  {
    if last + 1 < TWO_32 then last + 1 else 1
  }

  /* ---------- What the server does ---------- */

  /** A category that starts enabled is enabled by default. */
  function InitialFlags(flags: Flags): Flags {
    if flags.enabled then flags.(enabledByDefault := true) else flags
  }

  function NewCategory(t: Table, name: string, level: int, flags: Flags): Table {
    if name in t.cats then t
    else
      var id := NextCid(t.lastCid);
      var e := Entry(name, id, InitialFlags(flags));
      var l := if 0 <= level < LEVEL_COUNT then level else 0;
      t.(cats := t.cats[name := Category(e, l)], lastCid := id,
         events := t.events + [Added(name, id, e.flags)], created := t.created + 1)
  }

  function RemoveCategory(t: Table, name: string): Table {
    if name in t.cats then
      t.(cats := t.cats - {name}, events := t.events + [Removed(t.cats[name].entry.id)])
    else t
  }

  function RemovedAll(order: seq<Category>): seq<Event> {
    if order == [] then [] else [Removed(order[0].entry.id)] + RemovedAll(order[1..])
  }

  /** All categories go at once; the events follow in the given order. */
  function RemoveAll(t: Table, order: seq<Category>): Table {
    t.(cats := map[], events := t.events + RemovedAll(order))
  }

  function SetEnabled(t: Table, name: string, enable: bool): Table {
    if name in t.cats && t.cats[name].entry.flags.enabled != enable then
      var e := t.cats[name].entry;
      var e' := e.(flags := e.flags.(enabled := enable));
      t.(cats := t.cats[name := t.cats[name].(entry := e')], events := t.events + [Changed(e.id, e'.flags)])
    else t
  }

  /** Level changes are not among the events a client follows. */
  function SetLevel(t: Table, name: string, level: int): Table {
    if name in t.cats && 0 <= level < LEVEL_COUNT then
      t.(cats := t.cats[name := t.cats[name].(level := level)])
    else t
  }

  datatype Op =
    | DoNew(name: string, level: int, flags: Flags)
    | DoRemove(name: string)
    | DoRemoveAll(order: seq<Category>)
    | DoEnable(name: string, enable: bool)
    | DoLevel(name: string, level: int)

  /** An order names every category exactly once. */
  ghost predicate Enumerates(order: seq<Category>, cats: map<string, Category>)
  {
    && (forall c :: c in order <==> c in cats.Values)
    && (forall i, j :: 0 <= i < j < |order| ==> order[i] != order[j])
  }

  ghost predicate Possible(t: Table, op: Op)
  {
    op.DoRemoveAll? ==> Enumerates(op.order, t.cats)
  }

  function Apply(t: Table, op: Op): Table {
    match op
    case DoNew(name, level, flags) => NewCategory(t, name, level, flags)
    case DoRemove(name) => RemoveCategory(t, name)
    case DoRemoveAll(order) => RemoveAll(t, order)
    case DoEnable(name, enable) => SetEnabled(t, name, enable)
    case DoLevel(name, level) => SetLevel(t, name, level)
  }

  /* ---------- The table's own invariant ---------- */

  /** Keys are names, ids are nonzero, distinct, and none is newer than the last one handed out. */
  ghost predicate Inv(t: Table)
  {
    && (forall n :: n in t.cats ==> t.cats[n].entry.name == n && 0 < t.cats[n].entry.id <= t.lastCid)
    && (forall m, n :: m in t.cats && n in t.cats && t.cats[m].entry.id == t.cats[n].entry.id ==> m == n)
    && t.lastCid == t.created
  }

  /** Any step but a creation keeps the invariant, and so does a creation while ids last. */
  lemma ApplyInv(t: Table, op: Op)
    requires Inv(t) && Possible(t, op) && (op.DoNew? ==> t.created + 1 < TWO_32)
    ensures Inv(Apply(t, op))
  {
    match op
    case DoNew(name, level, flags) =>
    case DoRemove(name) =>
    case DoRemoveAll(order) =>
    case DoEnable(name, enable) =>
    case DoLevel(name, level) =>
  }

  /** An id is never handed out twice: a new one is larger than every id ever seen in an event. */
  ghost predicate EventsOld(t: Table)
  {
    forall i :: 0 <= i < |t.events| ==> t.events[i].id <= t.lastCid
  }

  lemma IdsNeverReused(t: Table, op: Op)
    requires Inv(t) && EventsOld(t) && Possible(t, op) && (op.DoNew? ==> t.created + 1 < TWO_32)
    ensures EventsOld(Apply(t, op)) && t.lastCid <= Apply(t, op).lastCid
    ensures var u := Apply(t, op);
      forall i :: |t.events| <= i < |u.events| && u.events[i].Added? ==> u.events[i].id > t.lastCid
  {
    if op.DoRemoveAll? {
      RemovedAllIds(op.order);
      EnumeratedIds(t, op.order);
    }
  }

  lemma {:induction false} RemovedAllIds(order: seq<Category>)
    ensures |RemovedAll(order)| == |order|
    ensures forall i :: 0 <= i < |order| ==> RemovedAll(order)[i] == Removed(order[i].entry.id)
  {
    if order != [] {
      RemovedAllIds(order[1..]);
    }
  }

  /** All categories but this one. */
  ghost predicate Elsewhere(t: Table, u: Table, name: string)
  {
    && (forall n :: n != name ==> (n in t.cats <==> n in u.cats))
    && (forall n :: n != name && n in t.cats ==> u.cats[n] == t.cats[n])
  }

  /** A known name is left alone. A new one gets the next id, keeps its bits, is enabled by default if it
      starts enabled, has the level asked for if that is in range, and is announced. */
  lemma NewEffect(t: Table, name: string, level: int, flags: Flags)
    ensures name in t.cats ==> NewCategory(t, name, level, flags) == t
    ensures name !in t.cats ==>
      var u := NewCategory(t, name, level, flags);
      && name in u.cats && Elsewhere(t, u, name) && u.created == t.created + 1
      && var c := u.cats[name];
         && c.entry.name == name && c.entry.id == u.lastCid == NextCid(t.lastCid)
         && c.entry.flags.enabled == flags.enabled && c.entry.flags.hideName == flags.hideName
         && c.entry.flags.enabledByDefault == (flags.enabled || flags.enabledByDefault)
         && c.level == (if 0 <= level < LEVEL_COUNT then level else 0)
         && u.events == t.events + [Added(name, c.entry.id, c.entry.flags)]
  {
  }

  /** A level in range of a known category is set, silently; otherwise nothing happens. */
  lemma LevelEffect(t: Table, name: string, level: int)
    ensures var u := SetLevel(t, name, level);
      && u.events == t.events && u.lastCid == t.lastCid && u.created == t.created && Elsewhere(t, u, name)
      && (name in t.cats && 0 <= level < LEVEL_COUNT ==>
            name in u.cats && u.cats[name].level == level && u.cats[name].entry == t.cats[name].entry)
      && (!(name in t.cats && 0 <= level < LEVEL_COUNT) ==> u == t)
  {
  }

  /** Enabling sets the one bit of a known category, and says so exactly if the bit changes. */
  lemma EnableEffect(t: Table, name: string, enable: bool)
    ensures var u := SetEnabled(t, name, enable);
      && u.lastCid == t.lastCid && u.created == t.created && Elsewhere(t, u, name)
      && (name in t.cats ==>
            && name in u.cats && u.cats[name].level == t.cats[name].level
            && u.cats[name].entry == t.cats[name].entry.(flags := u.cats[name].entry.flags)
            && u.cats[name].entry.flags == t.cats[name].entry.flags.(enabled := enable))
      && (name in t.cats && t.cats[name].entry.flags.enabled != enable ==>
            u.events == t.events + [Changed(t.cats[name].entry.id, u.cats[name].entry.flags)])
      && (!(name in t.cats && t.cats[name].entry.flags.enabled != enable) ==> u == t)
  {
  }

  /** Removing takes a known category away, and says so; an unknown one changes nothing. */
  lemma RemoveEffect(t: Table, name: string)
    ensures var u := RemoveCategory(t, name);
      && name !in u.cats && Elsewhere(t, u, name) && u.lastCid == t.lastCid && u.created == t.created
      && u.events == t.events + (if name in t.cats then [Removed(t.cats[name].entry.id)] else [])
  {
  }

  /* ---------- What the events mean to a table kept by id ---------- */

  type ById = map<uint32, Entry>

  function Follow(m: ById, e: Event): ById {
    match e
    case Added(name, id, flags) => m[id := Entry(name, id, flags)]
    case Removed(id) => m - {id}
    case Changed(id, flags) => if id in m then m[id := m[id].(flags := flags)] else m
  }

  function FollowAll(m: ById, es: seq<Event>): ById
    decreases |es|
  {
    if es == [] then m else FollowAll(Follow(m, es[0]), es[1..])
  }

  /** An event finds its category, or, if it announces one, the id and the name are new. */
  ghost predicate Fits(m: ById, e: Event)
  {
    match e
    case Added(name, id, flags) => id != 0 && id !in m && forall k :: k in m ==> m[k].name != name
    case _ => e.id in m
  }

  ghost predicate FitAll(m: ById, es: seq<Event>)
    decreases |es|
  {
    es == [] || (Fits(m, es[0]) && FitAll(Follow(m, es[0]), es[1..]))
  }

  /** The same categories, here by id and there by name. */
  ghost predicate Mirrors(m: ById, cats: map<string, Category>)
  {
    && (forall n :: n in cats ==> cats[n].entry.id in m && m[cats[n].entry.id] == cats[n].entry)
    && (forall k :: k in m ==> m[k].id == k && m[k].name in cats && cats[m[k].name].entry == m[k])
  }

  lemma {:induction false} FollowAllConcat(m: ById, a: seq<Event>, b: seq<Event>)
    ensures FollowAll(m, a + b) == FollowAll(FollowAll(m, a), b)
    ensures FitAll(m, a + b) <==> FitAll(m, a) && FitAll(FollowAll(m, a), b)
    decreases |a|
  {
    if a == [] {
      assert a + b == b;
    } else {
      assert (a + b)[0] == a[0] && (a + b)[1..] == a[1..] + b;
      FollowAllConcat(Follow(m, a[0]), a[1..], b);
    }
  }

  /** The events of one server step. */
  function NewEvents(t: Table, op: Op): seq<Event> {
    if |t.events| <= |Apply(t, op).events| then Apply(t, op).events[|t.events|..] else []
  }

  lemma EventsAppend(t: Table, op: Op)
    ensures Apply(t, op).events == t.events + NewEvents(t, op)
  {
  }

  /** Whoever mirrors the table and follows the events of one step mirrors the table after it. */
  lemma StepMirrored(t: Table, op: Op, m: ById)
    requires Inv(t) && Possible(t, op) && (op.DoNew? ==> t.created + 1 < TWO_32) && Mirrors(m, t.cats)
    ensures FitAll(m, NewEvents(t, op)) && Mirrors(FollowAll(m, NewEvents(t, op)), Apply(t, op).cats)
  {
    if op.DoRemoveAll? {
      RemoveAllMirrored(t, op.order, m);
    } else if Apply(t, op).events == t.events {
      assert NewEvents(t, op) == [];
      NoEventMirrored(t, op, m);
    } else {
      OneEventMirrored(t, op, m);
    }
  }

  lemma NoEventMirrored(t: Table, op: Op, m: ById)
    requires Inv(t) && !op.DoRemoveAll? && Apply(t, op).events == t.events && Mirrors(m, t.cats)
    ensures Mirrors(m, Apply(t, op).cats)
  {
  }

  lemma OneEventMirrored(t: Table, op: Op, m: ById)
    requires Inv(t) && !op.DoRemoveAll? && Apply(t, op).events != t.events && Mirrors(m, t.cats)
    requires op.DoNew? ==> t.created + 1 < TWO_32
    ensures FitAll(m, NewEvents(t, op)) && Mirrors(FollowAll(m, NewEvents(t, op)), Apply(t, op).cats)
  {
    var e := Apply(t, op).events[|t.events|];
    assert NewEvents(t, op) == [e];
    OneEvent(m, e);
    hide FitAll, FollowAll;
    match op
    case DoNew(name, level, flags) => AddMirrored(t, name, level, flags, m);
    case DoRemove(name) => RemoveMirrored(t, name, m);
    case DoEnable(name, enable) => EnableMirrored(t, name, enable, m);
  }

  lemma AddMirrored(t: Table, name: string, level: int, flags: Flags, m: ById)
    requires Inv(t) && name !in t.cats && Mirrors(m, t.cats) && t.created + 1 < TWO_32
    ensures var e := Added(name, NextCid(t.lastCid), InitialFlags(flags));
      Fits(m, e) && Mirrors(Follow(m, e), NewCategory(t, name, level, flags).cats)
  {
  }

  lemma RemoveMirrored(t: Table, name: string, m: ById)
    requires Inv(t) && name in t.cats && Mirrors(m, t.cats)
    ensures var e := Removed(t.cats[name].entry.id);
      Fits(m, e) && Mirrors(Follow(m, e), RemoveCategory(t, name).cats)
  {
  }

  lemma EnableMirrored(t: Table, name: string, enable: bool, m: ById)
    requires Inv(t) && name in t.cats && t.cats[name].entry.flags.enabled != enable && Mirrors(m, t.cats)
    ensures var e := Changed(t.cats[name].entry.id, t.cats[name].entry.flags.(enabled := enable));
      Fits(m, e) && Mirrors(Follow(m, e), SetEnabled(t, name, enable).cats)
  {
  }

  lemma RemoveAllMirrored(t: Table, order: seq<Category>, m: ById)
    requires Inv(t) && Enumerates(order, t.cats) && Mirrors(m, t.cats)
    ensures var es := NewEvents(t, DoRemoveAll(order)); FitAll(m, es) && FollowAll(m, es) == map[]
  {
    assert NewEvents(t, DoRemoveAll(order)) == RemovedAll(order);
    EnumeratedIds(t, order);
    forall k | k in m
      ensures exists i :: 0 <= i < |order| && order[i].entry.id == k
    {
      assert t.cats[m[k].name] in t.cats.Values;
      assert t.cats[m[k].name] in order;
    }
    RemoveEach(m, order);
  }

  lemma OneEvent(m: ById, e: Event)
    ensures FollowAll(m, [e]) == Follow(m, e) && (FitAll(m, [e]) <==> Fits(m, e))
  {
    assert [e][1..] == [];
  }

  lemma EnumeratedIds(t: Table, order: seq<Category>)
    requires Inv(t) && Enumerates(order, t.cats)
    ensures forall i :: 0 <= i < |order| ==>
      order[i].entry.name in t.cats && t.cats[order[i].entry.name] == order[i]
    ensures forall i, j :: 0 <= i < j < |order| ==> order[i].entry.id != order[j].entry.id
  {
    forall i | 0 <= i < |order|
      ensures order[i].entry.name in t.cats && t.cats[order[i].entry.name] == order[i]
    {
      assert order[i] in t.cats.Values;
    }
  }

  /** Following the removal of distinct ids that are all there, and are all there is. */
  lemma {:induction false} RemoveEach(m: ById, order: seq<Category>)
    requires forall i :: 0 <= i < |order| ==> order[i].entry.id in m
    requires forall i, j :: 0 <= i < j < |order| ==> order[i].entry.id != order[j].entry.id
    requires forall k :: k in m ==> exists i :: 0 <= i < |order| && order[i].entry.id == k
    ensures FitAll(m, RemovedAll(order)) && FollowAll(m, RemovedAll(order)) == map[]
  {
    if order == [] {
      assert m == map[];
    } else {
      var id, rest := order[0].entry.id, order[1..];
      var m' := m - {id};
      forall k | k in m'
        ensures exists i :: 0 <= i < |rest| && rest[i].entry.id == k
      {
        var i :| 0 <= i < |order| && order[i].entry.id == k;
        assert rest[i - 1].entry.id == k;
      }
      RemoveEach(m', rest);
    }
  }
}
