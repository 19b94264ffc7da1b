/** What the events of a whole run say: an id belongs to one category for ever, and the bits a category
    was created with never change. */
module CategoryHistory {
  import opened Wire
  import opened Categories

  /** Ids last for 2^32 - 1 creations. */
  ghost predicate Enabled(t: Table, op: Op)
  {
    Possible(t, op) && (op.DoNew? ==> t.created + 1 < TWO_32)
  }

  /** `u` can be reached from `t` by these operations. */
  ghost predicate Reaches(t: Table, ops: seq<Op>, u: Table)
    decreases |ops|
  {
    if ops == [] then u == t
    else Enabled(t, ops[0]) && Reaches(Apply(t, ops[0]), ops[1..], u)
  }

  /** The bits that are fixed at creation. */
  predicate SameBits(f: Flags, g: Flags) { f.enabledByDefault == g.enabledByDefault && f.hideName == g.hideName }

  ghost predicate Starts(e: Event, id: nat) { e.Added? && e.id == id }

  /** Every id is announced once, is nonzero, and is silent before that and after its removal. */
  ghost predicate Ids(es: seq<Event>)
  {
    && (forall i :: 0 <= i < |es| && es[i].Added? ==> es[i].id != 0)
    && (forall i, j :: 0 <= i < j < |es| && es[j].Added? ==> es[i].id != es[j].id)
    && (forall i, j :: 0 <= i < j < |es| && es[i].Removed? ==> es[i].id != es[j].id)
    && (forall j :: 0 <= j < |es| && !es[j].Added? ==> exists i :: 0 <= i < j && Starts(es[i], es[j].id))
  }

  /** Changes carry the bits announced with the id. */
  ghost predicate Bits(es: seq<Event>)
  {
    forall i, j :: 0 <= i < |es| && 0 <= j < |es| && es[i].Added? && es[j].Changed? && es[i].id == es[j].id ==>
      SameBits(es[i].flags, es[j].flags)
  }

  ghost predicate Consistent(es: seq<Event>) { Ids(es) && Bits(es) }

  /** This category was announced as it is, but for the enabled bit, and has not been removed. */
  ghost predicate Current(es: seq<Event>, x: Entry)
  {
    && (exists i :: 0 <= i < |es| && Starts(es[i], x.id) && es[i].name == x.name && SameBits(es[i].flags, x.flags))
    && (forall i :: 0 <= i < |es| && es[i].id == x.id ==> !es[i].Removed?)
  }

  ghost predicate History(t: Table)
  {
    && Categories.Inv(t) && EventsOld(t) && Consistent(t.events)
    && forall n :: n in t.cats ==> Current(t.events, t.cats[n].entry)
  }

  /* ---------- One more event ---------- */

  lemma StartsStay(es: seq<Event>, e: Event)
    requires Ids(es)
    ensures var fs := es + [e];
      forall j :: 0 <= j < |es| && !fs[j].Added? ==> exists i :: 0 <= i < j && Starts(fs[i], fs[j].id)
  {
    var fs := es + [e];
    forall j | 0 <= j < |es| && !fs[j].Added?
      ensures exists i :: 0 <= i < j && Starts(fs[i], fs[j].id)
    {
      assert !es[j].Added?;
      var i :| 0 <= i < j && Starts(es[i], es[j].id);
      assert Starts(fs[i], fs[j].id);
    }
  }

  lemma ConsistentAdded(es: seq<Event>, e: Event)
    requires Consistent(es) && e.Added? && e.id != 0 && forall i :: 0 <= i < |es| ==> es[i].id != e.id
    ensures Consistent(es + [e])
  {
    StartsStay(es, e);
  }

  /** A category that is current may be changed or removed. */
  lemma ConsistentLater(es: seq<Event>, e: Event, x: Entry)
    requires Consistent(es) && Current(es, x) && !e.Added? && e.id == x.id
    requires e.Changed? ==> SameBits(e.flags, x.flags)
    ensures Consistent(es + [e])
  {
    IdsLater(es, e, x);
    BitsLater(es, e, x);
  }

  lemma IdsLater(es: seq<Event>, e: Event, x: Entry)
    requires Ids(es) && Current(es, x) && !e.Added? && e.id == x.id
    ensures Ids(es + [e])
  {
    var fs := es + [e];
    StartsStay(es, e);
    var first :| 0 <= first < |es| && Starts(es[first], x.id);
    assert Starts(fs[first], fs[|es|].id);
  }

  lemma BitsLater(es: seq<Event>, e: Event, x: Entry)
    requires Consistent(es) && Current(es, x) && !e.Added? && e.id == x.id
    requires e.Changed? ==> SameBits(e.flags, x.flags)
    ensures Bits(es + [e])
  {
    forall i | 0 <= i < |es| && es[i].Added? && es[i].id == x.id
      ensures SameBits(es[i].flags, x.flags)
    {
      var first :| 0 <= first < |es| && Starts(es[first], x.id) && SameBits(es[first].flags, x.flags);
      assert i == first;
    }
  }

  /** What is current stays current, unless it is removed. */
  lemma CurrentSnoc(es: seq<Event>, e: Event, x: Entry)
    requires Current(es, x) && !(e.Removed? && e.id == x.id)
    ensures Current(es + [e], x)
  {
    var fs := es + [e];
    var i :| 0 <= i < |es| && Starts(es[i], x.id) && es[i].name == x.name && SameBits(es[i].flags, x.flags);
    assert fs[i] == es[i];
  }

  /** Only the name, the id and the bits fixed at creation matter. */
  lemma CurrentSame(es: seq<Event>, x: Entry, y: Entry)
    requires Current(es, x) && x.id == y.id && x.name == y.name && SameBits(x.flags, y.flags)
    ensures Current(es, y)
  {
  }

  /* ---------- One operation ---------- */

  lemma NewHistory(t: Table, name: string, level: int, flags: Flags)
    requires History(t) && t.created + 1 < TWO_32 && name !in t.cats
    ensures History(NewCategory(t, name, level, flags))
  {
    hide Consistent, Current;
    var u := NewCategory(t, name, level, flags);
    var x := u.cats[name].entry;
    var e := Added(name, x.id, x.flags);
    assert u.events == t.events + [e];
    ConsistentAdded(t.events, e);
    forall n | n in u.cats
      ensures Current(u.events, u.cats[n].entry)
    {
      if n == name { CurrentNew(t.events, x); } else { CurrentSnoc(t.events, e, t.cats[n].entry); }
    }
  }

  lemma CurrentNew(es: seq<Event>, x: Entry)
    requires forall i :: 0 <= i < |es| ==> es[i].id != x.id
    ensures Current(es + [Added(x.name, x.id, x.flags)], x)
  {
    var fs := es + [Added(x.name, x.id, x.flags)];
    assert Starts(fs[|es|], x.id);
  }

  lemma RemoveHistory(t: Table, name: string)
    requires History(t) && name in t.cats
    ensures History(RemoveCategory(t, name))
  {
    hide Consistent, Current;
    var u, x := RemoveCategory(t, name), t.cats[name].entry;
    ConsistentLater(t.events, Removed(x.id), x);
    forall n | n in u.cats
      ensures Current(u.events, u.cats[n].entry)
    {
      CurrentSnoc(t.events, Removed(x.id), t.cats[n].entry);
    }
  }

  lemma EnableHistory(t: Table, name: string, enable: bool)
    requires History(t) && name in t.cats && t.cats[name].entry.flags.enabled != enable
    ensures History(SetEnabled(t, name, enable))
  {
    hide Consistent, Current;
    var u, x := SetEnabled(t, name, enable), t.cats[name].entry;
    var y := u.cats[name].entry;
    var e := Changed(x.id, y.flags);
    ConsistentLater(t.events, e, x);
    forall n | n in u.cats
      ensures Current(u.events, u.cats[n].entry)
    {
      CurrentSnoc(t.events, e, t.cats[n].entry);
      if n == name { CurrentSame(u.events, x, y); }
    }
  }

  lemma LevelHistory(t: Table, name: string, level: int)
    requires History(t)
    ensures History(SetLevel(t, name, level))
  {
    hide Consistent, Current;
  }

  /** Removing everything is removing one category after the other. */
  lemma {:induction false} RemoveAllHistory(t: Table, order: seq<Category>)
    requires History(t) && Enumerates(order, t.cats)
    ensures History(RemoveAll(t, order))
    decreases |order|
  {
    hide Consistent, Current;
    if order == [] {
      ValuesAreListed(t.cats);
      assert t.cats == map[];
      assert t.events + RemovedAll(order) == t.events;
    } else {
      EnumeratedIds(t, order);
      var name, rest := order[0].entry.name, order[1..];
      RemoveHistory(t, name);
      EnumeratesRest(t, order);
      RemoveAllHistory(RemoveCategory(t, name), rest);
      assert t.events + ([Removed(order[0].entry.id)] + RemovedAll(rest))
          == t.events + [Removed(order[0].entry.id)] + RemovedAll(rest);
    }
  }

  lemma ValuesAreListed(cats: map<string, Category>)
    ensures forall n :: n in cats ==> cats[n] in cats.Values
  {
  }

  lemma EnumeratesRest(t: Table, order: seq<Category>)
    requires Categories.Inv(t) && Enumerates(order, t.cats) && order != []
    requires forall i :: 0 <= i < |order| ==> order[i].entry.name in t.cats && t.cats[order[i].entry.name] == order[i]
    ensures Enumerates(order[1..], t.cats - {order[0].entry.name})
  {
    var rest, cats := order[1..], t.cats - {order[0].entry.name};
    forall c | c in rest
      ensures c in cats.Values
    {
      var i :| 0 < i < |order| && order[i] == c;
      assert order[0] != order[i];
      assert cats[c.entry.name] == c;
    }
    forall c | c in cats.Values
      ensures c in rest
    {
      var n :| n in cats && cats[n] == c;
      assert t.cats[n] in t.cats.Values;
      var i :| 0 <= i < |order| && order[i] == c;
      assert i > 0;
      assert rest[i - 1] == c;
    }
  }

  lemma ApplyHistory(t: Table, op: Op)
    requires History(t) && Enabled(t, op)
    ensures History(Apply(t, op))
  {
    hide Consistent, Current, Enumerates;
    match op
    case DoNew(name, level, flags) => if name !in t.cats { NewHistory(t, name, level, flags); }
    case DoRemove(name) => if name in t.cats { RemoveHistory(t, name); }
    case DoRemoveAll(order) => RemoveAllHistory(t, order);
    case DoEnable(name, enable) =>
      if name in t.cats && t.cats[name].entry.flags.enabled != enable { EnableHistory(t, name, enable); }
    case DoLevel(name, level) => LevelHistory(t, name, level);
  }

  lemma {:induction false} RunHistory(t: Table, ops: seq<Op>, u: Table)
    requires History(t) && Reaches(t, ops, u)
    ensures History(u)
    decreases |ops|
  {
    hide History, Apply, Enabled;
    if ops != [] {
      ApplyHistory(t, ops[0]);
      RunHistory(Apply(t, ops[0]), ops[1..], u);
    }
  }

  /* ---------- Every run ---------- */

  /** In every run the ids announced are nonzero and pairwise different, and nothing is said about an
      id before it is announced or after it has been removed. */
  lemma IdsAreForEver(ops: seq<Op>, t: Table)
    requires Reaches(EMPTY, ops, t)
    ensures var es := t.events;
      && (forall i :: 0 <= i < |es| && es[i].Added? ==> es[i].id != 0)
      && (forall i, j :: 0 <= i < j < |es| && es[i].Added? && es[j].Added? ==> es[i].id != es[j].id)
      && (forall j :: 0 <= j < |es| && !es[j].Added? ==> exists i :: 0 <= i < j && Starts(es[i], es[j].id))
      && (forall i, j :: 0 <= i < j < |es| && es[i].Removed? ==> es[i].id != es[j].id)
  {
    RunHistory(EMPTY, ops, t);
  }

  /** In every run each change of flags carries the enabled-by-default bit and the hide bit announced
      with the id, and so does the category in the table as long as it is there. */
  lemma DefaultIsImmutable(ops: seq<Op>, t: Table)
    requires Reaches(EMPTY, ops, t)
    ensures var es := t.events;
      && (forall i, j :: 0 <= i < |es| && 0 <= j < |es| && es[i].Added? && es[j].Changed? && es[i].id == es[j].id ==>
            i < j && SameBits(es[i].flags, es[j].flags))
      && (forall n :: n in t.cats ==> Current(es, t.cats[n].entry))
  {
    RunHistory(EMPTY, ops, t);
    var es := t.events;
    forall i, j | 0 <= i < |es| && 0 <= j < |es| && es[i].Added? && es[j].Changed? && es[i].id == es[j].id
      ensures i < j
    {
      assert i != j;
    }
  }
}
