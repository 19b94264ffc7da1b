/** The server's category table and the client's mirror of it as objects. */
module CategoryObjects {
  import opened Wire
  import opened Categories
  import M = Mirror
  import Replication
  import Resetting

  /** g_ptr_array_sort by name, for entries with distinct names. */
  method SortByName(values: seq<Entry>) returns (a: seq<Entry>)
    requires forall i, j :: 0 <= i < j < |values| ==> values[i].name != values[j].name
    ensures M.Sorted(a) && forall e :: e in a <==> e in values
  {
    a := [];
    for i := 0 to |values|
      invariant M.Sorted(a) && forall e :: e in a <==> e in values[..i]
    {
      var v := values[i];
      assert forall x :: x in a ==> x.name != v.name;
      M.InsertSorted(a, v);
      a := M.InsertAt(a, M.Place(a, v.name), v);
      assert values[..i + 1] == values[..i] + [v];
    }
    assert values[..|values|] == values;
  }

  /** The values of a table, in whatever order the table yields them. */
  method Values(table: ById) returns (a: seq<Entry>)
    requires forall k :: k in table ==> table[k].id == k
    ensures M.Lists(a, table) && forall i, j :: 0 <= i < j < |a| ==> a[i].id != a[j].id
  {
    a := [];
    var left := table.Keys;
    while left != {}
      invariant left <= table.Keys
      invariant forall e :: e in a ==> e.id in table && e.id !in left && table[e.id] == e
      invariant forall k :: k in table && k !in left ==> table[k] in a
      invariant forall i, j :: 0 <= i < j < |a| ==> a[i].id != a[j].id
      decreases left
    {
      var k :| k in left;
      var b := a + [table[k]];
      assert table[k] in b;
      assert forall e :: e in b <==> e in a || e == table[k];
      a, left := b, left - {k};
    }
  }

  /* ---------- The server's table ---------- */

  class CategoryTable {
    var categories: map<string, Category>
    var lastCid: uint32

    /** The fields above and the history of events. */
    ghost var model: Table

    ghost predicate Valid()
      reads this
    {
      && model.cats == categories && model.lastCid == lastCid
      && Categories.Inv(model) && Categories.EventsOld(model)
    }

    constructor ()
      ensures Valid() && model == EMPTY
    {
      categories, lastCid, model := map[], 0, EMPTY;
    }

    method New(name: string, level: int, flags: Flags) returns (id: uint32, emitted: seq<Event>)
      requires Valid() && model.created + 1 < TWO_32
      modifies this
      ensures Valid() && model == NewCategory(old(model), name, level, flags)
      ensures model.events == old(model.events) + emitted
      ensures id != 0 && name in categories && categories[name].entry.id == id
      ensures name in old(categories) ==> categories == old(categories) && emitted == []
      ensures name !in old(categories) ==>
                var c := categories[name];
                && (forall n :: n in old(categories) ==> old(categories[n]).entry.id != id)
                && c.entry.flags.enabled == flags.enabled && c.entry.flags.hideName == flags.hideName
                && c.entry.flags.enabledByDefault == (flags.enabled || flags.enabledByDefault)
                && c.level == (if 0 <= level < LEVEL_COUNT then level else 0)
                && emitted == [Added(name, id, c.entry.flags)]
    {
      ApplyInv(model, DoNew(name, level, flags));
      IdsNeverReused(model, DoNew(name, level, flags));
      model := NewCategory(model, name, level, flags);
      emitted := [];
      if name !in categories {
        lastCid := NextCid(lastCid);
        var f := InitialFlags(flags);
        var l := if 0 <= level < LEVEL_COUNT then level else 0;
        categories := categories[name := Category(Entry(name, lastCid, f), l)];
        emitted := [Added(name, lastCid, f)];
      }
      id := categories[name].entry.id;
    }

    method Remove(name: string) returns (removed: bool, emitted: seq<Event>)
      requires Valid()
      modifies this
      ensures Valid() && model == RemoveCategory(old(model), name)
      ensures model.events == old(model.events) + emitted && removed == (name in old(categories))
      ensures categories == old(categories) - {name}
      ensures emitted == if removed then [Removed(old(categories)[name].entry.id)] else []
    {
      ApplyInv(model, DoRemove(name));
      IdsNeverReused(model, DoRemove(name));
      model := RemoveCategory(model, name);
      removed, emitted := name in categories, [];
      if removed {
        emitted := [Removed(categories[name].entry.id)];
        categories := categories - {name};
      }
    }

    /** All categories, sorted by name. */
    method GetCategories() returns (order: seq<Category>)
      requires Valid()
      ensures Enumerates(order, categories)
      ensures forall i, j :: 0 <= i < j < |order| ==> M.Less(order[i].entry.name, order[j].entry.name)
    {
      var values: seq<Entry> := [];
      var left := categories.Keys;
      while left != {}
        invariant left <= categories.Keys
        invariant forall e :: e in values ==> e.name in categories && e.name !in left && categories[e.name].entry == e
        invariant forall n :: n in categories && n !in left ==> categories[n].entry in values
        invariant forall i, j :: 0 <= i < j < |values| ==> values[i].name != values[j].name
        decreases left
      {
        var n :| n in left;
        var more := values + [categories[n].entry];
        assert categories[n].entry in more;
        assert forall e :: e in more <==> e in values || e == categories[n].entry;
        values, left := more, left - {n};
      }
      var a := SortByName(values);
      order := [];
      for i := 0 to |a|
        invariant |order| == i
        invariant forall k :: 0 <= k < i ==>
          a[k] in values && a[k].name in categories && order[k] == categories[a[k].name] && order[k].entry == a[k]
      {
        assert a[i] in a;
        order := order + [categories[a[i].name]];
      }
      InOrder(a, order, categories);
    }

    static lemma InOrder(a: seq<Entry>, order: seq<Category>, cats: map<string, Category>)
      requires M.Sorted(a) && |order| == |a|
      requires forall k :: 0 <= k < |a| ==> a[k].name in cats && order[k] == cats[a[k].name] && order[k].entry == a[k]
      requires forall n :: n in cats ==> cats[n].entry in a && cats[n].entry.name == n
      ensures Enumerates(order, cats)
      ensures forall i, j :: 0 <= i < j < |order| ==> M.Less(order[i].entry.name, order[j].entry.name)
    {
      forall c | c in cats.Values
        ensures c in order
      {
        var n :| n in cats && cats[n] == c;
        var k :| 0 <= k < |a| && a[k] == c.entry;
        assert order[k] == c;
      }
      forall i, j | 0 <= i < j < |order|
        ensures order[i] != order[j]
      {
        M.LessTotal(a[i].name, a[j].name);
      }
    }

    /** Removes all and then announces each, in the order of the names. */
    method RemoveAll() returns (ghost order: seq<Category>, emitted: seq<Event>)
      requires Valid()
      modifies this
      ensures Valid() && Enumerates(order, old(categories)) && model == Categories.RemoveAll(old(model), order)
      ensures model.events == old(model.events) + emitted && categories == map[] && |emitted| == |order|
      ensures forall i, j :: 0 <= i < j < |order| ==> M.Less(order[i].entry.name, order[j].entry.name)
      ensures forall i :: 0 <= i < |order| ==> emitted[i] == Removed(order[i].entry.id)
    {
      emitted := [];
      var cats := GetCategories();
      order := cats;
      ApplyInv(model, DoRemoveAll(order));
      IdsNeverReused(model, DoRemoveAll(order));
      categories := map[];
      RemovedAllIds(cats);
      for i := 0 to |cats|
        invariant emitted == RemovedAll(cats)[..i]
      {
        emitted := emitted + [Removed(cats[i].entry.id)];
      }
      model := Categories.RemoveAll(model, order);
    }

    method SetCategoryEnabled(name: string, enable: bool) returns (emitted: seq<Event>)
      requires Valid()
      modifies this
      ensures Valid() && model == SetEnabled(old(model), name, enable)
      ensures model.events == old(model.events) + emitted
      ensures name !in old(categories) ==> categories == old(categories) && emitted == []
      ensures name in old(categories) ==>
        var c := old(categories)[name];
        && categories == old(categories)[name := Resetting.Turned(c, enable)]
        && emitted == if c.entry.flags.enabled == enable then []
                      else [Changed(c.entry.id, c.entry.flags.(enabled := enable))]
    {
      EnableEffect(model, name, enable);
      ApplyInv(model, DoEnable(name, enable));
      IdsNeverReused(model, DoEnable(name, enable));
      model := SetEnabled(model, name, enable);
      emitted := [];
      if name in categories {
        var cat := categories[name];
        if cat.entry.flags.enabled != enable {
          cat := cat.(entry := cat.entry.(flags := cat.entry.flags.(enabled := enable)));
          categories := categories[name := cat];
          emitted := [Changed(cat.entry.id, cat.entry.flags)];
        }
      }
    }

    method SetCategoryLevel(name: string, level: int) returns (ok: bool)
      requires Valid()
      modifies this
      ensures Valid() && model == SetLevel(old(model), name, level)
      ensures ok == (name in old(categories) && 0 <= level < LEVEL_COUNT)
      ensures ok ==> categories == old(categories)[name := old(categories)[name].(level := level)]
      ensures !ok ==> categories == old(categories)
      ensures model.events == old(model.events)
    {
      LevelEffect(model, name, level);
      ApplyInv(model, DoLevel(name, level));
      IdsNeverReused(model, DoLevel(name, level));
      model := SetLevel(model, name, level);
      ok := 0 <= level < LEVEL_COUNT && name in categories;
      if ok {
        categories := categories[name := categories[name].(level := level)];
      }
    }

    /** The body of the enable and disable calls of the server. */
    method SetNamesEnabled(names: seq<string>, enable: bool) returns (emitted: seq<Event>)
      requires Valid()
      modifies this
      ensures Valid() && model == Resetting.SetNames(old(model), names, enable)
      ensures model.events == old(model.events) + emitted
      ensures categories.Keys == old(categories).Keys
      ensures forall n :: n in categories ==>
        categories[n] == if n in names then Resetting.Turned(old(categories)[n], enable) else old(categories)[n]
      ensures (forall n :: n in Resetting.Changing(old(model), names, enable) ==> n in old(model).cats)
      ensures emitted == Resetting.ChangeEvents(old(model), Resetting.Changing(old(model), names, enable), enable)
    {
      hide Resetting.Changing, Resetting.ChangeEvents, Resetting.Turned, SetEnabled;
      hide Categories.Inv, EventsOld;
      emitted := [];
      for i := 0 to |names|
        invariant Valid() && model == Resetting.SetNames(old(model), names[..i], enable)
        invariant model.events == old(model.events) + emitted
      {
        var more := SetCategoryEnabled(names[i], enable);
        emitted := emitted + more;
        assert names[..i + 1][..i] == names[..i];
      }
      assert names[..|names|] == names;
      Resetting.SetNamesSetsExactly(old(model), names, enable);
      Resetting.SetNamesAnnouncesExactly(old(model), names, enable);
      assert emitted == model.events[|old(model.events)|..];
    }

    /** The names of the categories that match, sorted. */
    method FindCategories(matches: string -> bool) returns (names: seq<string>)
      requires Valid()
      ensures forall n :: n in names <==> n in categories && matches(n)
      ensures SortedNames(names)
    {
      names := [];
      var cats := GetCategories();
      for i := 0 to |cats|
        invariant forall n :: n in names ==> n in categories && matches(n)
        invariant forall n :: n in names ==> exists k :: 0 <= k < i && cats[k].entry.name == n
        invariant forall k :: 0 <= k < i && matches(cats[k].entry.name) ==> cats[k].entry.name in names
        invariant SortedNames(names)
      {
        var name := cats[i].entry.name;
        assert cats[i] in categories.Values;
        if matches(name) {
          ghost var before := names;
          names := names + [name];
          assert forall n :: n in names <==> n in before || n == name;
          assert forall k :: 0 <= k < |before| ==> before[k] in before;
        }
      }
      forall n | n in categories && matches(n)
        ensures n in names
      {
        assert categories[n] in cats;
      }
    }

    static ghost predicate SortedNames(names: seq<string>)
    {
      forall i, j :: 0 <= i < j < |names| ==> M.Less(names[i], names[j])
    }

    /** The body of the pattern calls: exactly the categories whose names match are set, and those that
        change are announced in the order of their names. */
    method SetPatternEnabled(matches: string -> bool, enable: bool)
      returns (emitted: seq<Event>, ghost changed: seq<string>)
      requires Valid()
      modifies this
      ensures Valid() && model.events == old(model.events) + emitted
      ensures categories.Keys == old(categories).Keys
      ensures forall n :: n in categories ==>
        categories[n] == if matches(n) then Resetting.Turned(old(categories)[n], enable) else old(categories)[n]
      ensures SortedNames(changed)
      ensures forall n :: n in changed <==>
        n in old(model).cats && matches(n) && old(model).cats[n].entry.flags.enabled != enable
      ensures emitted == Resetting.ChangeEvents(old(model), changed, enable)
    {
      var names := FindCategories(matches);
      changed := Resetting.Changing(model, names, enable);
      Resetting.ChangingSpec(model, names, enable);
      ChangingSorted(model, names, enable);
      emitted := SetNamesEnabled(names, enable);
    }

    static lemma {:induction false} ChangingSorted(t: Table, names: seq<string>, enable: bool)
      requires SortedNames(names)
      ensures SortedNames(Resetting.Changing(t, names, enable))
    {
      if names != [] {
        var some := names[..|names| - 1];
        ChangingSorted(t, some, enable);
        Resetting.ChangingSpec(t, some, enable);
        var c := Resetting.Changing(t, some, enable);
        assert forall i :: 0 <= i < |c| ==> c[i] in c && c[i] in some;
      }
    }
  }

  /* ---------- The client's mirror ---------- */

  class Client {
    var table: ById
    var public: seq<Entry>

    /** The fields above and the history of notices. */
    ghost var model: M.State

    ghost predicate Fields()
      reads this
    {
      model.table == table && model.public == public
    }

    /** The client started with the array `start`. */
    ghost predicate Valid(start: seq<Entry>)
      reads this
    {
      Fields() && M.Inv(model, start)
    }

    /** Decodes the reply to GetAll and sorts the public array. */
    constructor (reply: seq<Category>, ghost server: Table)
      requires Categories.Inv(server) && Enumerates(reply, server.cats)
      ensures Valid(public) && model.notices == [] && table == Replication.Decode(reply)
      ensures Mirrors(table, server.cats)
    {
      var t: ById := map[];
      for i := 0 to |reply|
        invariant t == Replication.Decode(reply[..i])
      {
        t := t[reply[i].entry.id := reply[i].entry];
        assert reply[..i + 1][..i] == reply[..i];
      }
      assert reply[..|reply|] == reply;
      Replication.SeedMirrors(server, reply);
      var values := Values(t);
      DistinctByName(values, t, server.cats);
      var a := SortByName(values);
      table, public := t, a;
      model := M.State(t, a, []);
    }

    static lemma DistinctByName(values: seq<Entry>, t: ById, cats: map<string, Category>)
      requires Mirrors(t, cats) && M.Lists(values, t)
      requires forall i, j :: 0 <= i < j < |values| ==> values[i].id != values[j].id
      ensures forall i, j :: 0 <= i < j < |values| ==> values[i].name != values[j].name
    {
      forall i, j | 0 <= i < j < |values|
        ensures values[i].name != values[j].name
      {
        assert values[i] in values && values[j] in values;
      }
    }

    method CategoryIndex(id: uint32) returns (index: nat)
      ensures index == M.IndexOf(public, id)
    {
      index := 0;
      while index < |public| && public[index].id != id
        invariant index <= |public| && forall k :: 0 <= k < index ==> public[k].id != id
      {
        index := index + 1;
      }
    }

    /** The array is rebuilt without the category; listeners learn where it was. */
    method CategoryRemove(id: uint32, ghost start: seq<Entry>) returns (removed: bool, index: nat)
      requires Fields()
      modifies this
      ensures Fields() && model == M.Remove(old(model), id)
      ensures old(Valid(start)) ==> Valid(start)
      ensures removed == (model != old(model))
      ensures removed ==> model.notices == old(model.notices) + [M.RemovedAt(old(table)[id], index)]
    {
      RemovalKeeps(model, id, start);
      model := M.Remove(model, id);
      index := CategoryIndex(id);
      removed := id != 0 && id in table && index < |public|;
      if removed {
        public := CopyWithout(index);
        table := table - {id};
      }
    }

    static lemma RemovalKeeps(c: M.State, id: uint32, start: seq<Entry>)
      ensures M.Inv(c, start) ==> M.Inv(M.Remove(c, id), start)
    {
      if M.Inv(c, start) && id in c.table { M.RemoveKeeps(c, id, start); }
    }

    static lemma FlagsKeep(c: M.State, id: uint32, flags: Flags, start: seq<Entry>)
      ensures M.Inv(c, start) ==> M.Inv(M.SetFlags(c, id, flags), start)
    {
      if M.Inv(c, start) && id in c.table { M.FlagsKeeps(c, id, flags, start); }
    }

    method CopyWithout(index: nat) returns (copy: seq<Entry>)
      requires index < |public|
      ensures copy == M.DeleteAt(public, index)
    {
      copy := [];
      for i := 0 to index
        invariant copy == public[..i]
      {
        copy := copy + [public[i]];
      }
      var n := |public|;
      for i := index + 1 to n
        invariant copy == public[..index] + public[index + 1..i]
      {
        copy := copy + [public[i]];
      }
      assert public[..n] == public;
    }

    /** The first place where two arrays hold different categories. */
    static method FindDifference(older: seq<Entry>, newer: seq<Entry>) returns (index: nat)
      ensures index == M.FirstDifference(older, newer)
    {
      index := 0;
      while index < |newer| && index < |older| && older[index].id == newer[index].id
        invariant index <= |newer| && index <= |older|
        invariant M.FirstDifference(older, newer) == index + M.FirstDifference(older[index..], newer[index..])
      {
        index := index + 1;
      }
    }

    /** The values of the table sorted by name, given that some array does list them that way. */
    method SortedValues(ghost expected: seq<Entry>) returns (a: seq<Entry>)
      requires M.Sorted(expected) && M.Lists(expected, table)
      ensures a == expected
    {
      var values := Values(table);
      NamesDiffer(values, expected, table);
      a := SortByName(values);
      M.SortedUnique(a, expected);
    }

    static lemma NamesDiffer(values: seq<Entry>, expected: seq<Entry>, table: ById)
      requires M.Sorted(expected) && M.Lists(expected, table) && M.Lists(values, table)
      requires forall i, j :: 0 <= i < j < |values| ==> values[i].id != values[j].id
      ensures forall i, j :: 0 <= i < j < |values| ==> values[i].name != values[j].name
    {
      forall i, j | 0 <= i < j < |values|
        ensures values[i].name != values[j].name
      {
        assert values[i] in values && values[j] in values;
        var p :| 0 <= p < |expected| && expected[p] == values[i];
        var q :| 0 <= q < |expected| && expected[q] == values[j];
        M.LessTotal(expected[p].name, expected[q].name);
      }
    }

    /** The array is sorted afresh; listeners learn where the new category went. */
    method CategoryAdded(name: string, id: uint32, flags: Flags, ghost start: seq<Entry>) returns (index: nat)
      requires Valid(start) && Fits(table, Added(name, id, flags))
      modifies this
      ensures Valid(start) && model == M.Add(old(model), name, id, flags)
      ensures table == Follow(old(table), Added(name, id, flags)) && index <= |old(public)|
      ensures public == M.InsertAt(old(public), index, Entry(name, id, flags))
      ensures model.notices == old(model.notices) + [M.AddedAt(Entry(name, id, flags), index)]
    {
      ghost var before := model;
      M.AddKeeps(model, name, id, flags, start);
      M.NewToArray(public, table, name, id);
      assert M.Remove(before, id) == before;
      M.AddIs(before, name, id, flags);
      var _, _ := CategoryRemove(id, start);
      var e := Entry(name, id, flags);
      hide M.Less, M.Sorted, M.Lists, M.InsertAt, M.IndexOf, M.FirstDifference, M.HeedAll;
      M.DifferenceIsPlace(public, M.Place(public, name), e);
      table := table[id := e];
      var older := public;
      public := SortedValues(M.Add(before, name, id, flags).public);
      index := FindDifference(older, public);
      model := M.Add(before, name, id, flags);
    }

    method CategoryFlagsChanged(id: uint32, flags: Flags, ghost start: seq<Entry>) returns (index: nat)
      requires Fields() && forall e :: e in public ==> e.id in table && table[e.id] == e
      modifies this
      ensures Fields() && model == M.SetFlags(old(model), id, flags)
      ensures old(Valid(start)) ==> Valid(start)
      ensures model != old(model) ==>
        model.notices == old(model.notices) + [M.FlagsAt(old(table)[id].(flags := flags), index)]
    {
      FlagsKeep(model, id, flags, start);
      model := M.SetFlags(model, id, flags);
      index := CategoryIndex(id);
      if id != 0 && id in table && index < |public| {
        table := table[id := table[id].(flags := flags)];
        public := public[index := table[id]];
      }
    }
  }
}
