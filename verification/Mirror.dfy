/** The client's copy of the categories: a table by id, and a public array sorted by name whose
    changes are announced to listeners as index deltas. */
module Mirror {
  import opened Wire
  import opened Categories

  /* ---------- The order of names ---------- */

  /** strcmp(a, b) < 0 */
  predicate Less(a: string, b: string) {
    b != [] && (a == [] || a[0] < b[0] || (a[0] == b[0] && Less(a[1..], b[1..])))
  }

  lemma {:induction false} LessTotal(a: string, b: string)
    ensures Less(a, b) || Less(b, a) || a == b
    ensures !(Less(a, b) && Less(b, a)) && !Less(a, a)
  {
    if a != [] && b != [] && a[0] == b[0] {
      LessTotal(a[1..], b[1..]);
      assert a == [a[0]] + a[1..] && b == [b[0]] + b[1..];
    }
    if a != [] {
      LessTotal(a[1..], a[1..]);
    }
  }

  lemma {:induction false} LessTransitive(a: string, b: string, c: string)
    requires Less(a, b) && Less(b, c)
    ensures Less(a, c)
  {
    if a != [] && a[0] == b[0] == c[0] {
      LessTransitive(a[1..], b[1..], c[1..]);
    }
  }

  /** Where two names first differ the smaller character decides; a name comes before its extensions. */
  ghost predicate Decides(a: string, b: string, i: nat)
  {
    i <= |a| && i < |b| && a[..i] == b[..i] && (i == |a| || a[i] < b[i])
  }

  lemma {:induction false} LessMeans(a: string, b: string)
    ensures Less(a, b) <==> exists i: nat :: Decides(a, b, i)
  {
    forall i: nat | Decides(a, b, i) && i > 0
      ensures a[0] == b[0]
    {
      assert a[..i][0] == b[..i][0];
    }
    if b != [] && a != [] && a[0] == b[0] {
      LessMeans(a[1..], b[1..]);
      forall i: nat | Decides(a[1..], b[1..], i)
        ensures Decides(a, b, i + 1)
      {
        assert a[..i + 1] == [a[0]] + a[1..][..i] && b[..i + 1] == [b[0]] + b[1..][..i];
      }
      forall i: nat | Decides(a, b, i)
        ensures i > 0 && Decides(a[1..], b[1..], i - 1)
      {
        assert i > 0;
        assert a[1..][..i - 1] == a[..i][1..] && b[1..][..i - 1] == b[..i][1..];
      }
    } else if b != [] {
      assert Decides(a, b, 0) <==> a == [] || a[0] < b[0];
    }
  }

  /* ---------- Sorted arrays ---------- */

  ghost predicate Sorted(a: seq<Entry>)
  {
    forall i, j :: 0 <= i < j < |a| ==> Less(a[i].name, a[j].name)
  }

  /** The array lists exactly the values of the table. */
  ghost predicate Lists(a: seq<Entry>, table: ById)
  {
    && (forall e :: e in a ==> e.id in table && table[e.id] == e)
    && (forall k :: k in table ==> table[k].id == k && table[k] in a)
  }

  lemma NonEmptyHasFirst(b: seq<Entry>)
    ensures b == [] || exists e :: e in b
  {
    if b != [] { assert b[0] in b; }
  }

  /** A table has only one sorted array. */
  lemma {:induction false} SortedUnique(a: seq<Entry>, b: seq<Entry>)
    requires Sorted(a) && Sorted(b) && (forall e :: e in a <==> e in b)
    ensures a == b
  {
    if a == [] {
      NonEmptyHasFirst(b);
    } else {
      assert a[0] in b;
      SameFirst(a, b);
      var a', b' := a[1..], b[1..];
      assert Sorted(a') && Sorted(b') by {
        assert forall i :: 0 <= i < |a'| ==> a'[i] == a[i + 1];
        assert forall i :: 0 <= i < |b'| ==> b'[i] == b[i + 1];
      }
      SameRest(a, b);
      SameRest(b, a);
      SortedUnique(a', b');
      assert a == [a[0]] + a' && b == [b[0]] + b';
    }
  }

  lemma SameFirst(a: seq<Entry>, b: seq<Entry>)
    requires Sorted(a) && Sorted(b) && a != [] && b != [] && a[0] in b && b[0] in a
    ensures a[0] == b[0]
  {
    LessTotal(a[0].name, b[0].name);
  }

  lemma SameRest(a: seq<Entry>, b: seq<Entry>)
    requires Sorted(a) && Sorted(b) && a != [] && b != [] && a[0] == b[0] && forall e :: e in a ==> e in b
    ensures forall e :: e in a[1..] ==> e in b[1..]
  {
    forall e | e in a[1..]
      ensures e in b[1..]
    {
      var i :| 0 < i < |a| && a[i] == e;
      assert e in a;
      var j :| 0 <= j < |b| && b[j] == e;
      LessTotal(a[0].name, a[0].name);
      assert b[1..][j - 1] == e;
    }
  }

  /* ---------- Insertion ---------- */

  /** Where a name belongs in a sorted array. */
  function Place(a: seq<Entry>, name: string): (i: nat)
    ensures i <= |a|
  {
    if a == [] || !Less(a[0].name, name) then 0 else 1 + Place(a[1..], name)
  }

  function InsertAt(a: seq<Entry>, i: nat, e: Entry): seq<Entry>
    requires i <= |a|
  {
    a[..i] + [e] + a[i..]
  }

  function DeleteAt(a: seq<Entry>, i: nat): seq<Entry>
    requires i < |a|
  {
    a[..i] + a[i + 1..]
  }

  lemma InsertedElements(a: seq<Entry>, i: nat, e: Entry)
    requires i <= |a|
    ensures var b := InsertAt(a, i, e);
      && |b| == |a| + 1
      && (forall k :: 0 <= k < |b| ==> b[k] == if k < i then a[k] else if k == i then e else a[k - 1])
      && (forall x :: x in b <==> x in a || x == e)
  {
    var b := InsertAt(a, i, e);
    assert b[i] == e;
    assert a == a[..i] + a[i..];
  }

  lemma DeletedElements(a: seq<Entry>, i: nat)
    requires i < |a|
    ensures var b := DeleteAt(a, i);
      && |b| == |a| - 1
      && (forall k :: 0 <= k < |b| ==> b[k] == if k < i then a[k] else a[k + 1])
      && (forall x :: x in b ==> x in a)
      && (forall k :: 0 <= k < |a| && k != i ==> a[k] in b)
  {
    var b := DeleteAt(a, i);
    forall k | 0 <= k < |a| && k != i
      ensures a[k] in b
    {
      assert b[if k < i then k else k - 1] == a[k];
    }
  }

  lemma {:induction false} PlaceSplits(a: seq<Entry>, name: string)
    requires Sorted(a) && forall e :: e in a ==> e.name != name
    ensures forall k :: 0 <= k < Place(a, name) ==> Less(a[k].name, name)
    ensures forall k :: Place(a, name) <= k < |a| ==> Less(name, a[k].name)
  {
    if a != [] {
      LessTotal(a[0].name, name);
      if Less(a[0].name, name) {
        var a' := a[1..];
        assert Sorted(a') by { assert forall i :: 0 <= i < |a'| ==> a'[i] == a[i + 1]; }
        PlaceSplits(a', name);
        assert forall k :: 0 < k < |a| ==> a[k] == a'[k - 1];
      } else {
        forall k | 0 < k < |a|
          ensures Less(name, a[k].name)
        {
          LessTransitive(name, a[0].name, a[k].name);
        }
      }
    }
  }

  lemma InsertSorted(a: seq<Entry>, e: Entry)
    requires Sorted(a) && forall x :: x in a ==> x.name != e.name
    ensures Sorted(InsertAt(a, Place(a, e.name), e))
    ensures forall x :: x in InsertAt(a, Place(a, e.name), e) <==> x in a || x == e
  {
    hide Less, Place;
    PlaceSplits(a, e.name);
    InsertedElements(a, Place(a, e.name), e);
  }

  /** The first place where the new array differs from the old one; the end of the old array differs
      from everything. */
  function FirstDifference(a: seq<Entry>, b: seq<Entry>): (i: nat)
    ensures i <= |b|
  {
    if b == [] then 0
    else if a == [] || a[0].id != b[0].id then 0
    else 1 + FirstDifference(a[1..], b[1..])
  }

  /** The first difference is the insertion point. */
  lemma {:induction false} DifferenceIsPlace(a: seq<Entry>, i: nat, e: Entry)
    requires i <= |a| && forall x :: x in a ==> x.id != e.id
    ensures FirstDifference(a, InsertAt(a, i, e)) == i
  {
    var b := InsertAt(a, i, e);
    if i == 0 {
      assert b[0] == e;
    } else {
      assert b[0] == a[0] && b[1..] == InsertAt(a[1..], i - 1, e);
      DifferenceIsPlace(a[1..], i - 1, e);
    }
  }

  /** The search compares element by element up to the first difference, whatever the length of the
      old array: it reads past the end of that array if it finds no difference before. */
  predicate ReadsPastEnd(a: seq<Entry>, b: seq<Entry>) {
    b != [] && (a == [] || (a[0].id == b[0].id && ReadsPastEnd(a[1..], b[1..])))
  }

  lemma {:induction false} PastEndIsNoDifference(a: seq<Entry>, b: seq<Entry>)
    ensures ReadsPastEnd(a, b) <==> |a| < |b| && FirstDifference(a, b) == |a|
  {
    if a != [] && b != [] {
      PastEndIsNoDifference(a[1..], b[1..]);
    }
  }

  /** It does so exactly if the name of the new category sorts after all others. */
  lemma ReadsPastEndExactly(a: seq<Entry>, e: Entry)
    requires Sorted(a) && forall x :: x in a ==> x.id != e.id && x.name != e.name
    ensures var b := InsertAt(a, Place(a, e.name), e);
      && (ReadsPastEnd(a, b) <==> forall x :: x in a ==> Less(x.name, e.name))
      && (ReadsPastEnd(a, b) <==> FirstDifference(a, b) == |a|)
  {
    hide Less, Place, FirstDifference, ReadsPastEnd;
    var i := Place(a, e.name);
    PlaceSplits(a, e.name);
    DifferenceIsPlace(a, i, e);
    PastEndIsNoDifference(a, InsertAt(a, i, e));
    if i < |a| {
      assert a[i] in a;
      LessTotal(a[i].name, e.name);
    }
  }

  /** For instance for the first category of a client that has none. */
  lemma ReadsPastEndExample(e: Entry)
    ensures ReadsPastEnd([], InsertAt([], Place([], e.name), e))
  {
  }

  /* ---------- The client ---------- */

  /** What a listener is told. */
  datatype Notice =
    | AddedAt(e: Entry, index: nat)
    | RemovedAt(e: Entry, index: nat)
    | FlagsAt(e: Entry, index: nat)

  datatype State = State(table: ById, public: seq<Entry>, notices: seq<Notice>)

  /** What a listener makes of it. */
  function Heed(l: seq<Entry>, n: Notice): seq<Entry> {
    if n.index > |l| || (!n.AddedAt? && n.index == |l|) then l
    else match n
      case AddedAt(e, i) => InsertAt(l, i, e)
      case RemovedAt(e, i) => DeleteAt(l, i)
      case FlagsAt(e, i) => l[i := e]
  }

  function HeedAll(l: seq<Entry>, ns: seq<Notice>): seq<Entry> {
    if ns == [] then l else Heed(HeedAll(l, ns[..|ns| - 1]), ns[|ns| - 1])
  }

  /** The index of a category in the public array, or the length of the array if it is not there. */
  function IndexOf(a: seq<Entry>, id: uint32): (i: nat)
    ensures i <= |a| && (i < |a| ==> a[i].id == id)
    ensures forall k :: 0 <= k < i ==> a[k].id != id
  {
    if a == [] || a[0].id == id then 0 else 1 + IndexOf(a[1..], id)
  }

  function Remove(c: State, id: uint32): State {
    var i := IndexOf(c.public, id);
    if id == 0 || id !in c.table || i == |c.public| then c
    else State(c.table - {id}, DeleteAt(c.public, i), c.notices + [RemovedAt(c.table[id], i)])
  }

  /** After an addition the array is sorted afresh; its first difference is announced. */
  function Add(c: State, name: string, id: uint32, flags: Flags): State {
    var c1 := Remove(c, id);
    var e := Entry(name, id, flags);
    var public := InsertAt(c1.public, Place(c1.public, name), e);
    State(c1.table[id := e], public, c1.notices + [AddedAt(e, FirstDifference(c1.public, public))])
  }

  function SetFlags(c: State, id: uint32, flags: Flags): State {
    var i := IndexOf(c.public, id);
    if id == 0 || id !in c.table || i == |c.public| then c
    else
      var e := c.table[id].(flags := flags);
      State(c.table[id := e], c.public[i := e], c.notices + [FlagsAt(e, i)])
  }

  function Handle(c: State, ev: Event): State {
    match ev
    case Added(name, id, flags) => Add(c, name, id, flags)
    case Removed(id) => Remove(c, id)
    case Changed(id, flags) => SetFlags(c, id, flags)
  }

  /** The array is the one sorted array of the table, and a listener that started from `start`
      holds it. */
  ghost predicate Inv(c: State, start: seq<Entry>)
  {
    && Sorted(c.public) && Lists(c.public, c.table) && 0 !in c.table
    && HeedAll(start, c.notices) == c.public
  }

  lemma HeedSnoc(l: seq<Entry>, ns: seq<Notice>, n: Notice)
    ensures HeedAll(l, ns + [n]) == Heed(HeedAll(l, ns), n)
  {
    assert (ns + [n])[..|ns|] == ns;
  }

  lemma FoundAt(c: State, id: uint32)
    requires Sorted(c.public) && Lists(c.public, c.table) && id in c.table
    ensures var i := IndexOf(c.public, id); i < |c.public| && c.public[i] == c.table[id]
    ensures forall k :: 0 <= k < |c.public| && k != IndexOf(c.public, id) ==> c.public[k].id != id
  {
    var j :| 0 <= j < |c.public| && c.public[j] == c.table[id];
    var i := IndexOf(c.public, id);
    forall k | 0 <= k < |c.public| && k != i
      ensures c.public[k].id != id
    {
      if c.public[k].id == id {
        assert c.public[k] in c.public && c.public[i] in c.public;
        LessTotal(c.public[k].name, c.public[k].name);
      }
    }
  }

  lemma RemoveKeeps(c: State, id: uint32, start: seq<Entry>)
    requires Inv(c, start) && id in c.table
    ensures Inv(Remove(c, id), start) && Remove(c, id).table == Follow(c.table, Removed(id))
  {
    var i := IndexOf(c.public, id);
    FoundAt(c, id);
    RemoveIs(c, id);
    hide *;
    ListsDeleted(c, i, id);
    DeleteSorted(c.public, i);
    HeedRemoved(c, c.table[id], i, start);
  }

  lemma RemoveIs(c: State, id: uint32)
    requires id != 0 && id in c.table && IndexOf(c.public, id) < |c.public|
    ensures var i := IndexOf(c.public, id);
      Remove(c, id) == State(c.table - {id}, DeleteAt(c.public, i), c.notices + [RemovedAt(c.table[id], i)])
    ensures Follow(c.table, Removed(id)) == c.table - {id}
  {
  }

  lemma HeedRemoved(c: State, e: Entry, i: nat, start: seq<Entry>)
    requires Inv(c, start) && i < |c.public|
    ensures HeedAll(start, c.notices + [RemovedAt(e, i)]) == DeleteAt(c.public, i)
  {
    HeedSnoc(start, c.notices, RemovedAt(e, i));
  }

  lemma DeleteSorted(a: seq<Entry>, i: nat)
    requires i < |a| && Sorted(a)
    ensures Sorted(DeleteAt(a, i))
  {
    hide Less;
    DeletedElements(a, i);
  }

  lemma ListsDeleted(c: State, i: nat, id: uint32)
    requires Lists(c.public, c.table) && i < |c.public| && c.public[i].id == id
    requires forall k :: 0 <= k < |c.public| && k != i ==> c.public[k].id != id
    ensures Lists(DeleteAt(c.public, i), c.table - {id})
  {
    var b := DeleteAt(c.public, i);
    DeletedElements(c.public, i);
    forall k | k in c.table && k != id
      ensures c.table[k] in b
    {
      var j :| 0 <= j < |c.public| && c.public[j] == c.table[k];
    }
  }

  lemma AddKeeps(c: State, name: string, id: uint32, flags: Flags, start: seq<Entry>)
    requires Inv(c, start) && Fits(c.table, Added(name, id, flags))
    ensures Inv(Add(c, name, id, flags), start)
    ensures Add(c, name, id, flags).table == Follow(c.table, Added(name, id, flags))
  {
    var e, i := Entry(name, id, flags), Place(c.public, name);
    NewToArray(c.public, c.table, name, id);
    assert Remove(c, id) == c;
    hide *;
    InsertSorted(c.public, e);
    ListsInserted(c.public, c.table, i, e);
    DifferenceIsPlace(c.public, i, e);
    HeedAdded(c, e, i, start);
    AddIs(c, name, id, flags);
  }

  lemma AddIs(c: State, name: string, id: uint32, flags: Flags)
    requires Remove(c, id) == c
    ensures var e := Entry(name, id, flags);
      var public := InsertAt(c.public, Place(c.public, name), e);
      Add(c, name, id, flags) ==
        State(c.table[id := e], public, c.notices + [AddedAt(e, FirstDifference(c.public, public))])
    ensures Follow(c.table, Added(name, id, flags)) == c.table[id := Entry(name, id, flags)]
  {
  }

  lemma HeedAdded(c: State, e: Entry, i: nat, start: seq<Entry>)
    requires Inv(c, start) && i <= |c.public|
    ensures HeedAll(start, c.notices + [AddedAt(e, i)]) == InsertAt(c.public, i, e)
  {
    HeedSnoc(start, c.notices, AddedAt(e, i));
  }

  lemma NewToArray(a: seq<Entry>, table: ById, name: string, id: uint32)
    requires Lists(a, table) && id !in table && forall k :: k in table ==> table[k].name != name
    ensures forall x :: x in a ==> x.id != id && x.name != name
  {
  }

  lemma ListsInserted(a: seq<Entry>, table: ById, i: nat, e: Entry)
    requires Lists(a, table) && e.id !in table && i <= |a|
    requires forall x :: x in InsertAt(a, i, e) <==> x in a || x == e
    ensures Lists(InsertAt(a, i, e), table[e.id := e])
  {
    hide InsertAt;
  }

  lemma FlagsKeeps(c: State, id: uint32, flags: Flags, start: seq<Entry>)
    requires Inv(c, start) && id in c.table
    ensures Inv(SetFlags(c, id, flags), start)
    ensures SetFlags(c, id, flags).table == Follow(c.table, Changed(id, flags))
  {
    FoundAt(c, id);
    var i := IndexOf(c.public, id);
    var e := c.table[id].(flags := flags);
    assert e.id == id && c.public[i].name == e.name;
    ListsUpdated(c, i, e);
    hide Less, IndexOf, Lists, Sorted;
    HeedSnoc(start, c.notices, FlagsAt(e, i));
    SameNamesSorted(c.public, i, e);
  }

  lemma SameNamesSorted(a: seq<Entry>, i: nat, e: Entry)
    requires Sorted(a) && i < |a| && a[i].name == e.name
    ensures Sorted(a[i := e])
  {
    hide Less;
    assert forall k :: 0 <= k < |a| ==> a[i := e][k].name == a[k].name;
  }

  lemma ListsUpdated(c: State, i: nat, e: Entry)
    requires Lists(c.public, c.table) && i < |c.public| && c.public[i].id == e.id
    requires forall k :: 0 <= k < |c.public| && k != i ==> c.public[k].id != e.id
    ensures Lists(c.public[i := e], c.table[e.id := e])
  {
    var b := c.public[i := e];
    assert b[i] == e;
    forall k | k in c.table && k != e.id
      ensures c.table[k] in b
    {
      var j :| 0 <= j < |c.public| && c.public[j] == c.table[k];
      assert b[j] == c.table[k];
    }
  }

  /** Every event that fits is handled: table, array and listeners stay together. */
  lemma HandleKeeps(c: State, ev: Event, start: seq<Entry>)
    requires Inv(c, start) && Fits(c.table, ev)
    ensures Inv(Handle(c, ev), start) && Handle(c, ev).table == Follow(c.table, ev)
    ensures |Handle(c, ev).notices| == |c.notices| + 1
  {
    match ev
    case Added(name, id, flags) =>
      AddKeeps(c, name, id, flags, start);
      assert Remove(c, id) == c;
    case Removed(id) =>
      FoundAt(c, id);
      RemoveKeeps(c, id, start);
    case Changed(id, flags) =>
      FoundAt(c, id);
      FlagsKeeps(c, id, flags, start);
  }

  /** What the notice says: the category as the table has it, after an addition or a change at its place
      in the new array, after a removal at the place that it had in the old one. */
  lemma NoticeEffect(c: State, ev: Event, start: seq<Entry>)
    requires Inv(c, start) && Fits(c.table, ev)
    ensures var d := Handle(c, ev);
      && d.notices != [] && d.notices[..|d.notices| - 1] == c.notices
      && match d.notices[|d.notices| - 1]
         case AddedAt(e, i) => ev == Added(e.name, e.id, e.flags) && i < |d.public| && d.public[i] == e
         case RemovedAt(e, i) => ev == Removed(e.id) && i < |c.public| && c.public[i] == e == c.table[e.id]
         case FlagsAt(e, i) => ev == Changed(e.id, e.flags) && i < |d.public| && d.public[i] == e
  {
    hide Less, Sorted, HeedAll;
    match ev
    case Added(name, id, flags) =>
      var e, i := Entry(name, id, flags), Place(c.public, name);
      NewToArray(c.public, c.table, name, id);
      assert Remove(c, id) == c;
      AddIs(c, name, id, flags);
      DifferenceIsPlace(c.public, i, e);
      InsertedElements(c.public, i, e);
    case Removed(id) => FoundAt(c, id);
    case Changed(id, flags) => FoundAt(c, id);
  }
}
