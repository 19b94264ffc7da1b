/** Server table, ordered events and client mirror in every run. */
module Replication {
  import opened Wire
  import opened Categories
  import M = Mirror

  /** `heard` events of the server have reached the client, which started with the array `start`. */
  datatype System = System(server: Table, client: M.State, heard: nat, start: seq<Entry>)

  datatype Event = ServerDoes(op: Op) | ClientHears

  /** The reply to GetAll, category by category, goes into a table by id. */
  function Decode(order: seq<Category>): ById {
    if order == [] then map[]
    else Decode(order[..|order| - 1])[order[|order| - 1].entry.id := order[|order| - 1].entry]
  }

  /** A client connects: it is seeded with all categories and hears every event from then on. */
  ghost predicate Connected(y: System)
  {
    && Categories.Inv(y.server) && y.heard == |y.server.events|
    && (exists order :: Enumerates(order, y.server.cats) && y.client.table == Decode(order))
    && M.Sorted(y.client.public) && M.Lists(y.client.public, y.client.table)
    && y.client.notices == [] && y.start == y.client.public
  }

  /** Ids last for 2^32 - 1 creations. */
  ghost predicate Enabled(y: System, e: Event)
  {
    match e
    case ServerDoes(op) => Possible(y.server, op) && (op.DoNew? ==> y.server.created + 1 < TWO_32)
    case ClientHears => y.heard < |y.server.events|
  }

  function Step(y: System, e: Event): System
    requires e.ClientHears? ==> y.heard < |y.server.events|
  {
    match e
    case ServerDoes(op) => y.(server := Apply(y.server, op))
    case ClientHears => y.(client := M.Handle(y.client, y.server.events[y.heard]), heard := y.heard + 1)
  }

  /** `t` can be reached from `y` by these events. */
  ghost predicate Reaches(y: System, es: seq<Event>, t: System)
    decreases |es|
  {
    if es == [] then t == y
    else Enabled(y, es[0]) && Reaches(Step(y, es[0]), es[1..], t)
  }

  ghost predicate Inv(y: System)
  {
    && Categories.Inv(y.server) && M.Inv(y.client, y.start) && y.heard <= |y.server.events|
    && FitAll(y.client.table, y.server.events[y.heard..])
    && Mirrors(FollowAll(y.client.table, y.server.events[y.heard..]), y.server.cats)
  }

  lemma {:induction false} DecodeSpec(order: seq<Category>)
    requires forall i, j :: 0 <= i < j < |order| ==> order[i].entry.id != order[j].entry.id
    ensures forall i :: 0 <= i < |order| ==>
      order[i].entry.id in Decode(order) && Decode(order)[order[i].entry.id] == order[i].entry
    ensures forall k :: k in Decode(order) ==>
      Decode(order)[k].id == k && exists c :: c in order && c.entry == Decode(order)[k]
  {
    if order != [] {
      var init, last := order[..|order| - 1], order[|order| - 1];
      DecodeSpec(init);
      assert forall c :: c in order <==> c in init || c == last by { assert order == init + [last]; }
    }
  }

  /** The seed mirrors the server. */
  lemma SeedMirrors(t: Table, order: seq<Category>)
    requires Categories.Inv(t) && Enumerates(order, t.cats)
    ensures Mirrors(Decode(order), t.cats) && 0 !in Decode(order)
  {
    EnumeratedIds(t, order);
    DecodeSpec(order);
    forall n | n in t.cats
      ensures t.cats[n].entry.id in Decode(order) && Decode(order)[t.cats[n].entry.id] == t.cats[n].entry
    {
      assert t.cats[n] in t.cats.Values;
      assert t.cats[n] in order;
    }
  }

  lemma ConnectedInv(y: System)
    requires Connected(y)
    ensures Inv(y)
  {
    var order :| Enumerates(order, y.server.cats) && y.client.table == Decode(order);
    SeedMirrors(y.server, order);
    assert y.server.events[y.heard..] == [];
  }

  lemma StepInv(y: System, e: Event)
    requires Inv(y) && Enabled(y, e)
    ensures Inv(Step(y, e))
  {
    hide Fits, Follow, Mirrors, Apply;
    var m, es := y.client.table, y.server.events[y.heard..];
    match e
    case ServerDoes(op) =>
      ApplyInv(y.server, op);
      EventsAppend(y.server, op);
      StepMirrored(y.server, op, FollowAll(m, es));
      FollowAllConcat(m, es, NewEvents(y.server, op));
      assert Apply(y.server, op).events[y.heard..] == es + NewEvents(y.server, op);
    case ClientHears =>
      assert es[0] == y.server.events[y.heard] && es[1..] == y.server.events[y.heard + 1..];
      M.HandleKeeps(y.client, es[0], y.start);
  }

  /** In every run the client's table, with the events it has not heard yet applied, is the server's
      table; and its array and its listeners agree with its table. */
  lemma {:induction false} RunMirrors(y: System, es: seq<Event>, t: System)
    requires Inv(y) && Reaches(y, es, t)
    ensures Inv(t)
    decreases |es|
  {
    hide Inv, Step;
    if es != [] {
      StepInv(y, es[0]);
      RunMirrors(Step(y, es[0]), es[1..], t);
    }
  }

  /** Every event finds its category, or room for it, and leads to exactly one notice. */
  lemma EveryEventFits(y: System, es: seq<Event>, t: System)
    requires Connected(y) && Reaches(y, es, t) && t.heard < |t.server.events|
    ensures Fits(t.client.table, t.server.events[t.heard])
    ensures |Step(t, ClientHears).client.notices| == |t.client.notices| + 1
  {
    ConnectedInv(y);
    RunMirrors(y, es, t);
    assert t.server.events[t.heard..][0] == t.server.events[t.heard];
    M.HandleKeeps(t.client, t.server.events[t.heard], t.start);
  }

  /** A client that has heard everything holds exactly the server's categories, sorted by name, and
      so does every listener that follows its notices. */
  lemma QuietMirror(y: System, es: seq<Event>, t: System)
    requires Connected(y) && Reaches(y, es, t) && t.heard == |t.server.events|
    ensures Mirrors(t.client.table, t.server.cats)
    ensures M.Sorted(t.client.public) && M.Lists(t.client.public, t.client.table)
    ensures M.HeedAll(y.client.public, t.client.notices) == t.client.public
  {
    ConnectedInv(y);
    RunMirrors(y, es, t);
    SameStart(y, es, t);
    assert t.server.events[t.heard..] == [];
  }

  lemma {:induction false} SameStart(y: System, es: seq<Event>, t: System)
    requires Reaches(y, es, t)
    ensures t.start == y.start
    decreases |es|
  {
    hide M.Handle, Apply;
    if es != [] {
      SameStart(Step(y, es[0]), es[1..], t);
    }
  }
}
