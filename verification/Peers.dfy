/** The server's peers and the reference-counted watches on their bus names. */
module Peers {
  import opened Wire

  const TWO_64: nat := 0x1_0000_0000_0000_0000
  const EIO: int := 5
  const EACCES: int := 13

  datatype Peer = Peer(watchId: uint64, sender: nat)

  /** A watch lives in the name table, and in the id table once for every reference. */
  datatype Watch = Watch(refCount: nat, vanished: bool, pending: bool)

  datatype State = State(
    peers: map<string, Peer>,
    names: map<string, Watch>,
    ids: map<uint64, string>,
    // history: senders are numbered as they are opened
    made: nat,
    closed: seq<nat>)

  const EMPTY := State(map[], map[], map[], 0, [])

  /* ---------- Watches ---------- */

  function WatchName(s: State, name: string, id: uint64): State {
    var w := if name in s.names then s.names[name] else Watch(0, false, true);
    s.(names := s.names[name := w.(refCount := w.refCount + 1)], ids := s.ids[id := name])
  }

  function Unref(s: State, name: string): State {
    if name !in s.names then s
    else if s.names[name].refCount <= 1 then s.(names := s.names - {name})
    else s.(names := s.names[name := s.names[name].(refCount := s.names[name].refCount - 1)])
  }

  function UnwatchName(s: State, id: uint64): State {
    if id in s.ids then Unref(s.(ids := s.ids - {id}), s.ids[id]) else s
  }

  /* ---------- Peers ---------- */

  function Destroy(s: State, p: Peer): State {
    var t := UnwatchName(s, p.watchId);
    t.(closed := t.closed + [p.sender])
  }

  /** A new peer for this name; an older one is destroyed once it has been replaced. */
  function LogOpen(s: State, name: string, id: uint64): State {
    var s1 := WatchName(s, name, id);
    var s2 := s1.(peers := s1.peers[name := Peer(id, s.made)], made := s.made + 1);
    if name in s.peers then Destroy(s2, s.peers[name]) else s2
  }

  function LogClose(s: State, name: string): State {
    if name in s.peers then Destroy(s.(peers := s.peers - {name}), s.peers[name]) else s
  }

  /** The bus says that nobody owns the name any more. */
  function NameLost(s: State, name: string): State {
    if name in s.names && !s.names[name].vanished then
      LogClose(s.(names := s.names[name := s.names[name].(vanished := true)]), name)
    else s
  }

  /** The reply to the first question about the owner. */
  function OwnerReply(s: State, name: string, owned: bool): State
    requires name in s.names
  {
    var s1 := s.(names := s.names[name := s.names[name].(pending := false)]);
    if owned then s1 else NameLost(s1, name)
  }

  datatype Event =
    | Open(name: string, id: uint64)
    | Close(name: string)
    | Lost(name: string)
    | Reply(name: string, owned: bool)

  predicate Enabled(s: State, e: Event) {
    match e
    case Open(name, id) => id != 0 && id !in s.ids
    case Reply(name, owned) => name in s.names && s.names[name].pending
    case _ => true
  }

  function Step(s: State, e: Event): State
    requires Enabled(s, e)
  {
    match e
    case Open(name, id) => LogOpen(s, name, id)
    case Close(name) => LogClose(s, name)
    case Lost(name) => NameLost(s, name)
    case Reply(name, owned) => OwnerReply(s, name, owned)
  }

  /* ---------- Invariants ---------- */

  /** The ids that refer to the watch on a name. */
  function References(ids: map<uint64, string>, name: string): set<uint64> {
    set id | id in ids && ids[id] == name
  }

  /** Reference counts are right: a watch exists exactly while some id refers to it. */
  ghost predicate Counted(names: map<string, Watch>, ids: map<uint64, string>)
  {
    && 0 !in ids
    && (forall id :: id in ids ==> ids[id] in names)
    && (forall n :: n in names ==> names[n].refCount == |References(ids, n)| > 0)
  }

  /** One watch for each live peer name, one id for each peer, nothing vanished. */
  ghost predicate Agree(s: State)
  {
    && s.peers.Keys == s.names.Keys
    && (forall n :: n in s.peers ==> s.peers[n].watchId in s.ids && s.ids[s.peers[n].watchId] == n)
    && (forall id :: id in s.ids ==> s.ids[id] in s.peers && s.peers[s.ids[id]].watchId == id)
    && (forall n :: n in s.names ==> !s.names[n].vanished)
  }

  /** Every sender ever opened serves exactly one peer or has been closed exactly once. */
  ghost predicate Senders(peers: map<string, Peer>, made: nat, closed: seq<nat>)
  {
    && (forall n :: n in peers ==> peers[n].sender < made && peers[n].sender !in closed)
    && (forall m, n :: m in peers && n in peers && peers[m].sender == peers[n].sender ==> m == n)
    && (forall i :: 0 <= i < |closed| ==> closed[i] < made)
    && (forall i, j :: 0 <= i < j < |closed| ==> closed[i] != closed[j])
    && (forall x: nat :: x < made && x !in closed ==> exists n :: n in peers && peers[n].sender == x)
  }

  ghost predicate Inv(s: State)
  {
    Counted(s.names, s.ids) && Agree(s) && Senders(s.peers, s.made, s.closed)
  }

  lemma EmptyInv()
    ensures Inv(EMPTY)
  {
  }

  /* ---------- Counting references ---------- */

  lemma ReferencesAdd(ids: map<uint64, string>, id: uint64, name: string, n: string)
    requires id !in ids
    ensures References(ids[id := name], n) == if n == name then References(ids, n) + {id} else References(ids, n)
    ensures id !in References(ids, n)
  {
  }

  lemma ReferencesRemove(ids: map<uint64, string>, id: uint64, n: string)
    requires id in ids
    ensures References(ids - {id}, n) == if n == ids[id] then References(ids, n) - {id} else References(ids, n)
    ensures id in References(ids, ids[id])
  {
  }

  lemma NoReferences(names: map<string, Watch>, ids: map<uint64, string>, name: string)
    requires name !in names && forall id :: id in ids ==> ids[id] in names
    ensures References(ids, name) == {}
  {
  }

  /** Watching a name keeps the counts right, also while an older peer of that name is still there. */
  lemma WatchCounted(s: State, name: string, id: uint64)
    requires Counted(s.names, s.ids) && id != 0 && id !in s.ids
    ensures var t := WatchName(s, name, id); Counted(t.names, t.ids)
  {
    hide References;
    var t := WatchName(s, name, id);
    if name !in s.names {
      NoReferences(s.names, s.ids, name);
    }
    forall n | n in t.names
      ensures t.names[n].refCount == |References(t.ids, n)| > 0
    {
      ReferencesAdd(s.ids, id, name, n);
    }
  }

  /** So does dropping a reference: the watch goes away with its last one. */
  lemma UnwatchCounted(s: State, id: uint64)
    requires Counted(s.names, s.ids)
    ensures var t := UnwatchName(s, id); Counted(t.names, t.ids)
  {
    if id in s.ids {
      var t := UnwatchName(s, id);
      ReferencesRemove(s.ids, id, s.ids[id]);
      if s.names[s.ids[id]].refCount == 1 {
        LastReference(s.ids, id);
      }
      hide References;
      forall n | n in t.names
        ensures t.names[n].refCount == |References(t.ids, n)| > 0
      {
        ReferencesRemove(s.ids, id, n);
      }
    }
  }

  lemma LastReference(ids: map<uint64, string>, id: uint64)
    requires id in ids && |References(ids, ids[id])| == 1
    ensures forall x :: x in ids && ids[x] == ids[id] ==> x == id
  {
    var r := References(ids, ids[id]);
    assert |r - {id}| == 0;
    forall x | x in ids && ids[x] == ids[id]
      ensures x == id
    {
      assert x == id || x in r - {id};
    }
  }

  /* ---------- Every event keeps peers and watches together ---------- */

  /** Between calls every watch has exactly one reference: the one of its peer. */
  lemma OneReference(s: State, name: string)
    requires Counted(s.names, s.ids) && Agree(s) && name in s.peers
    ensures References(s.ids, name) == {s.peers[name].watchId} && s.names[name].refCount == 1
  {
    var id := s.peers[name].watchId;
    assert forall x :: x in References(s.ids, name) <==> x == id;
  }

  /** A peer that goes away takes its watch and its id with it, and its sender is closed. */
  lemma CloseEffect(s: State, name: string)
    requires Counted(s.names, s.ids) && name in s.peers && s.peers[name].watchId in s.ids
    requires s.ids[s.peers[name].watchId] == name && s.names[name].refCount == 1
    ensures var p := s.peers[name];
      LogClose(s, name) == State(s.peers - {name}, s.names - {name}, s.ids - {p.watchId}, s.made, s.closed + [p.sender])
  {
  }

  /** Opening again replaces the id and the sender of the peer; the watch stays, with one reference. */
  lemma OpenEffect(s: State, name: string, id: uint64)
    requires Counted(s.names, s.ids) && Agree(s) && id != 0 && id !in s.ids
    ensures var known := name in s.peers;
      LogOpen(s, name, id) == State(
        s.peers[name := Peer(id, s.made)],
        s.names[name := Watch(1, false, if known then s.names[name].pending else true)],
        (if known then s.ids - {s.peers[name].watchId} else s.ids)[id := name],
        s.made + 1,
        s.closed + if known then [s.peers[name].sender] else [])
  {
    if name in s.peers {
      OneReference(s, name);
      var t := LogOpen(s, name, id);
      assert t.ids == (s.ids - {s.peers[name].watchId})[id := name];
    } else {
      assert s.closed + [] == s.closed;
    }
  }

  lemma CloseInv(s: State, name: string)
    requires Inv(s)
    ensures Inv(LogClose(s, name)) && name !in LogClose(s, name).names
  {
    if name in s.peers {
      OneReference(s, name);
      CloseEffect(s, name);
      CloseKeeps(s, name);
    }
  }

  lemma CloseKeeps(s: State, name: string)
    requires Inv(s) && name in s.peers && References(s.ids, name) == {s.peers[name].watchId}
    ensures var p := s.peers[name];
      var t := State(s.peers - {name}, s.names - {name}, s.ids - {p.watchId}, s.made, s.closed + [p.sender]);
      Inv(t)
  {
    var p := s.peers[name];
    assert Counted(s.names - {name}, s.ids - {p.watchId}) by {
      forall n | n in s.names - {name}
        ensures s.names[n].refCount == |References(s.ids - {p.watchId}, n)| > 0
      {
        ReferencesRemove(s.ids, p.watchId, n);
      }
    }
    hide Counted, References;
    SenderLeaves(s.peers, s.made, s.closed, name);
  }

  lemma SenderLeaves(peers: map<string, Peer>, made: nat, closed: seq<nat>, name: string)
    requires Senders(peers, made, closed) && name in peers
    ensures Senders(peers - {name}, made, closed + [peers[name].sender])
  {
    var gone := peers[name].sender;
    var c := closed + [gone];
    assert forall x :: x in c <==> x in closed || x == gone;
    forall x: nat | x < made && x !in c
      ensures exists n :: n in peers - {name} && (peers - {name})[n].sender == x
    {
      var n :| n in peers && peers[n].sender == x;
      assert n in peers - {name};
    }
  }

  lemma SenderArrives(peers: map<string, Peer>, made: nat, closed: seq<nat>, name: string, id: uint64)
    requires Senders(peers, made, closed) && name !in peers
    ensures Senders(peers[name := Peer(id, made)], made + 1, closed)
  {
    var q := peers[name := Peer(id, made)];
    forall x: nat | x < made + 1 && x !in closed
      ensures exists n :: n in q && q[n].sender == x
    {
      if x == made {
        assert q[name].sender == x;
      } else {
        var n :| n in peers && peers[n].sender == x;
        assert q[n].sender == x;
      }
    }
  }

  lemma OpenInv(s: State, name: string, id: uint64)
    requires Inv(s) && id != 0 && id !in s.ids
    ensures Inv(LogOpen(s, name, id)) && name in LogOpen(s, name, id).peers
  {
    OpenCounted(s, name, id);
    OpenAgree(s, name, id);
    OpenSenders(s, name, id);
    OpenEffect(s, name, id);
    hide LogOpen, Counted, Agree, Senders;
  }

  lemma OpenSenders(s: State, name: string, id: uint64)
    requires Inv(s) && id != 0 && id !in s.ids
    ensures var t := LogOpen(s, name, id); Senders(t.peers, t.made, t.closed)
  {
    OpenEffect(s, name, id);
    SenderReplaced(s.peers, s.made, s.closed, name, id);
    hide *;
  }

  lemma SenderReplaced(peers: map<string, Peer>, made: nat, closed: seq<nat>, name: string, id: uint64)
    requires Senders(peers, made, closed)
    ensures Senders(peers[name := Peer(id, made)], made + 1,
                    closed + if name in peers then [peers[name].sender] else [])
  {
    if name in peers {
      SenderLeaves(peers, made, closed, name);
      hide Senders;
      SenderArrives(peers - {name}, made, closed + [peers[name].sender], name, id);
      assert (peers - {name})[name := Peer(id, made)] == peers[name := Peer(id, made)];
    } else {
      hide Senders;
      SenderArrives(peers, made, closed, name, id);
      assert closed + [] == closed;
    }
  }

  lemma OpenCounted(s: State, name: string, id: uint64)
    requires Inv(s) && id != 0 && id !in s.ids
    ensures Counted(LogOpen(s, name, id).names, LogOpen(s, name, id).ids)
  {
    WatchCounted(s, name, id);
    var s1 := WatchName(s, name, id);
    var s2 := s1.(peers := s1.peers[name := Peer(id, s.made)], made := s.made + 1);
    if name in s.peers {
      UnwatchCounted(s2, s.peers[name].watchId);
    }
  }

  lemma OpenAgree(s: State, name: string, id: uint64)
    requires Inv(s) && id != 0 && id !in s.ids
    ensures Agree(LogOpen(s, name, id))
  {
    OpenEffect(s, name, id);
    hide LogOpen, Counted, Senders;
  }

  /** A name that vanishes ends like a log that is closed: the mark never outlives its watch. */
  lemma VanishIsClose(s: State, name: string)
    requires Inv(s)
    ensures NameLost(s, name) == LogClose(s, name)
  {
    if name in s.peers {
      OneReference(s, name);
      var s1 := s.(names := s.names[name := s.names[name].(vanished := true)]);
      MarkCounted(s, name, s1.names[name]);
      CloseEffect(s, name);
      CloseEffect(s1, name);
      assert s1.names - {name} == s.names - {name};
    }
  }

  /** What the end of a peer leaves behind: nothing under its name, and everybody else untouched. */
  ghost predicate Gone(s: State, t: State, name: string)
  {
    && name !in t.peers && name !in t.names && (forall id :: id in t.ids ==> t.ids[id] != name)
    && (forall n :: n != name ==> (n in s.peers <==> n in t.peers) && (n in s.names <==> n in t.names))
    && (forall n :: n in t.peers ==> t.peers[n] == s.peers[n])
    && (forall n :: n in t.names ==> t.names[n] == s.names[n])
    && (forall id :: id in s.ids && s.ids[id] != name ==> id in t.ids)
    && (forall id :: id in t.ids ==> id in s.ids && t.ids[id] == s.ids[id])
    && t.made == s.made
    && t.closed == s.closed + if name in s.peers then [s.peers[name].sender] else []
  }

  /** Closing a log ends its peer and closes its sender; without a peer nothing happens. */
  lemma CloseEnds(s: State, name: string)
    requires Inv(s)
    ensures Gone(s, LogClose(s, name), name)
    ensures name !in s.peers ==> LogClose(s, name) == s
  {
    if name in s.peers {
      OneReference(s, name);
      CloseEffect(s, name);
      assert forall id :: id in s.ids && s.ids[id] == name ==> id in References(s.ids, name);
    } else {
      assert s.closed + [] == s.closed;
    }
  }

  /** A late reply that nobody owns the name ends the peer; one that names an owner changes nothing
      but that the question is answered. */
  lemma ReplyEffect(s: State, name: string)
    requires Inv(s) && name in s.names
    ensures Gone(s, OwnerReply(s, name, false), name)
    ensures name in s.peers && s.peers[name].sender in OwnerReply(s, name, false).closed
    ensures OwnerReply(s, name, true) == s.(names := s.names[name := s.names[name].(pending := false)])
  {
    hide LogClose, Counted, Agree, Senders, Gone, References;
    var w := s.names[name].(pending := false);
    var s1 := s.(names := s.names[name := w]);
    MarkCounted(s, name, w);
    MarkAgree(s, name);
    VanishIsClose(s1, name);
    CloseEnds(s1, name);
    GoneAnyway(s, s1, OwnerReply(s, name, false), name);
    WatchHasPeer(s, name);
  }

  lemma GoneAnyway(s: State, s1: State, t: State, name: string)
    requires Gone(s1, t, name) && name in s.names && name in s1.names
    requires s1 == s.(names := s.names[name := s1.names[name]])
    ensures Gone(s, t, name) && (name in s.peers ==> s.peers[name].sender in t.closed)
  {
  }

  lemma WatchHasPeer(s: State, name: string)
    requires Agree(s) && name in s.names
    ensures name in s.peers
  {
  }

  lemma MarkCounted(s: State, name: string, w: Watch)
    requires Counted(s.names, s.ids) && name in s.names && w.refCount == s.names[name].refCount
    ensures Counted(s.names[name := w], s.ids)
  {
  }

  /** After every open, reopen, close, loss of a name and late reply, peers and watches agree. */
  lemma StepInv(s: State, e: Event)
    requires Inv(s) && Enabled(s, e)
    ensures Inv(Step(s, e))
  {
    hide Counted, Agree, Senders;
    match e
    case Open(name, id) => OpenInv(s, name, id);
    case Close(name) => CloseInv(s, name);
    case Lost(name) =>
      VanishIsClose(s, name);
      CloseInv(s, name);
    case Reply(name, owned) =>
      var w := s.names[name].(pending := false);
      var s1 := s.(names := s.names[name := w]);
      MarkCounted(s, name, w);
      MarkAgree(s, name);
      VanishIsClose(s1, name);
      CloseInv(s1, name);
  }

  lemma MarkAgree(s: State, name: string)
    requires Agree(s) && name in s.names
    ensures Agree(s.(names := s.names[name := s.names[name].(pending := false)]))
  {
  }

  /** `t` can be reached from `s` by these events. */
  ghost predicate Reaches(s: State, es: seq<Event>, t: State)
    decreases |es|
  {
    if es == [] then t == s
    else Enabled(s, es[0]) && Reaches(Step(s, es[0]), es[1..], t)
  }

  lemma {:induction false} RunInv(s: State, es: seq<Event>, t: State)
    requires Inv(s) && Reaches(s, es, t)
    ensures Inv(t)
    decreases |es|
  {
    hide Inv, Step;
    if es != [] {
      StepInv(s, es[0]);
      RunInv(Step(s, es[0]), es[1..], t);
    }
  }

  /** In every state the server can get into: watches and peers are the same names, every watch has
      exactly one reference and is not marked vanished, no two peers share an id, and every sender
      ever opened serves one peer or has been closed. */
  lemma PeersAndWatchesAgree(es: seq<Event>, t: State)
    requires Reaches(EMPTY, es, t)
    ensures t.peers.Keys == t.names.Keys
    ensures forall n :: n in t.names ==> t.names[n].refCount == 1 && !t.names[n].vanished
    ensures forall n :: n in t.peers ==> References(t.ids, n) == {t.peers[n].watchId}
    ensures forall m, n :: m in t.peers && n in t.peers && t.peers[m].watchId == t.peers[n].watchId ==> m == n
    ensures forall x: nat :: x < t.made ==> (x in t.closed <==> !exists n :: n in t.peers && t.peers[n].sender == x)
  {
    EmptyInv();
    RunInv(EMPTY, es, t);
    forall n | n in t.peers
      ensures References(t.ids, n) == {t.peers[n].watchId} && t.names[n].refCount == 1
    {
      OneReference(t, n);
    }
  }

  /* ---------- Searching a free id ---------- */

  /** The id `k` steps after `start`, with wrap-around. */
  function After(start: uint64, k: nat): uint64
    requires k <= TWO_64
  {
    if start + k < TWO_64 then start + k else start + k - TWO_64
  }

  predicate Taken(ids: map<uint64, string>, id: uint64) { id == 0 || id in ids }

  /** The ids visited by `k` unsuccessful steps. */
  ghost function Visited(start: uint64, k: nat): set<uint64>
    requires k <= TWO_64
  {
    if k == 0 then {} else Visited(start, k - 1) + {After(start, k)}
  }

  /** Later steps see new ids until the counter has gone all the way round. */
  lemma {:induction false} NotVisited(start: uint64, k: nat, later: nat)
    requires k < later <= TWO_64
    ensures After(start, later) !in Visited(start, k)
  {
    if k > 0 {
      NotVisited(start, k - 1, later);
    }
  }

  lemma {:induction false} VisitedSize(start: uint64, k: nat)
    requires k <= TWO_64
    ensures |Visited(start, k)| == k
  {
    hide After;
    if k > 0 {
      VisitedSize(start, k - 1);
      NotVisited(start, k - 1, k);
    }
  }

  lemma {:induction false} VisitedTaken(ids: map<uint64, string>, start: uint64, k: nat)
    requires k <= TWO_64 && forall j :: 1 <= j <= k ==> Taken(ids, After(start, j))
    ensures forall x :: x in Visited(start, k) ==> Taken(ids, x)
  {
    hide After, Taken;
    if k > 0 {
      VisitedTaken(ids, start, k - 1);
    }
  }

  /** A search that has failed `k` times has seen `k` different taken ids, so it cannot go on for
      longer than there are ids in use. */
  lemma SearchBound(ids: map<uint64, string>, start: uint64, k: nat)
    requires k <= TWO_64 && forall j :: 1 <= j <= k ==> Taken(ids, After(start, j))
    ensures k <= |ids| + 1
  {
    VisitedSize(start, k);
    VisitedTaken(ids, start, k);
    SubsetSize(Visited(start, k), ids.Keys + {0});
    assert |ids.Keys| == |ids|;
  }

  lemma {:induction false} SubsetSize(a: set<uint64>, b: set<uint64>)
    requires a <= b
    ensures |a| <= |b|
  {
    if a != {} {
      var x :| x in a;
      SubsetSize(a - {x}, b - {x});
    }
  }

  /* ---------- The objects ---------- */

  class Server {
    var peers: map<string, Peer>
    var nameWatchTable: map<string, Watch>
    var idWatchTable: map<uint64, string>
    var lastWatchId: uint64
    var senders: nat

    /** The fields above and the history of senders. */
    ghost var model: State

    ghost predicate Fields()
      reads this
    {
      model.peers == peers && model.names == nameWatchTable && model.ids == idWatchTable && model.made == senders
    }

    ghost predicate Valid()
      reads this
    {
      Fields() && Inv(model)
    }

    constructor ()
      ensures Valid() && model == EMPTY && lastWatchId == 0
    {
      peers, nameWatchTable, idWatchTable, lastWatchId, senders := map[], map[], map[], 0, 0;
      model := EMPTY;
      new;
      EmptyInv();
    }

    /** The first free nonzero id after the last one handed out, with wrap-around. */
    method NextId() returns (id: uint64)
      requires |idWatchTable| < TWO_64 - 1
      modifies this`lastWatchId
      ensures id != 0 && id !in idWatchTable && lastWatchId == id
      ensures exists k :: 1 <= k <= |idWatchTable| + 2 && k <= TWO_64 && id == After(old(lastWatchId), k)
                          && forall j :: 1 <= j < k ==> Taken(idWatchTable, After(old(lastWatchId), j))
    {
      ghost var start, k := lastWatchId, 1;
      lastWatchId := if lastWatchId + 1 < TWO_64 then lastWatchId + 1 else 0;
      id := lastWatchId;
      while id == 0 || id in idWatchTable
        invariant 1 <= k <= TWO_64 && k <= |idWatchTable| + 2
        invariant id == lastWatchId == After(start, k)
        invariant forall j :: 1 <= j < k ==> Taken(idWatchTable, After(start, j))
        decreases |idWatchTable| + 2 - k
      {
        SearchBound(idWatchTable, start, k);
        lastWatchId := if lastWatchId + 1 < TWO_64 then lastWatchId + 1 else 0;
        id := lastWatchId;
        k := k + 1;
      }
    }

    method WatchPeerName(name: string) returns (id: uint64)
      requires Fields() && |idWatchTable| < TWO_64 - 1
      modifies this
      ensures Fields() && id != 0 && id !in old(idWatchTable) && model == WatchName(old(model), name, id)
      ensures peers == old(peers) && senders == old(senders)
    {
      var watch := if name in nameWatchTable then nameWatchTable[name] else Watch(0, false, true);
      watch := watch.(refCount := watch.refCount + 1);
      nameWatchTable := nameWatchTable[name := watch];
      id := NextId();
      idWatchTable := idWatchTable[id := name];
      model := WatchName(model, name, id);
    }

    /** Removing an id drops one reference; the watch goes away with the last one. */
    method UnwatchPeerName(id: uint64)
      requires Fields()
      modifies this`nameWatchTable, this`idWatchTable, this`model
      ensures Fields() && model == UnwatchName(old(model), id)
    {
      model := UnwatchName(model, id);
      if id in idWatchTable {
        var name := idWatchTable[id];
        idWatchTable := idWatchTable - {id};
        if name in nameWatchTable {
          var watch := nameWatchTable[name];
          if watch.refCount <= 1 {
            nameWatchTable := nameWatchTable - {name};
          } else {
            nameWatchTable := nameWatchTable[name := watch.(refCount := watch.refCount - 1)];
          }
        }
      }
    }

    method PeerDestroy(peer: Peer)
      requires Fields()
      modifies this`nameWatchTable, this`idWatchTable, this`model
      ensures Fields() && model == Destroy(old(model), peer)
    {
      UnwatchPeerName(peer.watchId);
      model := model.(closed := model.closed + [peer.sender]);
    }

    /** The result is a negative error code or the number of the sender. */
    method CallLogOpen(name: string, allowed: bool, piped: bool) returns (r: int)
      requires Valid() && |idWatchTable| < TWO_64 - 1
      modifies this
      ensures Valid()
      ensures !allowed ==> r == -EACCES && model == old(model)
      ensures allowed && !piped ==> r == -EIO && model == old(model)
      ensures allowed && piped ==>
        && r == old(model).made && name in peers && peers[name].sender == r
        && peers[name].watchId !in old(idWatchTable)
        && model == LogOpen(old(model), name, peers[name].watchId)
    {
      if !allowed { return -EACCES; }
      if !piped { return -EIO; }
      ghost var before := model;
      r := CreatePeer(name);
      OpenInv(before, name, peers[name].watchId);
    }

    /** Watches the name, then puts the new peer in the place of an older one, which is destroyed. */
    method CreatePeer(name: string) returns (r: int)
      requires Fields() && |idWatchTable| < TWO_64 - 1
      modifies this
      ensures Fields() && name in peers && r == old(model).made == peers[name].sender
      ensures peers[name].watchId != 0 && peers[name].watchId !in old(idWatchTable)
      ensures model == LogOpen(old(model), name, peers[name].watchId)
    {
      r := senders;
      var id := WatchPeerName(name);
      var replaced := name in peers;
      var older := if replaced then peers[name] else Peer(id, r);
      peers := peers[name := Peer(id, r)];
      senders := senders + 1;
      model := model.(peers := peers, made := senders);
      if replaced {
        PeerDestroy(older);
      }
    }

    static lemma CloseKept(s: State, name: string)
      ensures Inv(s) ==> Inv(LogClose(s, name)) && Gone(s, LogClose(s, name), name)
    {
      hide Gone;
      if Inv(s) { StepInv(s, Close(name)); CloseEnds(s, name); }
    }

    /** Also what happens when a peer vanishes. */
    method CallLogClose(name: string)
      requires Fields()
      modifies this
      ensures Fields() && model == LogClose(old(model), name)
      ensures old(Valid()) ==> Valid() && Gone(old(model), model, name)
    {
      hide Inv;
      CloseKept(model, name);
      if name in peers {
        var peer := peers[name];
        peers := peers - {name};
        model := model.(peers := peers);
        PeerDestroy(peer);
      }
    }

    method HandleNameOwnerChanged(name: string)
      requires Valid()
      modifies this
      ensures Valid() && model == NameLost(old(model), name) == LogClose(old(model), name)
      ensures Gone(old(model), model, name)
    {
      hide Inv;
      StepInv(model, Lost(name));
      VanishIsClose(model, name);
      CloseEnds(model, name);
      if name in nameWatchTable && !nameWatchTable[name].vanished {
        nameWatchTable := nameWatchTable[name := nameWatchTable[name].(vanished := true)];
        model := model.(names := nameWatchTable);
        CallLogClose(name);
      }
    }

    method GetNameOwnerReply(name: string, owned: bool)
      requires Valid() && name in nameWatchTable && nameWatchTable[name].pending
      modifies this
      ensures Valid() && model == OwnerReply(old(model), name, owned)
      ensures owned ==> peers == old(peers) && idWatchTable == old(idWatchTable) && model.closed == old(model).closed
      ensures owned ==>
        nameWatchTable == old(nameWatchTable)[name := old(nameWatchTable)[name].(pending := false)]
      ensures !owned ==> Gone(old(model), model, name)
    {
      hide Inv;
      StepInv(model, Reply(name, owned));
      ReplyEffect(model, name);
      nameWatchTable := nameWatchTable[name := nameWatchTable[name].(pending := false)];
      model := model.(names := nameWatchTable);
      if !owned && !nameWatchTable[name].vanished {
        nameWatchTable := nameWatchTable[name := nameWatchTable[name].(vanished := true)];
        model := model.(names := nameWatchTable);
        CallLogClose(name);
      }
    }
  }
}
