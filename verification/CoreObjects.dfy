/** The core as an object: arrays and tables that its methods replace and update. */
module CoreObjects {
  import opened Channel
  import opened Sequences
  import opened Wire
  import S = SenderSpec
  import opened SenderLedger

  import opened Cores

  class Core {
    var backlog: int
    var senders: seq<nat>
    var handlers: map<nat, nat>
    var pool: map<nat, S.State>
    var made: nat
    var nextMsgIndex: uint32

    /** The fields above and the history of calls. */
    ghost var model: State

    ghost predicate Fields()
      reads this
    {
      && model.backlog == backlog && model.senders == senders && model.handlers == handlers
      && model.pool == pool && model.made == made && model.next == nextMsgIndex
    }

    ghost predicate Valid()
      reads this
    {
      Fields() && Inv(model, {})
    }

    constructor (backlog: int)
      ensures Valid() && model == Fresh(backlog) && senders == [] && nextMsgIndex == 0
      ensures this.backlog == S.NormalizeBacklog(backlog)
    {
      this.backlog, senders, handlers, pool, made, nextMsgIndex := S.NormalizeBacklog(backlog), [], map[], map[], 0, 0;
      model := Fresh(backlog);
      new;
      FreshInv(backlog);
    }

    /** The array is replaced by a copy with one more element. */
    method AddSender() returns (id: nat)
      requires Fields()
      modifies this
      ensures Fields() && model == Cores.NewSender(old(model)) && id == old(made)
      ensures senders == old(senders) + [id] && handlers.Keys == old(handlers).Keys + {id}
      ensures pool == old(pool)[id := S.Fresh(backlog)] && backlog == old(backlog) && nextMsgIndex == old(nextMsgIndex)
    {
      id := made;
      var copy := [];
      for i := 0 to |senders|
        invariant copy == senders[..i]
      {
        copy := copy + [senders[i]];
      }
      pool, made := pool[id := S.Fresh(backlog)], made + 1;
      handlers := handlers[id := made];
      senders := copy + [id];
      model := Cores.NewSender(model);
    }

    /** The array is replaced by a copy without the sender, if it is there. */
    method DropSender(id: nat) returns (removed: bool)
      requires Fields()
      modifies this
      ensures Fields() && model == RemoveSender(old(model), id) && removed == (id in old(senders))
      ensures !removed ==> senders == old(senders) && handlers == old(handlers)
      ensures removed ==> id !in handlers
      ensures removed ==> exists i :: 0 <= i < |old(senders)| && old(senders)[i] == id && id !in old(senders)[..i]
                                      && senders == old(senders)[..i] + old(senders)[i + 1..]
      ensures pool == old(pool) && backlog == old(backlog) && nextMsgIndex == old(nextMsgIndex)
    {
      var index := 0;
      while index < |senders| && senders[index] != id
        invariant index <= |senders| && id !in senders[..index]
      {
        index := index + 1;
      }
      removed := index < |senders|;
      model := RemoveSender(model, id);
      if removed {
        WithoutAt(senders, id, index);
        senders := CopyWithout(index);
        handlers := handlers - {id};
      }
    }

    method CopyWithout(index: nat) returns (copy: seq<nat>)
      requires index < |senders|
      ensures copy == senders[..index] + senders[index + 1..]
    {
      copy := [];
      for i := 0 to index
        invariant copy == senders[..i]
      {
        copy := copy + [senders[i]];
      }
      var n := |senders|;
      for i := index + 1 to n
        invariant copy == senders[..index] + senders[index + 1..i]
      {
        copy := copy + [senders[i]];
      }
      assert senders[..n] == senders;
    }

    static lemma {:induction false} WithoutAt(ids: seq<nat>, id: nat, index: nat)
      requires index < |ids| && ids[index] == id && id !in ids[..index]
      ensures Without(ids, id) == ids[..index] + ids[index + 1..]
    {
      if index > 0 {
        assert ids[0] == ids[..index][0];
        assert ids[1..][..index - 1] == ids[..index][1..] && ids[1..][index..] == ids[index + 1..];
        WithoutAt(ids[1..], id, index - 1);
      }
    }

    method SetBacklog(backlog: int, keep: nat -> seq<bool>)
      requires Valid()
      modifies this
      ensures Valid() && model == Cores.SetBacklog(old(model), backlog, keep)
      ensures this.backlog == S.NormalizeBacklog(backlog) && senders == old(senders)
      ensures forall id :: id in senders ==> id in pool && pool[id].limit == this.backlog
    {
      hide S.SetBacklog, S.NormalizeBacklog, SetLimits, Sound, Distinct;
      Cores.SetBacklogKeeps(model, backlog, keep);
      SendersKnown(model);
      var b := S.NormalizeBacklog(backlog);
      if this.backlog != b {
        this.backlog := b;
        SetEachLimit(b, keep);
        model := model.(backlog := b, pool := pool);
      }
    }

    method SetEachLimit(b: int, keep: nat -> seq<bool>)
      requires forall id :: id in senders ==> id in pool
      modifies this`pool
      ensures pool == SetLimits(old(pool), senders, b, keep)
    {
      hide S.SetBacklog;
      for i := 0 to |senders|
        invariant pool.Keys == old(pool).Keys
        invariant pool == SetLimits(old(pool), senders[..i], b, keep)
      {
        var id := senders[i];
        assert Init(senders[..i + 1]) == senders[..i];
        pool := pool[id := S.SetBacklog(pool[id], b, keep(id))];
      }
      assert senders[..|senders|] == senders;
    }

    static lemma SendersKnown(c: State)
      requires Inv(c, {})
      ensures forall id :: id in c.senders ==> id in c.pool
    {
    }

    /** Something that happens between two sends of the same message. */
    method Happen(op: Op, w: nat -> Writer)
      requires Fields()
      modifies this
      ensures Fields() && model == Apply(old(model), op, w)
    {
      hide S.Step;
      if op.AtSender? && !(op.id in pool && S.Enabled(pool[op.id], op.e) && Quiet(op.e)) { return; }
      match op {
        case MakeSender => var _ := AddSender();
        case DropSender(id) => var _ := DropSender(id);
        case AtSender(id, e) =>
          var t := S.Step(pool[id], e, w(id));
          var closed := t.closedSignals > pool[id].closedSignals;
          pool := pool[id := t];
          model := Noted(model, id, t).(pool := pool);
          if closed && id in handlers {
            var _ := DropSender(id);
          }
      }
    }

    /** Numbers the message and hands it to a snapshot of the list. */
    method Send(m: Message, between: nat -> seq<Op>, w: nat -> Writer)
      requires Valid()
      modifies this
      ensures Valid() && model == Cores.Send(old(model), m, between, w)
    {
      hide Inv, S.Send, Apply;
      SendReachesAll(model, m, between, w);
      var snapshot, msg := senders, m.(index := nextMsgIndex);
      nextMsgIndex := (nextMsgIndex + 1) % TWO_32;
      model := model.(next := nextMsgIndex);
      ghost var start := model;
      for i := 0 to |snapshot|
        invariant Fields() && model == FanOut(start, snapshot[..i], msg, between, w)
      {
        var id := snapshot[i];
        if id in pool {
          pool := pool[id := S.Send(pool[id], msg)];
        }
        model := Offer(model, id, msg);
        ghost var offered := model;
        var ops := between(i);
        for j := 0 to |ops|
          invariant Fields() && model == ApplyAll(offered, ops[..j], w)
        {
          Happen(ops[j], w);
          assert Init(ops[..j + 1]) == ops[..j];
        }
        assert ops[..|ops|] == ops;
        assert Init(snapshot[..i + 1]) == snapshot[..i];
      }
      assert snapshot[..|snapshot|] == snapshot;
    }
  }
}
