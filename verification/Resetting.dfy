/** The client's reset command: which categories it enables and disables, and what the server makes of it. */
module Resetting {
  import opened Categories
  import M = Mirror

  /** Enabled is not what the default says, and the default is `want`. */
  predicate IsWrong(e: Entry, want: bool) {
    e.flags.enabledByDefault == want && e.flags.enabled != want
  }

  /** The names of the categories that have to be set to `want`, in the order of the array. */
  function Wrong(a: seq<Entry>, want: bool): seq<string> {
    if a == [] then []
    else Wrong(a[..|a| - 1], want) + if IsWrong(a[|a| - 1], want) then [a[|a| - 1].name] else []
  }

  /** One walk over the array builds both lists. */
  method ComputeLists(a: seq<Entry>) returns (enable: seq<string>, disable: seq<string>)
    ensures enable == Wrong(a, true) && disable == Wrong(a, false)
  {
    enable, disable := [], [];
    for i := 0 to |a|
      invariant enable == Wrong(a[..i], true) && disable == Wrong(a[..i], false)
    {
      var cat := a[i];
      if cat.flags.enabledByDefault {
        if !cat.flags.enabled {
          enable := enable + [cat.name];
        }
      } else {
        if cat.flags.enabled {
          disable := disable + [cat.name];
        }
      }
      assert a[..i + 1][..i] == a[..i];
    }
    assert a[..|a|] == a;
  }

  /** The server sets the named categories one by one. */
  function SetNames(t: Table, names: seq<string>, enable: bool): Table {
    if names == [] then t else SetEnabled(SetNames(t, names[..|names| - 1], enable), names[|names| - 1], enable)
  }

  /** Reset enables first and disables then. */
  function Reset(t: Table, a: seq<Entry>): Table {
    SetNames(SetNames(t, Wrong(a, true), true), Wrong(a, false), false)
  }

  /* ---------- What the lists contain ---------- */

  ghost predicate DistinctNames(a: seq<Entry>)
  {
    forall i, j :: 0 <= i < j < |a| ==> a[i].name != a[j].name
  }

  lemma {:induction false} WrongSpec(a: seq<Entry>, want: bool)
    requires DistinctNames(a)
    ensures forall n :: n in Wrong(a, want) ==> exists e :: e in a && e.name == n && IsWrong(e, want)
    ensures forall e :: e in a && IsWrong(e, want) ==> e.name in Wrong(a, want)
    ensures Distinct(Wrong(a, want))
  {
    if a != [] {
      var b, e := a[..|a| - 1], a[|a| - 1];
      WrongSpec(b, want);
      assert forall x :: x in a <==> x in b || x == e by { assert a == b + [e]; }
      assert e.name !in Wrong(b, want) by {
        assert forall x :: x in b ==> x.name != e.name;
      }
      hide IsWrong;
      assert IsWrong(e, want) ==> Wrong(a, want) == Wrong(b, want) + [e.name];
      assert !IsWrong(e, want) ==> Wrong(a, want) == Wrong(b, want);
    }
  }

  ghost predicate Distinct(names: seq<string>)
  {
    forall i, j :: 0 <= i < j < |names| ==> names[i] != names[j]
  }

  /* ---------- What the server does with a list ---------- */

  /** All of these categories exist and are not set to `enable` yet. */
  ghost predicate Changeable(t: Table, names: seq<string>, enable: bool)
  {
    Distinct(names) && forall n :: n in names ==> n in t.cats && t.cats[n].entry.flags.enabled != enable
  }

  function Turned(c: Category, enable: bool): Category {
    c.(entry := c.entry.(flags := c.entry.flags.(enabled := enable)))
  }

  /** Whatever the names: exactly the named categories that exist are set, nothing else changes. */
  lemma {:induction false} SetNamesSetsExactly(t: Table, names: seq<string>, enable: bool)
    ensures var u := SetNames(t, names, enable);
      && u.cats.Keys == t.cats.Keys
      && (forall n :: n in t.cats ==> u.cats[n] == if n in names then Turned(t.cats[n], enable) else t.cats[n])
  {
    if names != [] {
      var some, last := names[..|names| - 1], names[|names| - 1];
      assert forall n :: n in names <==> n in some || n == last by { assert names == some + [last]; }
      SetNamesSetsExactly(t, some, enable);
    }
  }

  /** One event for each name, in order. */
  function ChangeEvents(t: Table, names: seq<string>, enable: bool): seq<Event>
    requires forall n :: n in names ==> n in t.cats
  {
    if names == [] then []
    else
      var c := t.cats[names[|names| - 1]];
      ChangeEvents(t, names[..|names| - 1], enable) + [Changed(c.entry.id, Turned(c, enable).entry.flags)]
  }

  lemma {:induction false} SetNamesAnnounces(t: Table, names: seq<string>, enable: bool)
    requires Changeable(t, names, enable)
    ensures SetNames(t, names, enable).events == t.events + ChangeEvents(t, names, enable)
  {
    if names != [] {
      var some, last := names[..|names| - 1], names[|names| - 1];
      assert names == some + [last] && last !in some;
      SetNamesAnnounces(t, some, enable);
      SetNamesSetsExactly(t, some, enable);
      SetOne(SetNames(t, some, enable), last, enable);
    }
  }

  lemma {:induction false} ChangeEventsAre(t: Table, names: seq<string>, enable: bool)
    requires forall n :: n in names ==> n in t.cats
    ensures |ChangeEvents(t, names, enable)| == |names|
    ensures forall i :: 0 <= i < |names| ==>
      var e := t.cats[names[i]].entry;
      ChangeEvents(t, names, enable)[i] == Changed(e.id, e.flags.(enabled := enable))
  {
    if names != [] {
      ChangeEventsAre(t, names[..|names| - 1], enable);
    }
  }

  /** Those of the names whose categories have to change, each where it is named first. */
  function Changing(t: Table, names: seq<string>, enable: bool): seq<string> {
    if names == [] then []
    else
      var some, last := names[..|names| - 1], names[|names| - 1];
      Changing(t, some, enable)
      + if last !in some && last in t.cats && t.cats[last].entry.flags.enabled != enable then [last] else []
  }

  lemma {:induction false} ChangingSpec(t: Table, names: seq<string>, enable: bool)
    ensures Changeable(t, Changing(t, names, enable), enable)
    ensures forall n :: n in Changing(t, names, enable) <==>
      n in names && n in t.cats && t.cats[n].entry.flags.enabled != enable
  {
    if names != [] {
      var some, last := names[..|names| - 1], names[|names| - 1];
      ChangingSpec(t, some, enable);
      assert forall n :: n in names <==> n in some || n == last by { assert names == some + [last]; }
    }
  }

  /** Whatever the names, known or not, once or more often: one event for each category that changes,
      in the order in which they are named, and no other. */
  lemma {:induction false} SetNamesAnnouncesExactly(t: Table, names: seq<string>, enable: bool)
    ensures (forall n :: n in Changing(t, names, enable) ==> n in t.cats)
    ensures SetNames(t, names, enable).events == t.events + ChangeEvents(t, Changing(t, names, enable), enable)
  {
    ChangingSpec(t, names, enable);
    if names != [] {
      var some, last := names[..|names| - 1], names[|names| - 1];
      SetNamesAnnouncesExactly(t, some, enable);
      SetNamesSetsExactly(t, some, enable);
      ChangingSpec(t, some, enable);
      var c := Changing(t, some, enable);
      if last !in some && last in t.cats && t.cats[last].entry.flags.enabled != enable {
        assert (c + [last])[..|c|] == c;
        SetOne(SetNames(t, some, enable), last, enable);
      } else {
        assert c + [] == c;
        EnableEffect(SetNames(t, some, enable), last, enable);
      }
    }
  }

  lemma SetOne(u: Table, name: string, enable: bool)
    requires name in u.cats && u.cats[name].entry.flags.enabled != enable
    ensures SetEnabled(u, name, enable).events ==
            u.events + [Changed(u.cats[name].entry.id, Turned(u.cats[name], enable).entry.flags)]
  {
  }

  /* ---------- The reset ---------- */

  /** The client holds exactly the server's categories. */
  ghost predicate ExactMirror(t: Table, a: seq<Entry>)
  {
    && DistinctNames(a)
    && (forall n :: n in t.cats ==> t.cats[n].entry in a)
    && (forall e :: e in a ==> e.name in t.cats && t.cats[e.name].entry == e)
  }

  /** A client that has heard everything is an exact mirror. */
  lemma MirrorIsExact(t: Table, m: ById, a: seq<Entry>)
    requires Mirrors(m, t.cats) && M.Sorted(a) && M.Lists(a, m)
    ensures ExactMirror(t, a)
  {
    forall i, j | 0 <= i < j < |a|
      ensures a[i].name != a[j].name
    {
      M.LessTotal(a[i].name, a[j].name);
    }
  }

  lemma WrongNames(t: Table, a: seq<Entry>, want: bool)
    requires ExactMirror(t, a) && forall n :: n in t.cats ==> t.cats[n].entry.name == n
    ensures Changeable(t, Wrong(a, want), want)
    ensures forall n :: n in t.cats ==> (n in Wrong(a, want) <==> IsWrong(t.cats[n].entry, want))
  {
    WrongSpec(a, want);
    forall n | n in t.cats
      ensures n in Wrong(a, want) <==> IsWrong(t.cats[n].entry, want)
    {
      assert t.cats[n].entry in a;
    }
  }

  /** Reset from an exact mirror: every category gets its default, nothing else changes, and each
      category that changes is announced once and the others are not. */
  lemma ResetRestoresDefaults(t: Table, a: seq<Entry>)
    requires ExactMirror(t, a) && Categories.Inv(t)
    ensures var u := Reset(t, a);
      && u.cats.Keys == t.cats.Keys
      && (forall n :: n in t.cats ==> u.cats[n] == Turned(t.cats[n], t.cats[n].entry.flags.enabledByDefault))
    ensures Changeable(t, Wrong(a, true), true) && Changeable(t, Wrong(a, false), false)
    ensures Reset(t, a).events ==
            t.events + ChangeEvents(t, Wrong(a, true), true) + ChangeEvents(t, Wrong(a, false), false)
  {
    var on, off := Wrong(a, true), Wrong(a, false);
    WrongNames(t, a, true);
    WrongNames(t, a, false);
    SetNamesSetsExactly(t, on, true);
    SetNamesAnnounces(t, on, true);
    var v := SetNames(t, on, true);
    assert forall n :: n in off ==> n !in on && v.cats[n] == t.cats[n];
    SetNamesSetsExactly(v, off, false);
    SetNamesAnnounces(v, off, false);
    SameChangeEvents(t, v, off, false);
    hide SetNames, Wrong;
  }

  lemma {:induction false} SameChangeEvents(t: Table, v: Table, names: seq<string>, enable: bool)
    requires forall n :: n in names ==> n in t.cats && n in v.cats && v.cats[n] == t.cats[n]
    ensures ChangeEvents(v, names, enable) == ChangeEvents(t, names, enable)
  {
    if names != [] {
      SameChangeEvents(t, v, names[..|names| - 1], enable);
    }
  }

  /** A second reset finds nothing to do. */
  lemma SecondResetIsEmpty(t: Table, a: seq<Entry>, b: seq<Entry>)
    requires ExactMirror(t, a) && Categories.Inv(t) && ExactMirror(Reset(t, a), b)
    ensures Wrong(b, true) == [] && Wrong(b, false) == []
  {
    ResetRestoresDefaults(t, a);
    var u := Reset(t, a);
    forall want | want || !want
      ensures Wrong(b, want) == []
    {
      WrongNames(u, b, want);
      WrongSpec(b, want);
      var ns := Wrong(b, want);
      assert forall n :: n in ns ==> n in u.cats && IsWrong(u.cats[n].entry, want);
      NoNames(ns);
    }
  }

  lemma NoNames(ns: seq<string>)
    ensures ns == [] || exists n :: n in ns
  {
    if ns != [] { assert ns[0] in ns; }
  }
}
