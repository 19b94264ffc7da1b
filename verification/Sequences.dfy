/** In-order subsequences and selections. */
module Sequences {

  function Init<T>(s: seq<T>): seq<T>
    requires s != []
  {
    s[..|s| - 1]
  }

  function Last<T>(s: seq<T>): T
    requires s != []
  {
    s[|s| - 1]
  }

  /** `a` is `b` with some elements left out, the others in the same order. */
  ghost predicate Subseq<T>(a: seq<T>, b: seq<T>)
  {
    a == [] || (b != [] && ((Last(a) == Last(b) && Subseq(Init(a), Init(b))) || Subseq(a, Init(b))))
  }

  lemma SubseqSnoc<T>(a: seq<T>, b: seq<T>, x: T)
    requires Subseq(a, b)
    ensures Subseq(a + [x], b + [x]) && Subseq(a, b + [x])
  {
    assert Init(a + [x]) == a && Init(b + [x]) == b;
  }

  lemma {:induction false} SubseqRefl<T>(a: seq<T>)
    ensures Subseq(a, a)
  {
    if a != [] {
      SubseqRefl(Init(a));
    }
  }

  lemma {:induction false} SubseqTrans<T>(a: seq<T>, b: seq<T>, c: seq<T>)
    requires Subseq(a, b) && Subseq(b, c)
    ensures Subseq(a, c)
    decreases |b| + |c|
  {
    if a != [] {
      if Last(b) == Last(c) && Subseq(Init(b), Init(c)) {
        if Last(a) == Last(b) && Subseq(Init(a), Init(b)) {
          SubseqTrans(Init(a), Init(b), Init(c));
        } else {
          SubseqTrans(a, Init(b), Init(c));
        }
      } else {
        SubseqTrans(a, b, Init(c));
      }
    }
  }

  lemma {:induction false} SubseqPrefix<T>(a: seq<T>, n: nat)
    requires n <= |a|
    ensures Subseq(a[..n], a)
    decreases |a|
  {
    if n == |a| {
      assert a[..n] == a;
      SubseqRefl(a);
    } else {
      SubseqPrefix(Init(a), n);
      assert Init(a)[..n] == a[..n];
    }
  }

  /** Leaving out elements of a suffix. */
  lemma {:induction false} SubseqSuffix<T>(p: seq<T>, a: seq<T>, b: seq<T>)
    requires Subseq(a, b)
    ensures Subseq(p + a, p + b)
  {
    if a == [] {
      SubseqPrefix(p + b, |p|);
      assert (p + b)[..|p|] == p == p + a;
    } else {
      assert p + b == (p + Init(b)) + [Last(b)];
      if Last(a) == Last(b) && Subseq(Init(a), Init(b)) {
        SubseqSuffix(p, Init(a), Init(b));
        SubseqSnoc(p + Init(a), p + Init(b), Last(a));
        assert p + a == (p + Init(a)) + [Last(a)];
      } else {
        SubseqSuffix(p, a, Init(b));
        SubseqSnoc(p + a, p + Init(b), Last(b));
      }
    }
  }

  /** The elements of `s` that `keep` marks; a missing mark means no. */
  function Select<T>(s: seq<T>, keep: seq<bool>): seq<T> {
    if s == [] then []
    else Select(Init(s), keep) + if Marked(keep, |s| - 1) then [Last(s)] else []
  }

  function Reject<T>(s: seq<T>, keep: seq<bool>): seq<T> {
    if s == [] then []
    else Reject(Init(s), keep) + if Marked(keep, |s| - 1) then [] else [Last(s)]
  }

  predicate Marked(keep: seq<bool>, i: nat) { i < |keep| && keep[i] }

  lemma {:induction false} SelectIsSubseq<T>(s: seq<T>, keep: seq<bool>)
    ensures Subseq(Select(s, keep), s)
  {
    if s != [] {
      var i := Init(s);
      SelectIsSubseq(i, keep);
      SubseqSnoc(Select(i, keep), i, Last(s));
      assert i + [Last(s)] == s;
      assert Marked(keep, |s| - 1) || Select(s, keep) == Select(i, keep);
    }
  }

  lemma {:induction false} SelectSplits<T>(s: seq<T>, keep: seq<bool>)
    ensures multiset(Select(s, keep)) + multiset(Reject(s, keep)) == multiset(s)
  {
    if s != [] {
      SelectSplits(Init(s), keep);
      MultisetSnoc(Init(s), Last(s));
      MultisetSnoc(Select(Init(s), keep), Last(s));
      MultisetSnoc(Reject(Init(s), keep), Last(s));
      assert s == Init(s) + [Last(s)];
      hide Select, Reject;
      assert multiset(Select(Init(s), keep)) + multiset(Reject(Init(s), keep)) + multiset{Last(s)} == multiset(s);
      SelectStep(s, keep);
    }
  }

  lemma SelectStep<T>(s: seq<T>, keep: seq<bool>)
    requires s != []
    ensures Marked(keep, |s| - 1) ==>
      Select(s, keep) == Select(Init(s), keep) + [Last(s)] && Reject(s, keep) == Reject(Init(s), keep)
    ensures !Marked(keep, |s| - 1) ==>
      Select(s, keep) == Select(Init(s), keep) && Reject(s, keep) == Reject(Init(s), keep) + [Last(s)]
  {
  }

  lemma MultisetSnoc<T>(s: seq<T>, x: T)
    ensures multiset(s + [x]) == multiset(s) + multiset{x}
  {
  }
}
