/** Two list shapes the source repeats: a loop that appends the elements
    passing a test (`Filter`), and a loop that threads state through every
    element in order (`FoldLeft`). Both are defined on the last element
    first, so that one more loop iteration is one more step of the
    definition. */
module Seqs {

  function Filter<T>(s: seq<T>, p: T -> bool): (r: seq<T>)
    ensures |r| <= |s|
    decreases |s|
  {
    if |s| == 0 then []
    else Filter(s[..|s| - 1], p) + (if p(s[|s| - 1]) then [s[|s| - 1]] else [])
  }

  lemma FilterSnoc<T>(s: seq<T>, x: T, p: T -> bool)
    ensures Filter(s + [x], p) == Filter(s, p) + (if p(x) then [x] else [])
  {
    assert (s + [x])[..|s|] == s;
  }

  /** The filter keeps exactly the elements that pass the test. */
  lemma {:induction false} FilterMembership<T>(s: seq<T>, p: T -> bool, x: T)
    ensures x in Filter(s, p) <==> x in s && p(x)
    decreases |s|
  {
    if |s| > 0 {
      var init := s[..|s| - 1];
      FilterMembership(init, p, x);
      assert s == init + [s[|s| - 1]];
    }
  }

  /** Every kept element passes the test. */
  lemma FilterAllPass<T>(s: seq<T>, p: T -> bool)
    ensures forall i :: 0 <= i < |Filter(s, p)| ==> p(Filter(s, p)[i])
  {
    forall i | 0 <= i < |Filter(s, p)|
      ensures p(Filter(s, p)[i])
    {
      FilterMembership(s, p, Filter(s, p)[i]);
    }
  }

  /** A filter with nothing failing the test is the identity. */
  lemma {:induction false} FilterKeepsAll<T>(s: seq<T>, p: T -> bool)
    requires forall i :: 0 <= i < |s| ==> p(s[i])
    ensures Filter(s, p) == s
    decreases |s|
  {
    if |s| > 0 {
      FilterKeepsAll(s[..|s| - 1], p);
      assert s == s[..|s| - 1] + [s[|s| - 1]];
    }
  }

  lemma {:induction false} FilterConcat<T>(a: seq<T>, b: seq<T>, p: T -> bool)
    ensures Filter(a + b, p) == Filter(a, p) + Filter(b, p)
    decreases |b|
  {
    if |b| == 0 {
      assert a + b == a;
    } else {
      var init := b[..|b| - 1];
      var x := b[|b| - 1];
      assert b == init + [x];
      assert a + b == (a + init) + [x];
      FilterConcat(a, init, p);
      FilterSnoc(a + init, x, p);
      FilterSnoc(init, x, p);
    }
  }

  /** Filtering twice by the same test is filtering once. */
  lemma {:induction false} FilterTwice<T>(s: seq<T>, p: T -> bool)
    ensures Filter(Filter(s, p), p) == Filter(s, p)
    decreases |s|
  {
    if |s| > 0 {
      var init := s[..|s| - 1];
      var x := s[|s| - 1];
      FilterTwice(init, p);
      if p(x) {
        assert Filter(s, p) == Filter(init, p) + [x];
        FilterSnoc(Filter(init, p), x, p);
      } else {
        assert Filter(s, p) == Filter(init, p);
      }
    }
  }

  /** Filtering by a test that excludes the first one keeps nothing. */
  lemma {:induction false} FilterDisjoint<T>(s: seq<T>, p: T -> bool, q: T -> bool)
    requires forall x :: !(p(x) && q(x))
    ensures Filter(Filter(s, q), p) == []
    decreases |s|
  {
    if |s| > 0 {
      var init := s[..|s| - 1];
      var x := s[|s| - 1];
      FilterDisjoint(init, p, q);
      if q(x) {
        assert Filter(s, q) == Filter(init, q) + [x];
        FilterSnoc(Filter(init, q), x, p);
      } else {
        assert Filter(s, q) == Filter(init, q);
      }
    }
  }

  /** Splitting a list by a test and its negation, then concatenating the
      two blocks: a permutation in which the first block comes first and
      each block keeps its order. */
  lemma StablePartition<T(!new)>(s: seq<T>, p: T -> bool, q: T -> bool)
    requires forall x :: p(x) <==> !q(x)
    ensures var r := Filter(s, p) + Filter(s, q);
      && multiset(r) == multiset(s)
      && Filter(r, p) == Filter(s, p)
      && Filter(r, q) == Filter(s, q)
      && (forall i, j :: 0 <= i < j < |r| && p(r[j]) ==> p(r[i]))
  {
    PartitionPermutes(s, p, q);
    PartitionKeepsBlocks(s, p, q);
    PartitionOrder(s, p, q);
  }

  lemma PartitionKeepsBlocks<T>(s: seq<T>, p: T -> bool, q: T -> bool)
    requires forall x :: p(x) <==> !q(x)
    ensures Filter(Filter(s, p) + Filter(s, q), p) == Filter(s, p)
    ensures Filter(Filter(s, p) + Filter(s, q), q) == Filter(s, q)
  {
    FilterConcat(Filter(s, p), Filter(s, q), p);
    FilterConcat(Filter(s, p), Filter(s, q), q);
    FilterTwice(s, p);
    FilterTwice(s, q);
    FilterDisjoint(s, p, q);
    FilterDisjoint(s, q, p);
  }

  lemma PartitionOrder<T(!new)>(s: seq<T>, p: T -> bool, q: T -> bool)
    requires forall x :: p(x) <==> !q(x)
    ensures var r := Filter(s, p) + Filter(s, q);
            forall i, j :: 0 <= i < j < |r| && p(r[j]) ==> p(r[i])
  {
    var fp := Filter(s, p);
    var fq := Filter(s, q);
    var r := fp + fq;
    FilterAllPass(s, p);
    FilterAllPass(s, q);
    forall i | 0 <= i < |r|
      ensures if i < |fp| then p(r[i]) else !p(r[i])
    {
      if i >= |fp| {
        assert r[i] == fq[i - |fp|];
        assert q(fq[i - |fp|]);
      }
    }
  }

  lemma {:induction false} PartitionPermutes<T>(s: seq<T>, p: T -> bool, q: T -> bool)
    requires forall x :: p(x) <==> !q(x)
    ensures multiset(Filter(s, p)) + multiset(Filter(s, q)) == multiset(s)
    decreases |s|
  {
    if |s| > 0 {
      var init := s[..|s| - 1];
      PartitionPermutes(init, p, q);
      assert s == init + [s[|s| - 1]];
    }
  }

  /** Three filters that between them take every element exactly once. */
  lemma {:induction false} ThreeWayPermutes<T>(s: seq<T>, p: T -> bool, q: T -> bool, r: T -> bool)
    requires forall x :: (p(x) && !q(x) && !r(x)) || (!p(x) && q(x) && !r(x)) || (!p(x) && !q(x) && r(x))
    ensures multiset(Filter(s, p)) + multiset(Filter(s, q)) + multiset(Filter(s, r)) == multiset(s)
    decreases |s|
  {
    if |s| > 0 {
      var init := s[..|s| - 1];
      ThreeWayPermutes(init, p, q, r);
      assert s == init + [s[|s| - 1]];
    }
  }

  /** A filter with nothing passing the test is empty. */
  lemma {:induction false} FilterNone<T>(s: seq<T>, p: T -> bool)
    requires forall i :: 0 <= i < |s| ==> !p(s[i])
    ensures Filter(s, p) == []
    decreases |s|
  {
    if |s| > 0 {
      FilterNone(s[..|s| - 1], p);
    }
  }

  function FoldLeft<S, E>(f: (S, E) -> S, s0: S, xs: seq<E>): S
    decreases |xs|
  {
    if |xs| == 0 then s0 else f(FoldLeft(f, s0, xs[..|xs| - 1]), xs[|xs| - 1])
  }

  lemma FoldLeftSnoc<S, E>(f: (S, E) -> S, s0: S, xs: seq<E>, x: E)
    ensures FoldLeft(f, s0, xs + [x]) == f(FoldLeft(f, s0, xs), x)
  {
    assert (xs + [x])[..|xs|] == xs;
  }

  /** Folding over two lists in turn is folding over their concatenation. */
  lemma {:induction false} FoldLeftConcat<S, E>(f: (S, E) -> S, s0: S, a: seq<E>, b: seq<E>)
    ensures FoldLeft(f, s0, a + b) == FoldLeft(f, FoldLeft(f, s0, a), b)
    decreases |b|
  {
    if |b| > 0 {
      var init := b[..|b| - 1];
      var x := b[|b| - 1];
      assert b == init + [x];
      assert a + b == (a + init) + [x];
      FoldLeftConcat(f, s0, a, init);
      FoldLeftSnoc(f, s0, a + init, x);
      FoldLeftSnoc(f, FoldLeft(f, s0, a), init, x);
    } else {
      assert a + b == a;
    }
  }
}
