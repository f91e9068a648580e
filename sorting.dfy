/** Python's `sorted(xs, key=f)`: a stable sort by a key, where computing a
    key may raise. It is modelled as a stable insertion sort; its meaning is
    given by the lemmas below (a permutation, ordered by the key, ties in
    input order, the head is the first minimum), which together pin down
    the one list a stable sort produces. */
module Sorting {
  import opened Wrappers
  import opened Ordering
  import opened Seqs

  predicate SortedBy<T>(s: seq<T>, key: T -> Key)
  {
    forall i, j :: 0 <= i < j < |s| ==> KeyLe(key(s[i]), key(s[j]))
  }

  /** Places `x` in front of the first element of `s` whose key is not
      below `x`'s, that is, before all the elements it ties with. */
  function Insert<T>(x: T, s: seq<T>, key: T -> Key): (r: seq<T>)
    ensures |r| == |s| + 1
  {
    if |s| == 0 then [x]
    else if KeyLe(key(x), key(s[0])) then [x] + s
    else [s[0]] + Insert(x, s[1..], key)
  }

  /** `sorted(s, key=key)`. */
  function SortBy<T>(s: seq<T>, key: T -> Key): (r: seq<T>)
    ensures |r| == |s|
  {
    if |s| == 0 then [] else Insert(s[0], SortBy(s[1..], key), key)
  }

  /** The elements of `s` whose key ties with `k`, in their order in `s`. */
  function TiedWith<T>(s: seq<T>, key: T -> Key, k: Key): seq<T>
  {
    if |s| == 0 then []
    else (if KeyTie(key(s[0]), k) then [s[0]] else []) + TiedWith(s[1..], key, k)
  }

  lemma {:induction false} InsertPermutes<T>(x: T, s: seq<T>, key: T -> Key)
    ensures multiset(Insert(x, s, key)) == multiset(s) + multiset{x}
    decreases |s|
  {
    if |s| > 0 && !KeyLe(key(x), key(s[0])) {
      InsertPermutes(x, s[1..], key);
      assert s == [s[0]] + s[1..];
    }
  }

  lemma {:induction false} InsertSorted<T>(x: T, s: seq<T>, key: T -> Key)
    requires SortedBy(s, key)
    ensures SortedBy(Insert(x, s, key), key)
    decreases |s|
  {
    if |s| == 0 {
    } else if KeyLe(key(x), key(s[0])) {
      var r := Insert(x, s, key);
      forall i, j | 0 <= i < j < |r|
        ensures KeyLe(key(r[i]), key(r[j]))
      {
        if i == 0 && j > 1 {
          KeyLeTransitive(key(x), key(s[0]), key(s[j - 1]));
        }
      }
    } else {
      var t := Insert(x, s[1..], key);
      InsertSorted(x, s[1..], key);
      InsertPermutes(x, s[1..], key);
      KeyLeTotal(key(x), key(s[0]));
      var r := Insert(x, s, key);
      assert r == [s[0]] + t;
      forall i, j | 0 <= i < j < |r|
        ensures KeyLe(key(r[i]), key(r[j]))
      {
        if i == 0 {
          var e := t[j - 1];
          assert e in multiset(t);
          if e != x {
            assert e in s[1..];
            var m :| 0 <= m < |s[1..]| && s[1..][m] == e;
            assert s[m + 1] == e;
          }
        }
      }
    }
  }

  /** The stable sort is a permutation of its input. */
  lemma {:induction false} SortByPermutes<T>(s: seq<T>, key: T -> Key)
    ensures multiset(SortBy(s, key)) == multiset(s)
    decreases |s|
  {
    if |s| > 0 {
      SortByPermutes(s[1..], key);
      InsertPermutes(s[0], SortBy(s[1..], key), key);
      assert s == [s[0]] + s[1..];
    }
  }

  /** The stable sort orders its output by the key. */
  lemma {:induction false} SortBySorted<T>(s: seq<T>, key: T -> Key)
    ensures SortedBy(SortBy(s, key), key)
    decreases |s|
  {
    if |s| > 0 {
      SortBySorted(s[1..], key);
      InsertSorted(s[0], SortBy(s[1..], key), key);
    }
  }

  lemma {:induction false} InsertTied<T>(x: T, s: seq<T>, key: T -> Key, k: Key)
    ensures TiedWith(Insert(x, s, key), key, k)
         == (if KeyTie(key(x), k) then [x] else []) + TiedWith(s, key, k)
    decreases |s|
  {
    if |s| == 0 {
    } else if KeyLe(key(x), key(s[0])) {
      TiedWithCons(x, s, key, k);
    } else {
      InsertTied(x, s[1..], key, k);
      TiedWithCons(s[0], Insert(x, s[1..], key), key, k);
      var tx, t0 := KeyTie(key(x), k), KeyTie(key(s[0]), k);
      if tx {
        KeyLeTotal(key(x), key(s[0]));
        KeyLtTie(key(s[0]), key(x), k);
      }
      SwapSingletons(x, s[0], tx, t0, TiedWith(s[1..], key, k));
    }
  }

  lemma TiedWithCons<T>(y: T, t: seq<T>, key: T -> Key, k: Key)
    ensures TiedWith([y] + t, key, k) == (if KeyTie(key(y), k) then [y] else []) + TiedWith(t, key, k)
  {
    assert ([y] + t)[1..] == t;
  }

  /** Two optional singletons of which at most one is present commute. */
  lemma SwapSingletons<T>(x: T, y: T, px: bool, py: bool, t: seq<T>)
    requires !(px && py)
    ensures (if py then [y] else []) + ((if px then [x] else []) + t)
         == (if px then [x] else []) + ((if py then [y] else []) + t)
  {
  }

  /** Stability: elements with tying keys keep their input order. */
  lemma {:induction false} SortByStable<T>(s: seq<T>, key: T -> Key, k: Key)
    ensures TiedWith(SortBy(s, key), key, k) == TiedWith(s, key, k)
    decreases |s|
  {
    if |s| > 0 {
      SortByStable(s[1..], key, k);
      InsertTied(s[0], SortBy(s[1..], key), key, k);
    }
  }

  /** The position of the first element whose key is minimal. */
  function FirstMinIndex<T>(s: seq<T>, key: T -> Key): (r: nat)
    requires |s| > 0
    ensures r < |s|
    decreases |s|
  {
    if |s| == 1 then 0
    else
      var m := 1 + FirstMinIndex(s[1..], key);
      if KeyLe(key(s[0]), key(s[m])) then 0 else m
  }

  /** `FirstMinIndex` names a minimum, and every element before it has a
      strictly greater key. */
  lemma {:induction false} FirstMinIndexIsFirstMinimum<T>(s: seq<T>, key: T -> Key)
    requires |s| > 0
    ensures forall j :: 0 <= j < |s| ==> KeyLe(key(s[FirstMinIndex(s, key)]), key(s[j]))
    ensures forall j :: 0 <= j < FirstMinIndex(s, key) ==> KeyLt(key(s[FirstMinIndex(s, key)]), key(s[j]))
    decreases |s|
  {
    var r := FirstMinIndex(s, key);
    if |s| == 1 {
      KeyLeReflexive(key(s[0]));
    } else {
      var t := s[1..];
      FirstMinIndexIsFirstMinimum(t, key);
      var m := 1 + FirstMinIndex(t, key);
      assert s[m] == t[m - 1];
      if KeyLe(key(s[0]), key(s[m])) {
        forall j | 0 <= j < |s|
          ensures KeyLe(key(s[0]), key(s[j]))
        {
          if j == 0 {
            KeyLeReflexive(key(s[0]));
          } else {
            assert s[j] == t[j - 1];
            KeyLeTransitive(key(s[0]), key(s[m]), key(s[j]));
          }
        }
      } else {
        KeyLeTotal(key(s[0]), key(s[m]));
        forall j | 0 <= j < |s|
          ensures KeyLe(key(s[m]), key(s[j]))
        {
          if j > 0 {
            assert s[j] == t[j - 1];
          }
        }
        forall j | 0 <= j < m
          ensures KeyLt(key(s[m]), key(s[j]))
        {
          if j > 0 {
            assert s[j] == t[j - 1];
          }
        }
      }
    }
  }

  /** The head of the stable sort is the first minimum of the input. */
  lemma {:induction false} SortByHead<T>(s: seq<T>, key: T -> Key)
    requires |s| > 0
    ensures SortBy(s, key)[0] == s[FirstMinIndex(s, key)]
    decreases |s|
  {
    if |s| > 1 {
      var t := s[1..];
      SortByHead(t, key);
      assert s[1 + FirstMinIndex(t, key)] == t[FirstMinIndex(t, key)];
    }
  }

  /** The error of the first element whose key cannot be computed. */
  function FirstKeyError<T, E>(s: seq<T>, keyOf: T -> Result<Key, E>): (r: Option<E>)
    ensures r.None? <==> forall i :: 0 <= i < |s| ==> keyOf(s[i]).Success?
    ensures r.Some? ==> exists i :: 0 <= i < |s| && keyOf(s[i]) == Failure(r.value)
                                   && forall j :: 0 <= j < i ==> keyOf(s[j]).Success?
    decreases |s|
  {
    if |s| == 0 then None
    else if keyOf(s[0]).Failure? then Some(keyOf(s[0]).error)
    else
      var r := FirstKeyError(s[1..], keyOf);
      assert forall i :: 1 <= i < |s| ==> s[i] == s[1..][i - 1];
      r
  }

  /** The key function once every key is known to be computable. */
  function Total<T, E>(keyOf: T -> Result<Key, E>): T -> Key
  {
    x => if keyOf(x).Success? then keyOf(x).value else Rat(0, 1)
  }

  /** `sorted(s, key=keyOf)`: the keys are computed first, in order, and the
      first one that raises is what the call raises. */
  function RankBy<T, E>(s: seq<T>, keyOf: T -> Result<Key, E>): (r: Result<seq<T>, E>)
    ensures r.Failure? <==> exists i :: 0 <= i < |s| && keyOf(s[i]).Failure?
    ensures r.Success? ==> |r.value| == |s|
  {
    match FirstKeyError(s, keyOf)
    case Some(e) => Failure(e)
    case None => Success(SortBy(s, Total(keyOf)))
  }

  /** Keeping only some elements of a sorted list leaves it sorted. */
  lemma {:induction false} FilterSorted<T>(s: seq<T>, p: T -> bool, key: T -> Key)
    requires SortedBy(s, key)
    ensures SortedBy(Filter(s, p), key)
    decreases |s|
  {
    if |s| > 0 {
      var init, x := s[..|s| - 1], s[|s| - 1];
      assert SortedBy(init, key) by {
        forall i, j | 0 <= i < j < |init|
          ensures KeyLe(key(init[i]), key(init[j]))
        {
          assert init[i] == s[i] && init[j] == s[j];
        }
      }
      FilterSorted(init, p, key);
      var f := Filter(init, p);
      if p(x) {
        forall i | 0 <= i < |f|
          ensures KeyLe(key(f[i]), key(x))
        {
          FilterMembership(init, p, f[i]);
          var m :| 0 <= m < |init| && init[m] == f[i];
          assert s[m] == f[i];
        }
        assert s == init + [x];
        var r := f + [x];
        assert Filter(s, p) == r;
        forall i, j | 0 <= i < j < |r|
          ensures KeyLe(key(r[i]), key(r[j]))
        {
          if j < |f| {
            assert r[i] == f[i] && r[j] == f[j];
          } else {
            assert r[i] == f[i] && r[j] == x;
          }
        }
      }
    }
  }

  lemma {:induction false} TiedWithSnoc<T>(s: seq<T>, x: T, key: T -> Key, k: Key)
    ensures TiedWith(s + [x], key, k) == TiedWith(s, key, k) + (if KeyTie(key(x), k) then [x] else [])
    decreases |s|
  {
    if |s| == 0 {
      assert [x][1..] == [];
    } else {
      assert (s + [x])[1..] == s[1..] + [x];
      TiedWithSnoc(s[1..], x, key, k);
    }
  }

  /** Filtering commutes with taking the elements tied with a key. */
  lemma {:induction false} FilterTied<T>(s: seq<T>, p: T -> bool, key: T -> Key, k: Key)
    ensures TiedWith(Filter(s, p), key, k) == Filter(TiedWith(s, key, k), p)
    decreases |s|
  {
    if |s| > 0 {
      var init, x := s[..|s| - 1], s[|s| - 1];
      assert s == init + [x];
      FilterTied(init, p, key, k);
      FilterSnoc(init, x, p);
      TiedWithSnoc(init, x, key, k);
      if p(x) {
        TiedWithSnoc(Filter(init, p), x, key, k);
      } else {
        assert Filter(s, p) == Filter(init, p);
      }
      if KeyTie(key(x), k) {
        FilterSnoc(TiedWith(init, key, k), x, p);
      } else {
        assert TiedWith(s, key, k) == TiedWith(init, key, k);
      }
    }
  }

  /** Two blocks cut from one sorted list by a test and its negation, then
      concatenated: any two elements on the same side of the test are in
      key order. */
  lemma BlocksInKeyOrder<T(!new)>(s: seq<T>, p: T -> bool, q: T -> bool, key: T -> Key)
    requires SortedBy(s, key)
    requires forall x :: p(x) <==> !q(x)
    ensures var r := Filter(s, p) + Filter(s, q);
            forall i, j :: 0 <= i < j < |r| && p(r[i]) == p(r[j]) ==> KeyLe(key(r[i]), key(r[j]))
  {
    var fp, fq := Filter(s, p), Filter(s, q);
    var r := fp + fq;
    FilterSorted(s, p, key);
    FilterSorted(s, q, key);
    FilterAllPass(s, p);
    FilterAllPass(s, q);
    forall i | 0 <= i < |r|
      ensures p(r[i]) <==> i < |fp|
    {
      if i < |fp| {
        assert r[i] == fp[i];
      } else {
        assert r[i] == fq[i - |fp|];
      }
    }
    forall i, j | 0 <= i < j < |r| && p(r[i]) == p(r[j])
      ensures KeyLe(key(r[i]), key(r[j]))
    {
      if j < |fp| {
        assert r[i] == fp[i] && r[j] == fp[j];
      } else if i >= |fp| {
        assert r[i] == fq[i - |fp|] && r[j] == fq[j - |fp|];
      }
    }
  }
}
