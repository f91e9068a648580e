/** The sort keys of the source's rankings and Python's ordering on them.
    A numeric key (a byte count, a config index, or a quotient the source
    computes with `/`) is an exact rational `num/den` with `den > 0`,
    compared by cross-multiplication; a string key (a plot id, or the
    timestamp tuple) is compared as Python compares `str` and tuples of
    `str`. All keys of one ranking are of the same kind. */
module Ordering {

  type Pos = n: int | n > 0 witness 1

  datatype Key = Rat(num: int, den: Pos) | Text(parts: seq<string>)

  /** Python's `<` on `str`: by code point, a proper prefix first. */
  predicate StrLt(a: string, b: string)
    decreases |a|
  {
    if |a| == 0 then |b| > 0
    else if |b| == 0 then false
    else if a[0] != b[0] then a[0] < b[0]
    else StrLt(a[1..], b[1..])
  }

  lemma {:induction false} StrLtIrreflexive(a: string)
    ensures !StrLt(a, a)
    decreases |a|
  {
    if |a| > 0 {
      StrLtIrreflexive(a[1..]);
    }
  }

  lemma {:induction false} StrLtTransitive(a: string, b: string, c: string)
    requires StrLt(a, b) && StrLt(b, c)
    ensures StrLt(a, c)
    decreases |a|
  {
    if |a| > 0 && |b| > 0 && |c| > 0 && a[0] == b[0] && b[0] == c[0] {
      StrLtTransitive(a[1..], b[1..], c[1..]);
    }
  }

  lemma {:induction false} StrLtTotal(a: string, b: string)
    ensures a == b || StrLt(a, b) || StrLt(b, a)
    decreases |a|
  {
    if |a| > 0 && |b| > 0 && a[0] == b[0] {
      StrLtTotal(a[1..], b[1..]);
      if a[1..] == b[1..] {
        assert a == [a[0]] + a[1..] && b == [b[0]] + b[1..];
      }
    }
  }

  /** Python's `<` on tuples of `str`. */
  predicate TupleLt(a: seq<string>, b: seq<string>)
    decreases |a|
  {
    if |a| == 0 then |b| > 0
    else if |b| == 0 then false
    else if a[0] != b[0] then StrLt(a[0], b[0])
    else TupleLt(a[1..], b[1..])
  }

  lemma {:induction false} TupleLtIrreflexive(a: seq<string>)
    ensures !TupleLt(a, a)
    decreases |a|
  {
    if |a| > 0 {
      TupleLtIrreflexive(a[1..]);
    }
  }

  lemma {:induction false} TupleLtTransitive(a: seq<string>, b: seq<string>, c: seq<string>)
    requires TupleLt(a, b) && TupleLt(b, c)
    ensures TupleLt(a, c)
    decreases |a|
  {
    if |a| > 0 && |b| > 0 && |c| > 0 {
      if a[0] == b[0] && b[0] == c[0] {
        TupleLtTransitive(a[1..], b[1..], c[1..]);
      } else if a[0] != b[0] && b[0] != c[0] {
        StrLtTransitive(a[0], b[0], c[0]);
        if a[0] == c[0] {
          StrLtIrreflexive(a[0]);
        }
      }
    }
  }

  lemma {:induction false} TupleLtTotal(a: seq<string>, b: seq<string>)
    ensures a == b || TupleLt(a, b) || TupleLt(b, a)
    decreases |a|
  {
    if |a| > 0 && |b| > 0 {
      if a[0] == b[0] {
        TupleLtTotal(a[1..], b[1..]);
        if a[1..] == b[1..] {
          assert a == [a[0]] + a[1..] && b == [b[0]] + b[1..];
        }
      } else {
        StrLtTotal(a[0], b[0]);
      }
    }
  }

  /** The strict order the rankings sort by. */
  predicate KeyLt(a: Key, b: Key)
  {
    match (a, b)
    case (Rat(an, ad), Rat(bn, bd)) => an * bd < bn * ad
    case (Text(ap), Text(bp)) => TupleLt(ap, bp)
    case (Rat(_, _), Text(_)) => true
    case (Text(_), Rat(_, _)) => false
  }

  /** "not after": the non-strict order a stable sort keeps. */
  predicate KeyLe(a: Key, b: Key)
  {
    !KeyLt(b, a)
  }

  /** Keys that tie: the ones a stable sort leaves in input order. */
  predicate KeyTie(a: Key, b: Key)
  {
    KeyLe(a, b) && KeyLe(b, a)
  }

  lemma MulMono(x: int, y: int, z: int)
    requires x <= y && z > 0
    ensures x * z <= y * z
  {
  }

  lemma MulMonoStrict(x: int, y: int, z: int)
    requires x < y && z > 0
    ensures x * z < y * z
  {
  }

  lemma MulCancel(x: int, y: int, z: int)
    requires x * z <= y * z && z > 0
    ensures x <= y
  {
    if x > y {
      MulMonoStrict(y, x, z);
    }
  }

  lemma MulCancelStrict(x: int, y: int, z: int)
    requires x * z < y * z && z > 0
    ensures x < y
  {
    if x >= y {
      MulMono(y, x, z);
    }
  }

  /** Cross-multiplied comparison of fractions with positive denominators
      is transitive, strictly and non-strictly. */
  lemma CrossTransitive(an: int, ad: int, bn: int, bd: int, cn: int, cd: int, strict: bool)
    requires ad > 0 && bd > 0 && cd > 0
    requires if strict then an * bd < bn * ad && bn * cd < cn * bd else an * bd <= bn * ad && bn * cd <= cn * bd
    ensures if strict then an * cd < cn * ad else an * cd <= cn * ad
  {
    if strict {
      MulMonoStrict(an * bd, bn * ad, cd);
      MulMonoStrict(bn * cd, cn * bd, ad);
      assert (an * bd) * cd == (an * cd) * bd;
      assert (bn * ad) * cd == (bn * cd) * ad;
      assert (cn * bd) * ad == (cn * ad) * bd;
      MulCancelStrict(an * cd, cn * ad, bd);
    } else {
      MulMono(an * bd, bn * ad, cd);
      MulMono(bn * cd, cn * bd, ad);
      assert (an * bd) * cd == (an * cd) * bd;
      assert (bn * ad) * cd == (bn * cd) * ad;
      assert (cn * bd) * ad == (cn * ad) * bd;
      MulCancel(an * cd, cn * ad, bd);
    }
  }

  lemma KeyLtIrreflexive(a: Key)
    ensures !KeyLt(a, a)
  {
    if a.Text? {
      TupleLtIrreflexive(a.parts);
    }
  }

  lemma KeyLtTransitive(a: Key, b: Key, c: Key)
    requires KeyLt(a, b) && KeyLt(b, c)
    ensures KeyLt(a, c)
  {
    match (a, b, c)
    case (Rat(an, ad), Rat(bn, bd), Rat(cn, cd)) =>
      CrossTransitive(an, ad, bn, bd, cn, cd, true);
    case (Text(ap), Text(bp), Text(cp)) =>
      TupleLtTransitive(ap, bp, cp);
    case _ =>
  }

  lemma KeyLtAsymmetric(a: Key, b: Key)
    requires KeyLt(a, b)
    ensures !KeyLt(b, a)
  {
    if KeyLt(b, a) {
      KeyLtTransitive(a, b, a);
      KeyLtIrreflexive(a);
    }
  }

  /** Any two keys are comparable. */
  lemma KeyLeTotal(a: Key, b: Key)
    ensures KeyLe(a, b) || KeyLe(b, a)
  {
    if KeyLt(a, b) {
      KeyLtAsymmetric(a, b);
    }
  }

  lemma KeyLeReflexive(a: Key)
    ensures KeyLe(a, a)
  {
    KeyLtIrreflexive(a);
  }

  lemma KeyLeTransitive(a: Key, b: Key, c: Key)
    requires KeyLe(a, b) && KeyLe(b, c)
    ensures KeyLe(a, c)
  {
    match (a, b, c)
    case (Rat(an, ad), Rat(bn, bd), Rat(cn, cd)) =>
      CrossTransitive(an, ad, bn, bd, cn, cd, false);
    case (Text(ap), Text(bp), Text(cp)) =>
      TupleLtTotal(ap, bp);
      TupleLtTotal(bp, cp);
      if ap != bp && bp != cp {
        TupleLtTransitive(ap, bp, cp);
        TupleLtAsymmetric(ap, cp);
      } else if ap == bp && bp != cp {
        TupleLtAsymmetric(ap, cp);
      } else if ap != bp && bp == cp {
        TupleLtAsymmetric(ap, cp);
      } else {
        TupleLtIrreflexive(ap);
      }
    case _ =>
  }

  lemma TupleLtAsymmetric(a: seq<string>, b: seq<string>)
    requires TupleLt(a, b)
    ensures !TupleLt(b, a)
  {
    if TupleLt(b, a) {
      TupleLtTransitive(a, b, a);
      TupleLtIrreflexive(a);
    }
  }

  /** A strictly smaller key is strictly smaller than everything tied with
      the larger one. */
  lemma KeyLtTie(a: Key, b: Key, c: Key)
    requires KeyLt(a, b) && KeyTie(b, c)
    ensures KeyLt(a, c) && !KeyTie(a, c)
  {
    if !KeyLt(a, c) {
      KeyLeTransitive(b, c, a);
    }
  }

  /** `reverse=True` of a numeric key: the negated key. */
  function Negate(k: Key): Key
  {
    match k
    case Rat(n, d) => Rat(-n, d)
    case Text(_) => k
  }

  /** Negating two numeric keys swaps their order. */
  lemma NegateReverses(a: Key, b: Key)
    requires a.Rat? && b.Rat?
    ensures KeyLt(Negate(a), Negate(b)) <==> KeyLt(b, a)
    ensures KeyLe(Negate(a), Negate(b)) <==> KeyLe(b, a)
  {
    assert (-a.num) * b.den == -(a.num * b.den);
    assert (-b.num) * a.den == -(b.num * a.den);
  }
}
