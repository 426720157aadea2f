/**
 * Arithmetic building blocks shared by the finance engine: an Option type for
 * the values the engine reports as `None`, absolute value, integer powers
 * (Python's `x ** n` for a non-negative integer exponent), and the list
 * built-ins `sum`, `min` and an average.
 */
module Primitives {

  datatype Option<T> = None | Some(value: T) {
    /** The wrapped value, or `default` when there is none. */
    function GetOr(default: T): T {
      match this
      case Some(v) => v
      case None => default
    }
  }

  function Abs(x: real): (r: real)
    ensures r >= 0.0
    ensures r == x || r == -x
  {
    if x < 0.0 then -x else x
  }

  /** `x ** n` for a natural exponent; `Pow(0.0, 0) == 1.0` as in Python. */
  function Pow(x: real, n: nat): (r: real)
    ensures x != 0.0 ==> r != 0.0
    ensures x > 0.0 ==> r > 0.0
  {
    if n == 0 then 1.0 else x * Pow(x, n - 1)
  }

  lemma {:induction false} PowAboveOne(x: real, n: nat)
    requires x > 1.0 && n > 0
    ensures Pow(x, n) > 1.0
  {
    if n > 1 {
      PowAboveOne(x, n - 1);
      assert x * Pow(x, n - 1) > 1.0 * Pow(x, n - 1);
    }
  }

  /** Exponents add: `x ** n == x ** a * x ** b` when `n == a + b`. */
  lemma {:induction false} PowAdd(x: real, n: nat, a: nat, b: nat)
    requires n == a + b
    ensures Pow(x, n) == Pow(x, a) * Pow(x, b)
  {
    if b == 0 {
      assert Pow(x, b) == 1.0;
    } else {
      PowAdd(x, n - 1, a, b - 1);
      PowStep(x, n, Pow(x, n - 1), Pow(x, a), Pow(x, b - 1), Pow(x, b));
    }
  }

  lemma PowStep(x: real, n: nat, prev: real, pa: real, pb: real, pb1: real)
    requires n > 0 && prev == Pow(x, n - 1) && prev == pa * pb && pb1 == x * pb
    ensures Pow(x, n) == pa * pb1
  {
    assert Pow(x, n) == x * prev;
  }

  /** Python's `sum` over a list: the elements added from the left. */
  function Sum(s: seq<real>): real
  {
    if s == [] then 0.0 else Sum(s[..|s| - 1]) + s[|s| - 1]
  }

  lemma SumSnoc(s: seq<real>, x: real)
    ensures Sum(s + [x]) == Sum(s) + x
  {
    assert (s + [x])[..|s|] == s;
  }

  /** The running total after `j + 1` elements is the one after `j` elements plus element `j`. */
  lemma SumPrefixStep(s: seq<real>, j: nat)
    requires j < |s|
    ensures Sum(s[..j + 1]) == Sum(s[..j]) + s[j]
  {
    assert s[..j + 1][..j] == s[..j];
  }

  /** `x / d`, characterised by multiplying back. */
  function Quotient(x: real, d: real): (r: real)
    requires d != 0.0
    ensures r * d == x
  {
    x / d
  }

  /** A share in `[0, 1]` of a non-negative amount lies between 0 and the amount. */
  lemma ShareWithin(x: real, share: real)
    ensures x >= 0.0 && 0.0 <= share <= 1.0 ==> 0.0 <= x * share <= x
  {
    if x >= 0.0 && 0.0 <= share <= 1.0 {
      assert x * share <= x * 1.0;
    }
  }

  /** Python's two-argument `min`: the first argument unless the second is smaller. */
  function Min(a: real, b: real): (r: real)
    ensures r <= a && r <= b
    ensures r == a || r == b
  {
    if b < a then b else a
  }

  /** Python's `min` over a non-empty list. */
  function SeqMin(s: seq<real>): (m: real)
    requires s != []
    ensures m in s
    ensures forall k :: 0 <= k < |s| ==> m <= s[k]
  {
    if |s| == 1 then s[0] else Min(SeqMin(s[..|s| - 1]), s[|s| - 1])
  }

  /** `sum(s) / len(s)` for a non-empty list. */
  function Mean(s: seq<real>): (r: real)
    requires s != []
    ensures r * |s| as real == Sum(s)
  {
    Quotient(Sum(s), |s| as real)
  }

  lemma {:induction false} SumAtLeast(s: seq<real>, m: real)
    requires forall k :: 0 <= k < |s| ==> m <= s[k]
    ensures Sum(s) >= |s| as real * m
  {
    if s != [] {
      SumAtLeast(s[..|s| - 1], m);
    }
  }

  lemma QuotientAtLeast(a: real, n: real, m: real, q: real)
    requires n > 0.0 && a >= n * m && q * n == a
    ensures q >= m
  {
    assert (q - m) * n == a - n * m;
  }

  /** The smallest element of a list never exceeds its average. */
  lemma SeqMinAtMostMean(s: seq<real>)
    requires s != []
    ensures SeqMin(s) <= Mean(s)
  {
    SumAtLeast(s, SeqMin(s));
    QuotientAtLeast(Sum(s), |s| as real, SeqMin(s), Mean(s));
  }
}
