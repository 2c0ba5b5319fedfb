/** Exact-rational counterparts of the `Math` helpers the source uses. */
module RealMath {

  function Min(a: real, b: real): (r: real)
    ensures r <= a && r <= b
    ensures r == a || r == b
  {
    if a <= b then a else b
  }

  function Max(a: real, b: real): (r: real)
    ensures r >= a && r >= b
    ensures r == a || r == b
  {
    if a >= b then a else b
  }

  function Abs(x: real): (r: real)
    ensures r >= 0.0
    ensures r == x || r == -x
  {
    if x < 0.0 then -x else x
  }

  /** `Math.max(lo, Math.min(hi, x))`. */
  function Clamp(x: real, lo: real, hi: real): (r: real)
    requires lo <= hi
    ensures lo <= r <= hi
    ensures lo <= x <= hi ==> r == x
    ensures x < lo ==> r == lo
    ensures x > hi ==> r == hi
  {
    Max(lo, Min(hi, x))
  }

  /** `Math.max(0, Math.min(1, x))`, the probability clamp used throughout the source. */
  function Clamp01(x: real): (r: real)
    ensures 0.0 <= r <= 1.0
    ensures 0.0 <= x <= 1.0 ==> r == x
  {
    Clamp(x, 0.0, 1.0)
  }

  /** `Math.round`: the nearest integer, halves rounded up. */
  function Round(x: real): (r: int)
    ensures x - 0.5 < r as real <= x + 0.5
  {
    (x + 0.5).Floor
  }

  lemma RoundOfInt(n: int)
    ensures Round(n as real) == n
  {
  }

  /** The sum of a sequence, folded from the left as `reduce((s, x) => s + x, 0)` does. */
  function Sum(xs: seq<real>): real
  {
    if |xs| == 0 then 0.0 else Sum(xs[..|xs| - 1]) + xs[|xs| - 1]
  }

  lemma {:induction false} SumAppend(xs: seq<real>, ys: seq<real>)
    ensures Sum(xs + ys) == Sum(xs) + Sum(ys)
    decreases |ys|
  {
    if |ys| == 0 {
      assert xs + ys == xs;
    } else {
      assert (xs + ys)[..|xs + ys| - 1] == xs + ys[..|ys| - 1];
      SumAppend(xs, ys[..|ys| - 1]);
    }
  }

  /** A sum of numbers that are not negative is not negative. */
  lemma {:induction false} SumNonNegative(xs: seq<real>)
    requires forall i :: 0 <= i < |xs| ==> xs[i] >= 0.0
    ensures Sum(xs) >= 0.0
  {
    if |xs| > 0 {
      SumNonNegative(xs[..|xs| - 1]);
    }
  }

  lemma {:induction false} SumBounds(xs: seq<real>, lo: real, hi: real)
    requires forall i :: 0 <= i < |xs| ==> lo <= xs[i] <= hi
    ensures |xs| as real * lo <= Sum(xs) <= |xs| as real * hi
    decreases |xs|
  {
    if |xs| > 0 {
      var n := |xs| - 1;
      SumBounds(xs[..n], lo, hi);
      assert lo <= xs[n] <= hi;
      assert |xs| as real * lo == n as real * lo + lo;
      assert |xs| as real * hi == n as real * hi + hi;
    }
  }

  /** Every element divided by the same non-zero divisor. */
  function DivideAll(xs: seq<real>, c: real): (r: seq<real>)
    requires c != 0.0
    ensures |r| == |xs| && forall i :: 0 <= i < |xs| ==> r[i] * c == xs[i]
  {
    seq(|xs|, i requires 0 <= i < |xs| => xs[i] / c)
  }

  lemma {:induction false} SumDivideAll(xs: seq<real>, c: real)
    requires c != 0.0
    ensures Sum(DivideAll(xs, c)) == Sum(xs) / c
  {
    if |xs| > 0 {
      var n := |xs| - 1;
      assert DivideAll(xs, c)[..n] == DivideAll(xs[..n], c);
      SumDivideAll(xs[..n], c);
      assert Sum(xs) / c == Sum(xs[..n]) / c + xs[n] / c;
    }
  }

  /** `Math.pow(x, n)` for a natural exponent, which is exact on rationals. */
  function Pow(x: real, n: nat): (r: real)
    ensures x >= 0.0 ==> r >= 0.0
  {
    if n == 0 then 1.0 else x * Pow(x, n - 1)
  }

  function Factorial(n: nat): (r: nat)
    ensures r >= 1
  {
    if n == 0 then 1 else n * Factorial(n - 1)
  }

  /** A fraction in [0, 1] of a non-negative amount is between 0 and the amount. */
  lemma PartOf(a: real, b: real)
    requires 0.0 <= a <= 1.0 && 0.0 <= b
    ensures 0.0 <= a * b <= b
  {
    assert b - a * b == b * (1.0 - a);
    assert b * (1.0 - a) >= 0.0;
  }

  /** A part of a positive whole, divided by the whole, is in [0, 1]; a strict part is
      below 1. */
  lemma QuotientInUnit(x: real, d: real)
    requires 0.0 <= x <= d && d > 0.0
    ensures 0.0 <= x / d <= 1.0
    ensures x < d ==> x / d < 1.0
  {
    var q := x / d;
    assert q * d == x;
    if q >= 1.0 {
      ScaleMonotone(d, 1.0, q);
      assert d <= q * d;
    }
  }

  /** Dividing by a positive number keeps the sign. */
  lemma PositiveQuotient(x: real, d: real)
    ensures d > 0.0 ==> (x / d > 0.0 <==> x > 0.0)
  {
    if d > 0.0 {
      if x > 0.0 {
        assert x / d > 0.0;
      } else {
        assert x / d <= 0.0;
      }
    }
  }

  /** Dividing by a positive amount keeps order. */
  lemma DivideMonotone(x: real, y: real, d: real)
    requires x <= y && d > 0.0
    ensures x / d <= y / d
  {
    assert y / d - x / d == (y - x) / d;
  }

  /** Dividing by a positive amount keeps strict order. */
  lemma DivideStrict(x: real, y: real, d: real)
    requires x < y && d > 0.0
    ensures x / d < y / d
  {
  }

  /** Multiplying by a positive factor keeps the sign. */
  lemma PositiveProduct(k: real, x: real)
    ensures k > 0.0 ==> (k * x > 0.0 <==> x > 0.0)
  {
    if k > 0.0 {
      if x > 0.0 {
        assert k * x > 0.0;
      } else {
        assert k * x <= 0.0;
      }
    }
  }

  /** Multiplying by a non-negative factor keeps order. */
  lemma ScaleMonotone(k: real, x: real, y: real)
    requires k >= 0.0 && x <= y
    ensures k * x <= k * y
  {
  }

  /** The two-sided z-scores of the 90, 95 and 99 per cent levels, with 1.96 for any level
      the table does not list. */
  function ZScore(level: real): (z: real)
    ensures z > 0.0
    ensures level == 0.90 ==> z == 1.645
    ensures level == 0.95 ==> z == 1.96
    ensures level == 0.99 ==> z == 2.576
    ensures level != 0.90 && level != 0.99 ==> z == 1.96
    ensures 1.645 <= z <= 2.576
  {
    if level == 0.90 then 1.645
    else if level == 0.95 then 1.96
    else if level == 0.99 then 2.576
    else 1.96
  }
}
