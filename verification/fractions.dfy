/** The rational-approximation search behind `decimalToFractional`
    (backend/src/utils/marketOddsCalculations.js) and `formatOdds`' fractional branch
    (smart-sports-betting/src/utils/marketComparisonUtils.js): try every denominator up
    to 100, keep the closest, stop early below 1e-6, then reduce by a JavaScript-style gcd. */
module Fractions {
  import opened RealMath

  const MaxDenominator: nat := 100
  const Precision: real := 0.000001

  /** The magnitude of an integer. */
  function IAbs(x: int): (r: nat)
    ensures r == x || r == -x
  {
    if x < 0 then -x else x
  }

  /** JavaScript's `%` on integers: the remainder takes the sign of the dividend. */
  function TruncRem(a: int, b: int): (r: int)
    requires b != 0
    ensures IAbs(r) < IAbs(b)
    ensures a >= 0 ==> r >= 0
  {
    if a >= 0 then a % IAbs(b) else -((-a) % IAbs(b))
  }

  /** The quotient that goes with `TruncRem`, rounded toward zero. */
  function TruncQuot(a: int, b: int): int
    requires b != 0
  {
    var q0 := if a >= 0 then a / IAbs(b) else -((-a) / IAbs(b));
    if b < 0 then -q0 else q0
  }

  /** Truncating division of a non-negative dividend by a positive divisor. */
  lemma TruncDivisionMagnitudes(n: int, m: int)
    requires n >= 0 && m > 0
    ensures n == m * TruncQuot(n, m) + TruncRem(n, m)
    ensures -n == m * TruncQuot(-n, m) + TruncRem(-n, m)
  {
    var q, r := n / m, n % m;
    assert n == m * q + r;
    if n > 0 {
      assert TruncQuot(-n, m) == -q && TruncRem(-n, m) == -r;
      assert m * -q == -(m * q);
    }
  }

  /** Dividing by -b flips the quotient and keeps the remainder. */
  lemma TruncDivisorSign(a: int, b: int)
    requires b != 0
    ensures TruncQuot(a, -b) == -TruncQuot(a, b) && TruncRem(a, -b) == TruncRem(a, b)
    ensures b * TruncQuot(a, b) == -b * TruncQuot(a, -b)
  {
    var t := TruncQuot(a, b);
    assert b * t == -b * -t;
  }

  lemma TruncDivision(a: int, b: int)
    requires b != 0
    ensures a == b * TruncQuot(a, b) + TruncRem(a, b)
  {
    var m := IAbs(b);
    if a >= 0 {
      TruncDivisionMagnitudes(a, m);
    } else {
      TruncDivisionMagnitudes(-a, m);
    }
    if b < 0 {
      TruncDivisorSign(a, b);
    }
  }

  /** `gcd = (a, b) => (b ? gcd(b, a % b) : a)`. */
  function Gcd(a: int, b: int): int
    decreases IAbs(b)
  {
    if b == 0 then a else Gcd(b, TruncRem(a, b))
  }

  lemma Distribute(k1: int, k2: int, g: int, q: int)
    ensures (k1 * g) * q + k2 * g == (k1 * q + k2) * g
  {
  }

  /** The gcd divides both arguments exactly and is non-zero when the second is. */
  lemma {:induction false} GcdCofactors(a: int, b: int) returns (ka: int, kb: int)
    requires b != 0
    ensures Gcd(a, b) != 0
    ensures a == ka * Gcd(a, b) && b == kb * Gcd(a, b)
    decreases IAbs(b)
  {
    var t := TruncRem(a, b);
    var g := Gcd(a, b);
    var q := TruncQuot(a, b);
    TruncDivision(a, b);
    assert g == Gcd(b, t);
    if t == 0 {
      assert Gcd(b, t) == b;
      ka, kb := q, 1;
    } else {
      var k1, k2 := GcdCofactors(b, t);
      assert g == Gcd(b, t);
      Distribute(k1, k2, g, q);
      ka, kb := k1 * q + k2, k1;
    }
  }

  /** The gcd leaves no remainder on either argument. */
  lemma GcdDivides(a: int, b: int)
    requires b != 0
    ensures Gcd(a, b) != 0 && a % Gcd(a, b) == 0 && b % Gcd(a, b) == 0
  {
    var ka, kb := GcdCofactors(a, b);
    ExactQuotient(a, Gcd(a, b), ka);
    ExactQuotient(b, Gcd(a, b), kb);
  }

  lemma {:induction false} GcdNonNegative(a: int, b: int)
    requires a >= 0 && b >= 0
    ensures Gcd(a, b) >= 0
    decreases b
  {
    if b != 0 {
      GcdNonNegative(b, TruncRem(a, b));
    }
  }

  lemma MulMagnitude(g: int, d: int)
    requires d != 0
    ensures IAbs(g * d) >= IAbs(g)
  {
    var m, n := IAbs(g), IAbs(d);
    assert IAbs(g * d) == m * n by {
      if g < 0 && d < 0 {
        assert g * d == (-g) * (-d);
      } else if g < 0 {
        assert g * d == -((-g) * d);
      } else if d < 0 {
        assert g * d == -(g * (-d));
      }
    }
    assert m * n == m * (n - 1) + m;
    assert m * (n - 1) >= 0;
  }

  /** Euclidean division by an exact divisor yields the cofactor and no remainder. */
  lemma ExactQuotient(a: int, g: int, k: int)
    requires g != 0 && a == k * g
    ensures a / g == k && a % g == 0
  {
    var q := a / g;
    var r := a % g;
    assert a == g * q + r && 0 <= r < IAbs(g);
    assert g * (k - q) == r by {
      assert g * (k - q) == g * k - g * q;
      assert g * k == k * g;
    }
    if k != q {
      MulMagnitude(g, k - q);
      assert false;
    }
  }

  datatype Fraction = Fraction(num: int, den: int)

  /** Dividing numerator and denominator by their gcd: the value is unchanged and the
      denominator does not grow. */
  function Reduce(num: int, den: int): (r: Fraction)
    requires den != 0
    ensures r.den != 0
    ensures IAbs(r.den) <= IAbs(den)
    ensures (r.num as real) / (r.den as real) == (num as real) / (den as real)
  {
    var g := Gcd(num, den);
    GcdDivides(num, den);
    ReduceFacts(num, den, g);
    Fraction(num / g, den / g)
  }

  lemma ReduceFacts(num: int, den: int, g: int)
    requires den != 0 && g != 0 && num % g == 0 && den % g == 0
    ensures den / g != 0
    ensures IAbs(den / g) <= IAbs(den)
    ensures ((num / g) as real) / ((den / g) as real) == (num as real) / (den as real)
  {
    ExactDivision(num, g);
    ExactDivision(den, g);
    CofactorFacts(num, den, g, num / g, den / g);
  }

  lemma CofactorFacts(num: int, den: int, g: int, ka: int, kb: int)
    requires den != 0 && g != 0 && num == ka * g && den == kb * g
    ensures kb != 0 && IAbs(kb) <= IAbs(den)
    ensures (ka as real) / (kb as real) == (num as real) / (den as real)
  {
    assert kb != 0;
    MulMagnitude(kb, g);
    CofactorValue(num, den, g, ka, kb);
  }

  lemma CofactorValue(num: int, den: int, g: int, ka: int, kb: int)
    requires kb != 0 && g != 0 && num == ka * g && den == kb * g
    ensures (ka as real) / (kb as real) == (num as real) / (den as real)
  {
    CastProduct(ka, g);
    CastProduct(kb, g);
    var x, y, h := ka as real, kb as real, g as real;
    assert num as real == x * h && den as real == y * h;
    CancelFactor(x, y, h);
  }

  lemma ExactDivision(a: int, g: int)
    requires g != 0 && a % g == 0
    ensures a == (a / g) * g
  {
  }

  lemma CastProduct(x: int, y: int)
    ensures (x * y) as real == (x as real) * (y as real)
  {
  }

  lemma CancelFactor(x: real, y: real, g: real)
    requires y != 0.0 && g != 0.0
    ensures (x * g) / (y * g) == x / y
  {
    assert (x * g) / (y * g) * (y * g) == x * g;
    assert (x / y) * (y * g) == x * g;
  }

  /** The absolute error of approximating `x` by `round(x·den)/den`. */
  function ErrorAt(x: real, den: nat): real
    requires den >= 1
  {
    Abs(x - (Round(x * den as real) as real) / (den as real))
  }

  /** The search loop from denominator `den` on, with the best candidate so far. */
  function Search(x: real, den: nat, bestNum: int, bestDen: nat, bestErr: real): (r: Fraction)
    requires 1 <= den && 1 <= bestDen <= MaxDenominator
    requires bestErr == Abs(x - (bestNum as real) / (bestDen as real))
    ensures 1 <= r.den <= MaxDenominator
    ensures Abs(x - (r.num as real) / (r.den as real)) <= bestErr
    ensures forall d :: den <= d <= MaxDenominator ==>
              Abs(x - (r.num as real) / (r.den as real)) <= ErrorAt(x, d)
              || Abs(x - (r.num as real) / (r.den as real)) < Precision
    decreases MaxDenominator + 1 - den
  {
    if den > MaxDenominator then Fraction(bestNum, bestDen)
    else
      var num := Round(x * den as real);
      var err := ErrorAt(x, den);
      if err < bestErr then
        if err < Precision then Fraction(num, den)
        else Search(x, den + 1, num, den, err)
      else Search(x, den + 1, bestNum, bestDen, bestErr)
  }

  /** The unreduced best approximation of `x` (the decimal odds minus one). */
  function BestApproximation(x: real): (r: Fraction)
    ensures 1 <= r.den <= MaxDenominator
    ensures Abs(x - (r.num as real) / (r.den as real)) <= Abs(x - 1.0)
    ensures forall d :: 1 <= d <= MaxDenominator ==>
              Abs(x - (r.num as real) / (r.den as real)) <= ErrorAt(x, d)
              || Abs(x - (r.num as real) / (r.den as real)) < Precision
  {
    Search(x, 1, 1, 1, Abs(x - 1.0))
  }

  /** `x` is a whole number of `1/den` steps. */
  predicate ExactAt(x: real, den: nat)
  {
    den >= 1 && (x * den as real).Floor as real == x * den as real
  }

  /** `den` is the least denominator that represents `x` exactly: `x` in lowest terms. */
  predicate LeastDenominator(x: real, den: nat)
  {
    ExactAt(x, den) && NoExactBelow(x, den)
  }

  /** No denominator in `[1, den)` represents `x` exactly. */
  predicate NoExactBelow(x: real, den: nat)
  {
    den <= 1 || (!ExactAt(x, den - 1) && NoExactBelow(x, den - 1))
  }

  lemma {:induction false} NoExactBelowMeans(x: real, den: nat)
    ensures NoExactBelow(x, den) <==> forall d :: 1 <= d < den ==> !ExactAt(x, d)
  {
    if den > 1 {
      NoExactBelowMeans(x, den - 1);
    }
  }

  lemma NotExactBelow(x: real, q: nat, den: nat)
    requires NoExactBelow(x, q) && 1 <= den < q
    ensures !ExactAt(x, den)
  {
    NoExactBelowMeans(x, q);
  }

  /** Below the least exact denominator every candidate misses by at least `1/10000`. */
  lemma InexactErrorBound(x: real, q: nat, den: nat)
    requires 1 <= den <= MaxDenominator && q <= MaxDenominator
    requires ExactAt(x, q) && !ExactAt(x, den)
    ensures ErrorAt(x, den) >= 1.0 / 10000.0
  {
    var qr, dr := q as real, den as real;
    var p := ExactNumerator(x, q);
    var n := Round(x * dr);
    NotWhole(x, den, n);
    var m := WholeCombination(x, q, den, p, n);
    NonZeroProduct(x * dr - n as real, qr);
    ErrorAsQuotient(x, qr, dr, n as real, m as real);
    ProductBound(q, den);
    QuotientBound(m as real, qr * dr);
    ErrorAtUnfold(x, den);
  }

  lemma ErrorAtUnfold(x: real, den: nat)
    requires den >= 1
    ensures ErrorAt(x, den) == Abs(x - Round(x * den as real) as real / den as real)
  {
  }

  lemma NonZeroProduct(a: real, b: real)
    requires a != 0.0 && b != 0.0
    ensures a * b != 0.0
  {
  }

  lemma ProductBound(q: nat, den: nat)
    requires q <= 100 && den <= 100
    ensures (q as real) * (den as real) <= 10000.0
  {
    assert (q as real) * (den as real) <= 100.0 * (den as real);
  }

  lemma ExactNumerator(x: real, q: nat) returns (p: int)
    requires ExactAt(x, q)
    ensures p as real == x * q as real && p == (x * q as real).Floor
  {
    p := (x * q as real).Floor;
  }

  /** Where `x` is not exact, `x·den` is no integer. */
  lemma NotWhole(x: real, den: nat, n: int)
    requires den >= 1 && !ExactAt(x, den)
    ensures x * den as real != n as real
  {
  }

  lemma WholeCombination(x: real, q: int, den: int, p: int, n: int) returns (m: int)
    requires p as real == x * q as real
    ensures m as real == (x * den as real - n as real) * q as real
  {
    m := p * den - n * q;
    CastProduct(p, den);
    CastProduct(n, q);
  }

  lemma ErrorAsQuotient(x: real, qr: real, dr: real, nr: real, mr: real)
    requires qr > 0.0 && dr > 0.0 && mr == (x * dr - nr) * qr
    ensures x - nr / dr == mr / (qr * dr)
  {
    assert (x - nr / dr) * dr == x * dr - nr;
    assert mr / (qr * dr) * (qr * dr) == mr;
  }

  lemma QuotientBound(mr: real, k: real)
    requires mr == mr.Floor as real && mr != 0.0 && 0.0 < k <= 10000.0
    ensures Abs(mr / k) >= 1.0 / 10000.0
  {
    var a := Abs(mr);
    assert a >= 1.0;
    assert Abs(mr / k) == a / k;
    assert a / k - 1.0 / k == (a - 1.0) / k;
    assert 1.0 / k - 1.0 / 10000.0 == (10000.0 - k) / (10000.0 * k);
  }

  lemma {:induction false} SearchKeepsExactBest(x: real, den: nat, bestNum: int, bestDen: nat)
    requires 1 <= den && 1 <= bestDen <= MaxDenominator
    requires x == (bestNum as real) / (bestDen as real)
    ensures Search(x, den, bestNum, bestDen, 0.0) == Fraction(bestNum, bestDen)
    decreases MaxDenominator + 1 - den
  {
    if den <= MaxDenominator {
      SearchKeepsExactBest(x, den + 1, bestNum, bestDen);
    }
  }

  /** Started below the least exact denominator `q` with a non-zero best error, the
      search lands exactly on `x·q / q`. */
  lemma {:induction false} SearchFindsLeast(x: real, q: nat, den: nat, bestNum: int, bestDen: nat, bestErr: real)
    requires 1 <= den <= q <= MaxDenominator && LeastDenominator(x, q)
    requires 1 <= bestDen <= MaxDenominator
    requires bestErr == Abs(x - (bestNum as real) / (bestDen as real)) && bestErr > 0.0
    ensures Search(x, den, bestNum, bestDen, bestErr) == Fraction((x * q as real).Floor, q)
    decreases q - den
  {
    if den == q {
      SearchHitsExact(x, q, bestNum, bestDen, bestErr);
    } else {
      NotExactBelow(x, q, den);
      InexactErrorBound(x, q, den);
      var err := ErrorAt(x, den);
      if err < bestErr {
        SearchFindsLeast(x, q, den + 1, Round(x * den as real), den, err);
      } else {
        SearchFindsLeast(x, q, den + 1, bestNum, bestDen, bestErr);
      }
    }
  }

  /** At an exact denominator the search stops with the exact fraction. */
  lemma SearchHitsExact(x: real, q: nat, bestNum: int, bestDen: nat, bestErr: real)
    requires 1 <= q <= MaxDenominator && ExactAt(x, q)
    requires 1 <= bestDen <= MaxDenominator
    requires bestErr == Abs(x - (bestNum as real) / (bestDen as real)) && bestErr > 0.0
    ensures Search(x, q, bestNum, bestDen, bestErr) == Fraction((x * q as real).Floor, q)
  {
    var p := ExactNumerator(x, q);
    RoundOfInt(p);
    assert Round(x * q as real) == p;
    assert x == p as real / q as real;
    ErrorAtUnfold(x, q);
    assert ErrorAt(x, q) == 0.0;
  }

  /** When `x` is `p/q` in lowest terms with `q <= 100`, the best approximation is `p/q`. */
  lemma BestApproximationExact(x: real, q: nat)
    requires q <= MaxDenominator && LeastDenominator(x, q)
    ensures BestApproximation(x) == Fraction((x * q as real).Floor, q)
  {
    if x == 1.0 {
      assert ExactAt(x, 1);
      if q > 1 {
        NotExactBelow(x, q, 1);
      }
      SearchKeepsExactBest(x, 1, 1, 1);
    } else {
      SearchFindsLeast(x, q, 1, 1, 1, Abs(x - 1.0));
    }
  }

  /** A common factor `g >= 2` of `p` and `q` gives a smaller exact denominator. */
  lemma SmallerExact(x: real, p: int, q: nat, g: int, kp: int, kq: int)
    requires q >= 1 && p as real == x * q as real
    requires g >= 2 && p == kp * g && q == kq * g
    ensures 1 <= kq < q && ExactAt(x, kq)
  {
    assert kq >= 1;
    assert q == kq + kq * (g - 1);
    CastProduct(kp, g);
    CastProduct(kq, g);
    assert x * kq as real == kp as real by {
      assert (x * kq as real) * g as real == (kp as real) * g as real;
    }
  }

  /** A fraction with non-negative numerator over its least denominator is already reduced. */
  lemma ReduceLowestTerms(x: real, q: nat)
    requires x >= 0.0 && LeastDenominator(x, q)
    ensures Reduce((x * q as real).Floor, q) == Fraction((x * q as real).Floor, q)
  {
    var p := ExactNumerator(x, q);
    assert p >= 0;
    var g := Gcd(p, q);
    var kp, kq := GcdCofactors(p, q);
    GcdNonNegative(p, q);
    if g != 1 {
      SmallerExact(x, p, q, g, kp, kq);
      NotExactBelow(x, q, kq);
    }
    ExactQuotient(p, 1, p);
    ExactQuotient(q, 1, q);
  }
}
