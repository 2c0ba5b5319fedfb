/** Odds conversions, margins and expected value from
    backend/src/utils/marketOddsCalculations.js. A JavaScript number that may be NaN or
    infinite is an `Option<real>`, `None` standing for every non-finite value. */
module MarketOdds {
  import opened Wrappers
  import opened RealMath
  import Js
  import Kelly
  import Fractions

  // ---------------------------------------------------------------- American and decimal

  /** `americanToDecimal`: positive odds are the profit on 100 staked, negative odds the
      stake needed to win 100; zero is mapped to even stake-back odds of 1. */
  function AmericanToDecimal(american: real): (d: real)
    ensures american == 0.0 ==> d == 1.0
    ensures american > 0.0 ==> (d - 1.0) * 100.0 == american
    ensures american < 0.0 ==> (d - 1.0) * -american == 100.0
    ensures american != 0.0 ==> d > 1.0
  {
    if american == 0.0 then 1.0
    else if american > 0.0 then american / 100.0 + 1.0
    else 100.0 / Abs(american) + 1.0
  }

  /** The same conversion on a number that may be NaN: `NaN === 0` and `NaN > 0` are
      false, and `100 / NaN` is NaN. */
  function AmericanNumberToDecimal(american: Option<real>): (d: Option<real>)
    ensures d.Some? <==> american.Some?
    ensures american.Some? ==> d.value == AmericanToDecimal(american.value)
  {
    match american
    case None => None
    case Some(a) => Some(AmericanToDecimal(a))
  }

  /** `decimalToAmerican`: 1 maps to 0, odds of at least 2 to a positive price and odds
      below 2 to a negative one, each rounded half-up as `Math.round` does. */
  function DecimalToAmerican(d: real): (a: int)
    ensures d == 1.0 ==> a == 0
    ensures d >= 2.0 ==> a >= 100 && Abs(a as real - (d - 1.0) * 100.0) <= 0.5
    ensures 1.0 < d < 2.0 ==> a <= -100
    ensures d < 1.0 ==> a >= 0
  {
    if d == 1.0 then 0
    else if d >= 2.0 then Round((d - 1.0) * 100.0)
    else
      var raw := -100.0 / (d - 1.0);
      NegativePrice(d);
      Round(raw)
  }

  lemma NegativePrice(d: real)
    requires d != 1.0 && d < 2.0
    ensures 1.0 < d ==> -100.0 / (d - 1.0) < -100.0
    ensures d < 1.0 ==> -100.0 / (d - 1.0) > 0.0
  {
    var e := d - 1.0;
    if e > 0.0 {
      assert (-100.0 / e) * e == -100.0;
    }
  }

  /** The same conversion on a number that may be non-finite (NaN stays NaN and
      `Math.round(Infinity)` is Infinity). */
  function DecimalNumberToAmerican(d: Option<real>): (a: Option<real>)
    ensures a.Some? <==> d.Some?
    ensures d.Some? ==> a.value == DecimalToAmerican(d.value) as real
  {
    match d
    case None => None
    case Some(x) => Some(DecimalToAmerican(x) as real)
  }

  /** A whole American price outside (-100, 100), or zero, survives the trip through
      decimal odds; -100 and +100 are both even money and come back as +100. */
  lemma AmericanRoundTrip(a: int)
    requires a == 0 || a >= 100 || a < -100
    ensures DecimalToAmerican(AmericanToDecimal(a as real)) == a
  {
    var d := AmericanToDecimal(a as real);
    if a >= 100 {
      assert (d - 1.0) * 100.0 == a as real;
      RoundOfInt(a);
    } else if a < -100 {
      var e := d - 1.0;
      assert e * -(a as real) == 100.0;
      assert e == 100.0 / -(a as real);
      assert e < 1.0;
      assert -100.0 / e == a as real;
      RoundOfInt(a);
    }
  }

  lemma EvenMoneyRoundTrip()
    ensures DecimalToAmerican(AmericanToDecimal(-100.0)) == 100
  {
    assert AmericanToDecimal(-100.0) == 2.0;
    RoundOfInt(100);
  }

  /** Decimal odds whose American price is a whole number are recovered exactly. */
  lemma DecimalRoundTrip(d: real)
    requires d == 1.0
          || (d >= 2.0 && ((d - 1.0) * 100.0).Floor as real == (d - 1.0) * 100.0)
          || (1.0 < d < 2.0 && (-100.0 / (d - 1.0)).Floor as real == -100.0 / (d - 1.0))
    ensures AmericanToDecimal(DecimalToAmerican(d) as real) == d
  {
    if d >= 2.0 {
      RoundOfInt(((d - 1.0) * 100.0).Floor);
    } else if 1.0 < d < 2.0 {
      var e := d - 1.0;
      var a := (-100.0 / e).Floor;
      RoundOfInt(a);
      NegativePrice(d);
      assert a as real * e == -100.0;
      assert 100.0 / Abs(a as real) == e;
    }
  }

  /** Both source files convert American odds by the same rule except at zero, which the
      Kelly calculator leaves without a value. */
  lemma AgreesWithKellyConversion(american: real)
    requires american != 0.0
    ensures Kelly.AmericanToDecimal(american) == Some(AmericanToDecimal(american))
  {
  }

  // ---------------------------------------------------------------- fractional

  /** `fractionalToDecimal`: split at '/', read both halves with `Number`, divide and add
      one. A missing denominator, text `Number` rejects, or a zero denominator (an
      infinite or NaN quotient) gives no finite value. */
  function FractionalToDecimal(s: string): (d: Option<real>)
    ensures d.Some? ==> '/' in s
  {
    var parts := Js.Split(s, '/');
    if |parts| < 2 then None
    else
      assert '/' in s by {
        if '/' !in s { Js.SplitWithoutSeparator(s, '/'); }
      }
      match (Js.ToNumber(parts[0]), Js.ToNumber(parts[1]))
      case (Some(n), Some(den)) => if den == 0.0 then None else Some(n / den + 1.0)
      case _ => None
  }

  /** The text `decimalToFractional` prints for a numerator and denominator. */
  function FractionText(f: Fractions.Fraction): string
  {
    Js.IntToString(f.num) + "/" + Js.IntToString(f.den)
  }

  /** The value a fraction stands for. */
  function FractionValue(f: Fractions.Fraction): real
    requires f.den != 0
  {
    (f.num as real) / (f.den as real)
  }

  /** Printed fractions parse back to their value plus one. */
  lemma FractionTextParses(f: Fractions.Fraction)
    requires f.den != 0
    ensures FractionalToDecimal(FractionText(f)) == Some(FractionValue(f) + 1.0)
  {
    var parts := FractionTextSplits(f);
    Js.IntToStringRoundTrip(f.num);
    Js.IntToStringRoundTrip(f.den);
    assert Js.ToNumber(parts[0]) == Some(f.num as real) && Js.ToNumber(parts[1]) == Some(f.den as real);
  }

  /** A printed fraction splits at its one '/' into the two printed numbers. */
  lemma FractionTextSplits(f: Fractions.Fraction) returns (parts: seq<string>)
    ensures parts == Js.Split(FractionText(f), '/') == [Js.IntToString(f.num), Js.IntToString(f.den)]
  {
    var a, b := Js.IntToString(f.num), Js.IntToString(f.den);
    Js.IntToStringChars(f.num, '/');
    Js.IntToStringChars(f.den, '/');
    assert FractionText(f) == a + ['/'] + b;
    Js.SplitAtFirst(a, b, '/');
    Js.SplitWithoutSeparator(b, '/');
    parts := Js.Split(FractionText(f), '/');
  }

  /** `decimalToFractional`: the closest fraction with denominator at most 100 to the
      odds minus one, reduced by the gcd. A non-finite input never beats the starting
      candidate, so it prints "1/1". */
  function DecimalToFractional(d: Option<real>): (s: string)
    ensures d.None? ==> s == "1/1"
    ensures d.Some? ==> exists f: Fractions.Fraction ::
              && 1 <= Fractions.IAbs(f.den) <= Fractions.MaxDenominator && s == FractionText(f)
  {
    match d
    case None => FractionText(Fractions.Fraction(1, 1))
    case Some(x) =>
      var best := Fractions.BestApproximation(x - 1.0);
      var reduced := Fractions.Reduce(best.num, best.den);
      FractionText(reduced)
  }

  /** The printed fraction reads back as the best approximation of the odds: no
      denominator up to 100 comes closer, unless both are already within 1e-6. */
  lemma DecimalToFractionalReadsBack(d: real)
    ensures var best := Fractions.BestApproximation(d - 1.0);
            FractionalToDecimal(DecimalToFractional(Some(d))) == Some(FractionValue(best) + 1.0)
  {
    var best := Fractions.BestApproximation(d - 1.0);
    var reduced := Fractions.Reduce(best.num, best.den);
    FractionTextParses(reduced);
  }

  /** Odds of at least 1 whose excess `x` is `p/q` in lowest terms with `q <= 100` print
      as exactly "p/q", and the text converts back to the same odds. */
  lemma DecimalToFractionalExact(x: real, q: nat)
    requires x >= 0.0 && q <= Fractions.MaxDenominator && Fractions.LeastDenominator(x, q)
    ensures DecimalToFractional(Some(x + 1.0))
            == Js.IntToString((x * q as real).Floor) + "/" + Js.IntToString(q)
    ensures FractionalToDecimal(DecimalToFractional(Some(x + 1.0))) == Some(x + 1.0)
  {
    ExactPrint(x, q);
    ExactReadsBack(x, q);
  }

  lemma ExactPrint(x: real, q: nat)
    requires x >= 0.0 && q <= Fractions.MaxDenominator && Fractions.LeastDenominator(x, q)
    ensures DecimalToFractional(Some(x + 1.0))
            == Js.IntToString((x * q as real).Floor) + "/" + Js.IntToString(q)
  {
    var f := ExactText(x, q);
  }

  lemma ExactReadsBack(x: real, q: nat)
    requires x >= 0.0 && q <= Fractions.MaxDenominator && Fractions.LeastDenominator(x, q)
    ensures FractionalToDecimal(DecimalToFractional(Some(x + 1.0))) == Some(x + 1.0)
  {
    var f := ExactValueText(x, q);
    TextReadsBack(DecimalToFractional(Some(x + 1.0)), f, x);
  }

  /** The printed text of a fraction worth `v` reads back as `v + 1`. */
  lemma TextReadsBack(s: string, f: Fractions.Fraction, v: real)
    requires f.den != 0 && s == FractionText(f) && FractionValue(f) == v
    ensures FractionalToDecimal(s) == Some(v + 1.0)
  {
    FractionTextParses(f);
  }

  /** `ExactText` without the numerator's formula. */
  lemma ExactValueText(x: real, q: nat) returns (f: Fractions.Fraction)
    requires x >= 0.0 && q <= Fractions.MaxDenominator && Fractions.LeastDenominator(x, q)
    ensures f.den != 0 && FractionValue(f) == x
    ensures DecimalToFractional(Some(x + 1.0)) == FractionText(f)
  {
    f := ExactText(x, q);
  }

  /** The fraction `DecimalToFractional` prints for odds whose excess is exactly `p/q`. */
  lemma ExactText(x: real, q: nat) returns (f: Fractions.Fraction)
    requires x >= 0.0 && q <= Fractions.MaxDenominator && Fractions.LeastDenominator(x, q)
    ensures f == Fractions.Fraction((x * q as real).Floor, q) && f.den != 0 && FractionValue(f) == x
    ensures DecimalToFractional(Some(x + 1.0)) == FractionText(f)
  {
    f := FractionOfExact(x, q);
    Fractions.BestApproximationExact(x, q);
    assert Fractions.BestApproximation(x + 1.0 - 1.0) == f;
    Fractions.ReduceLowestTerms(x, q);
    TextOfBest(x + 1.0, f);
  }

  lemma TextOfBest(d: real, f: Fractions.Fraction)
    requires f.den != 0 && Fractions.BestApproximation(d - 1.0) == f
    requires Fractions.Reduce(f.num, f.den) == f
    ensures DecimalToFractional(Some(d)) == FractionText(f)
  {
    var best := Fractions.BestApproximation(d - 1.0);
    calc {
      DecimalToFractional(Some(d));
      FractionText(Fractions.Reduce(best.num, best.den));
      { assert best == f; }
      FractionText(f);
    }
  }

  lemma FractionOfExact(x: real, q: nat) returns (f: Fractions.Fraction)
    requires Fractions.ExactAt(x, q)
    ensures f == Fractions.Fraction((x * q as real).Floor, q) && f.den != 0
    ensures FractionValue(f) == x
  {
    var p := Fractions.ExactNumerator(x, q);
    f := Fractions.Fraction(p, q);
    ExactValue(x, q as real, p);
  }

  lemma ExactValue(x: real, qr: real, p: int)
    requires qr > 0.0
    ensures p as real == x * qr <==> p as real / qr == x
  {
  }

  // ---------------------------------------------------------------- convertOdds

  datatype ConvertError =
    | UnsupportedFormat(format: string)
    /** `fractionalToDecimal` calls `.split` on a value that is not a string. */
    | NotText

  const Formats: set<string> := {"american", "decimal", "fractional"}

  /** `fractionalToDecimal` applied to any JavaScript value. */
  function FractionalValueToDecimal(odds: Js.Value): (r: Result<Option<real>, ConvertError>)
    ensures r.Err? <==> !odds.Str?
  {
    match odds
    case Str(s) => Ok(FractionalToDecimal(s))
    case _ => Err(NotText)
  }

  /** The first step of `convertOdds`: any supported input format to decimal odds. */
  function ToDecimal(odds: Js.Value, fromFormat: string): (r: Result<Option<real>, ConvertError>)
    ensures fromFormat !in Formats <==> r == Err(UnsupportedFormat(fromFormat))
  {
    if fromFormat == "american" then Ok(AmericanNumberToDecimal(Js.ToNum(odds)))
    else if fromFormat == "decimal" then Ok(Js.ToNum(odds))
    else if fromFormat == "fractional" then FractionalValueToDecimal(odds)
    else Err(UnsupportedFormat(fromFormat))
  }

  /** `convertOdds`: identical formats return the input untouched (even unknown ones);
      otherwise convert to decimal and on to the target, failing on an unknown format
      or on fractional odds that are not text. */
  function ConvertOdds(odds: Js.Value, fromFormat: string, toFormat: string): (r: Result<Js.Value, ConvertError>)
    ensures fromFormat == toFormat ==> r == Ok(odds)
    ensures fromFormat != toFormat && fromFormat !in Formats ==> r == Err(UnsupportedFormat(fromFormat))
    ensures (fromFormat != toFormat && ToDecimal(odds, fromFormat).Ok? && toFormat !in Formats)
              ==> r == Err(UnsupportedFormat(toFormat))
    ensures r.Ok? && toFormat == "fractional" && fromFormat != toFormat ==> r.value.Str?
  {
    if fromFormat == toFormat then Ok(odds)
    else
      match ToDecimal(odds, fromFormat)
      case Err(e) => Err(e)
      case Ok(d) =>
        if toFormat == "american" then Ok(Js.FromOption(DecimalNumberToAmerican(d)))
        else if toFormat == "decimal" then Ok(Js.FromOption(d))
        else if toFormat == "fractional" then Ok(Js.Str(DecimalToFractional(d)))
        else Err(UnsupportedFormat(toFormat))
  }

  /** American to decimal and back through `convertOdds` is the identity on whole
      prices outside (-100, 100). */
  lemma ConvertAmericanRoundTrip(a: int)
    requires a == 0 || a >= 100 || a < -100
    ensures var d := ConvertOdds(Js.Num(a as real), "american", "decimal");
            d.Ok? && ConvertOdds(d.value, "decimal", "american") == Ok(Js.Num(a as real))
  {
    AmericanRoundTrip(a);
  }

  /** Fractional text in lowest terms, with denominator up to 100, survives the trip
      through decimal odds. */
  lemma ConvertFractionalRoundTrip(p: nat, q: nat)
    requires 1 <= q <= Fractions.MaxDenominator
    requires Fractions.LeastDenominator(p as real / q as real, q)
    ensures var d := ConvertOdds(Js.Str(Js.IntToString(p) + "/" + Js.IntToString(q)), "fractional", "decimal");
            d.Ok? && ConvertOdds(d.value, "decimal", "fractional")
                     == Ok(Js.Str(Js.IntToString(p) + "/" + Js.IntToString(q)))
  {
    ConvertFractionalToDecimal(p, q);
    ConvertDecimalToFractional(p, q);
  }

  lemma ConvertFractionalToDecimal(p: nat, q: nat)
    requires 1 <= q
    ensures ConvertOdds(Js.Str(Js.IntToString(p) + "/" + Js.IntToString(q)), "fractional", "decimal")
            == Ok(Js.Num(p as real / q as real + 1.0))
  {
    FractionTextParses(Fractions.Fraction(p, q));
  }

  lemma ConvertDecimalToFractional(p: nat, q: nat)
    requires 1 <= q <= Fractions.MaxDenominator
    requires Fractions.LeastDenominator(p as real / q as real, q)
    ensures ConvertOdds(Js.Num(p as real / q as real + 1.0), "decimal", "fractional")
            == Ok(Js.Str(Js.IntToString(p) + "/" + Js.IntToString(q)))
  {
    ExactFractionText(p, q);
    ConvertDecimalText(p as real / q as real + 1.0);
  }

  /** Odds of exactly p/q + 1, with q the least denominator, print as "p/q". */
  lemma ExactFractionText(p: nat, q: nat)
    requires 1 <= q <= Fractions.MaxDenominator
    requires Fractions.LeastDenominator(p as real / q as real, q)
    ensures DecimalToFractional(Some(p as real / q as real + 1.0)) == Js.IntToString(p) + "/" + Js.IntToString(q)
  {
    var x := p as real / q as real;
    assert (x * q as real).Floor == p by {
      ExactValue(x, q as real, p);
    }
    ExactPrint(x, q);
  }

  /** Decimal odds go to fractional text through `decimalToFractional` alone. */
  lemma ConvertDecimalText(v: real)
    ensures ConvertOdds(Js.Num(v), "decimal", "fractional") == Ok(Js.Str(DecimalToFractional(Some(v))))
  {
    assert ToDecimal(Js.Num(v), "decimal") == Ok(Some(v));
  }

  // ---------------------------------------------------------------- probabilities and value

  /** `decimalToImpliedProbability` on a possibly non-finite number: `1 / 0` is
      Infinity, so zero odds give no finite probability. */
  function ImpliedProbabilityOf(d: Option<real>): (p: Option<real>)
    ensures p.Some? <==> d.Some? && d.value != 0.0
    ensures p.Some? ==> p.value * d.value == 1.0
  {
    match d
    case Some(x) => if x == 0.0 then None else Some(Kelly.ImpliedProbability(x))
    case None => None
  }

  /** `calculateImpliedProbability`: convert to decimal odds, then invert. With format
      'decimal' the input value itself is divided into 1, so JavaScript's coercion of
      text, booleans and null applies. */
  function CalculateImpliedProbability(odds: Js.Value, format: string): (r: Result<Option<real>, ConvertError>)
    ensures format == "decimal" ==> r == Ok(ImpliedProbabilityOf(Js.ToNum(odds)))
    ensures r.Ok? && r.value.Some? ==> r.value.value != 0.0
  {
    match ConvertOdds(odds, format, "decimal")
    case Err(e) => Err(e)
    case Ok(v) => Ok(ImpliedProbabilityOf(Js.ToNum(v)))
  }

  /** `calculateBookmakerMargin`: how far the implied probabilities over-round one. */
  function BookmakerMargin(impliedProbabilities: seq<real>): (m: real)
    ensures impliedProbabilities == [] ==> m == -1.0
    ensures m == Sum(impliedProbabilities) - 1.0
    ensures m > 0.0 <==> Sum(impliedProbabilities) > 1.0
    ensures (forall k :: 0 <= k < |impliedProbabilities| ==> impliedProbabilities[k] >= 0.0) ==> m >= -1.0
  {
    if forall k :: 0 <= k < |impliedProbabilities| ==> impliedProbabilities[k] >= 0.0 then
      SumNonNegative(impliedProbabilities);
      Sum(impliedProbabilities) - 1.0
    else Sum(impliedProbabilities) - 1.0
  }

  /** `removeFairMargin`: scale an implied probability down by the over-round. The
      outcome count is ignored, as in the source; `1 + margin == 0` divides by zero. */
  function RemoveFairMargin(impliedProbability: real, margin: real, outcomes: int): (r: Option<real>)
    ensures r.Some? <==> 1.0 + margin != 0.0
    ensures r.Some? ==> r.value * (1.0 + margin) == impliedProbability
  {
    if 1.0 + margin == 0.0 then None else Some(impliedProbability / (1.0 + margin))
  }

  /** The fair probabilities of a market, each implied probability with the margin of
      the whole market removed. */
  function FairProbabilities(implied: seq<real>): (r: seq<real>)
    requires Sum(implied) != 0.0
    ensures |r| == |implied|
    ensures forall i :: 0 <= i < |r| ==>
              Some(r[i]) == RemoveFairMargin(implied[i], BookmakerMargin(implied), |implied|)
  {
    var r := DivideAll(implied, Sum(implied));
    forall i | 0 <= i < |r|
      ensures Some(r[i]) == RemoveFairMargin(implied[i], BookmakerMargin(implied), |implied|)
    {
      assert 1.0 + BookmakerMargin(implied) == Sum(implied);
      assert r[i] == implied[i] / Sum(implied);
    }
    r
  }

  /** Removing the margin leaves probabilities that sum to exactly one. */
  lemma FairProbabilitiesSumToOne(implied: seq<real>)
    requires Sum(implied) != 0.0
    ensures Sum(FairProbabilities(implied)) == 1.0
  {
    SumDivideAll(implied, Sum(implied));
    assert Sum(implied) / Sum(implied) == 1.0;
  }

  /** `calculateExpectedValue`: the profit per unit staked, which simplifies to
      `p·d - 1`. */
  function ExpectedValue(userProbability: real, decimalOdds: real): (ev: real)
    ensures ev == userProbability * decimalOdds - 1.0
  {
    userProbability * (decimalOdds - 1.0) - (1.0 - userProbability)
  }

  /** `calculateEdgePercentage`: the relative edge over the implied probability, in
      percent; a zero implied probability divides by zero. */
  function EdgePercentage(userProbability: real, impliedProbability: real): (e: Option<real>)
    ensures e.Some? <==> impliedProbability != 0.0
    ensures e.Some? ==> e.value * impliedProbability == (userProbability - impliedProbability) * 100.0
  {
    if impliedProbability == 0.0 then None
    else Some((userProbability - impliedProbability) / impliedProbability * 100.0)
  }

  /** `isPositiveEV`. */
  function IsPositiveEV(userProbability: real, decimalOdds: real): (b: bool)
    ensures b <==> userProbability * decimalOdds > 1.0
  {
    ExpectedValue(userProbability, decimalOdds) > 0.0
  }

  /** Measured against the market's own implied probability, the edge percentage is
      one hundred times the expected value, so both agree on whether a bet is worth
      taking. */
  lemma EdgeIsScaledExpectedValue(userProbability: real, decimalOdds: real)
    requires decimalOdds != 0.0
    ensures EdgePercentage(userProbability, Kelly.ImpliedProbability(decimalOdds))
            == Some(ExpectedValue(userProbability, decimalOdds) * 100.0)
  {
    var q := Kelly.ImpliedProbability(decimalOdds);
    RelativeEdge(userProbability, decimalOdds, q);
  }

  lemma RelativeEdge(p: real, d: real, q: real)
    requires q * d == 1.0
    ensures (p - q) / q == p * d - 1.0
  {
    assert q != 0.0;
    assert (p * d - 1.0) * q == p * (d * q) - q;
  }

  /** For positive odds, positive expected value means beating the implied probability. */
  lemma PositiveEVBeatsMarket(userProbability: real, decimalOdds: real)
    requires decimalOdds > 0.0
    ensures IsPositiveEV(userProbability, decimalOdds)
            <==> userProbability > Kelly.ImpliedProbability(decimalOdds)
  {
    var q := Kelly.ImpliedProbability(decimalOdds);
    PositiveProduct(decimalOdds, userProbability - q);
  }

  // ---------------------------------------------------------------- rankByEdge

  /** The sort comparator `b.edgePercentage - a.edgePercentage`; a missing edge makes
      it NaN, which the sort treats as "equal". */
  function Compare<T>(edge: T -> Option<real>, a: T, b: T): real
  {
    if edge(a).Some? && edge(b).Some? then edge(b).value - edge(a).value else 0.0
  }

  /** Stable insertion of `x` after the sorted prefix `ys`: it moves left past every
      element the comparator says should follow it. */
  function Insert<T>(edge: T -> Option<real>, x: T, ys: seq<T>): (r: seq<T>)
    ensures multiset(r) == multiset(ys) + multiset{x}
    ensures |r| == |ys| + 1
  {
    if |ys| == 0 then [x]
    else if Compare(edge, ys[|ys| - 1], x) > 0.0 then
      assert ys == ys[..|ys| - 1] + [ys[|ys| - 1]];
      Insert(edge, x, ys[..|ys| - 1]) + [ys[|ys| - 1]]
    else ys + [x]
  }

  /** `rankByEdge`: a stable sort of a copy, highest edge first. */
  function RankByEdge<T>(edge: T -> Option<real>, opportunities: seq<T>): (r: seq<T>)
    ensures multiset(r) == multiset(opportunities)
    ensures |r| == |opportunities|
  {
    if |opportunities| == 0 then []
    else
      var n := |opportunities| - 1;
      assert opportunities == opportunities[..n] + [opportunities[n]];
      Insert(edge, opportunities[n], RankByEdge(edge, opportunities[..n]))
  }

  predicate AllEdgesKnown<T>(edge: T -> Option<real>, xs: seq<T>)
  {
    forall i :: 0 <= i < |xs| ==> edge(xs[i]).Some?
  }

  /** Highest edge first: no element is followed by one with a larger edge. */
  predicate RankedByEdge<T>(edge: T -> Option<real>, xs: seq<T>)
  {
    forall i, j :: 0 <= i < j < |xs| ==> Compare(edge, xs[i], xs[j]) <= 0.0
  }

  lemma KnownEdgesOfPermutation<T>(edge: T -> Option<real>, xs: seq<T>, ys: seq<T>)
    requires multiset(xs) == multiset(ys) && AllEdgesKnown(edge, ys)
    ensures AllEdgesKnown(edge, xs)
  {
    forall i | 0 <= i < |xs|
      ensures edge(xs[i]).Some?
    {
      assert xs[i] in multiset(ys);
      var j :| 0 <= j < |ys| && ys[j] == xs[i];
    }
  }

  lemma {:induction false} InsertRanked<T>(edge: T -> Option<real>, x: T, ys: seq<T>)
    requires AllEdgesKnown(edge, ys) && edge(x).Some? && RankedByEdge(edge, ys)
    ensures RankedByEdge(edge, Insert(edge, x, ys))
    decreases |ys|
  {
    if |ys| > 0 && Compare(edge, ys[|ys| - 1], x) > 0.0 {
      var n := |ys| - 1;
      var front := ys[..n];
      InsertRanked(edge, x, front);
      var ins := Insert(edge, x, front);
      var r := ins + [ys[n]];
      assert AllEdgesKnown(edge, front);
      KnownEdgesOfPermutation(edge, ins, front + [x]) by {
        assert multiset(front + [x]) == multiset(front) + multiset{x};
        forall i | 0 <= i < |front + [x]| ensures edge((front + [x])[i]).Some? {
          if i < n { assert (front + [x])[i] == ys[i]; }
        }
      }
      forall i, j | 0 <= i < j < |r|
        ensures Compare(edge, r[i], r[j]) <= 0.0
      {
        if j == n {
          assert r[i] == ins[i];
          assert r[i] in multiset(front) + multiset{x} by {
            assert r[i] in multiset(ins);
          }
          if r[i] == x {
          } else {
            assert r[i] in multiset(front);
            var k :| 0 <= k < n && front[k] == r[i];
            assert Compare(edge, ys[k], ys[n]) <= 0.0;
          }
        }
      }
    }
  }

  /** With every edge known, the ranking is ordered highest edge first. */
  lemma {:induction false} RankByEdgeRanked<T>(edge: T -> Option<real>, opportunities: seq<T>)
    requires AllEdgesKnown(edge, opportunities)
    ensures RankedByEdge(edge, RankByEdge(edge, opportunities))
  {
    if |opportunities| > 0 {
      var n := |opportunities| - 1;
      var front := opportunities[..n];
      assert AllEdgesKnown(edge, front);
      RankByEdgeRanked(edge, front);
      var sorted := RankByEdge(edge, front);
      KnownEdgesOfPermutation(edge, sorted, front);
      InsertRanked(edge, opportunities[n], sorted);
    }
  }

  /** Input already ranked comes back unchanged: the sort is stable. */
  lemma {:induction false} RankByEdgeKeepsRanked<T>(edge: T -> Option<real>, opportunities: seq<T>)
    requires RankedByEdge(edge, opportunities)
    ensures RankByEdge(edge, opportunities) == opportunities
  {
    if |opportunities| > 0 {
      var n := |opportunities| - 1;
      var front := opportunities[..n];
      assert RankedByEdge(edge, front);
      RankByEdgeKeepsRanked(edge, front);
      assert front + [opportunities[n]] == opportunities;
      InsertAtEnd(edge, opportunities[n], front);
    }
  }

  /** An element that no earlier one should follow is inserted at the end. */
  lemma InsertAtEnd<T>(edge: T -> Option<real>, x: T, ys: seq<T>)
    requires RankedByEdge(edge, ys + [x])
    ensures Insert(edge, x, ys) == ys + [x]
  {
    if |ys| > 0 {
      assert (ys + [x])[|ys| - 1] == ys[|ys| - 1];
      assert Compare(edge, (ys + [x])[|ys| - 1], (ys + [x])[|ys|]) <= 0.0;
    }
  }

  /** Records that carry no edge at all are left in their original order. */
  lemma RankByEdgeWithoutEdges<T>(edge: T -> Option<real>, opportunities: seq<T>)
    requires forall i :: 0 <= i < |opportunities| ==> edge(opportunities[i]).None?
    ensures RankByEdge(edge, opportunities) == opportunities
  {
    RankByEdgeKeepsRanked(edge, opportunities);
  }
}
