/** Kelly-criterion stake sizing and the odds helpers it bundles
    (backend/src/utils/kellyCalculations.js). */
module Kelly {
  import opened Wrappers
  import opened RealMath
  import Js

  /** `oddsCalculations.americanToDecimal`: positive American odds `a` pay `a/100`,
      negative ones pay `100/|a|`. At 0 the division `100/0` is Infinity; None stands
      for that non-finite result. */
  function AmericanToDecimal(american: real): (r: Option<real>)
    ensures american > 0.0 ==> r == Some(american / 100.0 + 1.0)
    ensures american < 0.0 ==> r == Some(100.0 / Abs(american) + 1.0)
    ensures r.Some? <==> american != 0.0
    ensures r.Some? ==> r.value > 1.0
  {
    if american > 0.0 then Some(american / 100.0 + 1.0)
    else if american == 0.0 then None
    else Some(100.0 / Abs(american) + 1.0)
  }

  /** `americanToDecimal` applied to any value, which JavaScript first coerces with
      `Number(...)` (a non-numeric string gives NaN, a None here). */
  function AmericanValueToDecimal(odds: Js.Value): (r: Option<real>)
    ensures r.Some? <==> Js.ToNum(odds).Some? && Js.ToNum(odds).value != 0.0
  {
    match Js.ToNum(odds)
    case Some(a) => AmericanToDecimal(a)
    case None => None
  }

  /** The decimal odds `calculateKellyBet`, `calculateEdge` and `calculateRiskMetrics` work
      with: a numeric `odds` argument is used verbatim as decimal odds, anything else
      goes through `americanToDecimal`. */
  function DecimalOddsOf(odds: Js.Value): (r: Option<real>)
    ensures odds.Num? ==> r == Some(odds.n)
    ensures !Js.IsNumber(odds) ==> r == AmericanValueToDecimal(odds)
  {
    match odds
    case Num(d) => Some(d)
    case NaN => None
    case _ => AmericanValueToDecimal(odds)
  }

  /** `decimalToImpliedProbability`. */
  function ImpliedProbability(decimalOdds: real): (r: real)
    requires decimalOdds != 0.0
    ensures r * decimalOdds == 1.0
    ensures decimalOdds > 1.0 ==> 0.0 < r < 1.0
  {
    1.0 / decimalOdds
  }

  /** `calculateEdge`: the user's probability minus the market's implied probability. */
  function Edge(userProbability: real, decimalOdds: real): (r: real)
    requires decimalOdds != 0.0
    ensures r + ImpliedProbability(decimalOdds) == userProbability
  {
    userProbability - ImpliedProbability(decimalOdds)
  }

  /** The un-scaled Kelly fraction `(b·p - q)/b` with `b = d - 1`, `q = 1 - p`. */
  function RawKelly(p: real, decimalOdds: real): real
    requires decimalOdds != 1.0
  {
    var b := decimalOdds - 1.0;
    (b * p - (1.0 - p)) / b
  }

  datatype RiskLevel = Low | Medium | High
  datatype Recommendation = Bet | NoBet

  function RiskLevelOf(fraction: real): (r: RiskLevel)
    ensures r == High <==> fraction > 0.1
    ensures r == Medium <==> 0.05 < fraction <= 0.1
    ensures r == Low <==> fraction <= 0.05
  {
    if fraction > 0.1 then High else if fraction > 0.05 then Medium else Low
  }

  datatype Analysis = Analysis(
    hasBettingValue: bool,
    confidence: real,
    riskLevel: RiskLevel,
    recommendation: Recommendation)

  datatype KellyResult = KellyResult(
    kellyFraction: real,
    edge: real,
    impliedProbability: real,
    decimalOdds: real,
    analysis: Analysis)

  /** Whether the decimal odds `calculateKellyBet` derives are a finite number other than
      0 and 1, the values for which its divisions are defined. */
  predicate KellyDefined(odds: Js.Value)
  {
    var d := DecimalOddsOf(odds);
    d.Some? && d.value != 0.0 && d.value != 1.0
  }

  /** `calculateKellyBet(probability, odds, fractionMultiplier, maxBetPercentage)`. */
  function CalculateKellyBet(probability: real, odds: Js.Value, fractionMultiplier: real, maxBetPercentage: real)
    : (r: KellyResult)
    requires KellyDefined(odds)
    ensures r.decimalOdds == DecimalOddsOf(odds).value
    ensures r.impliedProbability == ImpliedProbability(r.decimalOdds)
    ensures r.edge == probability - r.impliedProbability
    ensures 0.0 <= r.kellyFraction <= Max(0.0, maxBetPercentage)
    ensures r.kellyFraction == Max(0.0, Min(RawKelly(probability, r.decimalOdds) * fractionMultiplier, maxBetPercentage))
    ensures r.analysis.hasBettingValue <==> r.edge > 0.0
    ensures r.analysis.confidence == probability
    ensures r.analysis.riskLevel == RiskLevelOf(r.kellyFraction)
    ensures r.analysis.recommendation == NoBet <==> r.kellyFraction == 0.0
  {
    var d := DecimalOddsOf(odds).value;
    var implied := ImpliedProbability(d);
    var edge := Edge(probability, d);
    var fraction := Max(0.0, Min(RawKelly(probability, d) * fractionMultiplier, maxBetPercentage));
    KellyResult(
      fraction, edge, implied, d,
      Analysis(edge > 0.0, probability, RiskLevelOf(fraction), if fraction == 0.0 then NoBet else Bet))
  }

  /** `b·p - q` equals `p·d - 1`, the expected profit of a unit stake. */
  lemma KellyNumerator(p: real, d: real)
    ensures (d - 1.0) * p - (1.0 - p) == p * d - 1.0
  {
  }

  /** For fixed odds above evens-or-worse (d > 1) the raw Kelly fraction never decreases
      as the probability grows. */
  lemma RawKellyMonotone(p1: real, p2: real, d: real)
    requires d > 1.0 && p1 <= p2
    ensures RawKelly(p1, d) <= RawKelly(p2, d)
  {
    var b := d - 1.0;
    assert RawKelly(p2, d) - RawKelly(p1, d) == (p2 - p1) * d / b;
  }

  /** For d > 1 the raw Kelly fraction is positive exactly when the edge is. */
  lemma RawKellyPositiveIffEdge(p: real, d: real)
    requires d > 1.0
    ensures RawKelly(p, d) > 0.0 <==> Edge(p, d) > 0.0
  {
    var b := d - 1.0;
    var raw := RawKelly(p, d);
    assert raw * b == b * p - (1.0 - p);
    KellyNumerator(p, d);
    PositiveProduct(b, raw);
    var e := Edge(p, d);
    assert e * d == p * d - 1.0;
    PositiveProduct(d, e);
  }

  /** Scaling by a positive multiplier and capping at a positive maximum keeps a fraction
      positive exactly when it was positive. */
  lemma AppliedFractionPositive(raw: real, fractionMultiplier: real, maxBetPercentage: real)
    requires fractionMultiplier > 0.0 && maxBetPercentage > 0.0
    ensures Max(0.0, Min(raw * fractionMultiplier, maxBetPercentage)) != 0.0 <==> raw > 0.0
  {
    PositiveProduct(fractionMultiplier, raw);
  }

  /** With valid odds and positive multipliers the recommendation is "bet" exactly when
      the edge is positive. */
  lemma RecommendationFollowsEdge(probability: real, odds: Js.Value, fractionMultiplier: real, maxBetPercentage: real)
    requires KellyDefined(odds) && DecimalOddsOf(odds).value > 1.0
    requires fractionMultiplier > 0.0 && maxBetPercentage > 0.0
    ensures var r := CalculateKellyBet(probability, odds, fractionMultiplier, maxBetPercentage);
            r.analysis.recommendation == Bet <==> r.edge > 0.0
  {
    var d := DecimalOddsOf(odds).value;
    RawKellyPositiveIffEdge(probability, d);
    AppliedFractionPositive(RawKelly(probability, d), fractionMultiplier, maxBetPercentage);
  }

  datatype RiskMetrics = RiskMetrics(
    potentialProfit: real,
    riskToRewardRatio: Option<real>,
    bankrollRiskPercentage: Option<real>,
    maxLoss: real)

  /** `calculateRiskMetrics(betAmount, odds, bankroll)`. A ratio whose divisor is zero is
      NaN or Infinity in the source, None here. */
  function CalculateRiskMetrics(betAmount: real, odds: Js.Value, bankroll: real): (r: RiskMetrics)
    requires DecimalOddsOf(odds).Some?
    ensures r.potentialProfit == betAmount * (DecimalOddsOf(odds).value - 1.0)
    ensures r.maxLoss == betAmount
    ensures r.riskToRewardRatio.Some? <==> r.potentialProfit != 0.0
    ensures r.riskToRewardRatio.Some? ==> r.riskToRewardRatio.value * r.potentialProfit == betAmount
    ensures r.bankrollRiskPercentage.Some? <==> bankroll != 0.0
    ensures r.bankrollRiskPercentage.Some? ==> r.bankrollRiskPercentage.value * bankroll == betAmount * 100.0
  {
    var d := DecimalOddsOf(odds).value;
    var profit := betAmount * (d - 1.0);
    RiskMetrics(
      profit,
      if profit != 0.0 then Some(betAmount / profit) else None,
      if bankroll != 0.0 then Some(betAmount / bankroll * 100.0) else None,
      betAmount)
  }
}
