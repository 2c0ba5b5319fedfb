/** The front end's stake calculator, `calculateKelly`
    (smart-sports-betting/src/utils/betCalculations.js): clamp the probability, read the
    odds in the given format, and report the relative edge, a confidence-scaled Kelly size
    in percent, a risk level, the expected value and the break-even probability. The
    final two-decimal rounding of each figure is not modelled. */
module BetCalc {
  import opened Wrappers
  import opened RealMath
  import Js

  /** `Math.min(Math.max(probability, 0.01), 0.99)`. */
  function ClampProbability(probability: real): (p: real)
    ensures 0.01 <= p <= 0.99
    ensures 0.01 <= probability <= 0.99 ==> p == probability
    ensures probability < 0.01 ==> p == 0.01
    ensures probability > 0.99 ==> p == 0.99
  {
    Min(Max(probability, 0.01), 0.99)
  }

  /** `a / b` on numbers that may already be non-finite; a zero divisor gives a non-finite
      result (infinity or NaN). */
  function DivideOpt(a: Option<real>, b: Option<real>): (r: Option<real>)
    ensures r.Some? <==> a.Some? && b.Some? && b.value != 0.0
    ensures r.Some? ==> r.value * b.value == a.value
  {
    if a.Some? && b.Some? && b.value != 0.0 then Some(a.value / b.value) else None
  }

  /** The odds as decimal odds, or None for a non-finite number; `Err` is the TypeError
      of calling `.split` on fractional odds that are not text. */
  function DecimalOddsOf(odds: Js.Value, oddsFormat: string): (r: Result<Option<real>, string>)
    ensures r.Err? <==> oddsFormat == "fractional" && !odds.Str?
    ensures oddsFormat != "american" && oddsFormat != "fractional" ==> r == Ok(Js.ParseFloatValue(odds))
  {
    if oddsFormat == "american" then
      var a := Js.ParseFloatValue(odds);
      if a.Some? && a.value > 0.0 then Ok(Some(a.value / 100.0 + 1.0))
      else if a.Some? && a.value != 0.0 then Ok(Some(100.0 / Abs(a.value) + 1.0))
      else Ok(None)
    else if oddsFormat == "fractional" then
      match odds
      case Str(s) =>
        var parts := Js.Split(s, '/');
        if |parts| == 2 then
          match DivideOpt(Js.ParseFloat(parts[0]), Js.ParseFloat(parts[1]))
          case Some(x) => Ok(Some(x + 1.0))
          case None => Ok(None)
        else Ok(Js.ParseFloat(s))
      case _ => Err("TypeError")
    else Ok(Js.ParseFloatValue(odds))
  }

  /** A positive American price reads as price/100 + 1, a negative one as 100/|price| + 1;
      both are above 1. */
  lemma AmericanOddsAboveOne(price: real)
    requires price != 0.0
    ensures var d := DecimalOddsOf(Js.Num(price), "american");
            d.Ok? && d.value.Some? && d.value.value > 1.0
            && (price > 0.0 ==> d.value.value == price / 100.0 + 1.0)
            && (price < 0.0 ==> d.value.value == 100.0 / -price + 1.0)
  {
  }

  /** Text "n/d" with numeric n and d and a non-zero d reads as n/d + 1. */
  lemma FractionalText(n: string, d: string)
    requires '/' !in n && '/' !in d
    requires Js.ParseFloat(n).Some? && Js.ParseFloat(d).Some? && Js.ParseFloat(d).value != 0.0
    ensures DecimalOddsOf(Js.Str(n + "/" + d), "fractional")
            == Ok(Some(Js.ParseFloat(n).value / Js.ParseFloat(d).value + 1.0))
  {
    Js.SplitAtFirst(n, d, '/');
    Js.SplitWithoutSeparator(d, '/');
    assert n + "/" + d == n + ['/'] + d;
  }

  /** Fractional text without exactly one '/' falls back to `parseFloat` of the whole. */
  lemma FractionalFallback(s: string)
    requires Js.Count(s, '/') != 1
    ensures DecimalOddsOf(Js.Str(s), "fractional") == Ok(Js.ParseFloat(s))
  {
    Js.SplitShape(s, '/');
  }

  datatype RiskLevel = Low | Medium | High

  /** The risk label of a size in percent: above 5 high, below 2 low, else medium. */
  function RiskOf(size: real): (r: RiskLevel)
    ensures r == High <==> size > 5.0
    ensures r == Low <==> size < 2.0
    ensures r == Medium <==> 2.0 <= size <= 5.0
  {
    if size > 5.0 then High else if size < 2.0 then Low else Medium
  }

  datatype Advice = Advice(edge: real, recommendedSize: real, riskLevel: RiskLevel, expectedValue: real,
                           breakEvenProb: real)

  /** What `calculateKelly` returns: a TypeError, a result with a non-finite figure, or
      finite figures. */
  datatype KellyOutput = TypeError | NotFinite | Figures(advice: Advice)

  /** The figures for finite decimal odds other than 0 and 1. */
  function AdviceAt(prob: real, d: real, confidenceLevel: real): (a: Advice)
    requires d != 0.0 && d != 1.0
    ensures var implied := 1.0 / d;
            && a.breakEvenProb == implied * 100.0
            && a.edge * implied == (prob - implied) * 100.0
            && a.expectedValue == (prob * (d - 1.0) - (1.0 - prob)) * 100.0
    ensures a.recommendedSize >= 0.0
    ensures a.riskLevel == RiskOf(a.recommendedSize)
    ensures var kelly := (prob * (d - 1.0) - (1.0 - prob)) / (d - 1.0);
            a.recommendedSize == Max(0.0, kelly * 100.0 * (confidenceLevel / 3.0))
  {
    var implied := 1.0 / d;
    var edge := (prob - implied) / implied * 100.0;
    var net := d - 1.0;
    var kelly := (prob * net - (1.0 - prob)) / net;
    var size := Max(0.0, kelly * 100.0 * (confidenceLevel / 3.0));
    Advice(edge, size, RiskOf(size), prob * net * 100.0 - (1.0 - prob) * 100.0, implied * 100.0)
  }

  /** `calculateKelly`. A missing confidence level defaults to 3. At decimal odds of 1 the
      Kelly fraction is minus infinity, which a positive confidence scales to a size of 0;
      any other non-finite figure makes the output `NotFinite`. */
  function CalculateKelly(probability: real, odds: Js.Value, oddsFormat: string, confidenceLevel: Option<real>)
    : (r: KellyOutput)
    ensures r == TypeError <==> DecimalOddsOf(odds, oddsFormat).Err?
    ensures var d := DecimalOddsOf(odds, oddsFormat);
            var c := if confidenceLevel.Some? then confidenceLevel.value else 3.0;
            d.Ok? && d.value.Some? && d.value.value != 0.0 && d.value.value != 1.0 ==>
              r == Figures(AdviceAt(ClampProbability(probability), d.value.value, c))
    ensures var d := DecimalOddsOf(odds, oddsFormat);
            d.Ok? && (d.value.None? || d.value == Some(0.0)) ==> r == NotFinite
    ensures r.Figures? ==> r.advice.recommendedSize >= 0.0 && r.advice.riskLevel == RiskOf(r.advice.recommendedSize)
  {
    var prob := ClampProbability(probability);
    var c := if confidenceLevel.Some? then confidenceLevel.value else 3.0;
    match DecimalOddsOf(odds, oddsFormat)
    case Err(_) => TypeError
    case Ok(None) => NotFinite
    case Ok(Some(d)) =>
      if d == 0.0 then NotFinite
      else if d == 1.0 then
        if c > 0.0 then Figures(Advice((prob - 1.0) * 100.0, 0.0, Low, (prob - 1.0) * 100.0, 100.0))
        else NotFinite
      else Figures(AdviceAt(prob, d, c))
  }

  /** The edge here is relative, (p - q)/q in percent, and so equals the expected value in
      percent: both are 100·(p·d - 1). */
  lemma EdgeEqualsExpectedValue(prob: real, d: real, confidenceLevel: real)
    requires d != 0.0 && d != 1.0
    ensures AdviceAt(prob, d, confidenceLevel).edge == AdviceAt(prob, d, confidenceLevel).expectedValue
  {
    var a := AdviceAt(prob, d, confidenceLevel);
    var implied := 1.0 / d;
    assert implied * d == 1.0;
    assert a.edge * implied == (prob - implied) * 100.0;
    assert a.expectedValue * implied == (prob * d - 1.0) * 100.0 * implied;
    assert (prob * d - 1.0) * implied == prob - implied;
    assert implied != 0.0;
  }

  /** The neutral confidence level 3 leaves the Kelly percentage unscaled. */
  lemma NeutralConfidence(prob: real, d: real)
    requires d != 0.0 && d != 1.0
    ensures var kelly := (prob * (d - 1.0) - (1.0 - prob)) / (d - 1.0);
            AdviceAt(prob, d, 3.0).recommendedSize == Max(0.0, kelly * 100.0)
  {
  }

  /** The break-even probability in percent is the one at which the expected value is 0. */
  lemma BreakEvenHasNoValue(d: real, confidenceLevel: real)
    requires d != 0.0 && d != 1.0
    ensures var be := AdviceAt(0.5, d, confidenceLevel).breakEvenProb / 100.0;
            AdviceAt(be, d, confidenceLevel).expectedValue == 0.0
  {
    var be := 1.0 / d;
    assert be * d == 1.0;
    assert (be * (d - 1.0) - (1.0 - be)) == be * d - 1.0;
  }
}
