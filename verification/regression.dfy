/** The regression-to-the-mean engine of backend/src/utils/regressionCalculations.js:
    reliability of a sample, the true-talent blend, the sport/metric lookup tables with
    their fallbacks, the bounded probability adjustment and the cognitive-bias checks.
    `Math.sqrt` of the sample size is supplied by the caller (see `SqrtOf`). */
module Regression {
  import opened Wrappers
  import opened RealMath
  import opened Ieee
  import Js

  // ---------------------------------------------------------------- core formulas

  /** `calculateRegression`: the current value pulled towards the baseline by the factor. */
  function CalculateRegression(current: real, baseline: real, factor: real): (r: real)
    ensures factor == 0.0 ==> r == current
    ensures factor == 1.0 ==> r == baseline
    ensures r - current == (baseline - current) * factor
  {
    baseline + (current - baseline) * (1.0 - factor)
  }

  /** For a factor in [0, 1] the expectation lies between the current value and the
      baseline. */
  lemma RegressionBetween(current: real, baseline: real, factor: real)
    requires 0.0 <= factor <= 1.0
    ensures Min(current, baseline) <= CalculateRegression(current, baseline, factor) <= Max(current, baseline)
  {
    var r := CalculateRegression(current, baseline, factor);
    var k := 1.0 - factor;
    var d := current - baseline;
    assert r == baseline + d * k;
    if d >= 0.0 {
      PartOf(k, d);
      assert 0.0 <= k * d <= d;
    } else {
      PartOf(k, -d);
      assert 0.0 <= k * (-d) <= -d;
      assert k * (-d) == -(d * k);
    }
  }

  /** `calculateReliability`: n / (n + s). A zero denominator gives no finite number
      (`None`): NaN when n is 0 as well, and an infinity of n's sign otherwise. */
  function Reliability(sampleSize: real, stabilization: real): (r: Option<real>)
    ensures r.None? <==> sampleSize + stabilization == 0.0
    ensures sampleSize == 0.0 && stabilization != 0.0 ==> r == Some(0.0)
    ensures sampleSize == stabilization && stabilization != 0.0 ==> r == Some(0.5)
    ensures sampleSize >= 0.0 && stabilization > 0.0 ==> 0.0 <= r.value < 1.0
  {
    if sampleSize + stabilization == 0.0 then None
    else
      ShareOfTotal(sampleSize, stabilization);
      Some(sampleSize / (sampleSize + stabilization))
  }

  lemma ShareOfTotal(n: real, s: real)
    requires n + s != 0.0
    ensures n == s ==> n / (n + s) == 0.5
    ensures n >= 0.0 && s > 0.0 ==> 0.0 <= n / (n + s) < 1.0
  {
    if n == s {
      assert n + s == 2.0 * n;
    }
    if n >= 0.0 && s > 0.0 {
      QuotientInUnit(n, n + s);
    }
  }

  /** More observations never make a metric less reliable. */
  lemma ReliabilityMonotone(n1: real, n2: real, s: real)
    requires 0.0 <= n1 <= n2 && s > 0.0
    ensures Reliability(n1, s).value <= Reliability(n2, s).value
  {
    var a, b := n1 + s, n2 + s;
    assert n1 / a == n1 * b / (a * b);
    assert n2 / b == n2 * a / (a * b);
    assert n1 * b - n2 * a == (n1 - n2) * s;
    assert (n1 - n2) * s <= 0.0;
    DivideMonotone(n1 * b, n2 * a, a * b);
  }

  /** `estimateTrueTalent`: a blend of the observation and the population mean weighted by
      reliability. */
  function EstimateTrueTalent(observed: real, populationMean: real, reliability: real): (r: real)
    ensures reliability == 1.0 ==> r == observed
    ensures reliability == 0.0 ==> r == populationMean
    ensures r - populationMean == (observed - populationMean) * reliability
  {
    observed * reliability + populationMean * (1.0 - reliability)
  }

  /** The estimate is a convex combination: between the two inputs for reliability in [0, 1]. */
  lemma TrueTalentBetween(observed: real, populationMean: real, reliability: real)
    requires 0.0 <= reliability <= 1.0
    ensures Min(observed, populationMean) <= EstimateTrueTalent(observed, populationMean, reliability)
                                           <= Max(observed, populationMean)
  {
    var r := EstimateTrueTalent(observed, populationMean, reliability);
    var d := observed - populationMean;
    assert r == populationMean + d * reliability;
    if d >= 0.0 {
      PartOf(reliability, d);
      assert 0.0 <= reliability * d <= d;
    } else {
      PartOf(reliability, -d);
      assert 0.0 <= reliability * (-d) <= -d;
      assert reliability * (-d) == -(d * reliability);
    }
  }

  /** Regression with factor f and the true-talent blend with reliability 1 - f agree. */
  lemma RegressionIsTalentBlend(current: real, baseline: real, factor: real)
    ensures CalculateRegression(current, baseline, factor) == EstimateTrueTalent(current, baseline, 1.0 - factor)
  {
  }

  // ---------------------------------------------------------------- lookup tables

  datatype RegressionFactor = RegressionFactor(factor: real, stabilizationPoint: real)

  predicate ValidRegressionFactor(f: RegressionFactor)
  {
    0.0 <= f.factor <= 1.0 && f.stabilizationPoint > 0.0
  }

  /** The per-sport regression factors, `default` included. */
  const FactorTable: map<string, map<string, RegressionFactor>> := map[
    "basketball" := map[
      "threePointPercentage" := RegressionFactor(0.70, 750.0),
      "freeThrowPercentage" := RegressionFactor(0.55, 250.0),
      "fieldGoalPercentage" := RegressionFactor(0.60, 400.0),
      "winPercentage" := RegressionFactor(0.65, 70.0),
      "pointsPerGame" := RegressionFactor(0.40, 20.0),
      "assistsPerGame" := RegressionFactor(0.30, 15.0)],
    "baseball" := map[
      "battingAverage" := RegressionFactor(0.80, 500.0),
      "onBasePercentage" := RegressionFactor(0.65, 350.0),
      "sluggingPercentage" := RegressionFactor(0.75, 450.0),
      "era" := RegressionFactor(0.70, 500.0),
      "winPercentage" := RegressionFactor(0.85, 100.0)],
    "football" := map[
      "passCompletionPercentage" := RegressionFactor(0.65, 300.0),
      "yardsPerAttempt" := RegressionFactor(0.75, 400.0),
      "winPercentage" := RegressionFactor(0.80, 48.0),
      "fieldGoalPercentage" := RegressionFactor(0.70, 100.0)],
    "soccer" := map[
      "scoringRate" := RegressionFactor(0.78, 40.0),
      "winPercentage" := RegressionFactor(0.75, 60.0),
      "cleanSheetRate" := RegressionFactor(0.68, 35.0),
      "goalConversionRate" := RegressionFactor(0.80, 120.0)],
    "hockey" := map[
      "shootingPercentage" := RegressionFactor(0.75, 300.0),
      "savePercentage" := RegressionFactor(0.65, 1500.0),
      "winPercentage" := RegressionFactor(0.70, 82.0)],
    "default" := map[
      "winPercentage" := RegressionFactor(0.70, 50.0),
      "scoringRate" := RegressionFactor(0.75, 30.0),
      "anyMetric" := RegressionFactor(0.65, 40.0)]]

  /** The last resort of every lookup. */
  const DefaultAnyMetric: RegressionFactor := RegressionFactor(0.65, 40.0)

  /** A metric looked up in one sport's table, then its `anyMetric`, then the default's. */
  function MetricOrFallback<T>(table: map<string, T>, metric: string, fallback: T): (r: T)
    ensures metric in table ==> r == table[metric]
    ensures metric !in table && "anyMetric" in table ==> r == table["anyMetric"]
    ensures metric !in table && "anyMetric" !in table ==> r == fallback
  {
    if metric in table then table[metric]
    else if "anyMetric" in table then table["anyMetric"]
    else fallback
  }

  lemma FactorTableValid()
    ensures "default" in FactorTable && "anyMetric" in FactorTable["default"]
    ensures FactorTable["default"]["anyMetric"] == DefaultAnyMetric
    ensures forall s, m :: s in FactorTable && m in FactorTable[s] ==> ValidRegressionFactor(FactorTable[s][m])
  {
  }

  /** `getSportSpecificRegressionFactors`: an unknown sport reads the default table; a metric
      the sport's table lacks falls back to that table's `anyMetric`, then to the default's. */
  function GetSportSpecificRegressionFactors(sport: string, metric: string): (r: RegressionFactor)
    ensures ValidRegressionFactor(r)
    ensures sport in FactorTable && metric in FactorTable[sport] ==> r == FactorTable[sport][metric]
  {
    FactorTableValid();
    var sportFactors := if sport in FactorTable then FactorTable[sport] else FactorTable["default"];
    MetricOrFallback(sportFactors, metric, DefaultAnyMetric)
  }

  /** A sport without a table of its own reads the default table. */
  lemma UnknownSportUsesDefault(sport: string, metric: string)
    requires sport !in FactorTable
    ensures GetSportSpecificRegressionFactors(sport, metric) == GetSportSpecificRegressionFactors("default", metric)
  {
  }

  /** A metric no table lists gets the default `anyMetric` entry {0.65, 40}, whatever the
      sport. */
  lemma UnknownMetricFallsBack(sport: string, metric: string)
    requires forall s :: s in FactorTable ==> metric !in FactorTable[s]
    ensures GetSportSpecificRegressionFactors(sport, metric) == RegressionFactor(0.65, 40.0)
  {
  }

  /** The per-sport standard deviations. */
  const StdDevTable: map<string, map<string, real>> := map[
    "basketball" := map[
      "threePointPercentage" := 0.05, "freeThrowPercentage" := 0.08, "fieldGoalPercentage" := 0.04,
      "winPercentage" := 0.15, "pointsPerGame" := 5.0, "assistsPerGame" := 1.5],
    "baseball" := map[
      "battingAverage" := 0.025, "onBasePercentage" := 0.03, "sluggingPercentage" := 0.05,
      "era" := 0.75, "winPercentage" := 0.1],
    "football" := map[
      "passCompletionPercentage" := 0.05, "yardsPerAttempt" := 1.0, "winPercentage" := 0.2,
      "fieldGoalPercentage" := 0.07],
    "soccer" := map[
      "scoringRate" := 0.1, "winPercentage" := 0.15, "cleanSheetRate" := 0.12,
      "goalConversionRate" := 0.04],
    "hockey" := map[
      "shootingPercentage" := 0.03, "savePercentage" := 0.015, "winPercentage" := 0.12],
    "default" := map[
      "winPercentage" := 0.15, "anyMetric" := 0.1]]

  lemma StdDevTablePositive()
    ensures "default" in StdDevTable && "anyMetric" in StdDevTable["default"]
    ensures forall s, m :: s in StdDevTable && m in StdDevTable[s] ==> StdDevTable[s][m] > 0.0
  {
  }

  /** The table value before the percentage cap. */
  function TableStdDev(sport: string, metric: string): (sd: real)
    ensures sd > 0.0
    ensures sport in StdDevTable && metric in StdDevTable[sport] ==> sd == StdDevTable[sport][metric]
  {
    StdDevTablePositive();
    var sportStdDevs := if sport in StdDevTable then StdDevTable[sport] else StdDevTable["default"];
    MetricOrFallback(sportStdDevs, metric, StdDevTable["default"]["anyMetric"])
  }

  /** `getMetricStandardDeviation`: for a metric whose name contains "Percentage" and a given
      average, the table value is capped at 80% of the distance from the average to the
      nearer of 0 and 1. */
  function GetMetricStandardDeviation(sport: string, metric: string, average: Option<real>): (sd: real)
    ensures sd <= TableStdDev(sport, metric)
    ensures Js.Contains(metric, "Percentage") && average.Some? ==>
              sd <= 0.8 * Min(average.value, 1.0 - average.value)
    ensures !Js.Contains(metric, "Percentage") || average.None? ==> sd == TableStdDev(sport, metric)
    ensures average.Some? && 0.0 < average.value < 1.0 ==> sd > 0.0
  {
    var stdDev := TableStdDev(sport, metric);
    if average.Some? && Js.Contains(metric, "Percentage") then
      Min(stdDev, Min(average.value, 1.0 - average.value) * 0.8)
    else stdDev
  }

  // ---------------------------------------------------------------- confidence interval

  /** The caller's `Math.sqrt(n)`: a non-negative root for n >= 0 and NaN below 0. */
  predicate SqrtOf(root: Option<real>, n: real)
  {
    && (n >= 0.0 ==> root.Some? && root.value >= 0.0 && root.value * root.value == n)
    && (n > 0.0 ==> root.value > 0.0)
    && (n == 0.0 ==> root.value == 0.0)
    && (n < 0.0 ==> root.None?)
  }

  datatype Bounds = Bounds(lower: real, upper: real)

  /** `calculateConfidenceInterval`: expected +- z * sd / sqrt(n). A sample size of 0 or
      below makes the margin non-finite (`None`). */
  function RegressionInterval(expected: real, sd: real, n: real, root: Option<real>, level: real): (r: Option<Bounds>)
    requires SqrtOf(root, n)
    ensures r.Some? <==> n > 0.0
    ensures r.Some? ==> r.value.lower + r.value.upper == 2.0 * expected
    ensures r.Some? && sd >= 0.0 ==> r.value.lower <= expected <= r.value.upper
  {
    if root.None? || root.value == 0.0 then
      None
    else
      var margin := ZScore(level) * (sd / root.value);
      assert sd >= 0.0 ==> margin >= 0.0 by {
        if sd >= 0.0 {
          assert sd / root.value >= 0.0;
        }
      }
      Some(Bounds(expected - margin, expected + margin))
  }

  // ---------------------------------------------------------------- probability adjustment

  /** `a / b` on two finite numbers: finite and exact for a non-zero divisor, an
      infinity for a non-zero numerator over zero, NaN for 0/0. */
  function Divide(a: real, b: real): (q: Number)
    ensures b != 0.0 ==> q.Finite? && q.value * b == a
    ensures b == 0.0 ==> (q.NotANumber? <==> a == 0.0)
    ensures b == 0.0 && a != 0.0 ==> (q.PlusInfinity? <==> a > 0.0) && (q.MinusInfinity? <==> a < 0.0)
  {
    Div(Finite(a), Finite(b))
  }

  /** `originalProbability - Math.max(Math.min(deviations * 0.05, maxAdj), -maxAdj)` with
      `maxAdj = min(p, 1 - p) / 2`. NaN propagates; infinities hit the caps. */
  function AdjustProbability(p: real, deviations: Number): (r: Option<real>)
    ensures r.None? <==> deviations.NotANumber?
    ensures deviations.Finite? && 0.0 <= p <= 1.0 ==>
              Abs(r.value - p) <= Min(p, 1.0 - p) / 2.0 && 0.0 <= r.value <= 1.0
    ensures deviations.Finite? && deviations.value >= 0.0 && 0.0 <= p <= 1.0 ==> r.value <= p
    ensures deviations.Finite? && deviations.value <= 0.0 && 0.0 <= p <= 1.0 ==> r.value >= p
  {
    var maxAdjustment := Min(p, 1.0 - p) * 0.5;
    match deviations
    case NotANumber => None
    case PlusInfinity => Some(p - Max(maxAdjustment, -maxAdjustment))
    case MinusInfinity => Some(p - Max(-maxAdjustment, -maxAdjustment))
    case Finite(d) => Some(p - Max(Min(d * 0.05, maxAdjustment), -maxAdjustment))
  }

  datatype PerformanceStatus = Overperforming | Underperforming | Average

  function Status(current: real, baseline: real): (s: PerformanceStatus)
    ensures s == Overperforming <==> current > baseline
    ensures s == Underperforming <==> current < baseline
    ensures s == Average <==> current == baseline
  {
    if current > baseline then Overperforming
    else if current < baseline then Underperforming
    else Average
  }

  /** The request fields of `calculateRegressionAdjustment`; `leagueAverage` is `None` when
      left out. */
  datatype RegressionParams = RegressionParams(
    currentPerformance: real,
    baseline: real,
    sampleSize: real,
    sport: string,
    metric: string,
    leagueAverage: Option<real>,
    originalProbability: real)

  datatype RegressionResult = RegressionResult(
    currentPerformance: real,
    baseline: real,
    expectedPerformance: real,
    adjustedProbability: Option<real>,
    originalProbability: real,
    confidenceInterval: Option<Bounds>,
    regressionFactor: real,
    reliability: Option<real>,
    performanceStatus: PerformanceStatus,
    sampleSize: real,
    stabilizationPoint: real,
    standardDeviation: real,
    deviationsFromMean: Number,
    sport: string,
    metric: string)

  /** `calculateRegressionAdjustment`; `root` is `Math.sqrt(sampleSize)`. */
  function CalculateRegressionAdjustment(params: RegressionParams, root: Option<real>): (r: RegressionResult)
    requires SqrtOf(root, params.sampleSize)
    ensures r.regressionFactor == GetSportSpecificRegressionFactors(params.sport, params.metric).factor
    ensures r.stabilizationPoint > 0.0 && 0.0 <= r.regressionFactor <= 1.0
    ensures Min(r.currentPerformance, r.baseline) <= r.expectedPerformance <= Max(r.currentPerformance, r.baseline)
    ensures r.standardDeviation > 0.0 && 0.0 <= r.originalProbability <= 1.0 ==>
              && r.adjustedProbability.Some?
              && Abs(r.adjustedProbability.value - r.originalProbability) <= Min(r.originalProbability, 1.0 - r.originalProbability) / 2.0
              && 0.0 <= r.adjustedProbability.value <= 1.0
    ensures r.standardDeviation > 0.0 && 0.0 <= r.originalProbability <= 1.0 && r.performanceStatus == Overperforming ==>
              r.adjustedProbability.value <= r.originalProbability
    ensures r.standardDeviation > 0.0 && 0.0 <= r.originalProbability <= 1.0 && r.performanceStatus == Underperforming ==>
              r.adjustedProbability.value >= r.originalProbability
    ensures r.performanceStatus == Status(params.currentPerformance, params.baseline)
  {
    var rf := GetSportSpecificRegressionFactors(params.sport, params.metric);
    var current, baseline := params.currentPerformance, params.baseline;
    var reliability := Reliability(params.sampleSize, rf.stabilizationPoint);
    var expected := CalculateRegression(current, baseline, rf.factor);
    RegressionBetween(current, baseline, rf.factor);
    var sd := GetMetricStandardDeviation(params.sport, params.metric, params.leagueAverage);
    var deviations := Divide(current - expected, sd);
    DeviationSign(current, baseline, rf.factor, sd);
    RegressionResult(
      current, baseline, expected,
      AdjustProbability(params.originalProbability, deviations),
      params.originalProbability,
      RegressionInterval(expected, sd, params.sampleSize, root, 0.95),
      rf.factor, reliability, Status(current, baseline), params.sampleSize,
      rf.stabilizationPoint, sd, deviations, params.sport, params.metric)
  }

  /** Overperformance gives non-negative deviations, underperformance non-positive ones. */
  lemma DeviationSign(current: real, baseline: real, factor: real, sd: real)
    requires 0.0 <= factor <= 1.0
    ensures var q := Divide(current - CalculateRegression(current, baseline, factor), sd);
      && (sd > 0.0 && current > baseline ==> q.value >= 0.0)
      && (sd > 0.0 && current < baseline ==> q.value <= 0.0)
  {
    var x := current - CalculateRegression(current, baseline, factor);
    assert x == factor * (current - baseline);
    if sd > 0.0 {
      if current > baseline {
        PartOf(factor, current - baseline);
        assert x / sd >= 0.0;
      } else if current < baseline {
        PartOf(factor, baseline - current);
        assert x / sd <= 0.0;
      }
    }
  }

  // ---------------------------------------------------------------- cognitive biases

  datatype BiasType = RecencyBias | HotHandFallacy | GamblersFallacy | SmallSampleSize

  /** A detected bias; the explanation text is not modelled. */
  datatype Bias = Bias(kind: BiasType, severity: real)

  /** The order the checks run in. */
  function Rank(t: BiasType): nat
  {
    match t
    case RecencyBias => 0
    case HotHandFallacy => 1
    case GamblersFallacy => 2
    case SmallSampleSize => 3
  }

  /** `Math.abs(dev) > 1.5`. */
  predicate RecencyFires(q: Number)
  {
    Greater(MathAbs(q), Finite(1.5))
  }

  /** `Math.min(Math.abs(dev) / 2, 1)`, for a deviation that fired. */
  function RecencySeverity(q: Number): (s: real)
    requires RecencyFires(q)
    ensures 0.75 < s <= 1.0
  {
    match MathAbs(q)
    case Finite(x) => Min(x / 2.0, 1.0)
    case _ => 1.0
  }

  function RecencyCheck(r: RegressionResult): (bs: seq<Bias>)
    ensures |bs| <= 1
    ensures |bs| == 1 <==> RecencyFires(r.deviationsFromMean)
    ensures |bs| == 1 ==> bs[0] == Bias(RecencyBias, RecencySeverity(r.deviationsFromMean))
  {
    if RecencyFires(r.deviationsFromMean) then [Bias(RecencyBias, RecencySeverity(r.deviationsFromMean))] else []
  }

  function HotHandCheck(r: RegressionResult): (bs: seq<Bias>)
    requires r.stabilizationPoint > 0.0
    ensures |bs| <= 1 && forall b :: b in bs ==> b.kind == HotHandFallacy
    ensures |bs| == 1 <==> r.performanceStatus == Overperforming && r.sampleSize < r.stabilizationPoint * 0.3
  {
    if r.performanceStatus == Overperforming && r.sampleSize < r.stabilizationPoint * 0.3 then
      [Bias(HotHandFallacy, 1.0 - r.sampleSize / (r.stabilizationPoint * 0.5))]
    else []
  }

  /** Uses the table deviation without the percentage cap: no average is passed here. */
  function GamblersCheck(r: RegressionResult): (bs: seq<Bias>)
    ensures |bs| <= 1 && forall b :: b in bs ==> b == Bias(GamblersFallacy, 0.7)
    ensures |bs| == 1 <==>
              r.performanceStatus == Underperforming &&
              Abs(r.currentPerformance - r.baseline) > 0.8 * TableStdDev(r.sport, r.metric)
  {
    if r.performanceStatus == Underperforming &&
       Abs(r.currentPerformance - r.baseline) > 0.8 * GetMetricStandardDeviation(r.sport, r.metric, None)
    then [Bias(GamblersFallacy, 0.7)]
    else []
  }

  function SmallSampleCheck(r: RegressionResult): (bs: seq<Bias>)
    requires r.stabilizationPoint > 0.0
    ensures |bs| <= 1 && forall b :: b in bs ==> b.kind == SmallSampleSize
    ensures |bs| == 1 <==> r.sampleSize < r.stabilizationPoint * 0.2
  {
    if r.sampleSize < r.stabilizationPoint * 0.2 then
      [Bias(SmallSampleSize, 1.0 - r.sampleSize / (r.stabilizationPoint * 0.2))]
    else []
  }

  /** `identifyCognitiveBiases`: the four checks, reported in a fixed order. */
  function IdentifyCognitiveBiases(r: RegressionResult): (bs: seq<Bias>)
    requires r.stabilizationPoint > 0.0
    ensures |bs| <= 4
    ensures Ordered(bs)
  {
    var a, b, c, d := RecencyCheck(r), HotHandCheck(r), GamblersCheck(r), SmallSampleCheck(r);
    AppendOrdered(a, b, 1);
    AppendOrdered(a + b, c, 2);
    AppendOrdered(a + b + c, d, 3);
    a + b + c + d
  }

  /** Recency bias is reported exactly when the deviation exceeds 1.5 in size, and then
      first. */
  lemma RecencyReported(r: RegressionResult)
    requires r.stabilizationPoint > 0.0
    ensures (exists b :: b in IdentifyCognitiveBiases(r) && b.kind == RecencyBias) <==> RecencyFires(r.deviationsFromMean)
    ensures RecencyFires(r.deviationsFromMean) ==>
              IdentifyCognitiveBiases(r)[0] == Bias(RecencyBias, RecencySeverity(r.deviationsFromMean))
  {
    var a, b, c, d := RecencyCheck(r), HotHandCheck(r), GamblersCheck(r), SmallSampleCheck(r);
    assert IdentifyCognitiveBiases(r) == a + b + c + d;
    if |a| == 1 {
      assert IdentifyCognitiveBiases(r)[0] == a[0];
    }
  }

  /** The small-sample warning is reported exactly when n < 0.2 s, and then last. */
  lemma SmallSampleReported(r: RegressionResult)
    requires r.stabilizationPoint > 0.0
    ensures (exists b :: b in IdentifyCognitiveBiases(r) && b.kind == SmallSampleSize) <==>
              r.sampleSize < r.stabilizationPoint * 0.2
    ensures r.sampleSize < r.stabilizationPoint * 0.2 ==>
              IdentifyCognitiveBiases(r)[|IdentifyCognitiveBiases(r)| - 1].kind == SmallSampleSize
  {
    var a, b, c, d := RecencyCheck(r), HotHandCheck(r), GamblersCheck(r), SmallSampleCheck(r);
    var bs := a + b + c + d;
    assert IdentifyCognitiveBiases(r) == bs;
    if |d| == 1 {
      assert bs[|bs| - 1] == d[0];
    }
  }

  /** Biases strictly in check order. */
  predicate Ordered(bs: seq<Bias>)
  {
    forall i, j :: 0 <= i < j < |bs| ==> Rank(bs[i].kind) < Rank(bs[j].kind)
  }

  lemma AppendOrdered(xs: seq<Bias>, ys: seq<Bias>, k: nat)
    requires Ordered(xs) && Ordered(ys)
    requires forall x :: x in xs ==> Rank(x.kind) < k
    requires forall y :: y in ys ==> Rank(y.kind) >= k
    ensures Ordered(xs + ys)
  {
    var zs := xs + ys;
    forall i, j | 0 <= i < j < |zs|
      ensures Rank(zs[i].kind) < Rank(zs[j].kind)
    {
      if j < |xs| {
        assert zs[i] == xs[i] && zs[j] == xs[j];
      } else if i >= |xs| {
        assert zs[i] == ys[i - |xs|] && zs[j] == ys[j - |xs|];
      } else {
        assert zs[i] == xs[i] && zs[j] == ys[j - |xs|];
      }
    }
  }

  /** With a sample size of at least 0 every reported severity lies in (0, 1]. */
  lemma SeveritiesInRange(r: RegressionResult)
    requires r.sampleSize >= 0.0 && r.stabilizationPoint > 0.0
    ensures forall b :: b in IdentifyCognitiveBiases(r) ==> 0.0 < b.severity <= 1.0
  {
    var s, n := r.stabilizationPoint, r.sampleSize;
    if n < s * 0.3 {
      HotHandSeverity(n, s);
    }
    if n < s * 0.2 {
      SmallSampleSeverity(n, s);
    }
    assert IdentifyCognitiveBiases(r) == RecencyCheck(r) + HotHandCheck(r) + GamblersCheck(r) + SmallSampleCheck(r);
  }

  lemma HotHandSeverity(n: real, s: real)
    requires 0.0 <= n < s * 0.3
    ensures 0.0 < 1.0 - n / (s * 0.5) <= 1.0
  {
    var q := n / (s * 0.5);
    assert q * (s * 0.5) == n;
    assert q < 0.6;
  }

  lemma SmallSampleSeverity(n: real, s: real)
    requires 0.0 <= n < s * 0.2
    ensures 0.0 < 1.0 - n / (s * 0.2) <= 1.0
  {
    var q := n / (s * 0.2);
    assert q * (s * 0.2) == n;
    assert q < 1.0;
  }

  /** A small sample is always also a hot-hand candidate when overperforming. */
  lemma SmallSampleImpliesHotHand(r: RegressionResult)
    requires r.stabilizationPoint > 0.0 && r.performanceStatus == Overperforming
    requires r.sampleSize < r.stabilizationPoint * 0.2
    ensures exists i :: 0 <= i < |IdentifyCognitiveBiases(r)| && IdentifyCognitiveBiases(r)[i].kind == HotHandFallacy
  {
    var a, b := RecencyCheck(r), HotHandCheck(r);
    assert |b| == 1;
    assert IdentifyCognitiveBiases(r)[|a|] == b[0];
  }
}
