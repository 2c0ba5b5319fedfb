/** The display classifiers of the front end's regression-to-the-mean panel
    (smart-sports-betting/src/utils/regressionUtils.js): colour bands for reliability,
    performance differences, probability adjustments and bias severity, the text that
    describes an adjustment, metric-name formatting, and the axis step and domain of the
    regression chart. */
module RegressionUtils {
  import opened Wrappers
  import opened RealMath

  /** The CSS colour variables the classifiers return: `Success600` stands for
      `var(--color-success-600)`, and so on. */
  datatype Color =
    | Gray600
    | Success500 | Success600
    | Warning400 | Warning500
    | Error500 | Error600
    | Indigo400 | Indigo500 | Indigo600

  // ---------------------------------------------------------------- reliability

  /** The band of a sample-size ratio: at least 1, 0.5, 0.3, 0.1, or below. */
  function ReliabilityBand(ratio: real): (c: Color)
    ensures c == Success600 <==> ratio >= 1.0
    ensures c == Success500 <==> 0.5 <= ratio < 1.0
    ensures c == Warning400 <==> 0.3 <= ratio < 0.5
    ensures c == Warning500 <==> 0.1 <= ratio < 0.3
    ensures c == Error500 <==> ratio < 0.1
  {
    if ratio >= 1.0 then Success600
    else if ratio >= 0.5 then Success500
    else if ratio >= 0.3 then Warning400
    else if ratio >= 0.1 then Warning500
    else Error500
  }

  /** `getReliabilityColor`. A stabilisation point of 0 makes the ratio +Infinity for a
      positive sample (the top band) and NaN or -Infinity otherwise (every comparison
      fails, so the bottom band). */
  function ReliabilityColor(sampleSize: real, stabilizationPoint: real): (c: Color)
    ensures stabilizationPoint != 0.0 ==> c == ReliabilityBand(sampleSize / stabilizationPoint)
    ensures stabilizationPoint == 0.0 ==> (c == Success600 <==> sampleSize > 0.0)
    ensures stabilizationPoint == 0.0 && sampleSize <= 0.0 ==> c == Error500
  {
    if stabilizationPoint == 0.0 then (if sampleSize > 0.0 then Success600 else Error500)
    else ReliabilityBand(sampleSize / stabilizationPoint)
  }

  /** How reliable a reliability colour says the sample is, from 0 (error) to 4. */
  function ReliabilityRank(c: Color): nat
  {
    match c
    case Success600 => 4
    case Success500 => 3
    case Warning400 => 2
    case Warning500 => 1
    case _ => 0
  }

  /** Against a positive stabilisation point, a larger sample never gets a less reliable
      colour. */
  lemma MoreSamplesNeverLessReliable(smaller: real, larger: real, stabilizationPoint: real)
    requires smaller <= larger && stabilizationPoint > 0.0
    ensures ReliabilityRank(ReliabilityColor(smaller, stabilizationPoint))
            <= ReliabilityRank(ReliabilityColor(larger, stabilizationPoint))
  {
    DivideMonotone(smaller, larger, stabilizationPoint);
  }

  // ---------------------------------------------------------------- performance difference

  predicate Favourable(difference: real, higherIsBetter: bool)
  {
    (difference > 0.0 && higherIsBetter) || (difference < 0.0 && !higherIsBetter)
  }

  /** `getPerformanceColor`: grey when the difference is under 0.01 in size, whatever the
      direction; otherwise success or error by whether the difference goes the better way,
      the darker shade when it exceeds 0.1. */
  function PerformanceColor(current: real, baseline: real, higherIsBetter: bool): (c: Color)
    ensures c == Gray600 <==> Abs(current - baseline) < 0.01
    ensures c == Success500 || c == Success600 <==>
              Abs(current - baseline) >= 0.01 && Favourable(current - baseline, higherIsBetter)
    ensures c == Error500 || c == Error600 <==>
              Abs(current - baseline) >= 0.01 && !Favourable(current - baseline, higherIsBetter)
    ensures c == Success600 || c == Error600 <==> Abs(current - baseline) > 0.1
  {
    var difference := current - baseline;
    if Abs(difference) < 0.01 then Gray600
    else if Favourable(difference, higherIsBetter) then
      (if Abs(difference) > 0.1 then Success600 else Success500)
    else if Abs(difference) > 0.1 then Error600 else Error500
  }

  /** Swapping current and baseline while flipping which direction is better leaves the
      colour unchanged. */
  lemma PerformanceColorMirror(current: real, baseline: real, higherIsBetter: bool)
    ensures PerformanceColor(current, baseline, higherIsBetter)
            == PerformanceColor(baseline, current, !higherIsBetter)
  {
    assert Abs(current - baseline) == Abs(baseline - current);
  }

  // ---------------------------------------------------------------- probability adjustment

  /** `getAdjustmentColor`: bands of the adjustment's size at 0.01, 0.03 and 0.05. */
  function AdjustmentColor(original: real, adjusted: real): (c: Color)
    ensures c == Gray600 <==> Abs(adjusted - original) < 0.01
    ensures c == Indigo400 <==> 0.01 <= Abs(adjusted - original) < 0.03
    ensures c == Indigo500 <==> 0.03 <= Abs(adjusted - original) < 0.05
    ensures c == Indigo600 <==> Abs(adjusted - original) >= 0.05
  {
    var difference := Abs(adjusted - original);
    if difference < 0.01 then Gray600
    else if difference < 0.03 then Indigo400
    else if difference < 0.05 then Indigo500
    else Indigo600
  }

  /** The adjustment colour ignores the direction of the adjustment. */
  lemma AdjustmentColorSymmetric(original: real, adjusted: real)
    ensures AdjustmentColor(original, adjusted) == AdjustmentColor(adjusted, original)
  {
    assert Abs(adjusted - original) == Abs(original - adjusted);
  }

  // ---------------------------------------------------------------- bias severity

  /** `getBiasSeverityColor`: bands at 0.8, 0.5 and 0.3. */
  function BiasSeverityColor(severity: real): (c: Color)
    ensures c == Error600 <==> severity >= 0.8
    ensures c == Warning500 <==> 0.5 <= severity < 0.8
    ensures c == Warning400 <==> 0.3 <= severity < 0.5
    ensures c == Indigo400 <==> severity < 0.3
  {
    if severity >= 0.8 then Error600
    else if severity >= 0.5 then Warning500
    else if severity >= 0.3 then Warning400
    else Indigo400
  }

  function SeverityRank(c: Color): nat
  {
    match c
    case Error600 => 3
    case Warning500 => 2
    case Warning400 => 1
    case _ => 0
  }

  /** A more severe bias never gets a milder colour. */
  lemma SeverityColorMonotone(lower: real, higher: real)
    requires lower <= higher
    ensures SeverityRank(BiasSeverityColor(lower)) <= SeverityRank(BiasSeverityColor(higher))
  {
  }

  // ---------------------------------------------------------------- text

  predicate IsUpper(c: char)
  {
    'A' <= c <= 'Z'
  }

  /** `toUpperCase` of one character, on ASCII letters. */
  function UpperChar(c: char): (r: char)
    ensures 'a' <= c <= 'z' ==> IsUpper(r) && r as int == c as int - 32
    ensures !('a' <= c <= 'z') ==> r == c
  {
    if 'a' <= c <= 'z' then (c as int - 32) as char else c
  }

  /** The first character upper-cased, the rest unchanged: both
      `replace(/^./, str => str.toUpperCase())` and `charAt(0).toUpperCase() + slice(1)`
      (a leading line terminator, which `/^./` skips, has no upper case anyway). */
  function UpperFirst(s: string): (r: string)
    ensures |r| == |s|
    ensures |s| > 0 ==> r[0] == UpperChar(s[0]) && r[1..] == s[1..]
    ensures |s| == 0 ==> r == s
  {
    if |s| == 0 then s else [UpperChar(s[0])] + s[1..]
  }

  datatype Magnitude = Slight | Moderate | Significant

  function Word(m: Magnitude): string
  {
    match m
    case Slight => "slight"
    case Moderate => "moderate"
    case Significant => "significant"
  }

  /** The size of an adjustment: slight up to 0.03, moderate up to 0.08, significant above. */
  function MagnitudeOf(absDifference: real): (m: Magnitude)
    ensures m == Slight <==> absDifference <= 0.03
    ensures m == Moderate <==> 0.03 < absDifference <= 0.08
    ensures m == Significant <==> absDifference > 0.08
  {
    if absDifference > 0.08 then Significant
    else if absDifference > 0.03 then Moderate
    else Slight
  }

  /** The four descriptions `getRegressionDescription` can give. */
  datatype Description =
    | NoAdjustmentNeeded
    | Downward(magnitude: Magnitude)
    | Upward(magnitude: Magnitude)
    | NearExpected

  /** The description's text; the magnitude word is capitalised. */
  function Text(d: Description): string
  {
    match d
    case NoAdjustmentNeeded => "No significant regression adjustment needed."
    case Downward(m) =>
      "Team is likely overperforming their true skill level. " + UpperFirst(Word(m)) + " downward adjustment recommended."
    case Upward(m) =>
      "Team is likely underperforming their true skill level. " + UpperFirst(Word(m)) + " upward adjustment recommended."
    case NearExpected => "Team is performing near their expected level. Minor adjustment recommended."
  }

  /** `getRegressionDescription`: no adjustment when the probabilities are within 0.01;
      otherwise a downward adjustment for an over-performing team, an upward one for an
      under-performing team, each with the size of the change, and the generic text for any
      other status. */
  function RegressionDescription(performanceStatus: string, originalProb: real, adjustedProb: real)
    : (r: Description)
    ensures r == NoAdjustmentNeeded <==> Abs(adjustedProb - originalProb) < 0.01
    ensures r.Downward? <==> Abs(adjustedProb - originalProb) >= 0.01 && performanceStatus == "overperforming"
    ensures r.Upward? <==> Abs(adjustedProb - originalProb) >= 0.01 && performanceStatus == "underperforming"
    ensures r.Downward? || r.Upward? ==> r.magnitude == MagnitudeOf(Abs(adjustedProb - originalProb))
  {
    var absDifference := Abs(adjustedProb - originalProb);
    if absDifference < 0.01 then NoAdjustmentNeeded
    else if performanceStatus == "overperforming" then Downward(MagnitudeOf(absDifference))
    else if performanceStatus == "underperforming" then Upward(MagnitudeOf(absDifference))
    else NearExpected
  }

  /** The description depends on the size of the adjustment and not its direction. */
  lemma DescriptionIgnoresDirection(performanceStatus: string, originalProb: real, adjustedProb: real)
    ensures RegressionDescription(performanceStatus, originalProb, adjustedProb)
            == RegressionDescription(performanceStatus, adjustedProb, originalProb)
  {
    assert Abs(adjustedProb - originalProb) == Abs(originalProb - adjustedProb);
  }

  /** An over-performing team whose probability is cut by 0.1 is told "Significant downward
      adjustment recommended." */
  lemma LargeCutIsSignificant(originalProb: real)
    ensures RegressionDescription("overperforming", originalProb, originalProb - 0.1) == Downward(Significant)
    ensures UpperFirst(Word(Significant)) == "Significant"
  {
    assert Abs(originalProb - 0.1 - originalProb) == 0.1;
    assert UpperChar('s') == 'S';
    assert UpperFirst("significant") == ['S'] + "significant"[1..];
  }

  /** `replace(/([A-Z])/g, ' $1')`: a space before every upper-case ASCII letter. Every
      capital in the result follows a space. */
  function SpaceBeforeCapitals(s: string): (r: string)
    ensures |r| >= |s|
    ensures forall i :: 0 <= i < |r| && IsUpper(r[i]) ==> i > 0 && r[i - 1] == ' '
    ensures |s| > 0 && !IsUpper(s[0]) ==> r[0] == s[0]
    ensures |s| > 0 && IsUpper(s[0]) ==> |r| > |s| && r[0] == ' ' && r[1] == s[0]
  {
    if |s| == 0 then ""
    else
      var rest := SpaceBeforeCapitals(s[1..]);
      if IsUpper(s[0]) then
        var r := [' ', s[0]] + rest;
        assert forall i :: 2 <= i < |r| ==> r[i] == rest[i - 2];
        r
      else
        var r := [s[0]] + rest;
        assert forall i :: 1 <= i < |r| ==> r[i] == rest[i - 1];
        r
  }

  /** The string with its spaces removed. */
  function WithoutSpaces(s: string): string
  {
    if |s| == 0 then "" else (if s[0] == ' ' then "" else [s[0]]) + WithoutSpaces(s[1..])
  }

  /** Removing spaces undoes the inserted ones: only spaces are added. */
  lemma {:induction false} SpacesAreTheOnlyInsertion(s: string)
    ensures WithoutSpaces(SpaceBeforeCapitals(s)) == WithoutSpaces(s)
    decreases |s|, 1
  {
    if |s| > 0 {
      SpacesAreTheOnlyInsertionStep(s);
    }
  }

  lemma {:induction false} SpacesAreTheOnlyInsertionStep(s: string)
    requires |s| > 0
    ensures WithoutSpaces(SpaceBeforeCapitals(s)) == WithoutSpaces(s)
    decreases |s|, 0
  {
    SpacesAreTheOnlyInsertion(s[1..]);
    var rest := SpaceBeforeCapitals(s[1..]);
    if IsUpper(s[0]) {
      WithoutSpacesSpaced(s[0], rest);
    } else {
      WithoutSpacesCons(s[0], rest);
    }
  }

  lemma WithoutSpacesSpaced(c: char, t: string)
    requires c != ' '
    ensures WithoutSpaces([' ', c] + t) == [c] + WithoutSpaces(t)
  {
    assert ([' ', c] + t)[1..] == [c] + t;
    WithoutSpacesCons(c, t);
  }

  lemma WithoutSpacesCons(c: char, t: string)
    ensures WithoutSpaces([c] + t) == (if c == ' ' then "" else [c]) + WithoutSpaces(t)
  {
    assert ([c] + t)[1..] == t;
  }

  /** `formatMetricName`: a space before each capital, then the first character
      upper-cased. A name that already starts with a capital gains a leading space. */
  function FormatMetricName(metric: string): (r: string)
    ensures |metric| == 0 ==> r == ""
    ensures |r| >= |metric|
    ensures |metric| > 0 && !IsUpper(metric[0]) ==> r[0] == UpperChar(metric[0])
    ensures |metric| > 0 && IsUpper(metric[0]) ==> |r| > 1 && r[0] == ' ' && r[1] == metric[0]
  {
    UpperFirst(SpaceBeforeCapitals(metric))
  }

  /** Apart from the inserted spaces and the capitalised first letter, a name that starts
      with a character other than a space or a capital keeps its characters in order. */
  lemma {:induction false} MetricNameKeepsCharacters(metric: string)
    requires |metric| > 0 && metric[0] != ' ' && !IsUpper(metric[0])
    ensures WithoutSpaces(FormatMetricName(metric)) == UpperFirst(WithoutSpaces(metric))
  {
    var spaced := SpaceBeforeCapitals(metric);
    var rest := SpaceBeforeCapitals(metric[1..]);
    assert spaced == [metric[0]] + rest;
    SpacesAreTheOnlyInsertion(metric[1..]);
    var r := FormatMetricName(metric);
    assert r == [UpperChar(metric[0])] + rest;
    assert r[1..] == rest;
    assert ([metric[0]] + rest)[1..] == rest;
  }

  /** Text without capitals is left alone. */
  lemma {:induction false} NoCapitalsUnchanged(s: string)
    requires forall i :: 0 <= i < |s| ==> !IsUpper(s[i])
    ensures SpaceBeforeCapitals(s) == s
  {
    if |s| > 0 {
      NoCapitalsUnchanged(s[1..]);
      assert [s[0]] + s[1..] == s;
    }
  }

  /** The insertion works character by character, so it distributes over concatenation. */
  lemma {:induction false} SpaceBeforeCapitalsAppend(a: string, b: string)
    ensures SpaceBeforeCapitals(a + b) == SpaceBeforeCapitals(a) + SpaceBeforeCapitals(b)
  {
    if |a| > 0 {
      var c := a[0];
      var lead := if IsUpper(c) then [' ', c] else [c];
      var ab := a + b;
      assert ab[0] == c && ab[1..] == a[1..] + b;
      assert SpaceBeforeCapitals(ab) == lead + SpaceBeforeCapitals(a[1..] + b);
      assert SpaceBeforeCapitals(a) == lead + SpaceBeforeCapitals(a[1..]);
      SpaceBeforeCapitalsAppend(a[1..], b);
    } else {
      assert a + b == b;
    }
  }

  /** A capital followed by a run without capitals gains exactly one space, so each word of
      a camel-case name ("Point", "Percentage") is set off by a single space. */
  lemma CapitalisedWord(capital: char, rest: string)
    requires IsUpper(capital)
    requires forall i :: 0 <= i < |rest| ==> !IsUpper(rest[i])
    ensures SpaceBeforeCapitals([capital] + rest) == [' ', capital] + rest
  {
    assert ([capital] + rest)[1..] == rest;
    NoCapitalsUnchanged(rest);
  }

  // ---------------------------------------------------------------- chart

  /** `calculateAxisStep`: the step for the axis range `max - min`; up to a range of 100 it
      gives at most ten steps, above that the step is 20. */
  function AxisStep(min: real, max: real): (step: real)
    ensures step > 0.0
    ensures max - min <= 100.0 ==> max - min <= 10.0 * step
    ensures max - min > 100.0 <==> step == 20.0
    ensures max - min <= 0.1 <==> step == 0.01
  {
    var range := max - min;
    if range <= 0.1 then 0.01
    else if range <= 0.5 then 0.05
    else if range <= 1.0 then 0.1
    else if range <= 5.0 then 0.5
    else if range <= 10.0 then 1.0
    else if range <= 50.0 then 5.0
    else if range <= 100.0 then 10.0
    else 20.0
  }

  /** A wider range never gets a finer step. */
  lemma AxisStepMonotone(min1: real, max1: real, min2: real, max2: real)
    requires max1 - min1 <= max2 - min2
    ensures AxisStep(min1, max1) <= AxisStep(min2, max2)
  {
  }

  function Least(xs: seq<real>): (m: real)
    requires |xs| > 0
    ensures m in xs
    ensures forall i :: 0 <= i < |xs| ==> m <= xs[i]
  {
    if |xs| == 1 then xs[0] else Min(xs[0], Least(xs[1..]))
  }

  function Greatest(xs: seq<real>): (m: real)
    requires |xs| > 0
    ensures m in xs
    ensures forall i :: 0 <= i < |xs| ==> xs[i] <= m
  {
    if |xs| == 1 then xs[0] else Max(xs[0], Greatest(xs[1..]))
  }

  /** `getChartDomain` on the data's values (None for missing data): [0, 1] for no data,
      otherwise the values' span padded by a tenth on each side, the lower end raised to 0
      and, for percentages, the upper end capped at 1. */
  function ChartDomain(values: Option<seq<real>>, isPercentage: bool): (r: (real, real))
    ensures values.None? || |values.value| == 0 ==> r == (0.0, 1.0)
    ensures r.0 >= 0.0
    ensures isPercentage ==> r.1 <= 1.0
    ensures values.Some? ==> forall i :: 0 <= i < |values.value| && values.value[i] >= 0.0 ==>
              r.0 <= values.value[i]
              && (!isPercentage || values.value[i] <= 1.0 ==> values.value[i] <= r.1)
  {
    if values.None? || |values.value| == 0 then (0.0, 1.0)
    else
      var xs := values.value;
      var lo := Least(xs);
      var hi := Greatest(xs);
      var padding := (hi - lo) * 0.1;
      var lower := Max(0.0, lo - padding);
      var upper := hi + padding;
      if isPercentage then (Max(0.0, lower), Min(1.0, upper)) else (lower, upper)
  }

  /** Data entirely below zero gets an inverted domain: the lower end is raised to 0 while
      the upper end stays negative. */
  lemma NegativeDataInvertsDomain()
    ensures ChartDomain(Some([-1.0]), false) == (0.0, -1.0)
  {
  }
}
