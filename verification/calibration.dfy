/** The calibration helpers of backend/src/controllers/calibrationController.js: the Brier
    score, the binned calibration curve, the over/under-confidence totals and the
    rule-based recommendations. An outcome is taken by its truthiness. */
module Calibration {
  import opened RealMath

  datatype Prediction = Prediction(predictedProbability: real, actualOutcome: bool)

  /** `actualOutcome ? 1 : 0`. */
  function Win(p: Prediction): (r: real)
    ensures r == 0.0 || r == 1.0
  {
    if p.actualOutcome then 1.0 else 0.0
  }

  function Prob(p: Prediction): real
  {
    p.predictedProbability
  }

  /** The sum of `f` over the predictions, folded from the left. */
  function Total(ps: seq<Prediction>, f: Prediction -> real): real
  {
    if |ps| == 0 then 0.0 else Total(ps[..|ps| - 1], f) + f(ps[|ps| - 1])
  }

  predicate AllProbabilities(ps: seq<Prediction>)
  {
    forall i :: 0 <= i < |ps| ==> 0.0 <= ps[i].predictedProbability <= 1.0
  }

  // ---------------------------------------------------------------- Brier score

  /** One prediction's squared error. */
  function SquaredError(p: Prediction): real
  {
    (p.predictedProbability - Win(p)) * (p.predictedProbability - Win(p))
  }

  lemma SquaredErrorBound(p: Prediction)
    requires 0.0 <= p.predictedProbability <= 1.0
    ensures 0.0 <= SquaredError(p) <= 1.0
  {
    var x := p.predictedProbability - Win(p);
    assert -1.0 <= x <= 1.0;
    if x >= 0.0 {
      PartOf(x, x);
    } else {
      PartOf(-x, -x);
      assert (-x) * (-x) == x * x;
    }
  }

  lemma {:induction false} TotalSquaredErrorBound(ps: seq<Prediction>)
    requires AllProbabilities(ps)
    ensures 0.0 <= Total(ps, SquaredError) <= |ps| as real
  {
    if |ps| > 0 {
      var n := |ps| - 1;
      assert AllProbabilities(ps[..n]);
      TotalSquaredErrorBound(ps[..n]);
      SquaredErrorBound(ps[n]);
    }
  }

  /** `calculateBrierScore`: the mean squared error; 0 for no predictions. */
  function BrierScore(ps: seq<Prediction>): (r: real)
    ensures |ps| == 0 ==> r == 0.0
    ensures AllProbabilities(ps) ==> 0.0 <= r <= 1.0
  {
    if |ps| == 0 then 0.0
    else if AllProbabilities(ps) then
      TotalSquaredErrorBound(ps);
      QuotientInUnit(Total(ps, SquaredError), |ps| as real);
      Total(ps, SquaredError) / |ps| as real
    else
      Total(ps, SquaredError) / |ps| as real
  }

  lemma {:induction false} PerfectTotal(ps: seq<Prediction>)
    requires forall i :: 0 <= i < |ps| ==> ps[i].predictedProbability == Win(ps[i])
    ensures Total(ps, SquaredError) == 0.0
  {
    if |ps| > 0 {
      PerfectTotal(ps[..|ps| - 1]);
    }
  }

  /** Predicting every outcome with certainty scores 0. */
  lemma PerfectPredictions(ps: seq<Prediction>)
    requires forall i :: 0 <= i < |ps| ==> ps[i].predictedProbability == Win(ps[i])
    ensures BrierScore(ps) == 0.0
  {
    PerfectTotal(ps);
  }

  // ---------------------------------------------------------------- calibration curve

  /** `Math.min(Math.floor(p * numBins), numBins - 1)`; a probability of exactly 1 falls in
      the last bin. Negative probabilities are excluded by the curve's precondition. */
  function BinIndex(p: real, numBins: nat): (k: nat)
    requires numBins >= 1
    ensures k < numBins
  {
    var f := (p * numBins as real).Floor;
    if f < 0 then 0 else if f > numBins - 1 then numBins - 1 else f
  }

  /** Below the last bin, bin k holds the scaled probabilities in [k, k+1); the last bin
      holds everything from numBins - 1 up. */
  lemma BinIndexRange(p: real, numBins: nat)
    requires numBins >= 1 && p >= 0.0
    ensures var k := BinIndex(p, numBins);
            && (k < numBins - 1 ==> k as real <= p * numBins as real < k as real + 1.0)
            && (k == numBins - 1 ==> p * numBins as real >= k as real)
  {
  }

  /** Certainty lands in the last bin rather than a bin of its own. */
  lemma CertaintyInLastBin(numBins: nat)
    requires numBins >= 1
    ensures BinIndex(1.0, numBins) == numBins - 1
  {
  }

  /** The predictions that land in bin k, in order. */
  function InBin(ps: seq<Prediction>, numBins: nat, k: nat): (r: seq<Prediction>)
    requires numBins >= 1
    ensures |r| <= |ps|
    ensures forall i :: 0 <= i < |r| ==> BinIndex(r[i].predictedProbability, numBins) == k
    ensures forall i :: 0 <= i < |r| ==> r[i] in ps
  {
    if |ps| == 0 then []
    else
      var last := ps[|ps| - 1];
      InBin(ps[..|ps| - 1], numBins, k) + (if BinIndex(last.predictedProbability, numBins) == k then [last] else [])
  }

  /** One entry of the curve. */
  datatype CurvePoint = CurvePoint(bin: real, predicted: real, actual: real, count: nat)

  /** The mean of `f` over a bin, or 0 for an empty bin. */
  function Mean(xs: seq<Prediction>, f: Prediction -> real): real
  {
    if |xs| > 0 then Total(xs, f) / |xs| as real else 0.0
  }

  function Point(ps: seq<Prediction>, numBins: nat, k: nat): (pt: CurvePoint)
    requires numBins >= 1
    ensures pt.count == |InBin(ps, numBins, k)|
  {
    var xs := InBin(ps, numBins, k);
    CurvePoint(k as real / numBins as real, Mean(xs, Prob), Mean(xs, Win), |xs|)
  }

  /** `calculateCalibrationCurve`: `numBins` bins of equal width. The source indexes an
      array with the bin number, so a negative probability (bin -1) has nowhere to go. */
  function CalibrationCurve(ps: seq<Prediction>, numBins: nat): (curve: seq<CurvePoint>)
    requires numBins >= 1
    requires forall i :: 0 <= i < |ps| ==> ps[i].predictedProbability >= 0.0
    ensures |curve| == numBins
    ensures forall k :: 0 <= k < numBins ==> curve[k].bin == k as real / numBins as real
    ensures forall k :: 0 <= k < numBins && curve[k].count == 0 ==> curve[k].predicted == 0.0 && curve[k].actual == 0.0
  {
    seq(numBins, k requires 0 <= k < numBins => Point(ps, numBins, k))
  }

  /** g(0) + ... + g(m-1). */
  function SumBelow(g: nat -> real, m: nat): real
  {
    if m == 0 then 0.0 else SumBelow(g, m - 1) + g(m - 1)
  }

  /** The sum of `f` over bins 0 .. m-1. */
  function BinTotals(ps: seq<Prediction>, numBins: nat, m: nat, f: Prediction -> real): real
    requires numBins >= 1
  {
    SumBelow((k: nat) => Total(InBin(ps, numBins, k), f), m)
  }

  lemma InBinAppend(ps: seq<Prediction>, p: Prediction, numBins: nat, k: nat)
    requires numBins >= 1
    ensures InBin(ps + [p], numBins, k)
            == InBin(ps, numBins, k) + (if BinIndex(p.predictedProbability, numBins) == k then [p] else [])
  {
    var qs := ps + [p];
    assert qs[..|qs| - 1] == ps;
  }

  lemma TotalAppend(xs: seq<Prediction>, p: Prediction, f: Prediction -> real)
    ensures Total(xs + [p], f) == Total(xs, f) + f(p)
  {
    assert (xs + [p])[..|xs|] == xs;
  }

  /** Appending a prediction adds its `f` to the total of its own bin only. */
  lemma BinTotalAppend(ps: seq<Prediction>, p: Prediction, numBins: nat, k: nat, f: Prediction -> real)
    requires numBins >= 1
    ensures Total(InBin(ps + [p], numBins, k), f)
            == Total(InBin(ps, numBins, k), f) + (if BinIndex(p.predictedProbability, numBins) == k then f(p) else 0.0)
  {
    InBinAppend(ps, p, numBins, k);
    if BinIndex(p.predictedProbability, numBins) == k {
      TotalAppend(InBin(ps, numBins, k), p, f);
    } else {
      assert InBin(ps + [p], numBins, k) == InBin(ps, numBins, k);
    }
  }

  /** If only term b of the first m gains `fp`, the sum gains `fp` exactly when b is among
      them. */
  lemma {:induction false} SumBelowShift(g: nat -> real, h: nat -> real, m: nat, b: nat, fp: real)
    requires forall k: nat :: k < m ==> h(k) == g(k) + (if b == k then fp else 0.0)
    ensures SumBelow(h, m) == SumBelow(g, m) + (if b < m then fp else 0.0)
  {
    if m > 0 {
      SumBelowShift(g, h, m - 1, b, fp);
    }
  }

  lemma BinTotalsStep(ps: seq<Prediction>, p: Prediction, numBins: nat, m: nat, f: Prediction -> real)
    requires numBins >= 1
    ensures BinTotals(ps + [p], numBins, m, f)
            == BinTotals(ps, numBins, m, f) + (if BinIndex(p.predictedProbability, numBins) < m then f(p) else 0.0)
  {
    forall k: nat | k < m
      ensures Total(InBin(ps + [p], numBins, k), f)
              == Total(InBin(ps, numBins, k), f) + (if BinIndex(p.predictedProbability, numBins) == k then f(p) else 0.0)
    {
      BinTotalAppend(ps, p, numBins, k, f);
    }
    SumBelowShift((k: nat) => Total(InBin(ps, numBins, k), f), (k: nat) => Total(InBin(ps + [p], numBins, k), f), m,
                  BinIndex(p.predictedProbability, numBins), f(p));
  }

  lemma {:induction false} NoPredictionsInBins(ps: seq<Prediction>, numBins: nat, m: nat, f: Prediction -> real)
    requires numBins >= 1 && |ps| == 0
    ensures BinTotals(ps, numBins, m, f) == 0.0
  {
    if m > 0 {
      NoPredictionsInBins(ps, numBins, m - 1, f);
    }
  }

  /** The bins partition the predictions: summing any quantity bin by bin gives its total. */
  lemma {:induction false} BinsPartition(ps: seq<Prediction>, numBins: nat, f: Prediction -> real)
    requires numBins >= 1
    ensures BinTotals(ps, numBins, numBins, f) == Total(ps, f)
  {
    if |ps| > 0 {
      var n := |ps| - 1;
      var init, last := ps[..n], ps[n];
      BinsPartition(init, numBins, f);
      BinTotalsStep(init, last, numBins, numBins, f);
      assert init + [last] == ps;
      assert BinIndex(last.predictedProbability, numBins) < numBins;
      assert BinTotals(ps, numBins, numBins, f) == BinTotals(init, numBins, numBins, f) + f(last);
      assert Total(ps, f) == Total(init, f) + f(last);
    } else {
      NoPredictionsInBins(ps, numBins, numBins, f);
    }
  }

  function One(p: Prediction): real
  {
    1.0
  }

  lemma {:induction false} TotalOne(ps: seq<Prediction>)
    ensures Total(ps, One) == |ps| as real
  {
    if |ps| > 0 {
      TotalOne(ps[..|ps| - 1]);
    }
  }

  function CountTotal(curve: seq<CurvePoint>): nat
  {
    if |curve| == 0 then 0 else CountTotal(curve[..|curve| - 1]) + curve[|curve| - 1].count
  }

  lemma {:induction false} CountPrefix(ps: seq<Prediction>, numBins: nat, m: nat)
    requires numBins >= 1 && m <= numBins
    requires forall i :: 0 <= i < |ps| ==> ps[i].predictedProbability >= 0.0
    ensures CountTotal(CalibrationCurve(ps, numBins)[..m]) as real == BinTotals(ps, numBins, m, One)
  {
    if m > 0 {
      var curve := CalibrationCurve(ps, numBins);
      assert curve[..m][..m - 1] == curve[..m - 1];
      CountPrefix(ps, numBins, m - 1);
      TotalOne(InBin(ps, numBins, m - 1));
    }
  }

  /** Every prediction is counted in exactly one bin. */
  lemma CountsSumToPredictions(ps: seq<Prediction>, numBins: nat)
    requires numBins >= 1
    requires forall i :: 0 <= i < |ps| ==> ps[i].predictedProbability >= 0.0
    ensures CountTotal(CalibrationCurve(ps, numBins)) == |ps|
  {
    var curve := CalibrationCurve(ps, numBins);
    assert curve[..numBins] == curve;
    CountPrefix(ps, numBins, numBins);
    BinsPartition(ps, numBins, One);
    TotalOne(ps);
  }

  lemma {:induction false} TotalBounds(xs: seq<Prediction>, f: Prediction -> real, lo: real, hi: real)
    requires forall i :: 0 <= i < |xs| ==> lo <= f(xs[i]) <= hi
    ensures |xs| as real * lo <= Total(xs, f) <= |xs| as real * hi
  {
    if |xs| > 0 {
      var n := |xs| - 1;
      TotalBounds(xs[..n], f, lo, hi);
      assert |xs| as real * lo == n as real * lo + lo;
      assert |xs| as real * hi == n as real * hi + hi;
    }
  }

  lemma MeanBounds(xs: seq<Prediction>, f: Prediction -> real, lo: real, hi: real)
    requires |xs| > 0
    requires forall i :: 0 <= i < |xs| ==> lo <= f(xs[i]) <= hi
    ensures lo <= Mean(xs, f) <= hi
  {
    TotalBounds(xs, f, lo, hi);
    var n := |xs| as real;
    var t := Total(xs, f);
    assert t / n * n == t;
    if t / n < lo {
      ScaleMonotone(n, t / n, lo);
      assert n * (t / n) < n * lo;
    }
    if t / n > hi {
      ScaleMonotone(n, hi, t / n);
      assert n * hi < n * (t / n);
    }
  }

  /** A non-empty bin's mean prediction lies inside the bin's range, the last bin
      reaching up to 1; its win rate is in [0, 1]. */
  lemma MeanInsideBin(ps: seq<Prediction>, numBins: nat, k: nat)
    requires numBins >= 1 && k < numBins && AllProbabilities(ps)
    ensures var pt := CalibrationCurve(ps, numBins)[k];
      pt.count > 0 ==>
        && k as real / numBins as real <= pt.predicted
        && (k < numBins - 1 ==> pt.predicted <= (k as real + 1.0) / numBins as real)
        && pt.predicted <= 1.0
        && 0.0 <= pt.actual <= 1.0
  {
    var xs := InBin(ps, numBins, k);
    var n := numBins as real;
    var lo := k as real / n;
    var hi := if k < numBins - 1 then (k as real + 1.0) / n else 1.0;
    if |xs| > 0 {
      forall i | 0 <= i < |xs|
        ensures lo <= Prob(xs[i]) <= hi
      {
        var p := xs[i].predictedProbability;
        assert xs[i] in ps;
        assert 0.0 <= p <= 1.0;
        InsideBin(p, numBins, k);
      }
      MeanBounds(xs, Prob, lo, hi);
      MeanBounds(xs, Win, 0.0, 1.0);
      assert hi <= 1.0 by {
        if k < numBins - 1 {
          QuotientInUnit(k as real + 1.0, n);
        }
      }
    }
  }

  /** A probability in bin k lies in that bin's range. */
  lemma InsideBin(p: real, numBins: nat, k: nat)
    requires numBins >= 1 && 0.0 <= p <= 1.0 && BinIndex(p, numBins) == k
    ensures k as real / numBins as real <= p
    ensures k < numBins - 1 ==> p <= (k as real + 1.0) / numBins as real
  {
    var n := numBins as real;
    assert (p * n) / n == p;
    DivideMonotone(k as real, p * n, n);
    if k < numBins - 1 {
      DivideStrict(p * n, k as real + 1.0, n);
    }
  }

  lemma {:induction false} AllInOneBin(ps: seq<Prediction>, numBins: nat, b: nat, k: nat)
    requires numBins >= 1
    requires forall i :: 0 <= i < |ps| ==> BinIndex(ps[i].predictedProbability, numBins) == b
    ensures InBin(ps, numBins, k) == if k == b then ps else []
  {
    if |ps| > 0 {
      var n := |ps| - 1;
      AllInOneBin(ps[..n], numBins, b, k);
      assert ps[..n] + [ps[n]] == ps;
    }
  }

  /** Eight wins and two losses, all forecast at 0.9. */
  function EightWinsTwoLosses(): seq<Prediction>
  {
    seq(8, i => Prediction(0.9, true)) + seq(2, i => Prediction(0.9, false))
  }

  lemma EightWinsTwoLossesTotals()
    ensures |EightWinsTwoLosses()| == 10
    ensures forall i :: 0 <= i < 10 ==> EightWinsTwoLosses()[i].predictedProbability == 0.9
    ensures Total(EightWinsTwoLosses(), Prob) == 9.0 && Total(EightWinsTwoLosses(), Win) == 8.0
  {
    var ps := EightWinsTwoLosses();
    var a := seq(8, i => Prediction(0.9, true));
    var q := Prediction(0.9, false);
    assert ps == a + [q] + [q];
    RepeatedTotal(8, Prediction(0.9, true), Prob);
    RepeatedTotal(8, Prediction(0.9, true), Win);
    TotalAppend(a, q, Prob);
    TotalAppend(a + [q], q, Prob);
    TotalAppend(a, q, Win);
    TotalAppend(a + [q], q, Win);
  }

  /** When every prediction lands in bin b, that bin holds all of them and every other bin
      is empty. */
  lemma SingleBinCurve(ps: seq<Prediction>, numBins: nat, b: nat, k: nat)
    requires numBins >= 1 && b < numBins && k < numBins
    requires forall i :: 0 <= i < |ps| ==> ps[i].predictedProbability >= 0.0
    requires forall i :: 0 <= i < |ps| ==> BinIndex(ps[i].predictedProbability, numBins) == b
    ensures CalibrationCurve(ps, numBins)[k]
            == if k == b then CurvePoint(b as real / numBins as real, Mean(ps, Prob), Mean(ps, Win), |ps|)
               else CurvePoint(k as real / numBins as real, 0.0, 0.0, 0)
  {
    AllInOneBin(ps, numBins, b, k);
    assert CalibrationCurve(ps, numBins)[k] == Point(ps, numBins, k);
  }

  /** The eight wins and two losses fill bin 9 of ten with a mean forecast of 0.9 and a
      win rate of 0.8, and leave every other bin empty. */
  lemma NinetyPercentExample(k: nat)
    requires k < 10
    ensures var curve := CalibrationCurve(EightWinsTwoLosses(), 10);
      && curve[9] == CurvePoint(0.9, 0.9, 0.8, 10)
      && OverTerm(curve[9]) == 1.0
      && (k != 9 ==> curve[k] == CurvePoint(k as real / 10.0, 0.0, 0.0, 0))
  {
    var ps := EightWinsTwoLosses();
    EightWinsTwoLossesTotals();
    assert BinIndex(0.9, 10) == 9;
    SingleBinCurve(ps, 10, 9, 9);
    SingleBinCurve(ps, 10, 9, k);
    assert Mean(ps, Prob) == 0.9 && Mean(ps, Win) == 0.8;
  }

  lemma {:induction false} RepeatedTotal(m: nat, p: Prediction, f: Prediction -> real)
    ensures Total(seq(m, i => p), f) == m as real * f(p)
  {
    if m > 0 {
      RepeatedTotal(m - 1, p, f);
      assert seq(m, i => p)[..m - 1] == seq(m - 1, i => p);
    }
  }

  // ---------------------------------------------------------------- confidence metrics

  /** A bin's count-weighted excess of predicted over actual (overconfidence). */
  function OverTerm(pt: CurvePoint): (r: real)
    ensures r >= 0.0
  {
    if pt.count > 0 && pt.predicted > pt.actual then (pt.predicted - pt.actual) * pt.count as real else 0.0
  }

  /** A bin's count-weighted excess of actual over predicted (underconfidence). */
  function UnderTerm(pt: CurvePoint): (r: real)
    ensures r >= 0.0
  {
    if pt.count > 0 && pt.predicted < pt.actual then (pt.actual - pt.predicted) * pt.count as real else 0.0
  }

  /** No bin feeds both totals. */
  lemma OneSidePerBin(pt: CurvePoint)
    ensures OverTerm(pt) == 0.0 || UnderTerm(pt) == 0.0
    ensures OverTerm(pt) - UnderTerm(pt) == (if pt.count > 0 then (pt.predicted - pt.actual) * pt.count as real else 0.0)
  {
  }

  datatype ConfidenceTotals = ConfidenceTotals(overconfidence: real, underconfidence: real)

  /** `calculateConfidenceMetrics`. */
  function ConfidenceMetrics(curve: seq<CurvePoint>): (r: ConfidenceTotals)
    ensures r.overconfidence >= 0.0 && r.underconfidence >= 0.0
  {
    if |curve| == 0 then ConfidenceTotals(0.0, 0.0)
    else
      var prev := ConfidenceMetrics(curve[..|curve| - 1]);
      var pt := curve[|curve| - 1];
      ConfidenceTotals(prev.overconfidence + OverTerm(pt), prev.underconfidence + UnderTerm(pt))
  }

  /** The count-weighted gap of a bin: its predicted total minus its wins. */
  function Gap(pt: CurvePoint): real
  {
    if pt.count > 0 then (pt.predicted - pt.actual) * pt.count as real else 0.0
  }

  function GapTotal(curve: seq<CurvePoint>): real
  {
    if |curve| == 0 then 0.0 else GapTotal(curve[..|curve| - 1]) + Gap(curve[|curve| - 1])
  }

  lemma {:induction false} OverMinusUnder(curve: seq<CurvePoint>)
    ensures ConfidenceMetrics(curve).overconfidence - ConfidenceMetrics(curve).underconfidence == GapTotal(curve)
  {
    if |curve| > 0 {
      OverMinusUnder(curve[..|curve| - 1]);
      OneSidePerBin(curve[|curve| - 1]);
    }
  }

  lemma PointGap(ps: seq<Prediction>, numBins: nat, k: nat)
    requires numBins >= 1
    ensures Gap(Point(ps, numBins, k)) == Total(InBin(ps, numBins, k), Prob) - Total(InBin(ps, numBins, k), Win)
  {
    var xs := InBin(ps, numBins, k);
    var pt := Point(ps, numBins, k);
    var a, b := Total(xs, Prob), Total(xs, Win);
    assert pt.predicted == Mean(xs, Prob) && pt.actual == Mean(xs, Win) && pt.count == |xs|;
    if |xs| == 0 {
      assert xs == [];
    } else {
      var c := |xs| as real;
      assert Mean(xs, Prob) == a / c;
      assert Mean(xs, Win) == b / c;
      MeanGap(a, b, c);
      assert Gap(pt) == (a / c - b / c) * c;
    }
  }

  lemma MeanGap(a: real, b: real, c: real)
    requires c > 0.0
    ensures (a / c - b / c) * c == a - b
  {
    assert (a / c) * c == a;
    assert (b / c) * c == b;
  }

  lemma {:induction false} GapPrefix(ps: seq<Prediction>, numBins: nat, m: nat)
    requires numBins >= 1 && m <= numBins
    requires forall i :: 0 <= i < |ps| ==> ps[i].predictedProbability >= 0.0
    ensures GapTotal(CalibrationCurve(ps, numBins)[..m]) == BinTotals(ps, numBins, m, Prob) - BinTotals(ps, numBins, m, Win)
  {
    if m > 0 {
      var curve := CalibrationCurve(ps, numBins);
      assert curve[..m][..m - 1] == curve[..m - 1];
      GapPrefix(ps, numBins, m - 1);
      PointGap(ps, numBins, m - 1);
    }
  }

  /** Overconfidence minus underconfidence over a curve is the sum of the predicted
      probabilities minus the number of wins: the totals measure net calibration error. */
  lemma {:induction false} NetConfidenceIsExcessPrediction(ps: seq<Prediction>, numBins: nat)
    requires numBins >= 1
    requires forall i :: 0 <= i < |ps| ==> ps[i].predictedProbability >= 0.0
    ensures ConfidenceMetrics(CalibrationCurve(ps, numBins)).overconfidence
            - ConfidenceMetrics(CalibrationCurve(ps, numBins)).underconfidence
            == Total(ps, Prob) - Total(ps, Win)
  {
    var curve := CalibrationCurve(ps, numBins);
    assert curve[..numBins] == curve;
    OverMinusUnder(curve);
    GapPrefix(ps, numBins, numBins);
    BinsPartition(ps, numBins, Prob);
    BinsPartition(ps, numBins, Win);
  }

  // ---------------------------------------------------------------- recommendations

  datatype Severity = High | Medium

  /** A recommendation; its description and suggested action text are not modelled. */
  datatype Recommendation = Overconfidence(severity: Severity) | Underconfidence(severity: Severity) | SpecificRange(bin: real)

  /** The two calibration-wide checks. */
  function ConfidenceRecommendations(over: real, under: real): (rs: seq<Recommendation>)
    ensures (exists r :: r in rs && r.Overconfidence?) <==> over > 0.1
    ensures (exists r :: r in rs && r.Underconfidence?) <==> under > 0.1
    ensures forall r :: r in rs && r.Overconfidence? ==> (r.severity == High <==> over > 0.2)
    ensures forall r :: r in rs && r.Underconfidence? ==> (r.severity == High <==> under > 0.2)
    ensures forall i :: 0 <= i < |rs| ==> !rs[i].SpecificRange?
    ensures |rs| == 2 ==> rs[0].Overconfidence? && rs[1].Underconfidence?
  {
    var a := if over > 0.1 then [Overconfidence(if over > 0.2 then High else Medium)] else [];
    var b := if under > 0.1 then [Underconfidence(if under > 0.2 then High else Medium)] else [];
    var rs := a + b;
    assert over > 0.1 ==> rs[0] in rs && rs[0].Overconfidence?;
    assert under > 0.1 ==> rs[|a|] in rs && rs[|a|].Underconfidence?;
    rs
  }

  /** A bin with more than five predictions and a gap above 0.15. */
  predicate Miscalibrated(pt: CurvePoint)
  {
    pt.count > 5 && Abs(pt.predicted - pt.actual) > 0.15
  }

  /** The per-bin checks, in curve order. */
  function RangeRecommendations(curve: seq<CurvePoint>): (rs: seq<Recommendation>)
    ensures forall i :: 0 <= i < |rs| ==> rs[i].SpecificRange?
    ensures forall r :: r in rs ==> exists pt :: pt in curve && Miscalibrated(pt) && r.bin == pt.bin
    ensures forall pt :: pt in curve && Miscalibrated(pt) ==> SpecificRange(pt.bin) in rs
  {
    if |curve| == 0 then []
    else
      var rest := RangeRecommendations(curve[..|curve| - 1]);
      var pt := curve[|curve| - 1];
      assert forall q :: q in curve <==> q in curve[..|curve| - 1] || q == pt;
      rest + (if Miscalibrated(pt) then [SpecificRange(pt.bin)] else [])
  }

  /** Bins listed in ascending order. */
  predicate AscendingBins(rs: seq<Recommendation>)
  {
    forall i, j :: 0 <= i < j < |rs| && rs[i].SpecificRange? && rs[j].SpecificRange? ==> rs[i].bin < rs[j].bin
  }

  lemma {:induction false} RangeRecommendationsAscending(curve: seq<CurvePoint>)
    requires forall i, j :: 0 <= i < j < |curve| ==> curve[i].bin < curve[j].bin
    ensures AscendingBins(RangeRecommendations(curve))
    ensures forall r :: r in RangeRecommendations(curve) ==> exists i :: 0 <= i < |curve| && r.bin == curve[i].bin
  {
    if |curve| > 0 {
      var n := |curve| - 1;
      RangeRecommendationsAscending(curve[..n]);
      var rest := RangeRecommendations(curve[..n]);
      forall r | r in rest
        ensures r.bin < curve[n].bin
      {
        var i :| 0 <= i < n && r.bin == curve[..n][i].bin;
      }
    }
  }

  /** The calibration metrics handed to `generateRecommendations`. */
  datatype Metrics = Metrics(overconfidence: real, underconfidence: real, calibrationCurve: seq<CurvePoint>)

  /** `generateRecommendations`: the calibration-wide checks, then one entry per
      miscalibrated bin. */
  function GenerateRecommendations(m: Metrics): (rs: seq<Recommendation>)
    ensures var lead := ConfidenceRecommendations(m.overconfidence, m.underconfidence);
      && |rs| == |lead| + |RangeRecommendations(m.calibrationCurve)|
      && rs[..|lead|] == lead
      && rs[|lead|..] == RangeRecommendations(m.calibrationCurve)
  {
    var lead := ConfidenceRecommendations(m.overconfidence, m.underconfidence);
    var rs := lead + RangeRecommendations(m.calibrationCurve);
    assert rs[..|lead|] == lead;
    rs
  }

  /** The curve lists its bins in ascending order. */
  lemma CurveBinsAscending(ps: seq<Prediction>, numBins: nat)
    requires numBins >= 1
    requires forall i :: 0 <= i < |ps| ==> ps[i].predictedProbability >= 0.0
    ensures var curve := CalibrationCurve(ps, numBins);
      forall i, j :: 0 <= i < j < |curve| ==> curve[i].bin < curve[j].bin
  {
    var curve := CalibrationCurve(ps, numBins);
    forall i, j | 0 <= i < j < |curve|
      ensures curve[i].bin < curve[j].bin
    {
      DivideStrict(i as real, j as real, numBins as real);
    }
  }

  /** Leading calibration-wide entries do not disturb the order of the per-bin ones. */
  lemma LeadKeepsAscending(lead: seq<Recommendation>, rest: seq<Recommendation>)
    requires forall i :: 0 <= i < |lead| ==> !lead[i].SpecificRange?
    requires AscendingBins(rest)
    ensures AscendingBins(lead + rest)
  {
    var rs := lead + rest;
    forall i, j | 0 <= i < j < |rs| && rs[i].SpecificRange? && rs[j].SpecificRange?
      ensures rs[i].bin < rs[j].bin
    {
      assert rs[i] == rest[i - |lead|] && rs[j] == rest[j - |lead|];
    }
  }

  /** The per-bin recommendations built from a curve come in ascending bin order. */
  lemma CurveRecommendationsAscending(ps: seq<Prediction>, numBins: nat, over: real, under: real)
    requires numBins >= 1
    requires forall i :: 0 <= i < |ps| ==> ps[i].predictedProbability >= 0.0
    ensures AscendingBins(GenerateRecommendations(Metrics(over, under, CalibrationCurve(ps, numBins))))
  {
    var curve := CalibrationCurve(ps, numBins);
    CurveBinsAscending(ps, numBins);
    RangeRecommendationsAscending(curve);
    var lead := ConfidenceRecommendations(over, under);
    var rs := GenerateRecommendations(Metrics(over, under, curve));
    assert rs == lead + RangeRecommendations(curve);
    LeadKeepsAscending(lead, RangeRecommendations(curve));
  }
}
