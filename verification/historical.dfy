/** The prediction-accuracy methods of backend/src/models/historicalDataModel.js and the
    folds over stored games in backend/src/controllers/historicalDataController.js. */
module HistoricalData {
  import opened Wrappers
  import opened RealMath
  import Calibration

  /** The schema's enum for a user's prediction outcome; the field is optional. */
  datatype Outcome = Win | Loss | Draw

  /** The schema's enum for a game's result; the field is optional. */
  datatype GameResult = HomeWin | AwayWin | DrawResult

  /** A user's prediction. The schema does not require the probability and
      `addPrediction` stores whatever the request carried, so it may be missing. */
  datatype Prediction = Prediction(predictedProbability: Option<real>, actualOutcome: Option<Outcome>)

  /** One model's stored forecast; the sub-object may lack its probability. */
  datatype ModelPrediction = ModelPrediction(predictedProbability: Option<real>)

  /** The three forecasts are nested paths of the schema, so a loaded document has each of
      them as an object, with or without a probability. */
  datatype ModelPredictions = ModelPredictions(
    eloRating: ModelPrediction,
    poisson: ModelPrediction,
    regression: ModelPrediction)

  /** A stored game: its users' predictions, the models' forecasts and the result. */
  datatype Record = Record(predictions: seq<Prediction>, modelPredictions: ModelPredictions, actualOutcome: Option<GameResult>)

  /** The schema confines every stored probability to [0, 1]. */
  predicate InUnit(ps: seq<Prediction>)
  {
    forall i :: 0 <= i < |ps| && ps[i].predictedProbability.Some? ==>
      0.0 <= ps[i].predictedProbability.value <= 1.0
  }

  /** Some prediction has no probability. */
  predicate Missing(ps: seq<Prediction>)
  {
    exists i :: 0 <= i < |ps| && ps[i].predictedProbability.None?
  }

  /** `actualOutcome === 'win' ? 1 : 0`. */
  function OutcomeScore(p: Prediction): real
  {
    if p.actualOutcome == Some(Win) then 1.0 else 0.0
  }

  /** A prediction with a probability as the calibration helpers see it: a loss, a draw
      and a missing outcome all score 0. */
  function Scored(p: Prediction): (r: Calibration.Prediction)
    requires p.predictedProbability.Some?
    ensures r.predictedProbability == p.predictedProbability.value
    ensures r.actualOutcome <==> p.actualOutcome == Some(Win)
    ensures Calibration.Win(r) == OutcomeScore(p)
  {
    Calibration.Prediction(p.predictedProbability.value, p.actualOutcome == Some(Win))
  }

  function ScoredAll(ps: seq<Prediction>): (r: seq<Calibration.Prediction>)
    requires !Missing(ps)
    ensures |r| == |ps|
    ensures forall i :: 0 <= i < |ps| ==> r[i] == Scored(ps[i])
  {
    seq(|ps|, i requires 0 <= i < |ps| => Scored(ps[i]))
  }

  // ---------------------------------------------------------------- Brier score

  /** `Math.pow(probability - outcome, 2)`; a missing probability gives `undefined - 0`,
      which is NaN (None). */
  function SquaredError(p: Prediction): Option<real>
  {
    if p.predictedProbability.None? then None
    else
      var error := p.predictedProbability.value - OutcomeScore(p);
      Some(error * error)
  }

  /** A present probability has the squared error the calibration helpers compute. */
  lemma SquaredErrorAgrees(p: Prediction)
    requires p.predictedProbability.Some?
    ensures SquaredError(p) == Some(Calibration.SquaredError(Scored(p)))
  {
    var x, w := p.predictedProbability.value, OutcomeScore(p);
    var q := Scored(p);
    assert q.predictedProbability == x && Calibration.Win(q) == w;
    assert Calibration.SquaredError(q) == (x - w) * (x - w);
    assert SquaredError(p).Some?;
    assert SquaredError(p).value == (x - w) * (x - w);
    assert SquaredError(p) == Some((x - w) * (x - w));
  }

  /** The `reduce` from 0 over the squared errors: NaN as soon as one term is. */
  function ErrorSum(ps: seq<Prediction>): (s: Option<real>)
    ensures s.None? <==> Missing(ps)
  {
    if |ps| == 0 then Some(0.0)
    else
      var n := |ps| - 1;
      assert Missing(ps) <==> Missing(ps[..n]) || ps[n].predictedProbability.None? by {
        if Missing(ps[..n]) {
          var i :| 0 <= i < n && ps[..n][i].predictedProbability.None?;
          assert ps[i] == ps[..n][i];
        }
      }
      match (ErrorSum(ps[..n]), SquaredError(ps[n]))
      case (Some(a), Some(b)) => Some(a + b)
      case _ => None
  }

  /** With probabilities in [0, 1] each squared error is at most 1, so the sum is at most
      the number of predictions. */
  lemma {:induction false} ErrorSumBound(ps: seq<Prediction>)
    requires InUnit(ps)
    ensures ErrorSum(ps).Some? ==> 0.0 <= ErrorSum(ps).value <= |ps| as real
  {
    if |ps| > 0 {
      var n := |ps| - 1;
      assert InUnit(ps[..n]);
      ErrorSumBound(ps[..n]);
      if ps[n].predictedProbability.Some? {
        SquaredErrorAgrees(ps[n]);
        Calibration.SquaredErrorBound(Scored(ps[n]));
      }
    }
  }

  /** The method `calculateBrierScore`: the summed squared errors over the number of
      predictions. No predictions give 0/0 and a missing probability gives NaN; both are
      None. */
  function BrierScore(ps: seq<Prediction>): (r: Option<real>)
    ensures r.None? <==> |ps| == 0 || Missing(ps)
    ensures r.Some? && InUnit(ps) ==> 0.0 <= r.value <= 1.0
  {
    if |ps| == 0 then None
    else
      match ErrorSum(ps)
      case None => None
      case Some(total) =>
        if InUnit(ps) then
          ErrorSumBound(ps);
          QuotientInUnit(total, |ps| as real);
          Some(total / |ps| as real)
        else Some(total / |ps| as real)
  }

  /** The record's running sum agrees with the calibration helpers' total of the same
      predictions, when every one has a probability. */
  lemma {:induction false} ErrorSumAgrees(ps: seq<Prediction>)
    requires !Missing(ps)
    ensures ErrorSum(ps) == Some(Calibration.Total(ScoredAll(ps), Calibration.SquaredError))
  {
    if |ps| > 0 {
      var n := |ps| - 1;
      assert forall i :: 0 <= i < n ==> ps[..n][i] == ps[i];
      assert ScoredAll(ps)[..n] == ScoredAll(ps[..n]);
      ErrorSumAgrees(ps[..n]);
      SquaredErrorAgrees(ps[n]);
    }
  }

  /** Where every prediction has a probability, the record's Brier score is the
      calibration report's Brier score of the same predictions, except on an empty list,
      where the report gives 0 and the record divides by zero. */
  lemma BrierScoresAgree(ps: seq<Prediction>)
    requires !Missing(ps)
    ensures |ps| > 0 ==> BrierScore(ps) == Some(Calibration.BrierScore(ScoredAll(ps)))
    ensures |ps| == 0 ==> BrierScore(ps).None? && Calibration.BrierScore(ScoredAll(ps)) == 0.0
  {
    ErrorSumAgrees(ps);
  }

  // ---------------------------------------------------------------- calibration table

  /** `Math.floor(p * 10) / 10`: the lower edge of p's tenth; p = 1 has a key of its own. */
  function BinKey(p: real): (k: real)
    ensures 0.0 <= p <= 1.0 ==> 0.0 <= k <= 1.0
    ensures k <= p
  {
    var f := (p * 10.0).Floor;
    f as real / 10.0
  }

  /** The method gives p = 1 its own bin (the controller's curve folds it into the last). */
  lemma CertaintyHasOwnKey(p: real)
    requires 0.0 <= p <= 1.0
    ensures BinKey(p) == 1.0 <==> p == 1.0
  {
    var f := (p * 10.0).Floor;
    if p < 1.0 {
      assert p * 10.0 < 10.0;
      assert f < 10;
    }
  }

  /** The bin of a prediction: its key, or None for the key "NaN" that a missing
      probability gives. */
  function KeyOf(p: Prediction): (k: Option<real>)
    ensures k.None? <==> p.predictedProbability.None?
    ensures k.Some? ==> k.value == BinKey(p.predictedProbability.value)
  {
    match p.predictedProbability
    case None => None
    case Some(x) => Some(BinKey(x))
  }

  /** A bin's tallies, keyed by its lower edge, or by NaN. */
  datatype Tally = Tally(key: Option<real>, count: nat, wins: nat)

  function KeyIndex(ts: seq<Tally>, key: Option<real>): (r: Option<nat>)
    ensures r.Some? ==> r.value < |ts| && ts[r.value].key == key
    ensures r.None? <==> forall i :: 0 <= i < |ts| ==> ts[i].key != key
  {
    if |ts| == 0 then None
    else if ts[|ts| - 1].key == key then Some(|ts| - 1)
    else KeyIndex(ts[..|ts| - 1], key)
  }

  /** One step of the `forEach`: create the bin on first sight, then count the prediction
      and, if it won, its win. */
  function AddPrediction(ts: seq<Tally>, p: Prediction): (r: seq<Tally>)
  {
    var key := KeyOf(p);
    var win := if p.actualOutcome == Some(Win) then 1 else 0;
    match KeyIndex(ts, key)
    case Some(i) => ts[i := Tally(key, ts[i].count + 1, ts[i].wins + win)]
    case None => ts + [Tally(key, 1, win)]
  }

  /** The bins in order of first appearance. */
  function Tallies(ps: seq<Prediction>): seq<Tally>
  {
    if |ps| == 0 then [] else AddPrediction(Tallies(ps[..|ps| - 1]), ps[|ps| - 1])
  }

  /** Distinct keys, every bin non-empty, never more wins than predictions. */
  predicate WellFormed(ts: seq<Tally>)
  {
    && (forall i, j :: 0 <= i < j < |ts| ==> ts[i].key != ts[j].key)
    && (forall i :: 0 <= i < |ts| ==> 1 <= ts[i].count && ts[i].wins <= ts[i].count)
  }

  function CountSum(ts: seq<Tally>): nat
  {
    if |ts| == 0 then 0 else CountSum(ts[..|ts| - 1]) + ts[|ts| - 1].count
  }

  lemma {:induction false} CountSumUpdate(ts: seq<Tally>, i: nat, t: Tally)
    requires i < |ts|
    ensures CountSum(ts[i := t]) + ts[i].count == CountSum(ts) + t.count
  {
    var n := |ts| - 1;
    var us := ts[i := t];
    if i < n {
      assert us[..n] == ts[..n][i := t];
      CountSumUpdate(ts[..n], i, t);
    } else {
      assert us[..n] == ts[..n];
    }
  }

  lemma CountSumAppend(ts: seq<Tally>, t: Tally)
    ensures CountSum(ts + [t]) == CountSum(ts) + t.count
  {
    assert (ts + [t])[..|ts|] == ts;
  }

  /** Some bin has key k. */
  predicate HasKey(ts: seq<Tally>, k: Option<real>)
  {
    exists i :: 0 <= i < |ts| && ts[i].key == k
  }

  /** Some prediction falls under key k. */
  predicate KeyOccurs(ps: seq<Prediction>, k: Option<real>)
  {
    exists i :: 0 <= i < |ps| && KeyOf(ps[i]) == k
  }

  /** Adding a prediction keeps the bins well formed and counts it once. */
  lemma AddPredictionKeeps(ts: seq<Tally>, p: Prediction)
    requires WellFormed(ts)
    ensures WellFormed(AddPrediction(ts, p))
    ensures CountSum(AddPrediction(ts, p)) == CountSum(ts) + 1
  {
    var key := KeyOf(p);
    var win := if p.actualOutcome == Some(Win) then 1 else 0;
    match KeyIndex(ts, key)
    case Some(i) =>
      CountSumUpdate(ts, i, Tally(key, ts[i].count + 1, ts[i].wins + win));
    case None =>
      CountSumAppend(ts, Tally(key, 1, win));
  }

  /** Adding a prediction adds its key to the keys present, and nothing else. */
  lemma AddPredictionKeys(ts: seq<Tally>, p: Prediction)
    ensures forall k :: HasKey(AddPrediction(ts, p), k) <==> k == KeyOf(p) || HasKey(ts, k)
  {
    var key := KeyOf(p);
    var r := AddPrediction(ts, p);
    match KeyIndex(ts, key)
    case Some(i) =>
      forall k ensures HasKey(r, k) <==> k == key || HasKey(ts, k)
      {
        if k == key {
          assert r[i].key == k;
        }
        if HasKey(ts, k) {
          var j :| 0 <= j < |ts| && ts[j].key == k;
          assert r[j].key == k;
        }
        if HasKey(r, k) {
          var j :| 0 <= j < |r| && r[j].key == k;
          assert ts[j].key == k;
        }
      }
    case None =>
      forall k ensures HasKey(r, k) <==> k == key || HasKey(ts, k)
      {
        if k == key {
          assert r[|ts|].key == k;
        }
        if HasKey(ts, k) {
          var j :| 0 <= j < |ts| && ts[j].key == k;
          assert r[j].key == k;
        }
        if HasKey(r, k) {
          var j :| 0 <= j < |r| && r[j].key == k;
          if j < |ts| {
            assert ts[j].key == k;
          }
        }
      }
  }

  lemma {:induction false} TalliesCounted(ps: seq<Prediction>)
    ensures WellFormed(Tallies(ps))
    ensures CountSum(Tallies(ps)) == |ps|
  {
    if |ps| > 0 {
      var n := |ps| - 1;
      TalliesCounted(ps[..n]);
      AddPredictionKeeps(Tallies(ps[..n]), ps[n]);
    }
  }

  lemma {:induction false} TalliesKeys(ps: seq<Prediction>)
    ensures forall k :: HasKey(Tallies(ps), k) <==> KeyOccurs(ps, k)
  {
    if |ps| > 0 {
      var n := |ps| - 1;
      var prev := Tallies(ps[..n]);
      var r := Tallies(ps);
      assert r == AddPrediction(prev, ps[n]);
      TalliesKeys(ps[..n]);
      AddPredictionKeys(prev, ps[n]);
      forall k ensures HasKey(r, k) <==> KeyOccurs(ps, k)
      {
        if KeyOccurs(ps, k) {
          var i :| 0 <= i < |ps| && KeyOf(ps[i]) == k;
          if i < n {
            assert ps[..n][i] == ps[i];
          }
        }
        if KeyOccurs(ps[..n], k) {
          var i :| 0 <= i < n && KeyOf(ps[..n][i]) == k;
          assert ps[i] == ps[..n][i];
        }
      }
    }
  }

  /** Grouping keeps every prediction exactly once, in bins with distinct keys, one bin
      per key that occurs. */
  lemma TalliesSound(ps: seq<Prediction>)
    ensures WellFormed(Tallies(ps))
    ensures CountSum(Tallies(ps)) == |ps|
    ensures forall k :: HasKey(Tallies(ps), k) <==> KeyOccurs(ps, k)
  {
    TalliesCounted(ps);
    TalliesKeys(ps);
  }

  /** The tallies with key `k`. */
  function WithKey(ts: seq<Tally>, k: Option<real>): (r: seq<Tally>)
    ensures forall i :: 0 <= i < |r| ==> r[i] in ts && r[i].key == k
  {
    if |ts| == 0 then []
    else WithKey(ts[..|ts| - 1], k) + (if ts[|ts| - 1].key == k then [ts[|ts| - 1]] else [])
  }

  /** The bin keys that objects list first: "0" and "1". */
  predicate IndexKey(k: Option<real>)
  {
    k == Some(0.0) || k == Some(1.0)
  }

  /** The tallies whose key is neither 0 nor 1, in order. */
  function OtherKeys(ts: seq<Tally>): (r: seq<Tally>)
    ensures forall i :: 0 <= i < |r| ==> r[i] in ts && !IndexKey(r[i].key)
  {
    if |ts| == 0 then []
    else
      var t := ts[|ts| - 1];
      OtherKeys(ts[..|ts| - 1]) + (if !IndexKey(t.key) then [t] else [])
  }

  /** `Object.entries` order: integer-like keys first in ascending order, then the rest in
      insertion order. Keys of stored probabilities lie in [0, 1], so the integer-like ones
      are "0" and "1"; "NaN" keeps its place among the rest. */
  function EntryOrder(ts: seq<Tally>): (r: seq<Tally>)
    ensures forall i :: 0 <= i < |r| ==> r[i] in ts
  {
    var a, b, c := WithKey(ts, Some(0.0)), WithKey(ts, Some(1.0)), OtherKeys(ts);
    assert forall i :: 0 <= i < |a + b + c| ==> (a + b + c)[i] in ts by {
      forall i | 0 <= i < |a + b + c|
        ensures (a + b + c)[i] in ts
      {
        if i < |a| {
          assert (a + b + c)[i] == a[i];
        } else if i < |a| + |b| {
          assert (a + b + c)[i] == b[i - |a|];
        } else {
          assert (a + b + c)[i] == c[i - |a| - |b|];
        }
      }
    }
    a + b + c
  }

  lemma {:induction false} EntryOrderCounts(ts: seq<Tally>)
    ensures CountSum(WithKey(ts, Some(0.0))) + CountSum(WithKey(ts, Some(1.0))) + CountSum(OtherKeys(ts)) == CountSum(ts)
  {
    if |ts| > 0 {
      var n := |ts| - 1;
      var t := ts[n];
      var init := ts[..n];
      EntryOrderCounts(init);
      assert CountSum(ts) == CountSum(init) + t.count;
      if t.key == Some(0.0) {
        assert WithKey(ts, Some(0.0)) == WithKey(init, Some(0.0)) + [t];
        assert WithKey(ts, Some(1.0)) == WithKey(init, Some(1.0));
        assert OtherKeys(ts) == OtherKeys(init);
        CountSumAppend(WithKey(init, Some(0.0)), t);
      } else if t.key == Some(1.0) {
        assert WithKey(ts, Some(0.0)) == WithKey(init, Some(0.0));
        assert WithKey(ts, Some(1.0)) == WithKey(init, Some(1.0)) + [t];
        assert OtherKeys(ts) == OtherKeys(init);
        CountSumAppend(WithKey(init, Some(1.0)), t);
      } else {
        assert WithKey(ts, Some(0.0)) == WithKey(init, Some(0.0));
        assert WithKey(ts, Some(1.0)) == WithKey(init, Some(1.0));
        assert OtherKeys(ts) == OtherKeys(init) + [t];
        CountSumAppend(OtherKeys(init), t);
      }
    }
  }

  lemma {:induction false} CountSumConcat(a: seq<Tally>, b: seq<Tally>)
    ensures CountSum(a + b) == CountSum(a) + CountSum(b)
    decreases |b|
  {
    if |b| > 0 {
      var n := |b| - 1;
      assert a + b == (a + b[..n]) + [b[n]];
      CountSumConcat(a, b[..n]);
      CountSumAppend(a + b[..n], b[n]);
      assert b == b[..n] + [b[n]];
      CountSumAppend(b[..n], b[n]);
    } else {
      assert a + b == a;
    }
  }

  /** One entry of the result: `parseFloat(bin)` gives back the key, NaN for "NaN". */
  datatype Entry = Entry(predictedProbability: Option<real>, actualWinRate: real, count: nat)

  function ToEntry(t: Tally): (e: Entry)
    requires t.count >= 1 && t.wins <= t.count
    ensures 0.0 <= e.actualWinRate <= 1.0
    ensures e.predictedProbability == t.key && e.count == t.count
  {
    QuotientInUnit(t.wins as real, t.count as real);
    Entry(t.key, t.wins as real / t.count as real, t.count)
  }

  /** The method `calculateCalibration`. */
  function CalibrationTable(ps: seq<Prediction>): (es: seq<Entry>)
    ensures forall i :: 0 <= i < |es| ==> es[i].count >= 1 && 0.0 <= es[i].actualWinRate <= 1.0
  {
    var ts := Tallies(ps);
    var ordered := EntryOrder(ts);
    assert forall i :: 0 <= i < |ordered| ==> 1 <= ordered[i].count && ordered[i].wins <= ordered[i].count by {
      TalliesSound(ps);
      assert forall t :: t in ts ==> 1 <= t.count && t.wins <= t.count;
    }
    seq(|ordered|, i requires 0 <= i < |ordered| => ToEntry(ordered[i]))
  }

  function EntryCountSum(es: seq<Entry>): nat
  {
    if |es| == 0 then 0 else EntryCountSum(es[..|es| - 1]) + es[|es| - 1].count
  }

  lemma {:induction false} EntryCountsMatch(ts: seq<Tally>, es: seq<Entry>)
    requires |es| == |ts|
    requires forall i :: 0 <= i < |ts| ==> es[i].count == ts[i].count
    ensures EntryCountSum(es) == CountSum(ts)
  {
    if |ts| > 0 {
      EntryCountsMatch(ts[..|ts| - 1], es[..|es| - 1]);
    }
  }

  /** Every prediction is counted in exactly one entry. */
  lemma CalibrationCountsSum(ps: seq<Prediction>)
    ensures EntryCountSum(CalibrationTable(ps)) == |ps|
  {
    TalliesSound(ps);
    var ts := Tallies(ps);
    var ordered := EntryOrder(ts);
    CountSumConcat(WithKey(ts, Some(0.0)) + WithKey(ts, Some(1.0)), OtherKeys(ts));
    CountSumConcat(WithKey(ts, Some(0.0)), WithKey(ts, Some(1.0)));
    EntryOrderCounts(ts);
    EntryCountsMatch(ordered, CalibrationTable(ps));
  }

  /** A certain prediction shows up under the key 1. */
  lemma CertaintyListed(ps: seq<Prediction>, i: nat)
    requires i < |ps| && ps[i].predictedProbability == Some(1.0)
    ensures exists j :: 0 <= j < |CalibrationTable(ps)| && CalibrationTable(ps)[j].predictedProbability == Some(1.0)
  {
    TalliesSound(ps);
    var ts := Tallies(ps);
    assert KeyOf(ps[i]) == Some(1.0);
    assert KeyOccurs(ps, Some(1.0));
    assert HasKey(ts, Some(1.0));
    var k :| 0 <= k < |ts| && ts[k].key == Some(1.0);
    WithKeyFinds(ts, k);
    var w := WithKey(ts, Some(1.0));
    var es := CalibrationTable(ps);
    var at := |WithKey(ts, Some(0.0))|;
    assert es[at].predictedProbability == EntryOrder(ts)[at].key == w[0].key;
  }

  /** A prediction without a probability is filed under the key "NaN", and nothing else
      is: the table has an entry whose probability is NaN exactly when some prediction
      lacks one. */
  lemma NaNEntryIffMissing(ps: seq<Prediction>)
    ensures (exists j :: 0 <= j < |CalibrationTable(ps)| && CalibrationTable(ps)[j].predictedProbability.None?)
            <==> Missing(ps)
  {
    NaNKeyIffMissing(ps);
    if Missing(ps) {
      var j := NaNEntryListed(ps);
    }
    if exists j :: 0 <= j < |CalibrationTable(ps)| && CalibrationTable(ps)[j].predictedProbability.None? {
      var j :| 0 <= j < |CalibrationTable(ps)| && CalibrationTable(ps)[j].predictedProbability.None?;
      NaNEntryHasBin(ps, j);
    }
  }

  /** Some prediction falls under the key "NaN" exactly when one lacks a probability. */
  lemma NaNKeyIffMissing(ps: seq<Prediction>)
    ensures KeyOccurs(ps, None) <==> Missing(ps)
  {
    if Missing(ps) {
      var i :| 0 <= i < |ps| && ps[i].predictedProbability.None?;
      assert KeyOf(ps[i]) == None;
    }
    if KeyOccurs(ps, None) {
      var i :| 0 <= i < |ps| && KeyOf(ps[i]) == None;
      assert ps[i].predictedProbability.None?;
    }
  }

  /** A bin under "NaN" is listed among the entries. */
  lemma NaNEntryListed(ps: seq<Prediction>) returns (at: nat)
    requires KeyOccurs(ps, None)
    ensures at < |CalibrationTable(ps)| && CalibrationTable(ps)[at].predictedProbability.None?
  {
    TalliesSound(ps);
    var ts := Tallies(ps);
    var k :| 0 <= k < |ts| && ts[k].key == None;
    var j := OtherKeysFinds(ts, k);
    at := |WithKey(ts, Some(0.0))| + |WithKey(ts, Some(1.0))| + j;
    assert EntryOrder(ts)[at] == ts[k];
  }

  /** An entry under "NaN" comes from a bin under "NaN". */
  lemma NaNEntryHasBin(ps: seq<Prediction>, j: nat)
    requires j < |CalibrationTable(ps)| && CalibrationTable(ps)[j].predictedProbability.None?
    ensures KeyOccurs(ps, None)
  {
    TalliesSound(ps);
    var ts := Tallies(ps);
    var ordered := EntryOrder(ts);
    assert ordered[j].key == None && ordered[j] in ts;
    var k :| 0 <= k < |ts| && ts[k] == ordered[j];
    assert HasKey(ts, None);
  }

  /** A tally whose key is not "0" or "1" is among the other keys. */
  lemma {:induction false} OtherKeysFinds(ts: seq<Tally>, k: nat) returns (j: nat)
    requires k < |ts| && !IndexKey(ts[k].key)
    ensures j < |OtherKeys(ts)| && OtherKeys(ts)[j] == ts[k]
  {
    var n := |ts| - 1;
    if k < n {
      j := OtherKeysFinds(ts[..n], k);
      assert ts[..n][k] == ts[k];
    } else {
      j := |OtherKeys(ts[..n])|;
    }
  }

  lemma {:induction false} WithKeyFinds(ts: seq<Tally>, k: nat)
    requires k < |ts|
    ensures |WithKey(ts, ts[k].key)| > 0
  {
    var n := |ts| - 1;
    if k < n {
      WithKeyFinds(ts[..n], k);
    }
  }

  // ---------------------------------------------------------------- prediction accuracy

  /** The outcome a prediction must carry to count as correct: 'win' when the home side won,
      'loss' for any other (or no) game result. */
  function Expected(r: Record): Outcome
  {
    if r.actualOutcome == Some(HomeWin) then Win else Loss
  }

  /** The positions of `xs` whose element satisfies `keep`, as `filter` would keep them. */
  function IndicesWhere<T>(xs: seq<T>, keep: T -> bool): set<nat>
  {
    set i: nat | i < |xs| && keep(xs[i])
  }

  /** Dropping the last element drops one kept position exactly when that element is kept. */
  lemma IndicesWhereStep<T>(xs: seq<T>, keep: T -> bool)
    requires |xs| > 0
    ensures |IndicesWhere(xs, keep)| == |IndicesWhere(xs[..|xs| - 1], keep)| + (if keep(xs[|xs| - 1]) then 1 else 0)
  {
    var n := |xs| - 1;
    var before := IndicesWhere(xs[..n], keep);
    var after := IndicesWhere(xs, keep);
    var last: set<nat> := if keep(xs[n]) then {n} else {};
    assert after == before + last by {
      forall i | i in after
        ensures i in before + last
      {
        if i < n {
          assert xs[..n][i] == xs[i];
        }
      }
      forall i | i in before + last
        ensures i in after
      {
        if i in before {
          assert xs[..n][i] == xs[i];
        }
      }
    }
    assert |before + last| == |before| + |last| by {
      assert n !in before;
    }
  }

  function CorrectCount(ps: seq<Prediction>, want: Outcome): (n: nat)
    ensures n <= |ps|
  {
    if |ps| == 0 then 0
    else CorrectCount(ps[..|ps| - 1], want) + (if ps[|ps| - 1].actualOutcome == Some(want) then 1 else 0)
  }

  /** `filter(...).length`: the number of positions whose outcome is the wanted one. */
  lemma {:induction false} CorrectCountIsFilter(ps: seq<Prediction>, want: Outcome)
    ensures CorrectCount(ps, want) == |IndicesWhere(ps, (p: Prediction) => p.actualOutcome == Some(want))|
  {
    if |ps| > 0 {
      CorrectCountIsFilter(ps[..|ps| - 1], want);
      IndicesWhereStep(ps, (p: Prediction) => p.actualOutcome == Some(want));
    }
  }

  /** Only a home win makes 'win' the right call; after an away win, a draw or an unknown
      result, 'loss' is counted as correct. */
  lemma ExpectedOutcome(r: Record)
    ensures Expected(r) == Win <==> r.actualOutcome == Some(HomeWin)
    ensures Expected(r) != Draw
  {
  }

  datatype Accuracy = Accuracy(brierSum: Option<real>, totalPredictions: nat, correctPredictions: nat, calibration: seq<Entry>)

  /** `+` on numbers that may be NaN (None). */
  function Plus(a: Option<real>, b: Option<real>): Option<real>
  {
    if a.Some? && b.Some? then Some(a.value + b.value) else None
  }

  /** The `forEach` of `getPredictionAccuracy`: records without predictions are skipped. */
  function AccuracyFold(rs: seq<Record>): (a: Accuracy)
    ensures a.correctPredictions <= a.totalPredictions
  {
    if |rs| == 0 then Accuracy(Some(0.0), 0, 0, [])
    else
      var prev := AccuracyFold(rs[..|rs| - 1]);
      var r := rs[|rs| - 1];
      if |r.predictions| > 0 then
        Accuracy(Plus(prev.brierSum, BrierScore(r.predictions)),
                 prev.totalPredictions + |r.predictions|,
                 prev.correctPredictions + CorrectCount(r.predictions, Expected(r)),
                 prev.calibration + CalibrationTable(r.predictions))
      else prev
  }

  predicate AllInUnit(rs: seq<Record>)
  {
    forall i :: 0 <= i < |rs| ==> InUnit(rs[i].predictions)
  }

  /** Some record holds a prediction without a probability. */
  predicate AnyMissing(rs: seq<Record>)
  {
    exists i :: 0 <= i < |rs| && Missing(rs[i].predictions)
  }

  /** How many records carry predictions. */
  function WithPredictions(rs: seq<Record>): (n: nat)
    ensures n <= |rs|
  {
    if |rs| == 0 then 0
    else WithPredictions(rs[..|rs| - 1]) + (if |rs[|rs| - 1].predictions| > 0 then 1 else 0)
  }

  lemma {:induction false} BrierSumBound(rs: seq<Record>)
    requires AllInUnit(rs)
    ensures AccuracyFold(rs).brierSum.Some? ==>
              0.0 <= AccuracyFold(rs).brierSum.value <= WithPredictions(rs) as real
  {
    if |rs| > 0 {
      var n := |rs| - 1;
      assert AllInUnit(rs[..n]);
      BrierSumBound(rs[..n]);
    }
  }

  /** The summed Brier score is NaN exactly when some record holds a prediction without a
      probability: such a record has predictions, so it is not skipped. */
  lemma {:induction false} BrierSumNaN(rs: seq<Record>)
    ensures AccuracyFold(rs).brierSum.None? <==> AnyMissing(rs)
  {
    if |rs| > 0 {
      var n := |rs| - 1;
      BrierSumNaN(rs[..n]);
      AnyMissingStep(rs);
      BrierSumStep(rs);
    }
  }

  /** A record holds a missing probability when its last one does or an earlier one does. */
  lemma AnyMissingStep(rs: seq<Record>)
    requires |rs| > 0
    ensures AnyMissing(rs) <==> AnyMissing(rs[..|rs| - 1]) || Missing(rs[|rs| - 1].predictions)
  {
    var n := |rs| - 1;
    assert forall i :: 0 <= i < n ==> rs[..n][i] == rs[i];
  }

  /** One step of the fold on the Brier sum: a record with predictions adds its score, and a
      record with a missing probability has predictions. */
  lemma BrierSumStep(rs: seq<Record>)
    requires |rs| > 0
    ensures var r := rs[|rs| - 1];
            var prev := AccuracyFold(rs[..|rs| - 1]).brierSum;
            AccuracyFold(rs).brierSum == (if |r.predictions| > 0 then Plus(prev, BrierScore(r.predictions)) else prev)
    ensures Missing(rs[|rs| - 1].predictions) ==> |rs[|rs| - 1].predictions| > 0
  {
  }

  datatype AccuracyReport = AccuracyReport(brierScore: Option<real>, accuracy: Option<real>,
                                           totalPredictions: nat, correctPredictions: nat, calibration: seq<Entry>)

  /** `getPredictionAccuracy`: the Brier sum is divided by the number of all records, the
      correct count by the number of predictions; a zero divisor or a missing probability
      gives None (NaN). */
  function PredictionAccuracy(rs: seq<Record>): (rep: AccuracyReport)
    ensures rep.brierScore.None? <==> |rs| == 0 || AnyMissing(rs)
    ensures rep.accuracy.None? <==> rep.totalPredictions == 0
    ensures rep.accuracy.Some? ==> 0.0 <= rep.accuracy.value <= 1.0
    ensures rep.brierScore.Some? && AllInUnit(rs) ==> 0.0 <= rep.brierScore.value <= 1.0
  {
    var a := AccuracyFold(rs);
    AccuracyBounds(a);
    BrierSumNaN(rs);
    if AllInUnit(rs) && |rs| > 0 && a.brierSum.Some? then
      BrierSumBound(rs);
      QuotientInUnit(a.brierSum.value, |rs| as real);
      Report(a, |rs|)
    else
      Report(a, |rs|)
  }

  lemma AccuracyBounds(a: Accuracy)
    requires a.correctPredictions <= a.totalPredictions
    ensures a.totalPredictions > 0 ==>
      0.0 <= a.correctPredictions as real / a.totalPredictions as real <= 1.0
  {
    if a.totalPredictions > 0 {
      QuotientInUnit(a.correctPredictions as real, a.totalPredictions as real);
    }
  }

  function Report(a: Accuracy, records: nat): AccuracyReport
  {
    AccuracyReport(
      if records == 0 || a.brierSum.None? then None else Some(a.brierSum.value / records as real),
      if a.totalPredictions == 0 then None else Some(a.correctPredictions as real / a.totalPredictions as real),
      a.totalPredictions, a.correctPredictions, a.calibration)
  }

  /** Records without predictions still count in the Brier divisor: a list of such
      records reports a Brier score of 0 and no accuracy at all. */
  lemma OnlyEmptyRecords(rs: seq<Record>)
    requires |rs| > 0
    requires forall i :: 0 <= i < |rs| ==> |rs[i].predictions| == 0
    ensures PredictionAccuracy(rs).brierScore == Some(0.0)
    ensures PredictionAccuracy(rs).accuracy == None
  {
    EmptyFold(rs);
  }

  lemma {:induction false} EmptyFold(rs: seq<Record>)
    requires forall i :: 0 <= i < |rs| ==> |rs[i].predictions| == 0
    ensures AccuracyFold(rs) == Accuracy(Some(0.0), 0, 0, [])
  {
    if |rs| > 0 {
      EmptyFold(rs[..|rs| - 1]);
    }
  }

  /** A record without predictions changes none of the tallies. */
  lemma FoldSkipsEmpty(rs: seq<Record>, r: Record)
    requires |r.predictions| == 0
    ensures AccuracyFold(rs + [r]) == AccuracyFold(rs)
  {
    assert (rs + [r])[..|rs|] == rs;
  }

  // ---------------------------------------------------------------- model performance

  datatype Model = Elo | Poisson | Regression

  function ForecastOf(r: Record, m: Model): ModelPrediction
  {
    match m
    case Elo => r.modelPredictions.eloRating
    case Poisson => r.modelPredictions.poisson
    case Regression => r.modelPredictions.regression
  }

  /** A forecast is right when it favoured the side that won; a missing probability
      compares false both ways, and a draw is never right. */
  predicate Correct(r: Record, f: ModelPrediction)
  {
    || (r.actualOutcome == Some(HomeWin) && f.predictedProbability.Some? && f.predictedProbability.value > 0.5)
    || (r.actualOutcome == Some(AwayWin) && f.predictedProbability.Some? && f.predictedProbability.value < 0.5)
  }

  lemma NeutralForecastNeverCorrect(r: Record)
    ensures !Correct(r, ModelPrediction(Some(0.5)))
    ensures r.actualOutcome == Some(DrawResult) ==> forall f :: !Correct(r, f)
  {
  }

  datatype ModelScore = ModelScore(correct: nat, total: nat, accuracy: real)

  /** The counting loop of `getModelPerformance` for one model: every record's forecast
      object is present, so each record adds one to the total, and to the correct count
      when the forecast was right. */
  function Tally3(rs: seq<Record>, m: Model): (t: (nat, nat))
    ensures t.0 <= t.1 == |rs|
  {
    if |rs| == 0 then (0, 0)
    else
      var prev := Tally3(rs[..|rs| - 1], m);
      var r := rs[|rs| - 1];
      (prev.0 + (if Correct(r, ForecastOf(r, m)) then 1 else 0), prev.1 + 1)
  }

  /** The records whose model m forecast was right. */
  function RightlyForecast(rs: seq<Record>, m: Model): set<nat>
  {
    IndicesWhere(rs, (r: Record) => Correct(r, ForecastOf(r, m)))
  }

  /** The correct count is the number of records the model forecast rightly, and the total
      is the number of records. */
  lemma {:induction false} TallyCountsRightForecasts(rs: seq<Record>, m: Model)
    ensures Tally3(rs, m) == (|RightlyForecast(rs, m)|, |rs|)
  {
    if |rs| > 0 {
      var n := |rs| - 1;
      TallyCountsRightForecasts(rs[..n], m);
      IndicesWhereStep(rs, (r: Record) => Correct(r, ForecastOf(r, m)));
    }
  }

  /** One model's line of `getModelPerformance`. */
  function ModelPerformance(rs: seq<Record>, m: Model): (s: ModelScore)
    ensures s.total == |rs| && s.correct == |RightlyForecast(rs, m)|
    ensures |rs| == 0 ==> s.accuracy == 0.0
    ensures |rs| > 0 ==> s.accuracy * |rs| as real == s.correct as real
    ensures 0.0 <= s.accuracy <= 1.0
  {
    TallyCountsRightForecasts(rs, m);
    var t := Tally3(rs, m);
    if t.1 > 0 then
      QuotientInUnit(t.0 as real, t.1 as real);
      ModelScore(t.0, t.1, t.0 as real / t.1 as real)
    else ModelScore(t.0, t.1, 0.0)
  }
}
