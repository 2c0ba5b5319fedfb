/** The three statistical models of backend/src/utils/statisticalModels.js: Elo ratings
    with per-sport parameters, a Poisson win probability and a weighted-feature regression.
    `Math.pow(10, x)` and `Math.exp(-x)` are not rational functions; their values are
    supplied by the caller, with only the facts each property needs. */
module StatModels {
  import opened Wrappers
  import opened RealMath
  import Js

  datatype ScoringType = Points | Goals | Runs

  datatype SportParams = SportParams(kFactor: real, homeAdvantage: real, defaultRating: real,
                                     scoringType: ScoringType)

  const Basketball := SportParams(32.0, 100.0, 1500.0, Points)
  const Football := SportParams(24.0, 70.0, 1500.0, Goals)
  const Baseball := SportParams(20.0, 50.0, 1500.0, Runs)
  const Hockey := SportParams(28.0, 60.0, 1500.0, Goals)
  const Soccer := SportParams(24.0, 80.0, 1500.0, Goals)

  /** `SPORT_PARAMS[sport.toLowerCase()] || SPORT_PARAMS.basketball`: the table entry for
      the lower-cased name, basketball's for any other name. */
  function ParamsFor(sport: string): (p: SportParams)
    ensures Js.Lower(sport) == "football" ==> p == Football
    ensures Js.Lower(sport) == "baseball" ==> p == Baseball
    ensures Js.Lower(sport) == "hockey" ==> p == Hockey
    ensures Js.Lower(sport) == "soccer" ==> p == Soccer
    ensures Js.Lower(sport) !in {"football", "baseball", "hockey", "soccer"} ==> p == Basketball
    ensures p.kFactor > 0.0 && p.homeAdvantage > 0.0 && p.defaultRating == 1500.0
  {
    var key := Js.Lower(sport);
    if key == "football" then Football
    else if key == "baseball" then Baseball
    else if key == "hockey" then Hockey
    else if key == "soccer" then Soccer
    else Basketball
  }

  // ---------------------------------------------------------------- Elo

  /** `calculateExpectedScore`: 1 / (1 + 10^((ratingB - ratingA) / 400)). The power of ten
      is `power`, which is positive as every power of ten is. */
  function ExpectedScore(power: real): (e: real)
    requires power > 0.0
    ensures 0.0 < e < 1.0
    ensures e * (1.0 + power) == 1.0
  {
    QuotientInUnit(1.0, 1.0 + power);
    1.0 / (1.0 + power)
  }

  /** With equal ratings the exponent is 0, and 10^0 = 1 gives an even expectation. */
  lemma EqualRatingsExpectHalf()
    ensures ExpectedScore(1.0) == 0.5
  {
  }

  /** The two sides' expectations add up to 1: their exponents are opposite, so their
      powers of ten are reciprocal. */
  lemma ExpectationsComplement(power: real, reciprocal: real)
    requires power > 0.0 && power * reciprocal == 1.0
    ensures ExpectedScore(power) + ExpectedScore(reciprocal) == 1.0
  {
    var e := ExpectedScore(power);
    var f := ExpectedScore(reciprocal);
    assert reciprocal > 0.0;
    assert f * (power + 1.0) == power * (f * (1.0 + reciprocal));
    assert (e + f) * (1.0 + power) == 1.0 + power;
  }

  /** A stronger side (a smaller power of ten) expects more than half. */
  lemma StrongerSideExpectsMore(power: real)
    requires 0.0 < power < 1.0
    ensures ExpectedScore(power) > 0.5
  {
  }

  /** `calculateNewEloRating`: the rating moves by k times the surprise. */
  function NewEloRating(currentRating: real, expectedScore: real, actualScore: real, kFactor: real): (r: real)
    ensures kFactor > 0.0 ==> (r > currentRating <==> actualScore > expectedScore)
    ensures r - currentRating == kFactor * (actualScore - expectedScore)
  {
    MoveSign(currentRating, kFactor, actualScore - expectedScore);
    Translate(currentRating, kFactor * (actualScore - expectedScore));
    currentRating + kFactor * (actualScore - expectedScore)
  }

  lemma Translate(x: real, d: real)
    ensures (x + d) - x == d
  {
  }

  /** A positive factor times the surprise raises the rating exactly when the surprise is
      positive. */
  lemma MoveSign(rating: real, k: real, surprise: real)
    ensures k > 0.0 ==> (rating + k * surprise > rating <==> surprise > 0.0)
  {
    PositiveProduct(k, surprise);
  }

  /** Elo is zero-sum: with complementary expectations and results and the same k, what one
      side gains the other loses. */
  lemma EloZeroSum(ratingA: real, ratingB: real, expectedA: real, actualA: real, kFactor: real)
    ensures (NewEloRating(ratingA, expectedA, actualA, kFactor) - ratingA)
            + (NewEloRating(ratingB, 1.0 - expectedA, 1.0 - actualA, kFactor) - ratingB) == 0.0
  {
  }

  datatype EloPrediction = EloPrediction(
    teamRating: real,
    opponentRating: real,
    predictedProbability: real,
    homeAdvantage: real,
    kFactor: real,
    sport: string)

  /** `calculateEloRating`: both sides get the sport's default rating, the first side the
      home advantage on top, and the prediction is the first side's expectation. `power`
      is 10^(-homeAdvantage / 400) for the sport's home advantage. The team and opponent
      names are not read. */
  function EloRating(team: string, opponent: string, sport: string, power: real): (r: EloPrediction)
    requires power > 0.0
    ensures var p := ParamsFor(sport);
            && r.teamRating == p.defaultRating && r.opponentRating == p.defaultRating
            && r.homeAdvantage == p.homeAdvantage && r.kFactor == p.kFactor
    ensures r.predictedProbability == ExpectedScore(power)
    ensures r.sport == Js.Lower(sport)
    ensures power < 1.0 ==> r.predictedProbability > 0.5
  {
    var p := ParamsFor(sport);
    assert power < 1.0 ==> ExpectedScore(power) > 0.5 by {
      if power < 1.0 {
        StrongerSideExpectsMore(power);
      }
    }
    EloPrediction(p.defaultRating, p.defaultRating, ExpectedScore(power), p.homeAdvantage, p.kFactor,
                  Js.Lower(sport))
  }

  /** The prediction does not depend on which teams play. */
  lemma EloIgnoresTeams(team: string, opponent: string, team': string, opponent': string, sport: string,
                        power: real)
    requires power > 0.0
    ensures EloRating(team, opponent, sport, power) == EloRating(team', opponent', sport, power)
  {
  }

  // ---------------------------------------------------------------- Poisson

  /** The Poisson probability of exactly x goals at rate lambda, given `expNeg` = e^(-lambda). */
  function Poisson(x: nat, lambda: real, expNeg: real): (r: real)
    ensures lambda >= 0.0 && expNeg >= 0.0 ==> r >= 0.0
  {
    var num := expNeg * Pow(lambda, x);
    assert lambda >= 0.0 && expNeg >= 0.0 ==> num >= 0.0;
    num / Factorial(x) as real
  }

  /** The loop bound: 10 for sports scored in goals, 20 otherwise. */
  function MaxScore(t: ScoringType): (n: nat)
    ensures n == (if t == Goals then 10 else 20)
  {
    match t
    case Goals => 10
    case _ => 20
  }

  /** The chance that the first side scores exactly i and the second fewer than `j`. */
  function RowSum(i: nat, j: nat, lambdaFor: real, expFor: real, lambdaAgainst: real, expAgainst: real): real
  {
    if j == 0 then 0.0
    else RowSum(i, j - 1, lambdaFor, expFor, lambdaAgainst, expAgainst)
         + Poisson(i, lambdaFor, expFor) * Poisson(j - 1, lambdaAgainst, expAgainst)
  }

  /** The chance that the first side scores i below `n` and beats the second side. */
  function WinSum(n: nat, lambdaFor: real, expFor: real, lambdaAgainst: real, expAgainst: real): real
  {
    if n == 0 then 0.0
    else WinSum(n - 1, lambdaFor, expFor, lambdaAgainst, expAgainst)
         + RowSum(n - 1, n - 1, lambdaFor, expFor, lambdaAgainst, expAgainst)
  }

  /** Every partial sum of products of probabilities is a probability mass, so non-negative. */
  lemma {:induction false} WinSumNonNegative(n: nat, lambdaFor: real, expFor: real, lambdaAgainst: real,
                                             expAgainst: real)
    requires lambdaFor >= 0.0 && expFor >= 0.0 && lambdaAgainst >= 0.0 && expAgainst >= 0.0
    ensures WinSum(n, lambdaFor, expFor, lambdaAgainst, expAgainst) >= 0.0
  {
    if n > 0 {
      WinSumNonNegative(n - 1, lambdaFor, expFor, lambdaAgainst, expAgainst);
      RowSumNonNegative(n - 1, n - 1, lambdaFor, expFor, lambdaAgainst, expAgainst);
    }
  }

  lemma {:induction false} RowSumNonNegative(i: nat, j: nat, lambdaFor: real, expFor: real,
                                             lambdaAgainst: real, expAgainst: real)
    requires lambdaFor >= 0.0 && expFor >= 0.0 && lambdaAgainst >= 0.0 && expAgainst >= 0.0
    ensures RowSum(i, j, lambdaFor, expFor, lambdaAgainst, expAgainst) >= 0.0
  {
    if j > 0 {
      RowSumNonNegative(i, j - 1, lambdaFor, expFor, lambdaAgainst, expAgainst);
      var a := Poisson(i, lambdaFor, expFor);
      var b := Poisson(j - 1, lambdaAgainst, expAgainst);
      assert a * b >= 0.0;
    }
  }

  /** A side that never scores (rate 0, so e^0 = 1) never wins. */
  lemma {:induction false} ScorelessNeverWins(n: nat, lambdaAgainst: real, expAgainst: real)
    ensures WinSum(n, 0.0, 1.0, lambdaAgainst, expAgainst) == 0.0
  {
    if n > 0 {
      ScorelessNeverWins(n - 1, lambdaAgainst, expAgainst);
      if n - 1 > 0 {
        assert Pow(0.0, n - 1) == 0.0;
        assert Poisson(n - 1, 0.0, 1.0) == 0.0;
        ZeroRow(n - 1, n - 1, lambdaAgainst, expAgainst);
      }
    }
  }

  lemma {:induction false} ZeroRow(i: nat, j: nat, lambdaAgainst: real, expAgainst: real)
    requires Poisson(i, 0.0, 1.0) == 0.0
    ensures RowSum(i, j, 0.0, 1.0, lambdaAgainst, expAgainst) == 0.0
  {
    if j > 0 {
      ZeroRow(i, j - 1, lambdaAgainst, expAgainst);
    }
  }

  datatype PoissonPrediction = PoissonPrediction(
    predictedProbability: real,
    goalsFor: real,
    goalsAgainst: real,
    sport: string,
    scoringType: ScoringType)

  /** `calculatePoissonProbability`: the double loop over i below the sport's bound and j
      below i, adding the chance of the score i-j. `expFor`/`expAgainst` are e^(-goalsFor)
      and e^(-goalsAgainst). */
  method PoissonProbability(goalsFor: real, goalsAgainst: real, sport: string, expFor: real, expAgainst: real)
    returns (r: PoissonPrediction)
    ensures var p := ParamsFor(sport);
            && r.predictedProbability == WinSum(MaxScore(p.scoringType), goalsFor, expFor, goalsAgainst, expAgainst)
            && r.scoringType == p.scoringType
    ensures r.goalsFor == goalsFor && r.goalsAgainst == goalsAgainst && r.sport == Js.Lower(sport)
    ensures goalsFor >= 0.0 && expFor >= 0.0 && goalsAgainst >= 0.0 && expAgainst >= 0.0 ==>
              r.predictedProbability >= 0.0
  {
    var params := ParamsFor(sport);
    var maxScore := MaxScore(params.scoringType);
    var winProbability := 0.0;
    var i := 0;
    while i < maxScore
      invariant 0 <= i <= maxScore
      invariant winProbability == WinSum(i, goalsFor, expFor, goalsAgainst, expAgainst)
    {
      var row := WinningRow(i, goalsFor, goalsAgainst, expFor, expAgainst);
      winProbability := winProbability + row;
      i := i + 1;
    }
    assert goalsFor >= 0.0 && expFor >= 0.0 && goalsAgainst >= 0.0 && expAgainst >= 0.0 ==>
             winProbability >= 0.0 by {
      if goalsFor >= 0.0 && expFor >= 0.0 && goalsAgainst >= 0.0 && expAgainst >= 0.0 {
        WinSumNonNegative(maxScore, goalsFor, expFor, goalsAgainst, expAgainst);
      }
    }
    r := PoissonPrediction(winProbability, goalsFor, goalsAgainst, Js.Lower(sport), params.scoringType);
  }

  /** The inner loop of `calculatePoissonProbability`: the chance that the first side scores
      exactly i and the second side fewer. */
  method WinningRow(i: nat, goalsFor: real, goalsAgainst: real, expFor: real, expAgainst: real)
    returns (row: real)
    ensures row == RowSum(i, i, goalsFor, expFor, goalsAgainst, expAgainst)
  {
    var j := 0;
    row := 0.0;
    while j < i
      invariant 0 <= j <= i
      invariant row == RowSum(i, j, goalsFor, expFor, goalsAgainst, expAgainst)
    {
      row := row + Poisson(i, goalsFor, expFor) * Poisson(j, goalsAgainst, expAgainst);
      j := j + 1;
    }
  }

  // ---------------------------------------------------------------- regression

  datatype FeatureWeights = FeatureWeights(
    homeAdvantage: real,
    recentForm: real,
    headToHead: real,
    restDays: real,
    injuries: real,
    weather: real,
    venue: real)

  const DefaultWeights := FeatureWeights(0.1, 0.3, 0.2, 0.1, 0.1, 0.1, 0.1)

  /** The weights for a sport: baseball weighs weather up and home advantage down, soccer
      weighs home advantage and venue up, every other sport keeps the defaults. */
  function WeightsFor(sport: string): (w: FeatureWeights)
    ensures Js.Lower(sport) == "baseball" ==> w == DefaultWeights.(weather := 0.15, homeAdvantage := 0.08)
    ensures Js.Lower(sport) == "soccer" ==> w == DefaultWeights.(homeAdvantage := 0.15, venue := 0.15)
    ensures Js.Lower(sport) != "baseball" && Js.Lower(sport) != "soccer" ==> w == DefaultWeights
  {
    var key := Js.Lower(sport);
    if key == "baseball" then DefaultWeights.(weather := 0.15, homeAdvantage := 0.08)
    else if key == "soccer" then DefaultWeights.(homeAdvantage := 0.15, venue := 0.15)
    else DefaultWeights
  }

  /** `weights[feature]`: the named weight, 0 (falsy) for a name the table does not have. */
  function WeightOf(w: FeatureWeights, feature: string): real
  {
    match feature
    case "homeAdvantage" => w.homeAdvantage
    case "recentForm" => w.recentForm
    case "headToHead" => w.headToHead
    case "restDays" => w.restDays
    case "injuries" => w.injuries
    case "weather" => w.weather
    case "venue" => w.venue
    case _ => 0.0
  }

  /** Every weight of a sport's table is positive, so truthy. */
  lemma KnownWeightsPositive(sport: string, feature: string)
    requires feature in {"homeAdvantage", "recentForm", "headToHead", "restDays", "injuries", "weather", "venue"}
    ensures WeightOf(WeightsFor(sport), feature) > 0.0
  {
  }

  /** The weighted sum over an object's entries in key order, skipping features whose
      weight is falsy. */
  function WeightedSum(w: FeatureWeights, features: seq<(string, real)>): (r: real)
    ensures (forall k :: 0 <= k < |features| ==> WeightOf(w, features[k].0) == 0.0) ==> r == 0.0
    ensures (forall k :: 0 <= k < |features| ==> WeightOf(w, features[k].0) * features[k].1 >= 0.0) ==> r >= 0.0
  {
    if |features| == 0 then 0.0
    else
      WeightedSum(w, features[..|features| - 1]) + WeightedTerm(w, features[|features| - 1])
  }

  /** One feature's share of the sum; a feature whose weight is falsy adds nothing. */
  function WeightedTerm(w: FeatureWeights, feature: (string, real)): real
  {
    var weight := WeightOf(w, feature.0);
    if weight != 0.0 then weight * feature.1 else 0.0
  }

  datatype RegressionPrediction = RegressionPrediction(predictedProbability: real, featureWeights: FeatureWeights,
                                                       sport: string)

  /** `calculateRegressionProbability`: 0.5 plus the weighted features, clamped to [0, 1].
      The features arrive as key/value pairs and are read as the object they build, so a
      repeated key counts once, with its last value. */
  function RegressionProbability(features: seq<(string, real)>, sport: string): (r: RegressionPrediction)
    ensures 0.0 <= r.predictedProbability <= 1.0
    ensures var s := 0.5 + WeightedSum(WeightsFor(sport), Js.Entries(features));
            0.0 <= s <= 1.0 ==> r.predictedProbability == s
    ensures r.featureWeights == WeightsFor(sport) && r.sport == Js.Lower(sport)
  {
    var w := WeightsFor(sport);
    RegressionPrediction(Clamp01(0.5 + WeightedSum(w, Js.Entries(features))), w, Js.Lower(sport))
  }

  /** Features the table does not name change nothing. */
  lemma {:induction false} UnknownFeaturesIgnored(w: FeatureWeights, features: seq<(string, real)>, name: string,
                                                  value: real)
    requires WeightOf(w, name) == 0.0
    ensures WeightedSum(w, features + [(name, value)]) == WeightedSum(w, features)
  {
    assert (features + [(name, value)])[..|features|] == features;
  }

  /** The weighted sum of two lists of features is the sum of their weighted sums, so the
      order of the keys does not matter. */
  lemma {:induction false} WeightedSumAppend(w: FeatureWeights, a: seq<(string, real)>, b: seq<(string, real)>)
    ensures WeightedSum(w, a + b) == WeightedSum(w, a) + WeightedSum(w, b)
  {
    if |b| > 0 {
      var b' := b[..|b| - 1];
      assert (a + b)[..|a + b| - 1] == a + b';
      assert (a + b)[|a + b| - 1] == b[|b| - 1];
      WeightedSumAppend(w, a, b');
      assert WeightedSum(w, a + b) == WeightedSum(w, a + b') + WeightedTerm(w, b[|b| - 1]);
    } else {
      assert a + b == a;
    }
  }

  /** The weighted sum splits around any one feature. */
  lemma WeightedSumSplit(w: FeatureWeights, a: seq<(string, real)>, i: nat)
    requires i < |a|
    ensures WeightedSum(w, a) == WeightedSum(w, a[..i]) + WeightedTerm(w, a[i]) + WeightedSum(w, a[i + 1..])
  {
    assert a == a[..i] + [a[i]] + a[i + 1..];
    WeightedSumAppend(w, a[..i] + [a[i]], a[i + 1..]);
    WeightedSumAppend(w, a[..i], [a[i]]);
    assert [a[i]][..0] == [];
  }

  /** Two entry lists of the same object, whatever their order, give the same weighted
      sum: the sum depends on each key's value only. */
  lemma {:induction false} SameObjectSameSum(w: FeatureWeights, a: seq<(string, real)>, b: seq<(string, real)>)
    requires Js.DistinctKeys(a) && Js.DistinctKeys(b)
    requires forall n :: Js.Get(a, n) == Js.Get(b, n)
    ensures WeightedSum(w, a) == WeightedSum(w, b)
    decreases |a|
  {
    if |a| == 0 {
      var x := if |b| > 0 then b[0].0 else "";
      assert Js.Get(b, x) == Js.Get(a, x) == None;
    } else {
      var p := a[|a| - 1];
      var init := a[..|a| - 1];
      assert Js.Get(a, p.0) == Some(p.1);
      var j :| 0 <= j < |b| && b[j] == (p.0, Js.Get(b, p.0).value);
      var rest := b[..j] + b[j + 1..];
      Js.RemoveDistinct(b, j);
      forall n: string
        ensures Js.Get(init, n) == Js.Get(rest, n)
      {
        if n == p.0 {
          assert forall k :: 0 <= k < |init| ==> init[k].0 != p.0;
        } else {
          Js.RemoveKeeps(b, j, n);
          assert Js.Get(a, n) == Js.Get(init, n);
        }
      }
      assert Js.DistinctKeys(init);
      SameObjectSameSum(w, init, rest);
      WeightedSumSplit(w, b, j);
      WeightedSumAppend(w, b[..j], b[j + 1..]);
    }
  }

  /** The prediction depends only on the object the pairs build: two lists that give every
      key the same value predict the same. */
  lemma RegressionReadsObject(f: seq<(string, real)>, g: seq<(string, real)>, sport: string)
    requires forall n :: Js.Get(f, n) == Js.Get(g, n)
    ensures RegressionProbability(f, sport) == RegressionProbability(g, sport)
  {
    SameObjectSameSum(WeightsFor(sport), Js.Entries(f), Js.Entries(g));
  }

  /** A repeated key counts once, with its last value: 0.5 + 0.3 · (-0.5). */
  lemma RepeatedKeyLastValue()
    ensures RegressionProbability([("recentForm", 0.5), ("recentForm", -0.5)], "basketball").predictedProbability
            == 0.35
  {
    var f: seq<(string, real)> := [("recentForm", 0.5), ("recentForm", -0.5)];
    assert f[..1][..0] == [];
    assert Js.Entries(f[..1]) == [("recentForm", 0.5)];
    var o := Js.Entries(f);
    assert Js.HasKey(Js.Entries(f[..1]), "recentForm");
    assert |o| == 1 && o[0].0 == "recentForm";
    assert Js.Get(o, "recentForm") == Some(-0.5);
    assert o[1..] == [];
    assert o == [("recentForm", -0.5)];
    assert o[..0] == [];
  }

  /** Setting an unweighted key of an object, new or present, leaves its weighted sum
      unchanged. */
  lemma PutUnweighted(w: FeatureWeights, o: seq<(string, real)>, name: string, value: real)
    requires Js.DistinctKeys(o) && WeightOf(w, name) == 0.0
    ensures WeightedSum(w, Js.Put(o, name, value)) == WeightedSum(w, o)
  {
    if Js.HasKey(o, name) {
      var i := Js.PutReplaces(o, name, value);
      var o' := o[i := (name, value)];
      WeightedSumSplit(w, o, i);
      WeightedSumSplit(w, o', i);
      assert o'[..i] == o[..i] && o'[i + 1..] == o[i + 1..];
    } else {
      UnknownFeaturesIgnored(w, o, name, value);
    }
  }

  /** Setting a key the weight table does not name leaves the prediction unchanged. */
  lemma UnweightedKeyIgnored(features: seq<(string, real)>, sport: string, name: string, value: real)
    requires WeightOf(WeightsFor(sport), name) == 0.0
    ensures RegressionProbability(features + [(name, value)], sport) == RegressionProbability(features, sport)
  {
    var extended := features + [(name, value)];
    assert extended[..|extended| - 1] == features;
    assert Js.Entries(extended) == Js.Put(Js.Entries(features), name, value);
    PutUnweighted(WeightsFor(sport), Js.Entries(features), name, value);
  }

  /** No features leave the base probability of one half. */
  lemma NoFeaturesGiveHalf(sport: string)
    ensures RegressionProbability([], sport).predictedProbability == 0.5
  {
  }
}
