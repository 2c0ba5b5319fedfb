/** The model blend of `calculateProbability`
    (backend/src/controllers/probabilityController.js): the regression, Elo and (when the
    goal rates are given) Poisson predictions are averaged with fixed weights, the
    profile's home advantage is added for the home side, and the result is clamped to
    [0, 1]. Looking up the user's default profile is left to the caller, who passes its
    home advantage. */
module ProbabilityBlend {
  import opened Wrappers
  import opened RealMath
  import Js
  import StatModels

  const RegressionWeight: real := 0.4
  const EloWeight: real := 0.4
  const PoissonWeight: real := 0.2

  /** A number is truthy when it is present and not 0. */
  predicate TruthyNumber(x: Option<real>)
  {
    x.Some? && x.value != 0.0
  }

  /** The weighted average of the components: with a Poisson prediction the three weights
      0.4/0.4/0.2, without one the first two weights rescaled by their total 0.8. */
  function Blend(regression: real, elo: real, poisson: Option<real>): (r: real)
    ensures poisson.Some? ==> r == 0.4 * regression + 0.4 * elo + 0.2 * poisson.value
    ensures poisson.None? ==> r == (regression + elo) / 2.0
    ensures 0.0 <= regression <= 1.0 && 0.0 <= elo <= 1.0 && (poisson.Some? ==> 0.0 <= poisson.value <= 1.0) ==>
              0.0 <= r <= 1.0
  {
    var partial := regression * RegressionWeight + elo * EloWeight;
    if poisson.Some? then partial + poisson.value * PoissonWeight
    else partial / (RegressionWeight + EloWeight)
  }

  /** The Elo, Poisson and exponential values the caller supplies: 10^(-h/400) for the
      sport's home advantage h and e^(-goalsFor), e^(-goalsAgainst). */
  datatype Transcendentals = Transcendentals(eloPower: real, expFor: real, expAgainst: real)

  datatype Components = Components(
    regression: StatModels.RegressionPrediction,
    elo: StatModels.EloPrediction,
    poisson: Option<real>)

  datatype Answer = Answer(probability: real, components: Components)

  /** The Poisson component: computed only when both goal rates are truthy numbers, as the
      win probability the Poisson loop accumulates. */
  function PoissonComponent(factors: seq<(string, real)>, sport: string, t: Transcendentals): (r: Option<real>)
    ensures r.Some? <==> TruthyNumber(Js.Get(factors, "goalsFor")) && TruthyNumber(Js.Get(factors, "goalsAgainst"))
  {
    var goalsFor := Js.Get(factors, "goalsFor");
    var goalsAgainst := Js.Get(factors, "goalsAgainst");
    if TruthyNumber(goalsFor) && TruthyNumber(goalsAgainst) then
      var bound := StatModels.MaxScore(StatModels.ParamsFor(sport).scoringType);
      Some(StatModels.WinSum(bound, goalsFor.value, t.expFor, goalsAgainst.value, t.expAgainst))
    else None
  }

  /** `calculateProbability` once the default profile is found. The Elo component is
      given empty team names because `calculateEloRating` does not read them. */
  function CalculateProbability(profileHomeAdvantage: real, sport: string, factors: seq<(string, real)>,
                                isHomeTeam: bool, t: Transcendentals): (r: Answer)
    requires t.eloPower > 0.0
    ensures 0.0 <= r.probability <= 1.0
    ensures r.components.regression == StatModels.RegressionProbability(factors, sport)
    ensures r.components.elo == StatModels.EloRating("", "", sport, t.eloPower)
    ensures r.components.poisson == PoissonComponent(factors, sport, t)
    ensures var raw := Blend(r.components.regression.predictedProbability, r.components.elo.predictedProbability,
                             r.components.poisson)
                       + (if isHomeTeam then profileHomeAdvantage else 0.0);
            0.0 <= raw <= 1.0 ==> r.probability == raw
  {
    var regression := StatModels.RegressionProbability(factors, sport);
    var elo := StatModels.EloRating("", "", sport, t.eloPower);
    var poisson := PoissonComponent(factors, sport, t);
    var blended := Blend(regression.predictedProbability, elo.predictedProbability, poisson);
    var withHome := if isHomeTeam then blended + profileHomeAdvantage else blended;
    Answer(Clamp01(withHome), Components(regression, elo, poisson))
  }

  /** A goal rate of 0 is falsy, so it switches the Poisson component off. */
  lemma ZeroGoalsSkipPoisson(factors: seq<(string, real)>, sport: string, t: Transcendentals)
    requires Js.Get(factors, "goalsFor") == Some(0.0)
    ensures PoissonComponent(factors, sport, t).None?
  {
  }

  /** Adding a key the blend does not read (the team and opponent ratings, say) leaves the
      answer unchanged: the Elo component is computed from the sport alone. */
  lemma RatingsDoNotMatter(profileHomeAdvantage: real, sport: string, factors: seq<(string, real)>,
                           isHomeTeam: bool, t: Transcendentals, key: string, value: real)
    requires t.eloPower > 0.0
    requires key in {"teamRating", "opponentRating"}
    ensures CalculateProbability(profileHomeAdvantage, sport, factors + [(key, value)], isHomeTeam, t)
              == CalculateProbability(profileHomeAdvantage, sport, factors, isHomeTeam, t)
  {
    var extended := factors + [(key, value)];
    assert extended[..|extended| - 1] == factors;
    assert Js.Get(extended, "goalsFor") == Js.Get(factors, "goalsFor");
    assert Js.Get(extended, "goalsAgainst") == Js.Get(factors, "goalsAgainst");
    assert PoissonComponent(extended, sport, t) == PoissonComponent(factors, sport, t);
    StatModels.UnweightedKeyIgnored(factors, sport, key, value);
  }

  /** The answer depends only on the factor object the pairs build: two lists that give
      every key the same value, a repeated key taking its last value, get the same
      answer. */
  lemma BlendReadsObject(profileHomeAdvantage: real, sport: string, f: seq<(string, real)>, g: seq<(string, real)>,
                         isHomeTeam: bool, t: Transcendentals)
    requires t.eloPower > 0.0
    requires forall n :: Js.Get(f, n) == Js.Get(g, n)
    ensures CalculateProbability(profileHomeAdvantage, sport, f, isHomeTeam, t)
              == CalculateProbability(profileHomeAdvantage, sport, g, isHomeTeam, t)
  {
    StatModels.RegressionReadsObject(f, g, sport);
    assert PoissonComponent(f, sport, t) == PoissonComponent(g, sport, t);
  }

  /** The away side's answer never exceeds the home side's when the home advantage is
      non-negative. */
  lemma HomeAdvantageHelps(profileHomeAdvantage: real, sport: string, factors: seq<(string, real)>,
                           t: Transcendentals)
    requires t.eloPower > 0.0 && profileHomeAdvantage >= 0.0
    ensures CalculateProbability(profileHomeAdvantage, sport, factors, false, t).probability
              <= CalculateProbability(profileHomeAdvantage, sport, factors, true, t).probability
  {
  }
}
