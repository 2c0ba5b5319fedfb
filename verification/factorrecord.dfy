/** The factor definition record of backend/src/models/factorModel.js: its schema bounds,
    the per-user weight table and the sport filter. */
module FactorRecord {
  import opened Wrappers

  /** One stored user weight; the timestamp is whatever clock value the caller supplies. */
  datatype UserWeight = UserWeight(userId: string, value: real, lastUpdated: int)

  /** A factor definition. `minValue`/`maxValue` are `None` when the document leaves them
      undefined; `correlations` keeps the insertion order of the stored map. */
  datatype Factor = Factor(
    key: string,
    name: string,
    category: string,
    sports: seq<string>,
    inputType: string,
    options: seq<string>,
    minValue: Option<real>,
    maxValue: Option<real>,
    statisticalWeight: real,
    historicalImpact: real,
    correlations: seq<(string, real)>,
    userWeights: map<string, UserWeight>)

  const InputTypes: set<string> := {"binary", "scale", "percentage", "select"}
  const DefaultWeight: real := 5.0
  const DefaultHistoricalImpact: real := 0.5

  /** A weight on the schema's 0-10 scale. */
  predicate ValidWeight(w: real)
  {
    0.0 <= w <= 10.0
  }

  /** What the schema enforces on a saved factor. */
  predicate ValidFactor(f: Factor)
  {
    && f.inputType in InputTypes
    && ValidWeight(f.statisticalWeight)
    && 0.0 <= f.historicalImpact <= 1.0
    && forall u :: u in f.userWeights ==> ValidWeight(f.userWeights[u].value)
  }

  /** A new factor with every schema default filled in. */
  function NewFactor(key: string, name: string, category: string): (f: Factor)
    ensures ValidFactor(f)
    ensures f.sports == ["all"] && f.inputType == "scale"
    ensures f.statisticalWeight == DefaultWeight && f.historicalImpact == DefaultHistoricalImpact
  {
    Factor(key, name, category, ["all"], "scale", [], None, None,
           DefaultWeight, DefaultHistoricalImpact, [], map[])
  }

  /** `getUserWeight`: the stored entry's value when the user has one (an entry is an
      object, so even a stored 0 is returned), otherwise the statistical weight. */
  function GetUserWeight(f: Factor, userId: string): (w: real)
    ensures userId in f.userWeights ==> w == f.userWeights[userId].value
    ensures userId !in f.userWeights ==> w == f.statisticalWeight
    ensures ValidFactor(f) ==> ValidWeight(w)
  {
    if userId in f.userWeights then f.userWeights[userId].value else f.statisticalWeight
  }

  /** `setUserWeight`: store (or replace) the user's entry. */
  function SetUserWeight(f: Factor, userId: string, value: real, now: int): (r: Factor)
    ensures r.userWeights.Keys == f.userWeights.Keys + {userId}
    ensures r == f.(userWeights := r.userWeights)
    ensures ValidFactor(f) && ValidWeight(value) ==> ValidFactor(r)
  {
    f.(userWeights := f.userWeights[userId := UserWeight(userId, value, now)])
  }

  /** Reading back a weight just set yields it; no other user's weight moves. */
  lemma SetThenGetUserWeight(f: Factor, userId: string, value: real, now: int, other: string)
    ensures GetUserWeight(SetUserWeight(f, userId, value, now), userId) == value
    ensures other != userId ==>
              GetUserWeight(SetUserWeight(f, userId, value, now), other) == GetUserWeight(f, other)
  {
  }

  /** The condition of `findBySport`: the factor applies to every sport or lists this one. */
  predicate AppliesTo(f: Factor, sport: string)
  {
    "all" in f.sports || sport in f.sports
  }

  /** `findBySport` over a collection, keeping stored order. */
  function FindBySport(factors: seq<Factor>, sport: string): (r: seq<Factor>)
    ensures |r| <= |factors|
    ensures forall f :: f in r <==> f in factors && AppliesTo(f, sport)
  {
    if |factors| == 0 then []
    else
      var rest := FindBySport(factors[1..], sport);
      assert forall f :: f in factors <==> f == factors[0] || f in factors[1..];
      if AppliesTo(factors[0], sport) then [factors[0]] + rest else rest
  }

  /** A factor marked 'all' is found for any sport. */
  lemma FindBySportKeepsUniversal(factors: seq<Factor>, sport: string, f: Factor)
    requires f in factors && "all" in f.sports
    ensures f in FindBySport(factors, sport)
  {
  }
}
