/** The probability profile record of backend/src/models/probabilityProfile.js: its schema
    bounds, and the save hooks that stamp the update time, require the factor weights to sum
    to 1, and allow one default profile per user and sport. The database lookup of the
    last hook is replaced by the list of the other stored profiles. */
module ProbabilityProfile {
  import opened Wrappers
  import opened RealMath

  datatype ProfileFactor = ProfileFactor(name: string, weight: real, value: real)

  datatype Profile = Profile(
    id: string,
    userId: string,
    name: string,
    sport: string,
    factors: seq<ProfileFactor>,
    homeAdvantage: real,
    baseProbability: real,
    isDefault: bool,
    updatedAt: int)

  const Sports: seq<string> := ["basketball", "football", "baseball", "hockey", "soccer"]

  /** How far the weight total may be from 1. */
  const Tolerance: real := 0.0001

  predicate InUnit(x: real)
  {
    0.0 <= x <= 1.0
  }

  /** What the schema enforces: a non-empty profile name (a required string refuses the
      empty one), a known sport, a non-empty name for every factor, and every factor
      weight, the home advantage and the base probability in [0, 1]. */
  predicate SchemaValid(p: Profile)
  {
    && |p.name| > 0
    && p.sport in Sports
    && (forall i :: 0 <= i < |p.factors| ==> |p.factors[i].name| > 0)
    && (forall i :: 0 <= i < |p.factors| ==> InUnit(p.factors[i].weight))
    && InUnit(p.homeAdvantage)
    && InUnit(p.baseProbability)
  }

  function Weights(factors: seq<ProfileFactor>): (ws: seq<real>)
    ensures |ws| == |factors|
    ensures forall i :: 0 <= i < |factors| ==> ws[i] == factors[i].weight
  {
    seq(|factors|, i requires 0 <= i < |factors| => factors[i].weight)
  }

  /** `factors.reduce((sum, factor) => sum + factor.weight, 0)`. */
  function TotalWeight(factors: seq<ProfileFactor>): real
  {
    Sum(Weights(factors))
  }

  predicate WeightsSumToOne(p: Profile)
  {
    Abs(TotalWeight(p.factors) - 1.0) <= Tolerance
  }

  /** Another stored profile that is already the user's default for the same sport. */
  predicate ClashingDefault(p: Profile, other: Profile)
  {
    other.userId == p.userId && other.sport == p.sport && other.isDefault && other.id != p.id
  }

  predicate DefaultIsFree(p: Profile, stored: seq<Profile>)
  {
    !p.isDefault || forall i :: 0 <= i < |stored| ==> !ClashingDefault(p, stored[i])
  }

  datatype SaveError = ValidationFailed | WeightSum | DuplicateDefault

  /** Saving: schema validation first, then the hooks in their registration order — the
      update time is stamped, the weight total checked, then the default checked against the
      stored profiles. A hook that reports an error and then calls `next()` again still ends
      the save with that error. */
  function Save(p: Profile, stored: seq<Profile>, now: int): (r: Result<Profile, SaveError>)
    ensures r.Ok? <==> SchemaValid(p) && WeightsSumToOne(p) && DefaultIsFree(p, stored)
    ensures r == Err(ValidationFailed) <==> !SchemaValid(p)
    ensures r == Err(WeightSum) <==> SchemaValid(p) && !WeightsSumToOne(p)
    ensures r.Ok? ==> r.value == p.(updatedAt := now)
  {
    if !SchemaValid(p) then Err(ValidationFailed)
    else
      var stamped := p.(updatedAt := now);
      if !WeightsSumToOne(stamped) then Err(WeightSum)
      else if !DefaultIsFree(stamped, stored) then Err(DuplicateDefault)
      else Ok(stamped)
  }

  /** A saved profile meets every bound, its weights sum to 1 within the tolerance, and if it
      is a default no other stored profile is the user's default for that sport. */
  lemma SavedProfileIsConsistent(p: Profile, stored: seq<Profile>, now: int)
    requires Save(p, stored, now).Ok?
    ensures var s := Save(p, stored, now).value;
            && SchemaValid(s)
            && 1.0 - Tolerance <= TotalWeight(s.factors) <= 1.0 + Tolerance
            && (s.isDefault ==> forall i :: 0 <= i < |stored| ==> !ClashingDefault(s, stored[i]))
  {
  }

  /** A profile without a name, or with an unnamed factor, fails validation. */
  lemma UnnamedRejected(p: Profile, stored: seq<Profile>, now: int, i: nat)
    requires |p.name| == 0 || (i < |p.factors| && |p.factors[i].name| == 0)
    ensures Save(p, stored, now) == Err(ValidationFailed)
  {
  }

  /** With no factors the total is 0, so such a profile is never saved. */
  lemma EmptyFactorsRejected(p: Profile, stored: seq<Profile>, now: int)
    requires |p.factors| == 0
    ensures Save(p, stored, now).Err?
  {
    assert Weights(p.factors) == [];
  }

  /** Appending a factor of weight 0 leaves the total, and so the verdict on the weights,
      unchanged. */
  lemma ZeroWeightFactorIsNeutral(p: Profile, name: string, value: real)
    ensures TotalWeight(p.factors + [ProfileFactor(name, 0.0, value)]) == TotalWeight(p.factors)
    ensures WeightsSumToOne(p.(factors := p.factors + [ProfileFactor(name, 0.0, value)])) == WeightsSumToOne(p)
  {
    var extended := p.factors + [ProfileFactor(name, 0.0, value)];
    assert Weights(extended)[..|extended| - 1] == Weights(p.factors);
  }

  /** Saving a saved profile again (at the same time) gives the same profile. */
  lemma SaveIsIdempotent(p: Profile, stored: seq<Profile>, now: int)
    requires Save(p, stored, now).Ok?
    ensures Save(Save(p, stored, now).value, stored, now) == Save(p, stored, now)
  {
    var s := Save(p, stored, now).value;
    assert s.factors == p.factors;
    assert forall i :: 0 <= i < |stored| ==> (ClashingDefault(s, stored[i]) <==> ClashingDefault(p, stored[i]));
  }

  /** A profile that is not a default never clashes with another. */
  lemma NonDefaultNeverClashes(p: Profile, stored: seq<Profile>, now: int)
    requires !p.isDefault && SchemaValid(p) && WeightsSumToOne(p)
    ensures Save(p, stored, now) == Ok(p.(updatedAt := now))
  {
  }
}
