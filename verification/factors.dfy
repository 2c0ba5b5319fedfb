/** The multi-factor probability engine of backend/src/utils/factorCalculations.js:
    each user input is normalised against its factor definition, weighted into a
    contribution, adjusted for pairwise correlation, folded into a probability around a
    base, and given a confidence score and interval.
    Normalised values, contributions, the probability and the confidence are JavaScript
    numbers (`Ieee.Number`): NaN and both infinities are kept apart. */
module Factors {
  import opened Wrappers
  import opened RealMath
  import opened Ieee
  import Js
  import opened FactorRecord

  // ---------------------------------------------------------------- normalisation

  /** `options.indexOf(value)`: strict equality, so only a string can match. */
  function IndexOf(options: seq<string>, value: Js.Value): (r: int)
    ensures -1 <= r < |options|
    ensures r >= 0 ==> value == Js.Str(options[r])
    ensures r >= 0 ==> forall k :: 0 <= k < r ==> value != Js.Str(options[k])
    ensures r < 0 ==> forall k :: 0 <= k < |options| ==> value != Js.Str(options[k])
  {
    if |options| == 0 then -1
    else if value == Js.Str(options[0]) then 0
    else
      var k := IndexOf(options[1..], value);
      if k < 0 then -1 else k + 1
  }

  /** A normalised value as JavaScript holds it: a number (NaN and the infinities
      included), or the untouched input of a `percentage` factor. */
  datatype Normalized = Numeric(x: Number) | Passed(v: Js.Value)

  /** The number of a normalised value when `typeof` calls it one. */
  function AsNumber(n: Normalized): (r: Option<Number>)
    ensures n.Numeric? ==> r == Some(n.x)
    ensures n.Passed? ==> (r.Some? <==> Js.IsNumber(n.v))
  {
    match n
    case Numeric(x) => Some(x)
    case Passed(v) =>
      match v
      case Num(x) => Some(Finite(x))
      case NaN => Some(NotANumber)
      case _ => None
  }

  /** The number an arithmetic operator reads from a normalised value (`Number(x)`). */
  function Coerce(n: Normalized): (r: Number)
    ensures AsNumber(n).Some? ==> r == AsNumber(n).value
    ensures n.Passed? ==> r == FromOption(Js.ToNum(n.v))
  {
    match n
    case Numeric(x) => x
    case Passed(v) => FromOption(Js.ToNum(v))
  }

  /** A normalised value that is NaN. */
  predicate IsNaN(n: Normalized)
  {
    AsNumber(n) == Some(NotANumber)
  }

  /** A normalised value that is an infinity. */
  predicate IsInfiniteValue(n: Normalized)
  {
    AsNumber(n).Some? && IsInfinite(AsNumber(n).value)
  }

  /** `normalizeFactorValue`: a factor input mapped onto the 0-1 scale its definition
      describes. A percentage is passed through untouched, whatever its type. */
  function NormalizeFactorValue(value: Js.Value, f: Factor): (r: Normalized)
    ensures f.inputType == "binary" ==>
              (r == Numeric(Finite(1.0)) <==> Js.Truthy(value)) && (r == Numeric(Finite(0.0)) <==> !Js.Truthy(value))
    ensures f.inputType == "percentage" ==> r == Passed(value)
    ensures f.inputType !in InputTypes ==> r == Numeric(Finite(0.0))
    ensures f.inputType == "scale" && (f.minValue.None? || f.maxValue.None?) ==> r == Numeric(ScaledByTen(value))
    ensures f.inputType == "scale" && f.minValue.Some? && f.maxValue.Some? ==>
              r == Numeric(Rescale(Js.ToNum(value), f.minValue.value, f.maxValue.value))
    ensures f.inputType == "select" && |f.options| == 0 ==> r == Numeric(Finite(0.0))
    ensures f.inputType == "select" && IndexOf(f.options, value) < 0 ==> r == Numeric(Finite(0.0))
    ensures f.inputType == "select" && |f.options| == 1 && IndexOf(f.options, value) == 0 ==> r == Numeric(NotANumber)
  {
    if f.inputType == "binary" then Numeric(Finite(if Js.Truthy(value) then 1.0 else 0.0))
    else if f.inputType == "scale" then
      if f.minValue.Some? && f.maxValue.Some? then
        Numeric(Rescale(Js.ToNum(value), f.minValue.value, f.maxValue.value))
      else
        Numeric(ScaledByTen(value))
    else if f.inputType == "percentage" then Passed(value)
    else if f.inputType == "select" then
      if |f.options| > 0 then
        var index := IndexOf(f.options, value);
        if index < 0 then Numeric(Finite(0.0))
        else Numeric(Div(Finite(index as real), Finite((|f.options| - 1) as real)))
      else Numeric(Finite(0.0))
    else Numeric(Finite(0.0))
  }

  /** `value / 10`, the default 0-10 scale: NaN exactly when `Number(value)` is. */
  function ScaledByTen(value: Js.Value): (r: Number)
    ensures r.NotANumber? <==> Js.ToNum(value).None?
    ensures !IsInfinite(r)
    ensures r.Finite? ==> r.value * 10.0 == Js.ToNum(value).value
  {
    Div(FromOption(Js.ToNum(value)), Finite(10.0))
  }

  /** `(value - min) / (max - min)`. With equal bounds the divisor is zero: a value above
      the bound gives +Infinity, one below it -Infinity, and the bound itself NaN. */
  function Rescale(value: Option<real>, lo: real, hi: real): (r: Number)
    ensures r.Finite? <==> value.Some? && lo != hi
    ensures r.Finite? ==> r.value * (hi - lo) + lo == value.value
    ensures value.None? ==> r.NotANumber?
    ensures value.Some? && lo == hi ==>
              && (r.PlusInfinity? <==> value.value > lo)
              && (r.MinusInfinity? <==> value.value < lo)
              && (r.NotANumber? <==> value.value == lo)
  {
    Div(Sub(FromOption(value), Finite(lo)), Finite(hi - lo))
  }

  /** A scale input inside its bounds normalises into [0, 1], with the bounds at the ends. */
  lemma ScaleWithinBounds(v: real, f: Factor)
    requires f.inputType == "scale" && f.minValue.Some? && f.maxValue.Some?
    requires f.minValue.value < f.maxValue.value
    requires f.minValue.value <= v <= f.maxValue.value
    ensures NormalizeFactorValue(Js.Num(v), f).Numeric?
    ensures InUnit(NormalizeFactorValue(Js.Num(v), f).x)
    ensures v == f.minValue.value ==> NormalizeFactorValue(Js.Num(v), f) == Numeric(Finite(0.0))
    ensures v == f.maxValue.value ==> NormalizeFactorValue(Js.Num(v), f) == Numeric(Finite(1.0))
  {
    var lo, hi := f.minValue.value, f.maxValue.value;
    assert NormalizeFactorValue(Js.Num(v), f) == Numeric(Finite((v - lo) / (hi - lo)));
    QuotientInUnit(v - lo, hi - lo);
    if v == hi {
      SelfQuotient(hi - lo);
    }
  }

  lemma SelfQuotient(d: real)
    requires d != 0.0
    ensures d / d == 1.0
  {
  }

  /** A scale factor whose bounds coincide sends a number above the bound to +Infinity,
      one below it to -Infinity, and the bound itself to NaN. */
  lemma EqualBounds(v: real, f: Factor)
    requires f.inputType == "scale" && f.minValue.Some? && f.maxValue == f.minValue
    ensures v > f.minValue.value ==> NormalizeFactorValue(Js.Num(v), f) == Numeric(PlusInfinity)
    ensures v < f.minValue.value ==> NormalizeFactorValue(Js.Num(v), f) == Numeric(MinusInfinity)
    ensures v == f.minValue.value ==> NormalizeFactorValue(Js.Num(v), f) == Numeric(NotANumber)
  {
  }

  /** A listed option of a select factor with at least two options lands at its position
      along [0, 1]: the first at 0, the last at 1. */
  lemma SelectPosition(f: Factor, k: nat)
    requires f.inputType == "select" && |f.options| >= 2 && k < |f.options|
    requires forall i :: 0 <= i < k ==> f.options[i] != f.options[k]
    ensures NormalizeFactorValue(Js.Str(f.options[k]), f)
              == Numeric(Finite(k as real / (|f.options| - 1) as real))
    ensures InUnit(NormalizeFactorValue(Js.Str(f.options[k]), f).x)
  {
    assert IndexOf(f.options, Js.Str(f.options[k])) == k;
  }

  // ---------------------------------------------------------------- contribution and weight

  /** `calculateFactorContribution`: value times weight (on its 0-10 scale) times impact.
      An infinite value stays infinite unless the weight or the impact is 0, which makes
      it NaN. */
  function FactorContribution(normalized: Normalized, weight: real, impact: real): (r: Number)
    ensures r.Finite? <==> Coerce(normalized).Finite?
    ensures r.NotANumber? <==>
              Coerce(normalized).NotANumber? || (IsInfinite(Coerce(normalized)) && weight * impact == 0.0)
    ensures r.PlusInfinity? <==>
              (Coerce(normalized).PlusInfinity? && weight * impact > 0.0)
              || (Coerce(normalized).MinusInfinity? && weight * impact < 0.0)
  {
    var v := Coerce(normalized);
    var r := Mul(Mul(v, Finite(weight / 10.0)), Finite(impact));
    assert weight * impact == 0.0 <==> weight == 0.0 || impact == 0.0;
    assert weight * impact > 0.0 <==> (weight > 0.0 && impact > 0.0) || (weight < 0.0 && impact < 0.0);
    r
  }

  /** With value and impact in [0, 1] and weight in [0, 10], the contribution is in [0, 1]. */
  lemma ContributionBounded(v: real, weight: real, impact: real)
    requires 0.0 <= v <= 1.0 && ValidWeight(weight) && 0.0 <= impact <= 1.0
    ensures InUnit(FactorContribution(Numeric(Finite(v)), weight, impact))
  {
    var w := weight / 10.0;
    PartOf(v, w);
    var x := v * w;
    assert 0.0 <= x <= 1.0;
    PartOf(impact, x);
    assert x * impact == impact * x;
    assert FactorContribution(Numeric(Finite(v)), weight, impact) == Finite(x * impact);
  }

  /** One input of `processFactor`: `weight` is `None` when the request leaves it out. */
  datatype FactorInput = FactorInput(factorKey: string, value: Js.Value, weight: Option<real>, userId: string)

  /** `input.weight || factorDef.getUserWeight(userId) || factorDef.statisticalWeight`:
      each alternative is skipped when absent or 0. */
  function ResolveWeight(weight: Option<real>, f: Factor, userId: string): (w: real)
    ensures weight.Some? && weight.value != 0.0 ==> w == weight.value
    ensures (weight.None? || weight.value == 0.0) && GetUserWeight(f, userId) != 0.0 ==>
              w == GetUserWeight(f, userId)
    ensures (weight.None? || weight.value == 0.0) && GetUserWeight(f, userId) == 0.0 ==>
              w == f.statisticalWeight
  {
    if weight.Some? && weight.value != 0.0 then weight.value
    else if GetUserWeight(f, userId) != 0.0 then GetUserWeight(f, userId)
    else f.statisticalWeight
  }

  /** An explicit weight of 0 counts as no weight at all. */
  lemma ZeroWeightFallsThrough(f: Factor, userId: string)
    ensures ResolveWeight(Some(0.0), f, userId) == ResolveWeight(None, f, userId)
    ensures userId !in f.userWeights ==> ResolveWeight(Some(0.0), f, userId) == f.statisticalWeight
  {
  }

  /** On a schema-valid factor, a missing or in-range input weight resolves into [0, 10]. */
  lemma ResolvedWeightValid(weight: Option<real>, f: Factor, userId: string)
    requires ValidFactor(f)
    requires weight.Some? ==> ValidWeight(weight.value)
    ensures ValidWeight(ResolveWeight(weight, f, userId))
  {
  }

  // ---------------------------------------------------------------- processed factors

  /** One entry of `processedFactors`. */
  datatype ProcessedFactor = ProcessedFactor(
    factorKey: string,
    name: string,
    value: Js.Value,
    normalizedValue: Normalized,
    weight: real,
    contribution: Number,
    category: string)

  /** Two lists that agree in everything but the contributions. */
  predicate SameFactors(a: seq<ProcessedFactor>, b: seq<ProcessedFactor>)
  {
    |a| == |b| && forall k :: 0 <= k < |a| ==> a[k] == b[k].(contribution := a[k].contribution)
  }

  /** The `.map` step of `processFactor` for an input whose definition was found. */
  function ProcessInput(input: FactorInput, f: Factor): (r: ProcessedFactor)
    ensures r.factorKey == input.factorKey && r.value == input.value
    ensures r.name == f.name && r.category == f.category
    ensures r.normalizedValue == NormalizeFactorValue(input.value, f)
    ensures r.weight == ResolveWeight(input.weight, f, input.userId)
    ensures r.contribution.Finite? <==> Coerce(r.normalizedValue).Finite?
    ensures r.contribution.NotANumber? ==> IsInfinite(Coerce(r.normalizedValue)) || Coerce(r.normalizedValue).NotANumber?
  {
    var normalized := NormalizeFactorValue(input.value, f);
    var weight := ResolveWeight(input.weight, f, input.userId);
    ProcessedFactor(input.factorKey, f.name, input.value, normalized, weight,
                    FactorContribution(normalized, weight, f.historicalImpact), f.category)
  }
  /** `factorMap.get(key)` after every definition was `set` in order: the last definition
      with the key wins. */
  function FindDefinition(defs: seq<Factor>, key: string): (r: Option<Factor>)
    ensures r.None? <==> forall k :: 0 <= k < |defs| ==> defs[k].key != key
    ensures r.Some? ==> r.value.key == key && r.value in defs
  {
    if |defs| == 0 then None
    else if defs[|defs| - 1].key == key then Some(defs[|defs| - 1])
    else
      var r := FindDefinition(defs[..|defs| - 1], key);
      assert forall k :: 0 <= k < |defs| - 1 ==> defs[..|defs| - 1][k] == defs[k];
      r
  }

  /** A definition is found exactly when one carries the key, and it is the last such. */
  lemma FindDefinitionLast(defs: seq<Factor>, key: string, k: nat)
    requires k < |defs| && defs[k].key == key
    requires forall j :: k < j < |defs| ==> defs[j].key != key
    ensures FindDefinition(defs, key) == Some(defs[k])
    decreases |defs|
  {
    if k < |defs| - 1 {
      FindDefinitionLast(defs[..|defs| - 1], key, k);
    }
  }

  /** The `.filter(...).map(...)` pipeline of `processFactor`. */
  function ProcessInputs(inputs: seq<FactorInput>, defs: seq<Factor>): (r: seq<ProcessedFactor>)
    ensures |r| <= |inputs|
    ensures forall k :: 0 <= k < |r| ==> FindDefinition(defs, r[k].factorKey).Some?
  {
    if |inputs| == 0 then []
    else
      var rest := ProcessInputs(inputs[1..], defs);
      match FindDefinition(defs, inputs[0].factorKey)
      case None => rest
      case Some(f) => [ProcessInput(inputs[0], f)] + rest
  }

  /** The keys of the inputs that have a definition, in input order. */
  function KnownKeys(inputs: seq<FactorInput>, defs: seq<Factor>): seq<string>
  {
    if |inputs| == 0 then []
    else if exists k :: 0 <= k < |defs| && defs[k].key == inputs[0].factorKey then
      [inputs[0].factorKey] + KnownKeys(inputs[1..], defs)
    else KnownKeys(inputs[1..], defs)
  }

  function FactorKeys(fs: seq<ProcessedFactor>): (r: seq<string>)
    ensures |r| == |fs| && forall k :: 0 <= k < |fs| ==> r[k] == fs[k].factorKey
  {
    seq(|fs|, k requires 0 <= k < |fs| => fs[k].factorKey)
  }

  lemma FactorKeysCons(head: ProcessedFactor, rest: seq<ProcessedFactor>)
    ensures FactorKeys([head] + rest) == [head.factorKey] + FactorKeys(rest)
  {
    var l, r := FactorKeys([head] + rest), [head.factorKey] + FactorKeys(rest);
    assert |l| == |r|;
    forall k | 0 <= k < |l|
      ensures l[k] == r[k]
    {
      if k > 0 {
        assert ([head] + rest)[k] == rest[k - 1];
      }
    }
  }

  /** Processing keeps exactly the inputs whose key has a definition, in order. */
  lemma {:induction false} ProcessInputsKeys(inputs: seq<FactorInput>, defs: seq<Factor>)
    ensures FactorKeys(ProcessInputs(inputs, defs)) == KnownKeys(inputs, defs)
  {
    if |inputs| > 0 {
      ProcessInputsKeys(inputs[1..], defs);
      var key := inputs[0].factorKey;
      var rest := ProcessInputs(inputs[1..], defs);
      var known := KnownKeys(inputs[1..], defs);
      match FindDefinition(defs, key)
      case None =>
        assert ProcessInputs(inputs, defs) == rest;
        assert KnownKeys(inputs, defs) == known by {
          assert !exists k :: 0 <= k < |defs| && defs[k].key == key;
        }
      case Some(f) =>
        var head := ProcessInput(inputs[0], f);
        assert ProcessInputs(inputs, defs) == [head] + rest;
        assert KnownKeys(inputs, defs) == [key] + known by {
          assert exists k :: 0 <= k < |defs| && defs[k].key == key;
        }
        assert head.factorKey == key;
        FactorKeysCons(head, rest);
    }
  }

  // ---------------------------------------------------------------- correlation adjustment

  /** The matrix key of an ordered pair of factors: the two keys joined by a dash. */
  function CorrelationKey(a: string, b: string): string
  {
    a + "-" + b
  }

  /** `correlationMatrix.get(key) || 0`. */
  function CorrelationOf(matrix: map<string, real>, a: string, b: string): real
  {
    var key := CorrelationKey(a, b);
    if key in matrix then matrix[key] else 0.0
  }

  /** The adjustment of one pair. With a non-zero coefficient and a combined contribution
      above 0, `cA * cB * r` is taken off the pair, each side bearing the share
      `c / (cA + cB)` computed before either is changed. An infinity in an adjusted pair
      makes those shares ∞/∞ or 0, and the product with the infinite adjustment NaN, so
      both sides end as NaN. */
  function AdjustPair(ca: Number, cb: Number, r: real): (p: (Number, Number))
    ensures r == 0.0 || ca.NotANumber? || cb.NotANumber? ==> p == (ca, cb)
    ensures !Greater(Add(ca, cb), Finite(0.0)) ==> p == (ca, cb)
    ensures ca.Finite? && cb.Finite? ==> p.0.Finite? && p.1.Finite?
    ensures r != 0.0 && Greater(Add(ca, cb), Finite(0.0)) && (IsInfinite(ca) || IsInfinite(cb)) ==>
              p.0.NotANumber? && p.1.NotANumber?
  {
    if r != 0.0 then
      var adjustment := Mul(Mul(ca, cb), Finite(r));
      var total := Add(ca, cb);
      if Greater(total, Finite(0.0)) then
        var ratioA := Div(ca, total);
        var ratioB := Div(cb, total);
        (Sub(ca, Mul(adjustment, ratioA)), Sub(cb, Mul(adjustment, ratioB)))
      else (ca, cb)
    else (ca, cb)
  }

  /** An adjusted pair of finite contributions loses exactly `cA * cB * r` between them,
      split in proportion to their contributions. */
  lemma AdjustPairConserves(a: real, b: real, r: real)
    requires a + b > 0.0
    ensures var p := AdjustPair(Finite(a), Finite(b), r);
      && p.0.value + p.1.value == a + b - a * b * r
      && (a - p.0.value) * b == (b - p.1.value) * a
  {
    var pa, pb;
    if r != 0.0 {
      pa, pb := AdjustedConserves(a, b, r);
    } else {
      pa, pb := UnadjustedConserves(a, b, r);
    }
    var p := AdjustPair(Finite(a), Finite(b), r);
    assert p.0.value == pa && p.1.value == pb;
  }

  /** `AdjustPairConserves` for a non-zero coefficient. */
  lemma AdjustedConserves(a: real, b: real, r: real) returns (pa: real, pb: real)
    requires a + b > 0.0 && r != 0.0
    ensures AdjustPair(Finite(a), Finite(b), r) == (Finite(pa), Finite(pb))
    ensures pa + pb == a + b - a * b * r
    ensures (a - pa) * b == (b - pb) * a
  {
    pa, pb := AdjustedValues(a, b, r);
    AdjustedShares(a, b, r, pa, pb);
  }

  /** `AdjustPairConserves` for a zero coefficient, which moves nothing. */
  lemma UnadjustedConserves(a: real, b: real, r: real) returns (pa: real, pb: real)
    requires r == 0.0
    ensures AdjustPair(Finite(a), Finite(b), r) == (Finite(pa), Finite(pb))
    ensures pa + pb == a + b - a * b * r
    ensures (a - pa) * b == (b - pb) * a
  {
    pa, pb := a, b;
  }

  /** The adjusted pair of two finite contributions with a positive total, written out. */
  lemma AdjustPairValue(a: real, b: real, r: real)
    requires a + b > 0.0 && r != 0.0
    ensures AdjustPair(Finite(a), Finite(b), r)
      == (Finite(a - a * b * r * (a / (a + b))), Finite(b - a * b * r * (b / (a + b))))
  {
    var pa, pb := AdjustedValues(a, b, r);
  }

  /** `AdjustPairValue`, naming the two adjusted values. */
  lemma AdjustedValues(a: real, b: real, r: real) returns (pa: real, pb: real)
    requires a + b > 0.0 && r != 0.0
    ensures AdjustPair(Finite(a), Finite(b), r) == (Finite(pa), Finite(pb))
    ensures pa == a - a * b * r * (a / (a + b)) && pb == b - a * b * r * (b / (a + b))
  {
    pa, pb := a - a * b * r * (a / (a + b)), b - a * b * r * (b / (a + b));
    var adj, tot := Mul(Mul(Finite(a), Finite(b)), Finite(r)), Add(Finite(a), Finite(b));
    assert adj == Finite(a * b * r);
    assert tot == Finite(a + b) && Greater(tot, Finite(0.0));
    assert Div(Finite(a), tot) == Finite(a / (a + b));
    assert Div(Finite(b), tot) == Finite(b / (a + b));
    assert Mul(adj, Div(Finite(a), tot)) == Finite(a * b * r * (a / (a + b)));
    assert Mul(adj, Div(Finite(b), tot)) == Finite(a * b * r * (b / (a + b)));
    assert AdjustPair(Finite(a), Finite(b), r)
      == (Sub(Finite(a), Mul(adj, Div(Finite(a), tot))), Sub(Finite(b), Mul(adj, Div(Finite(b), tot))));
  }

  /** `ShareSplit` for the amount `a * b * r`. */
  lemma AdjustedShares(a: real, b: real, r: real, pa: real, pb: real)
    requires a + b > 0.0
    requires pa == a - a * b * r * (a / (a + b)) && pb == b - a * b * r * (b / (a + b))
    ensures pa + pb == a + b - a * b * r
    ensures (a - pa) * b == (b - pb) * a
  {
    var x := a * b * r;
    assert pa == a - x * (a / (a + b)) && pb == b - x * (b / (a + b));
    ShareSplit(a, b, x, pa, pb);
  }

  /** Splitting an amount `x` by two positive-sum shares hands out all of it, in proportion. */
  lemma ShareSplit(a: real, b: real, x: real, pa: real, pb: real)
    requires a + b > 0.0
    requires pa == a - x * (a / (a + b)) && pb == b - x * (b / (a + b))
    ensures pa + pb == a + b - x
    ensures (a - pa) * b == (b - pb) * a
  {
    var t := a + b;
    assert a / t + b / t == 1.0;
    assert x * (a / t) + x * (b / t) == x * (a / t + b / t);
    assert (a / t) * b == (b / t) * a;
    assert x * (a / t) * b == x * (b / t) * a;
  }

  /** Every contribution is finite. */
  predicate AllFinite(fs: seq<ProcessedFactor>)
  {
    forall k :: 0 <= k < |fs| ==> fs[k].contribution.Finite?
  }

  /** Every contribution that is NaN in `a` is NaN in `b`. */
  predicate KeepsNaN(a: seq<ProcessedFactor>, b: seq<ProcessedFactor>)
  {
    |a| == |b| && forall k :: 0 <= k < |a| && a[k].contribution.NotANumber? ==> b[k].contribution.NotANumber?
  }

  /** The body of the inner loop for the pair (i, j). */
  function PairStep(fs: seq<ProcessedFactor>, i: nat, j: nat, matrix: map<string, real>): (r: seq<ProcessedFactor>)
    requires i < j < |fs|
    ensures SameFactors(fs, r)
    ensures forall k :: 0 <= k < |fs| && k != i && k != j ==> r[k] == fs[k]
    ensures (r[i].contribution, r[j].contribution)
            == AdjustPair(fs[i].contribution, fs[j].contribution,
                          CorrelationOf(matrix, fs[i].factorKey, fs[j].factorKey))
  {
    var p := AdjustPair(fs[i].contribution, fs[j].contribution,
                        CorrelationOf(matrix, fs[i].factorKey, fs[j].factorKey));
    fs[i := fs[i].(contribution := p.0)][j := fs[j].(contribution := p.1)]
  }

  /** Factor i against every later factor from j on: NaN stays NaN, and finite
      contributions stay finite among themselves. */
  function InnerLoop(fs: seq<ProcessedFactor>, i: nat, j: nat, matrix: map<string, real>): (r: seq<ProcessedFactor>)
    requires i < j <= |fs|
    ensures SameFactors(fs, r)
    ensures KeepsNaN(fs, r)
    ensures AllFinite(fs) ==> AllFinite(r)
    decreases |fs| - j
  {
    if j == |fs| then fs else InnerLoop(PairStep(fs, i, j, matrix), i, j + 1, matrix)
  }

  /** Every pair (i, j) with i from the given index on and j > i, in loop order. */
  function OuterLoop(fs: seq<ProcessedFactor>, i: nat, matrix: map<string, real>): (r: seq<ProcessedFactor>)
    requires i <= |fs|
    ensures SameFactors(fs, r)
    ensures KeepsNaN(fs, r)
    ensures AllFinite(fs) ==> AllFinite(r)
    decreases |fs| - i
  {
    if i == |fs| then fs
    else if i + 1 == |fs| then fs
    else OuterLoop(InnerLoop(fs, i, i + 1, matrix), i + 1, matrix)
  }

  /** The final `forEach` that clamps every contribution into [0, 1]. */
  function ClampAll(fs: seq<ProcessedFactor>): (r: seq<ProcessedFactor>)
    ensures SameFactors(fs, r)
    ensures forall k :: 0 <= k < |fs| ==> r[k].contribution == ClampUnit(fs[k].contribution)
  {
    seq(|fs|, k requires 0 <= k < |fs| => fs[k].(contribution := ClampUnit(fs[k].contribution)))
  }

  /** `applyCorrelationAdjustments`. A missing or empty matrix returns the list as it
      came, unclamped; otherwise every pair is adjusted in loop order and every
      contribution is then clamped into [0, 1], the infinities to the ends and NaN kept. */
  function ApplyCorrelationAdjustments(fs: seq<ProcessedFactor>, matrix: Option<map<string, real>>): (r: seq<ProcessedFactor>)
    ensures matrix.None? || |matrix.value| == 0 ==> r == fs
    ensures SameFactors(fs, r)
    ensures KeepsNaN(fs, r)
    ensures AllFinite(fs) ==> AllFinite(r)
    ensures matrix.Some? && |matrix.value| > 0 ==>
              forall k :: 0 <= k < |r| ==> r[k].contribution.NotANumber? || InUnit(r[k].contribution)
  {
    if matrix.None? || |matrix.value| == 0 then fs
    else ClampAll(OuterLoop(fs, 0, matrix.value))
  }

  /** No coefficient for any pair: the pair loops change nothing. */
  predicate Uncorrelated(fs: seq<ProcessedFactor>, matrix: map<string, real>)
  {
    forall i, j :: 0 <= i < j < |fs| ==> CorrelationOf(matrix, fs[i].factorKey, fs[j].factorKey) == 0.0
  }

  lemma {:induction false} InnerLoopUncorrelated(fs: seq<ProcessedFactor>, i: nat, j: nat, matrix: map<string, real>)
    requires i < j <= |fs| && Uncorrelated(fs, matrix)
    ensures InnerLoop(fs, i, j, matrix) == fs
    decreases |fs| - j, 1
  {
    if j < |fs| {
      InnerLoopStep(fs, i, j, matrix);
    } else {
      InnerLoopEnd(fs, i, matrix);
    }
  }

  lemma {:induction false} InnerLoopStep(fs: seq<ProcessedFactor>, i: nat, j: nat, matrix: map<string, real>)
    requires i < j < |fs| && Uncorrelated(fs, matrix)
    ensures InnerLoop(fs, i, j, matrix) == fs
    decreases |fs| - j, 0
  {
    PairStepUncorrelated(fs, i, j, matrix);
    InnerLoopUncorrelated(fs, i, j + 1, matrix);
  }

  lemma InnerLoopEnd(fs: seq<ProcessedFactor>, i: nat, matrix: map<string, real>)
    requires i < |fs|
    ensures InnerLoop(fs, i, |fs|, matrix) == fs
  {
  }

  lemma {:induction false} OuterLoopUncorrelated(fs: seq<ProcessedFactor>, i: nat, matrix: map<string, real>)
    requires i <= |fs| && Uncorrelated(fs, matrix)
    ensures OuterLoop(fs, i, matrix) == fs
    decreases |fs| - i, 1
  {
    if i + 1 < |fs| {
      OuterLoopStep(fs, i, matrix);
    } else {
      OuterLoopEnd(fs, i, matrix);
    }
  }

  lemma {:induction false} OuterLoopStep(fs: seq<ProcessedFactor>, i: nat, matrix: map<string, real>)
    requires i + 1 < |fs| && Uncorrelated(fs, matrix)
    ensures OuterLoop(fs, i, matrix) == fs
    decreases |fs| - i, 0
  {
    OuterLoopUncorrelated(fs, i + 1, matrix);
    OuterLoopSkips(fs, i, matrix);
  }

  lemma OuterLoopEnd(fs: seq<ProcessedFactor>, i: nat, matrix: map<string, real>)
    requires i <= |fs| && |fs| <= i + 1
    ensures OuterLoop(fs, i, matrix) == fs
  {
  }

  /** A pair without a coefficient is left as it is. */
  lemma PairStepUncorrelated(fs: seq<ProcessedFactor>, i: nat, j: nat, matrix: map<string, real>)
    requires i < j < |fs| && CorrelationOf(matrix, fs[i].factorKey, fs[j].factorKey) == 0.0
    ensures PairStep(fs, i, j, matrix) == fs
  {
    var r := PairStep(fs, i, j, matrix);
    assert forall k :: 0 <= k < |fs| ==> r[k] == fs[k];
  }

  /** Without coefficients, a pass of the inner loop before a rest of the outer loop that
      changes nothing leaves the list as it is. */
  lemma OuterLoopSkips(fs: seq<ProcessedFactor>, i: nat, matrix: map<string, real>)
    requires i + 1 < |fs| && Uncorrelated(fs, matrix) && OuterLoop(fs, i + 1, matrix) == fs
    ensures OuterLoop(fs, i, matrix) == fs
  {
    InnerLoopUncorrelated(fs, i, i + 1, matrix);
  }

  /** With a non-empty matrix that relates none of the listed pairs, the only effect is
      the clamp. */
  lemma UncorrelatedOnlyClamps(fs: seq<ProcessedFactor>, matrix: map<string, real>)
    requires |matrix| > 0 && Uncorrelated(fs, matrix)
    ensures ApplyCorrelationAdjustments(fs, Some(matrix)) == ClampAll(fs)
  {
    OuterLoopUncorrelated(fs, 0, matrix);
  }

  /** A pair of finite contributions adjusted against an infinite one: with a non-zero
      coefficient both become NaN and, once clamped, stay NaN. */
  lemma InfinitePairTurnsNaN(fs: seq<ProcessedFactor>, matrix: map<string, real>)
    requires |fs| == 2 && |matrix| > 0
    requires fs[0].contribution.PlusInfinity? && fs[1].contribution.Finite?
    requires CorrelationOf(matrix, fs[0].factorKey, fs[1].factorKey) != 0.0
    ensures var r := ApplyCorrelationAdjustments(fs, Some(matrix));
            r[0].contribution.NotANumber? && r[1].contribution.NotANumber?
  {
    var adjusted := PairStep(fs, 0, 1, matrix);
    assert InnerLoop(fs, 0, 1, matrix) == InnerLoop(adjusted, 0, 2, matrix) == adjusted;
    assert OuterLoop(fs, 0, matrix) == OuterLoop(adjusted, 1, matrix) == adjusted;
  }

  // ---------------------------------------------------------------- final probability

  function Contributions(fs: seq<ProcessedFactor>): (r: seq<Number>)
    ensures |r| == |fs| && forall k :: 0 <= k < |fs| ==> r[k] == fs[k].contribution
  {
    seq(|fs|, k requires 0 <= k < |fs| => fs[k].contribution)
  }

  /** `factor.contribution - 0.5`. */
  function Excess(c: Number): Number
  {
    Sub(c, Finite(0.5))
  }

  /** `positiveContribution`: the excesses above 0 summed left to right. Only positive
      numbers enter, so the sum is never NaN; it is finite when every contribution is. */
  function PositivePart(cs: seq<Number>): (r: Number)
    ensures r.PlusInfinity? || (r.Finite? && r.value >= 0.0)
    ensures (forall k :: 0 <= k < |cs| ==> cs[k].Finite?) ==> r.Finite?
  {
    if |cs| == 0 then Finite(0.0)
    else
      var d := Excess(cs[|cs| - 1]);
      var before := PositivePart(cs[..|cs| - 1]);
      if Greater(d, Finite(0.0)) then Add(before, d) else before
  }

  /** `negativeContribution`: the size of every other excess (0.5 itself counts as 0). A
      NaN contribution fails `> 0`, lands here and makes the whole sum NaN. */
  function NegativePart(cs: seq<Number>): (r: Number)
    ensures !r.MinusInfinity? && (r.Finite? ==> r.value >= 0.0)
    ensures (forall k :: 0 <= k < |cs| ==> cs[k].Finite?) ==> r.Finite?
  {
    if |cs| == 0 then Finite(0.0)
    else
      var d := Excess(cs[|cs| - 1]);
      var before := NegativePart(cs[..|cs| - 1]);
      if Greater(d, Finite(0.0)) then before else Add(before, MathAbs(d))
  }

  /** The probability before the final clamp: the positive part pulls the base towards 1,
      the negative part pushes it towards 0, each only when above 0. */
  function Shifted(base: real, pos: Number, neg: Number): Number
  {
    var raised := if Greater(pos, Finite(0.0)) then Add(Finite(base), Mul(Finite(1.0 - base), pos)) else Finite(base);
    if Greater(neg, Finite(0.0)) then Sub(raised, Mul(Finite(base), neg)) else raised
  }

  /** `calculateFinalProbability`. An empty list returns the base as it came; otherwise
      the result is clamped into [0, 1], or NaN. */
  function FinalProbability(cs: seq<Number>, base: real): (r: Number)
    ensures |cs| == 0 ==> r == Finite(base)
    ensures |cs| > 0 ==> r.NotANumber? || InUnit(r)
    ensures |cs| > 0 && (forall k :: 0 <= k < |cs| ==> cs[k].Finite?) ==> InUnit(r)
  {
    if |cs| == 0 then Finite(base)
    else ClampUnit(Shifted(base, PositivePart(cs), NegativePart(cs)))
  }

  /** The negative part is NaN exactly when some contribution is. */
  lemma {:induction false} NegativePartNaN(cs: seq<Number>)
    ensures NegativePart(cs).NotANumber? <==> exists k :: 0 <= k < |cs| && cs[k].NotANumber?
  {
    if |cs| > 0 {
      var n := |cs| - 1;
      NegativePartNaN(cs[..n]);
      assert forall k :: 0 <= k < n ==> cs[..n][k] == cs[k];
    }
  }

  /** The positive part is +Infinity exactly when some contribution is. */
  lemma {:induction false} PositivePartInfinite(cs: seq<Number>)
    ensures PositivePart(cs).PlusInfinity? <==> exists k :: 0 <= k < |cs| && cs[k].PlusInfinity?
  {
    if |cs| > 0 {
      var n := |cs| - 1;
      PositivePartInfinite(cs[..n]);
      assert forall k :: 0 <= k < n ==> cs[..n][k] == cs[k];
    }
  }

  /** Without NaN, the negative part is +Infinity exactly when some contribution is
      -Infinity, and finite otherwise. */
  lemma {:induction false} NegativePartInfinite(cs: seq<Number>)
    requires forall k :: 0 <= k < |cs| ==> !cs[k].NotANumber?
    ensures NegativePart(cs).PlusInfinity? <==> exists k :: 0 <= k < |cs| && cs[k].MinusInfinity?
    ensures NegativePart(cs).Finite? <==> !exists k :: 0 <= k < |cs| && cs[k].MinusInfinity?
  {
    NegativePartNaN(cs);
    if |cs| > 0 {
      var n := |cs| - 1;
      NegativePartInfinite(cs[..n]);
      assert forall k :: 0 <= k < n ==> cs[..n][k] == cs[k];
    }
  }

  lemma {:induction false} NeutralParts(cs: seq<Number>)
    requires forall k :: 0 <= k < |cs| ==> cs[k] == Finite(0.5)
    ensures PositivePart(cs) == Finite(0.0) && NegativePart(cs) == Finite(0.0)
  {
    if |cs| > 0 {
      NeutralParts(cs[..|cs| - 1]);
    }
  }

  /** Contributions of exactly 0.5 are neutral: the result is the base. */
  lemma FinalProbabilityNeutral(cs: seq<Number>, base: real)
    requires forall k :: 0 <= k < |cs| ==> cs[k] == Finite(0.5)
    requires 0.0 <= base <= 1.0
    ensures FinalProbability(cs, base) == Finite(base)
  {
    NeutralParts(cs);
    if |cs| > 0 {
      var pos, neg := PositivePart(cs), NegativePart(cs);
      assert !Greater(pos, Finite(0.0)) && !Greater(neg, Finite(0.0));
      assert Shifted(base, pos, neg) == Finite(base);
      assert InUnit(Finite(base));
    }
  }

  /** A NaN contribution hides every shortfall: without an infinity the probability never
      falls below the base. */
  lemma NaNHidesShortfalls(cs: seq<Number>, base: real)
    requires 0.0 <= base <= 1.0
    requires exists k :: 0 <= k < |cs| && cs[k].NotANumber?
    requires forall k :: 0 <= k < |cs| ==> !cs[k].PlusInfinity?
    ensures InUnit(FinalProbability(cs, base)) && FinalProbability(cs, base).value >= base
  {
    NegativePartNaN(cs);
    PositivePartInfinite(cs);
    var pos := PositivePart(cs);
    assert pos.Finite?;
    PartOf(1.0 - base, pos.value);
    assert Shifted(base, pos, NegativePart(cs)).Finite? && Shifted(base, pos, NegativePart(cs)).value >= base;
  }

  /** One contribution of +Infinity, with no NaN or -Infinity beside it, drives the
      probability to 1 from any base below 1. */
  lemma InfiniteContributionSaturates(cs: seq<Number>, base: real)
    requires 0.0 <= base < 1.0
    requires exists k :: 0 <= k < |cs| && cs[k].PlusInfinity?
    requires forall k :: 0 <= k < |cs| ==> !cs[k].NotANumber? && !cs[k].MinusInfinity?
    ensures FinalProbability(cs, base) == Finite(1.0)
  {
    PositivePartInfinite(cs);
    NegativePartInfinite(cs);
    assert Shifted(base, PositivePart(cs), NegativePart(cs)).PlusInfinity?;
  }

  /** +Infinity and -Infinity together, without NaN, make the probability NaN for any base
      strictly inside (0, 1): the two infinite parts cancel. */
  lemma OpposingInfinitiesGiveNaN(cs: seq<Number>, base: real)
    requires 0.0 < base < 1.0
    requires exists k :: 0 <= k < |cs| && cs[k].PlusInfinity?
    requires exists k :: 0 <= k < |cs| && cs[k].MinusInfinity?
    requires forall k :: 0 <= k < |cs| ==> !cs[k].NotANumber?
    ensures FinalProbability(cs, base).NotANumber?
  {
    PositivePartInfinite(cs);
    NegativePartInfinite(cs);
    assert Shifted(base, PositivePart(cs), NegativePart(cs)).NotANumber?;
  }

  /** Every contribution finite and no larger than its counterpart. */
  predicate PointwiseBelow(cs: seq<Number>, ds: seq<Number>)
  {
    && |cs| == |ds|
    && (forall k :: 0 <= k < |cs| ==> cs[k].Finite? && ds[k].Finite?)
    && (forall k :: 0 <= k < |cs| ==> cs[k].value <= ds[k].value)
  }

  lemma {:induction false} PartsMonotone(cs: seq<Number>, ds: seq<Number>)
    requires PointwiseBelow(cs, ds)
    ensures PositivePart(cs).Finite? && PositivePart(ds).Finite?
    ensures PositivePart(cs).value <= PositivePart(ds).value
    ensures NegativePart(cs).Finite? && NegativePart(ds).Finite?
    ensures NegativePart(ds).value <= NegativePart(cs).value
  {
    if |cs| > 0 {
      var n := |cs| - 1;
      assert PointwiseBelow(cs[..n], ds[..n]);
      PartsMonotone(cs[..n], ds[..n]);
    }
  }

  /** Raising any contribution never lowers the final probability. */
  lemma FinalProbabilityMonotone(cs: seq<Number>, ds: seq<Number>, base: real)
    requires PointwiseBelow(cs, ds) && |cs| > 0
    requires 0.0 <= base <= 1.0
    ensures InUnit(FinalProbability(cs, base)) && InUnit(FinalProbability(ds, base))
    ensures FinalProbability(cs, base).value <= FinalProbability(ds, base).value
  {
    PartsMonotone(cs, ds);
    var pc, pd, nc, nd := PositivePart(cs).value, PositivePart(ds).value, NegativePart(cs).value, NegativePart(ds).value;
    ShiftedValue(base, pc, nc);
    ShiftedValue(base, pd, nd);
    ShiftMonotone(base, pc, pd, nc, nd);
    ClampUnitMonotone(base + (1.0 - base) * pc - base * nc, base + (1.0 - base) * pd - base * nd);
  }

  lemma ShiftedValue(base: real, pos: real, neg: real)
    requires pos >= 0.0 && neg >= 0.0
    ensures Shifted(base, Finite(pos), Finite(neg)) == Finite(base + (1.0 - base) * pos - base * neg)
  {
    var up, down := (1.0 - base) * pos, base * neg;
    assert Mul(Finite(1.0 - base), Finite(pos)) == Finite(up);
    assert Mul(Finite(base), Finite(neg)) == Finite(down);
    var raised := if pos > 0.0 then Finite(base + up) else Finite(base);
    if pos == 0.0 {
      assert up == 0.0;
    }
    if neg == 0.0 {
      assert down == 0.0;
      assert Shifted(base, Finite(pos), Finite(neg)) == raised;
    } else {
      assert Shifted(base, Finite(pos), Finite(neg)) == Sub(raised, Finite(down));
    }
  }

  lemma ScaledShiftMonotone(base: real, rest: real, pc: real, pd: real, nc: real, nd: real)
    requires 0.0 <= base && 0.0 <= rest && pc <= pd && nd <= nc
    ensures base + rest * pc - base * nc <= base + rest * pd - base * nd
  {
    ScaleMonotone(rest, pc, pd);
    ScaleMonotone(base, nd, nc);
  }

  lemma ShiftMonotone(base: real, pc: real, pd: real, nc: real, nd: real)
    requires 0.0 <= base <= 1.0 && pc <= pd && nd <= nc
    ensures base + (1.0 - base) * pc - base * nc <= base + (1.0 - base) * pd - base * nd
  {
    ScaledShiftMonotone(base, 1.0 - base, pc, pd, nc, nd);
  }

  // ---------------------------------------------------------------- confidence

  function WeightTotal(fs: seq<ProcessedFactor>): real
  {
    if |fs| == 0 then 0.0 else WeightTotal(fs[..|fs| - 1]) + fs[|fs| - 1].weight
  }

  /** One factor's `Math.pow(v - 0.5, 2)`, where a normalised value that `typeof` does not
      call a number counts as 0.5: NaN stays NaN and an infinity gives +Infinity. */
  function Spread(v: Normalized): (r: Number)
    ensures r.NotANumber? <==> IsNaN(v)
    ensures r.PlusInfinity? <==> IsInfiniteValue(v)
    ensures !r.MinusInfinity? && (r.Finite? ==> r.value >= 0.0)
  {
    match AsNumber(v)
    case None => Finite(0.0)
    case Some(x) =>
      var d := Sub(x, Finite(0.5));
      assert d.Finite? ==> d.value * d.value >= 0.0;
      Mul(d, d)
  }

  function VarianceTotal(fs: seq<ProcessedFactor>): (r: Number)
    ensures !r.MinusInfinity? && (r.Finite? ==> r.value >= 0.0)
  {
    if |fs| == 0 then Finite(0.0)
    else Add(VarianceTotal(fs[..|fs| - 1]), Spread(fs[|fs| - 1].normalizedValue))
  }

  /** The unclamped score: coverage 0.3, average weight 0.5, average spread 0.2. */
  function RawConfidence(fs: seq<ProcessedFactor>, totalFactors: int): Number
    requires |fs| > 0
  {
    var n := |fs| as real;
    var coverage := n / Max(1.0, totalFactors as real);
    var avgWeight := WeightTotal(fs) / n / 10.0;
    var avgVariance := Mul(Div(VarianceTotal(fs), Finite(n)), Finite(4.0));
    Add(Finite(coverage * 0.3 + avgWeight * 0.5), Mul(avgVariance, Finite(0.2)))
  }

  /** `calculateConfidence`: 0 for no factors, otherwise the score clamped into [0, 1],
      or NaN. */
  function Confidence(fs: seq<ProcessedFactor>, totalFactors: int): (r: Number)
    ensures |fs| == 0 ==> r == Finite(0.0)
    ensures r.NotANumber? || InUnit(r)
  {
    if |fs| == 0 then Finite(0.0)
    else ClampUnit(RawConfidence(fs, totalFactors))
  }

  lemma {:induction false} VarianceTotalNaN(fs: seq<ProcessedFactor>)
    ensures VarianceTotal(fs).NotANumber? <==> exists k :: 0 <= k < |fs| && IsNaN(fs[k].normalizedValue)
  {
    if |fs| > 0 {
      var n := |fs| - 1;
      VarianceTotalNaN(fs[..n]);
      assert forall k :: 0 <= k < n ==> fs[..n][k] == fs[k];
    }
  }

  /** The confidence is NaN exactly when some normalised value is NaN. */
  lemma ConfidenceNaN(fs: seq<ProcessedFactor>, totalFactors: int)
    ensures Confidence(fs, totalFactors).NotANumber? <==> exists k :: 0 <= k < |fs| && IsNaN(fs[k].normalizedValue)
  {
    VarianceTotalNaN(fs);
    if |fs| > 0 {
      RawConfidenceNaN(fs, totalFactors);
    }
  }

  /** Only the spread term can make the unclamped score NaN. */
  lemma RawConfidenceNaN(fs: seq<ProcessedFactor>, totalFactors: int)
    requires |fs| > 0
    ensures RawConfidence(fs, totalFactors).NotANumber? <==> VarianceTotal(fs).NotANumber?
  {
    var v, n := VarianceTotal(fs), |fs| as real;
    var spread := Mul(Mul(Div(v, Finite(n)), Finite(4.0)), Finite(0.2));
    assert spread.NotANumber? <==> v.NotANumber?;
    assert RawConfidence(fs, totalFactors).NotANumber? <==> spread.NotANumber?;
  }

  lemma {:induction false} VarianceTotalInfinite(fs: seq<ProcessedFactor>)
    requires forall k :: 0 <= k < |fs| ==> !IsNaN(fs[k].normalizedValue)
    ensures VarianceTotal(fs).PlusInfinity? <==> exists k :: 0 <= k < |fs| && IsInfiniteValue(fs[k].normalizedValue)
  {
    if |fs| > 0 {
      var n := |fs| - 1;
      var front := fs[..n];
      assert forall k :: 0 <= k < n ==> front[k] == fs[k];
      VarianceTotalInfinite(front);
      VarianceTotalNaN(front);
      InfiniteValueInPrefix(fs);
      var before, s := VarianceTotal(front), Spread(fs[n].normalizedValue);
      assert VarianceTotal(fs) == Add(before, s);
      assert !before.NotANumber? && !s.NotANumber?;
    }
  }

  /** Some value is infinite exactly when one before the last is, or the last is. */
  lemma InfiniteValueInPrefix(fs: seq<ProcessedFactor>)
    requires |fs| > 0
    ensures var n := |fs| - 1;
            (exists k :: 0 <= k < |fs| && IsInfiniteValue(fs[k].normalizedValue))
            <==> (exists k :: 0 <= k < n && IsInfiniteValue(fs[..n][k].normalizedValue))
                 || IsInfiniteValue(fs[n].normalizedValue)
  {
    var n := |fs| - 1;
    assert forall k :: 0 <= k < n ==> fs[..n][k] == fs[k];
  }

  /** An infinite normalised value, with no NaN beside it, drives the confidence to 1. */
  lemma InfiniteValueSaturatesConfidence(fs: seq<ProcessedFactor>, totalFactors: int)
    requires exists k :: 0 <= k < |fs| && IsInfiniteValue(fs[k].normalizedValue)
    requires forall k :: 0 <= k < |fs| ==> !IsNaN(fs[k].normalizedValue)
    ensures Confidence(fs, totalFactors) == Finite(1.0)
  {
    VarianceTotalInfinite(fs);
    assert RawConfidence(fs, totalFactors).PlusInfinity?;
  }

  lemma {:induction false} WeightTotalBound(fs: seq<ProcessedFactor>)
    requires forall k :: 0 <= k < |fs| ==> ValidWeight(fs[k].weight)
    ensures 0.0 <= WeightTotal(fs) <= 10.0 * |fs| as real
  {
    if |fs| > 0 {
      WeightTotalBound(fs[..|fs| - 1]);
    }
  }

  /** Every normalised value a finite number in [0, 1]. */
  predicate UnitValues(fs: seq<ProcessedFactor>)
  {
    forall k :: 0 <= k < |fs| ==> fs[k].normalizedValue.Numeric? && InUnit(fs[k].normalizedValue.x)
  }

  lemma {:induction false} VarianceTotalBound(fs: seq<ProcessedFactor>)
    requires UnitValues(fs)
    ensures VarianceTotal(fs).Finite? && VarianceTotal(fs).value <= 0.25 * |fs| as real
  {
    if |fs| > 0 {
      var m := |fs| - 1;
      assert UnitValues(fs[..m]) by {
        assert forall k :: 0 <= k < m ==> fs[..m][k] == fs[k];
      }
      VarianceTotalBound(fs[..m]);
      var s := UnitSpread(fs[m].normalizedValue);
      var before := VarianceTotal(fs[..m]).value;
      assert VarianceTotal(fs) == Add(VarianceTotal(fs[..m]), Spread(fs[m].normalizedValue));
      assert VarianceTotal(fs) == Finite(before + s);
      QuarterStep(before, s, m, |fs|);
    }
  }

  /** A value in [0, 1] is at most a quarter from 0.5 when squared. */
  lemma UnitSpread(v: Normalized) returns (s: real)
    requires v.Numeric? && InUnit(v.x)
    ensures Spread(v) == Finite(s) && s <= 0.25
  {
    var x := v.x.value;
    SquareBound(x - 0.5);
    s := (x - 0.5) * (x - 0.5);
  }

  lemma QuarterStep(before: real, s: real, m: nat, n: nat)
    requires before <= 0.25 * m as real && s <= 0.25 && n == m + 1
    ensures before + s <= 0.25 * n as real
  {
  }

  lemma SquareBound(x: real)
    requires -0.5 <= x <= 0.5
    ensures x * x <= 0.25
  {
    if x >= 0.0 { assert x * x <= 0.5 * x; } else { assert x * x <= -0.5 * x; }
  }

  /** With weights in [0, 10], normalised values in [0, 1] and no more factors than the
      sport has, each of the three averages lies in [0, 1], so the clamp never acts. */
  lemma ConfidenceNeedsNoClamp(fs: seq<ProcessedFactor>, totalFactors: int)
    requires 0 < |fs| <= totalFactors
    requires forall k :: 0 <= k < |fs| ==> ValidWeight(fs[k].weight)
    requires UnitValues(fs)
    ensures InUnit(RawConfidence(fs, totalFactors))
    ensures Confidence(fs, totalFactors) == RawConfidence(fs, totalFactors)
  {
    var n := |fs| as real;
    WeightTotalBound(fs);
    VarianceTotalBound(fs);
    RawConfidenceValue(fs, totalFactors);
    QuotientInUnit(n, Max(1.0, totalFactors as real));
    WeightAverageInUnit(WeightTotal(fs), n);
    SpreadAverageInUnit(VarianceTotal(fs).value, n);
    ScoreInUnit(n / Max(1.0, totalFactors as real), WeightTotal(fs) / n / 10.0, VarianceTotal(fs).value / n * 4.0);
  }

  lemma WeightAverageInUnit(w: real, n: real)
    requires n > 0.0 && 0.0 <= w <= 10.0 * n
    ensures 0.0 <= w / n / 10.0 <= 1.0
  {
    assert w / n <= 10.0;
  }

  lemma SpreadAverageInUnit(v: real, n: real)
    requires n > 0.0 && 0.0 <= v <= 0.25 * n
    ensures 0.0 <= v / n * 4.0 <= 1.0
  {
    assert v / n <= 0.25;
  }

  lemma ScoreInUnit(c: real, w: real, v: real)
    requires 0.0 <= c <= 1.0 && 0.0 <= w <= 1.0 && 0.0 <= v <= 1.0
    ensures 0.0 <= c * 0.3 + w * 0.5 + v * 0.2 <= 1.0
  {
  }

  /** The score of factors whose spreads are all finite, as a plain sum. */
  lemma RawConfidenceValue(fs: seq<ProcessedFactor>, totalFactors: int)
    requires |fs| > 0 && VarianceTotal(fs).Finite?
    ensures var n := |fs| as real;
            RawConfidence(fs, totalFactors)
            == Finite(n / Max(1.0, totalFactors as real) * 0.3 + WeightTotal(fs) / n / 10.0 * 0.5
                      + VarianceTotal(fs).value / n * 4.0 * 0.2)
  {
  }

  // ---------------------------------------------------------------- confidence interval

  /** `{lower, upper}`. */
  datatype Interval = Interval(lower: Number, upper: Number)

  /** `calculateConfidenceInterval`: the standard error is (1 - confidence) / 4, and the
      bounds are clamped at 0 and 1 (NaN propagates). */
  function ConfidenceInterval(p: Number, confidence: Number, level: real): (r: Interval)
    ensures p.NotANumber? || confidence.NotANumber? ==> r.lower.NotANumber? && r.upper.NotANumber?
    ensures InUnit(p) && InUnit(confidence) ==>
              && InUnit(r.lower) && InUnit(r.upper)
              && r.lower.value <= p.value <= r.upper.value
    ensures p.Finite? && confidence.Finite? ==>
              && r.lower.Finite? && r.upper.Finite?
              && r.upper.value - r.lower.value <= 2.0 * ZScore(level) * ((1.0 - confidence.value) * 0.25)
  {
    MarginInterval(p, confidence, ZScore(level))
  }

  /** The interval for a z-score `z`. */
  function MarginInterval(p: Number, confidence: Number, z: real): (r: Interval)
    requires z >= 0.0
    ensures p.NotANumber? || confidence.NotANumber? ==> r.lower.NotANumber? && r.upper.NotANumber?
    ensures InUnit(p) && InUnit(confidence) ==>
              && InUnit(r.lower) && InUnit(r.upper)
              && r.lower.value <= p.value <= r.upper.value
    ensures p.Finite? && confidence.Finite? ==>
              && r.lower.Finite? && r.upper.Finite?
              && r.upper.value - r.lower.value <= 2.0 * z * ((1.0 - confidence.value) * 0.25)
  {
    var margin := Mul(Finite(z), Mul(Sub(Finite(1.0), confidence), Finite(0.25)));
    if confidence.Finite? then
      var m := z * ((1.0 - confidence.value) * 0.25);
      assert margin == Finite(m);
      MarginSign(z, confidence.value);
      assert 2.0 * z * ((1.0 - confidence.value) * 0.25) == 2.0 * m;
      ClampedBounds(p, margin)
    else
      ClampedBounds(p, margin)
  }

  /** `{lower: Math.max(0, p - margin), upper: Math.min(1, p + margin)}`. */
  function ClampedBounds(p: Number, margin: Number): (r: Interval)
    ensures p.NotANumber? || margin.NotANumber? ==> r.lower.NotANumber? && r.upper.NotANumber?
    ensures p.Finite? && margin.Finite? ==>
              && r.lower.Finite? && r.upper.Finite? && r.upper.value - r.lower.value <= 2.0 * margin.value
              && (InUnit(p) && margin.value >= 0.0 ==>
                    InUnit(r.lower) && InUnit(r.upper) && r.lower.value <= p.value <= r.upper.value)
  {
    if p.Finite? && margin.Finite? then
      ClampedInterval(p.value, margin.value);
      Interval(MathMax(Finite(0.0), Finite(p.value - margin.value)), MathMin(Finite(1.0), Finite(p.value + margin.value)))
    else
      Interval(MathMax(Finite(0.0), Sub(p, margin)), MathMin(Finite(1.0), Add(p, margin)))
  }

  lemma MarginSign(z: real, c: real)
    requires z >= 0.0
    ensures c <= 1.0 ==> z * ((1.0 - c) * 0.25) >= 0.0
  {
    if c <= 1.0 {
      ScaleMonotone(z, 0.0, (1.0 - c) * 0.25);
    }
  }

  /** The bounds `p - m` and `p + m` clamped into [0, 1] are never further apart than 2m,
      and surround a probability when the margin is not negative. */
  lemma ClampedInterval(p: real, m: real)
    ensures var lower, upper := MathMax(Finite(0.0), Finite(p - m)), MathMin(Finite(1.0), Finite(p + m));
            && lower.Finite? && upper.Finite? && upper.value - lower.value <= 2.0 * m
            && (0.0 <= p <= 1.0 && m >= 0.0 ==> InUnit(lower) && InUnit(upper) && lower.value <= p <= upper.value)
  {
  }

  /** Full confidence collapses the interval onto the probability. */
  lemma FullConfidenceInterval(p: real, level: real)
    requires 0.0 <= p <= 1.0
    ensures ConfidenceInterval(Finite(p), Finite(1.0), level) == Interval(Finite(p), Finite(p))
  {
  }

  // ---------------------------------------------------------------- processFactor

  datatype Outcome = Outcome(probability: Number, confidence: Number, interval: Interval, factors: seq<ProcessedFactor>)

  const DefaultLevel: real := 0.95
  const NeutralOutcome: Outcome := Outcome(Finite(0.5), Finite(0.0), Interval(Finite(0.25), Finite(0.75)), [])

  /** The scoring half of `processFactor`: probability, confidence and interval of the
      adjusted factors. */
  function Score(adjusted: seq<ProcessedFactor>, totalFactors: int): (r: Outcome)
    ensures r.factors == adjusted
    ensures r.probability.NotANumber? || InUnit(r.probability)
    ensures r.confidence.NotANumber? || InUnit(r.confidence)
    ensures InUnit(r.probability) && InUnit(r.confidence) ==>
              && InUnit(r.interval.lower) && InUnit(r.interval.upper)
              && r.interval.lower.value <= r.probability.value <= r.interval.upper.value
    ensures r.probability.NotANumber? || r.confidence.NotANumber? ==>
              r.interval.lower.NotANumber? && r.interval.upper.NotANumber?
    ensures AllFinite(adjusted) ==> InUnit(r.probability)
  {
    var probability := FinalProbability(Contributions(adjusted), 0.5);
    var confidence := Confidence(adjusted, totalFactors);
    Outcome(probability, confidence, ConfidenceInterval(probability, confidence, DefaultLevel), adjusted)
  }

  /** `processFactor`: process the known inputs, adjust, then score them. */
  function ProcessFactor(inputs: seq<FactorInput>, defs: seq<Factor>, matrix: Option<map<string, real>>): (r: Outcome)
    ensures |inputs| == 0 || |defs| == 0 ==> r == NeutralOutcome
    ensures r.probability.NotANumber? || InUnit(r.probability)
    ensures r.confidence.NotANumber? || InUnit(r.confidence)
    ensures InUnit(r.probability) && InUnit(r.confidence) ==>
              && InUnit(r.interval.lower) && InUnit(r.interval.upper)
              && r.interval.lower.value <= r.probability.value <= r.interval.upper.value
    ensures r.probability.NotANumber? || r.confidence.NotANumber? ==>
              r.interval.lower.NotANumber? && r.interval.upper.NotANumber?
    ensures |inputs| > 0 && |defs| > 0 ==> FactorKeys(r.factors) == KnownKeys(inputs, defs)
    ensures |inputs| > 0 && |defs| > 0 && AllFinite(ProcessInputs(inputs, defs)) ==> InUnit(r.probability)
  {
    if |inputs| == 0 || |defs| == 0 then NeutralOutcome
    else
      var processed := ProcessInputs(inputs, defs);
      var adjusted := ApplyCorrelationAdjustments(processed, matrix);
      ProcessInputsKeys(inputs, defs);
      assert FactorKeys(adjusted) == FactorKeys(processed);
      Score(adjusted, |defs|)
  }

  /** A scale factor whose bounds coincide, answered above the bound with a positive
      weight and impact and no correlation matrix, saturates the outcome: probability,
      confidence and both interval bounds are 1. */
  lemma EqualBoundsSaturate(f: Factor, v: real, weight: real, userId: string)
    requires f.inputType == "scale" && f.minValue.Some? && f.maxValue == f.minValue
    requires v > f.minValue.value && weight > 0.0 && f.historicalImpact > 0.0
    ensures var r := ProcessFactor([FactorInput(f.key, Js.Num(v), Some(weight), userId)], [f], None);
            && r.probability == Finite(1.0) && r.confidence == Finite(1.0)
            && r.interval == Interval(Finite(1.0), Finite(1.0))
  {
    var input := FactorInput(f.key, Js.Num(v), Some(weight), userId);
    var p := ProcessInput(input, f);
    assert ProcessFactor([input], [f], None) == Score([p], 1) by {
      assert FindDefinition([f], f.key) == Some(f);
      assert ProcessInputs([input], [f]) == [p];
    }
    assert p.normalizedValue == Numeric(PlusInfinity) && p.contribution.PlusInfinity? by {
      EqualBounds(v, f);
    }
    SaturatedScore(p);
  }

  /** A lone factor with an infinite value and contribution scores 1 throughout. */
  lemma SaturatedScore(p: ProcessedFactor)
    requires p.normalizedValue == Numeric(PlusInfinity) && p.contribution.PlusInfinity?
    ensures var r := Score([p], 1);
            && r.probability == Finite(1.0) && r.confidence == Finite(1.0)
            && r.interval == Interval(Finite(1.0), Finite(1.0))
  {
    assert Contributions([p])[0].PlusInfinity?;
    InfiniteContributionSaturates(Contributions([p]), 0.5);
    InfiniteValueSaturatesConfidence([p], 1);
  }

  // ---------------------------------------------------------------- correlation matrix

  /** Entering correlation `e` of factor `a` writes the key `k`, in one direction or the
      other. */
  predicate Writes(k: string, a: string, e: (string, real))
  {
    k == CorrelationKey(a, e.0) || k == CorrelationKey(e.0, a)
  }

  /** A key `AddCorrelations` writes for factor `a` and its correlations `cs`. */
  predicate PairKey(k: string, a: string, cs: seq<(string, real)>)
  {
    exists j :: 0 <= j < |cs| && (k == CorrelationKey(a, cs[j].0) || k == CorrelationKey(cs[j].0, a))
  }

  /** One factor's stored correlations entered in both directions: both directions of
      every pair are present afterwards, and no key but those is added. What the entries
      hold is stated by `AddCorrelationsValues`. */
  function AddCorrelations(m: map<string, real>, a: string, cs: seq<(string, real)>): (r: map<string, real>)
    ensures m.Keys <= r.Keys
    ensures forall j :: 0 <= j < |cs| ==> CorrelationKey(a, cs[j].0) in r && CorrelationKey(cs[j].0, a) in r
    ensures forall k :: k in r ==> k in m || PairKey(k, a, cs)
    decreases |cs|
  {
    if |cs| == 0 then m
    else
      TailPairKey(a, cs);
      AddCorrelations(WriteBoth(m, a, cs[0]), a, cs[1..])
  }

  /** `correlationMatrix.set` for both directions of one pair. */
  function WriteBoth(m: map<string, real>, a: string, e: (string, real)): (r: map<string, real>)
    ensures CorrelationKey(a, e.0) in r && CorrelationKey(e.0, a) in r
    ensures forall k :: k in r <==> k in m || Writes(k, a, e)
  {
    m[CorrelationKey(a, e.0) := e.1][CorrelationKey(e.0, a) := e.1]
  }

  /** A key the later pairs write is a key the whole list writes. */
  lemma TailPairKey(a: string, cs: seq<(string, real)>)
    requires |cs| > 0
    ensures forall k :: PairKey(k, a, cs[1..]) ==> PairKey(k, a, cs)
  {
    forall k | PairKey(k, a, cs[1..]) ensures PairKey(k, a, cs) {
      var j :| 0 <= j < |cs[1..]| && (k == CorrelationKey(a, cs[1..][j].0) || k == CorrelationKey(cs[1..][j].0, a));
      assert cs[j + 1] == cs[1..][j];
    }
  }

  /** A key the list writes but its later pairs do not is written by its first pair. */
  lemma HeadPairKey(k: string, a: string, cs: seq<(string, real)>)
    requires PairKey(k, a, cs) && !PairKey(k, a, cs[1..])
    ensures Writes(k, a, cs[0])
  {
    assert forall j :: 1 <= j < |cs| ==> cs[1..][j - 1] == cs[j];
  }

  /** Writing both directions of one pair sets both keys to its coefficient. */
  lemma WriteBothSets(m: map<string, real>, a: string, e: (string, real), k: string)
    requires Writes(k, a, e)
    ensures WriteBoth(m, a, e)[k] == e.1
  {
  }

  /** Writing both directions of one pair leaves every other key alone. */
  lemma WriteBothKeeps(m: map<string, real>, a: string, e: (string, real), k: string)
    requires k in m && !Writes(k, a, e)
    ensures WriteBoth(m, a, e)[k] == m[k]
  {
  }

  /** A key none of the pairs writes keeps its value. */
  lemma {:induction false} AddCorrelationsKeepsAt(m: map<string, real>, a: string, cs: seq<(string, real)>, k: string)
    requires k in m && !PairKey(k, a, cs)
    ensures AddCorrelations(m, a, cs)[k] == m[k]
    decreases |cs|
  {
    if |cs| > 0 {
      var m' := WriteBoth(m, a, cs[0]);
      assert !Writes(k, a, cs[0]);
      WriteBothKeeps(m, a, cs[0], k);
      TailPairKey(a, cs);
      AddCorrelationsKeepsAt(m', a, cs[1..], k);
    }
  }

  /** A key some pair writes holds the coefficient of a pair that writes it. */
  lemma {:induction false} AddCorrelationsValueAt(m: map<string, real>, a: string, cs: seq<(string, real)>, k: string)
    returns (j: nat)
    requires PairKey(k, a, cs)
    ensures k in AddCorrelations(m, a, cs)
    ensures j < |cs| && Writes(k, a, cs[j]) && AddCorrelations(m, a, cs)[k] == cs[j].1
    decreases |cs|
  {
    var m' := WriteBoth(m, a, cs[0]);
    if PairKey(k, a, cs[1..]) {
      var j' := AddCorrelationsValueAt(m', a, cs[1..], k);
      j := j' + 1;
      assert cs[j] == cs[1..][j'];
    } else {
      HeadPairKey(k, a, cs);
      WriteBothSets(m, a, cs[0], k);
      AddCorrelationsKeepsAt(m', a, cs[1..], k);
      j := 0;
    }
  }

  /** Entering one factor's correlations changes no key its pairs do not write, and leaves
      every key they write holding the coefficient of a pair that writes it. */
  lemma AddCorrelationsValues(m: map<string, real>, a: string, cs: seq<(string, real)>)
    ensures var r := AddCorrelations(m, a, cs);
            forall k :: k in m && !PairKey(k, a, cs) ==> r[k] == m[k]
    ensures var r := AddCorrelations(m, a, cs);
            forall k :: PairKey(k, a, cs) ==>
              k in r && exists j :: 0 <= j < |cs| && Writes(k, a, cs[j]) && r[k] == cs[j].1
  {
    forall k | k in m && !PairKey(k, a, cs)
      ensures AddCorrelations(m, a, cs)[k] == m[k]
    {
      AddCorrelationsKeepsAt(m, a, cs, k);
    }
    forall k | PairKey(k, a, cs)
      ensures k in AddCorrelations(m, a, cs)
      ensures exists j :: 0 <= j < |cs| && Writes(k, a, cs[j]) && AddCorrelations(m, a, cs)[k] == cs[j].1
    {
      var j := AddCorrelationsValueAt(m, a, cs, k);
    }
  }

  /** Some definition's correlation wrote this key. */
  predicate WrittenBy(k: string, defs: seq<Factor>)
  {
    exists i :: 0 <= i < |defs| && PairKey(k, defs[i].key, defs[i].correlations)
  }

  /** `generateCorrelationMatrix`: definitions in order, later writes overwriting earlier.
      Both directions of every stored correlation are in the matrix, and every key of the
      matrix was written by some definition. What the entries hold is stated by
      `MatrixValues`. */
  function GenerateCorrelationMatrix(defs: seq<Factor>): (r: map<string, real>)
    ensures forall i, j :: 0 <= i < |defs| && 0 <= j < |defs[i].correlations| ==>
              CorrelationKey(defs[i].key, defs[i].correlations[j].0) in r
              && CorrelationKey(defs[i].correlations[j].0, defs[i].key) in r
    ensures forall k :: k in r ==> WrittenBy(k, defs)
  {
    if |defs| == 0 then map[]
    else
      var n := |defs| - 1;
      var before := GenerateCorrelationMatrix(defs[..n]);
      var r := AddCorrelations(before, defs[n].key, defs[n].correlations);
      forall i, j | 0 <= i < |defs| && 0 <= j < |defs[i].correlations|
        ensures CorrelationKey(defs[i].key, defs[i].correlations[j].0) in r
        ensures CorrelationKey(defs[i].correlations[j].0, defs[i].key) in r
      {
        if i < n {
          assert defs[..n][i] == defs[i];
        }
      }
      forall k | k in r
        ensures WrittenBy(k, defs)
      {
        if k in before {
          var i :| 0 <= i < n && PairKey(k, defs[..n][i].key, defs[..n][i].correlations);
          assert defs[..n][i] == defs[i];
        } else {
          assert PairKey(k, defs[n].key, defs[n].correlations);
        }
      }
      r
  }

  /** A stored correlation's coefficient, and that it writes the key `k`. */
  predicate HoldsCoefficient(k: string, v: real, defs: seq<Factor>, i: int, j: int)
  {
    0 <= i < |defs| && 0 <= j < |defs[i].correlations|
    && Writes(k, defs[i].key, defs[i].correlations[j]) && v == defs[i].correlations[j].1
  }

  /** The entry of one key holds the coefficient of a stored correlation that writes it. */
  lemma {:induction false} MatrixValueAt(defs: seq<Factor>, k: string) returns (i: nat, j: nat)
    requires k in GenerateCorrelationMatrix(defs)
    ensures HoldsCoefficient(k, GenerateCorrelationMatrix(defs)[k], defs, i, j)
  {
    var n := |defs| - 1;
    var before := GenerateCorrelationMatrix(defs[..n]);
    var r := GenerateCorrelationMatrix(defs);
    assert r == AddCorrelations(before, defs[n].key, defs[n].correlations);
    if PairKey(k, defs[n].key, defs[n].correlations) {
      j := AddCorrelationsValueAt(before, defs[n].key, defs[n].correlations, k);
      i := n;
    } else {
      AddCorrelationsKeepsAt(before, defs[n].key, defs[n].correlations, k);
      i, j := MatrixValueAt(defs[..n], k);
      assert defs[..n][i] == defs[i];
    }
  }

  /** Every entry of the generated matrix holds the coefficient of a stored correlation that
      writes its key. */
  lemma MatrixValues(defs: seq<Factor>)
    ensures var r := GenerateCorrelationMatrix(defs);
            forall k :: k in r ==> exists i, j :: HoldsCoefficient(k, r[k], defs, i, j)
  {
    forall k | k in GenerateCorrelationMatrix(defs)
      ensures exists i, j :: HoldsCoefficient(k, GenerateCorrelationMatrix(defs)[k], defs, i, j)
    {
      var i, j := MatrixValueAt(defs, k);
    }
  }

  /** A key that exactly one stored correlation writes, in either direction, holds that
      correlation's coefficient: no other definition overwrites it. */
  lemma SoleWriterHolds(defs: seq<Factor>, i: nat, j: nat, k: string)
    requires i < |defs| && j < |defs[i].correlations| && Writes(k, defs[i].key, defs[i].correlations[j])
    requires forall i', j' :: 0 <= i' < |defs| && 0 <= j' < |defs[i'].correlations| && (i', j') != (i, j) ==>
               !Writes(k, defs[i'].key, defs[i'].correlations[j'])
    ensures k in GenerateCorrelationMatrix(defs) && GenerateCorrelationMatrix(defs)[k] == defs[i].correlations[j].1
  {
    var r := GenerateCorrelationMatrix(defs);
    assert k in r;
    var i', j' := MatrixValueAt(defs, k);
  }

  predicate DashFree(s: string)
  {
    '-' !in s
  }

  /** Every factor key, and every key a factor correlates with, is free of dashes. */
  predicate DashFreeKeys(defs: seq<Factor>)
  {
    forall k :: 0 <= k < |defs| ==>
      DashFree(defs[k].key) && forall j :: 0 <= j < |defs[k].correlations| ==> DashFree(defs[k].correlations[j].0)
  }

  /** The entry for (x, y) agrees with the entry for (y, x), for dash-free keys. */
  ghost predicate Symmetric(m: map<string, real>)
  {
    forall x, y :: DashFree(x) && DashFree(y) && CorrelationKey(x, y) in m ==>
      CorrelationKey(y, x) in m && m[CorrelationKey(y, x)] == m[CorrelationKey(x, y)]
  }

  /** Dash-free keys are recovered from their joined form. */
  lemma KeyInjective(a: string, b: string, x: string, y: string)
    requires DashFree(a) && DashFree(b) && DashFree(x) && DashFree(y)
    requires CorrelationKey(a, b) == CorrelationKey(x, y)
    ensures a == x && b == y
  {
    var s := CorrelationKey(a, b);
    assert s == a + ['-'] + b && s == x + ['-'] + y;
    Js.SplitAtFirst(a, b, '-');
    Js.SplitWithoutSeparator(b, '-');
    Js.SplitAtFirst(x, y, '-');
    Js.SplitWithoutSeparator(y, '-');
    assert [a, b] == Js.Split(s, '-') == [x, y];
  }

  lemma WriteBothKeepsSymmetric(m: map<string, real>, a: string, b: string, c: real)
    requires Symmetric(m) && DashFree(a) && DashFree(b)
    ensures Symmetric(m[CorrelationKey(a, b) := c][CorrelationKey(b, a) := c])
  {
    var m' := m[CorrelationKey(a, b) := c][CorrelationKey(b, a) := c];
    forall x, y | DashFree(x) && DashFree(y) && CorrelationKey(x, y) in m'
      ensures CorrelationKey(y, x) in m' && m'[CorrelationKey(y, x)] == m'[CorrelationKey(x, y)]
    {
      if CorrelationKey(x, y) == CorrelationKey(a, b) {
        KeyInjective(x, y, a, b);
      } else if CorrelationKey(x, y) == CorrelationKey(b, a) {
        KeyInjective(x, y, b, a);
      } else if CorrelationKey(y, x) == CorrelationKey(a, b) {
        KeyInjective(y, x, a, b);
      } else if CorrelationKey(y, x) == CorrelationKey(b, a) {
        KeyInjective(y, x, b, a);
      }
    }
  }

  lemma {:induction false} AddCorrelationsSymmetric(m: map<string, real>, a: string, cs: seq<(string, real)>)
    requires Symmetric(m) && DashFree(a)
    requires forall j :: 0 <= j < |cs| ==> DashFree(cs[j].0)
    ensures Symmetric(AddCorrelations(m, a, cs))
    decreases |cs|
  {
    if |cs| > 0 {
      WriteBothKeepsSymmetric(m, a, cs[0].0, cs[0].1);
      AddCorrelationsSymmetric(m[CorrelationKey(a, cs[0].0) := cs[0].1][CorrelationKey(cs[0].0, a) := cs[0].1], a, cs[1..]);
    }
  }

  /** With dash-free keys the generated matrix is symmetric. */
  lemma {:induction false} GenerateCorrelationMatrixSymmetric(defs: seq<Factor>)
    requires DashFreeKeys(defs)
    ensures Symmetric(GenerateCorrelationMatrix(defs))
  {
    if |defs| > 0 {
      var n := |defs| - 1;
      assert DashFreeKeys(defs[..n]);
      GenerateCorrelationMatrixSymmetric(defs[..n]);
      AddCorrelationsSymmetric(GenerateCorrelationMatrix(defs[..n]), defs[n].key, defs[n].correlations);
    }
  }

  /** Without the dash-free condition two different pairs can share a key: a factor "a"
      correlated with "b-c" and a factor "a-b" correlated with "c" both write "a-b-c",
      leaving the two directions of the first pair with different coefficients. */
  lemma DashedKeysCollide()
    ensures var defs := [NewFactor("a", "A", "team").(correlations := [("b-c", 0.5)]),
                         NewFactor("a-b", "AB", "team").(correlations := [("c", 0.9)])];
            var m := GenerateCorrelationMatrix(defs);
            && CorrelationKey("a", "b-c") in m && CorrelationKey("b-c", "a") in m
            && m[CorrelationKey("a", "b-c")] == 0.9 && m[CorrelationKey("b-c", "a")] == 0.5
  {
    var d0 := NewFactor("a", "A", "team").(correlations := [("b-c", 0.5)]);
    var d1 := NewFactor("a-b", "AB", "team").(correlations := [("c", 0.9)]);
    var m0 := map[][CorrelationKey("a", "b-c") := 0.5][CorrelationKey("b-c", "a") := 0.5];
    var m1 := m0[CorrelationKey("a-b", "c") := 0.9][CorrelationKey("c", "a-b") := 0.9];
    assert [d0][..0] == [];
    AddOneCorrelation(map[], "a", "b-c", 0.5);
    assert GenerateCorrelationMatrix([d0]) == m0;
    assert [d0, d1][..1] == [d0];
    AddOneCorrelation(m0, "a-b", "c", 0.9);
    SharedKey();
    assert CorrelationKey("b-c", "a")[0] != CorrelationKey("c", "a-b")[0];
  }

  /** "a" with "b-c" and "a-b" with "c" both make the key "a-b-c". */
  lemma SharedKey()
    ensures CorrelationKey("a", "b-c") == CorrelationKey("a-b", "c")
  {
    var k1, k2 := CorrelationKey("a", "b-c"), CorrelationKey("a-b", "c");
    assert |k1| == 5 == |k2|;
    assert k1[0] == k2[0] && k1[1] == k2[1] && k1[2] == k2[2] && k1[3] == k2[3] && k1[4] == k2[4];
  }

  /** Entering a single correlation writes its two directed keys. */
  lemma AddOneCorrelation(m: map<string, real>, a: string, b: string, c: real)
    ensures AddCorrelations(m, a, [(b, c)]) == m[CorrelationKey(a, b) := c][CorrelationKey(b, a) := c]
  {
    assert [(b, c)][1..] == [];
  }
}
