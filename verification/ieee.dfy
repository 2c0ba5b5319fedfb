/** JavaScript's number arithmetic where NaN and the infinities matter. A finite number is
    an exact real (rounding is not modelled), and NaN, +Infinity and -Infinity are kept
    apart, as IEEE 754 defines the operations on them. Signed zeros are not distinguished:
    every zero is +0, so a zero divisor gives the infinity of the dividend's sign. */
module Ieee {
  import opened Wrappers

  datatype Number = Finite(value: real) | PlusInfinity | MinusInfinity | NotANumber

  predicate IsInfinite(x: Number)
  {
    x.PlusInfinity? || x.MinusInfinity?
  }

  /** A real number, or NaN for `None`. */
  function FromOption(x: Option<real>): (r: Number)
    ensures r.NotANumber? <==> x.None?
    ensures x.Some? ==> r == Finite(x.value)
  {
    match x
    case Some(v) => Finite(v)
    case None => NotANumber
  }

  /** -1, 0 or 1 by the sign of a number that is not NaN. */
  function Sign(x: Number): (s: int)
    requires !x.NotANumber?
    ensures -1 <= s <= 1
    ensures s == 0 <==> x == Finite(0.0)
    ensures s > 0 <==> x.PlusInfinity? || (x.Finite? && x.value > 0.0)
  {
    match x
    case PlusInfinity => 1
    case MinusInfinity => -1
    case Finite(v) => if v > 0.0 then 1 else if v < 0.0 then -1 else 0
  }

  /** The infinity of a sign. */
  function Infinity(s: int): (r: Number)
    requires s != 0
    ensures IsInfinite(r) && (r.PlusInfinity? <==> s > 0)
  {
    if s > 0 then PlusInfinity else MinusInfinity
  }

  function Neg(x: Number): (r: Number)
    ensures r.NotANumber? <==> x.NotANumber?
    ensures r.PlusInfinity? <==> x.MinusInfinity?
    ensures r.MinusInfinity? <==> x.PlusInfinity?
    ensures x.Finite? ==> r.Finite? && r.value + x.value == 0.0
  {
    match x
    case Finite(v) => Finite(-v)
    case PlusInfinity => MinusInfinity
    case MinusInfinity => PlusInfinity
    case NotANumber => NotANumber
  }

  /** `a + b`: NaN in, NaN out; opposite infinities cancel to NaN; otherwise an infinity
      absorbs any finite addend. */
  function Add(a: Number, b: Number): (r: Number)
    ensures r.NotANumber? <==>
              a.NotANumber? || b.NotANumber? || (a.PlusInfinity? && b.MinusInfinity?)
              || (a.MinusInfinity? && b.PlusInfinity?)
    ensures r.PlusInfinity? <==> (a.PlusInfinity? || b.PlusInfinity?) && !a.NotANumber? && !b.NotANumber?
                                 && !a.MinusInfinity? && !b.MinusInfinity?
    ensures r.Finite? <==> a.Finite? && b.Finite?
    ensures a.Finite? && b.Finite? ==> r == Finite(a.value + b.value)
  {
    match (a, b)
    case (Finite(x), Finite(y)) => Finite(x + y)
    case (NotANumber, _) => NotANumber
    case (_, NotANumber) => NotANumber
    case (PlusInfinity, MinusInfinity) => NotANumber
    case (MinusInfinity, PlusInfinity) => NotANumber
    case (PlusInfinity, _) => PlusInfinity
    case (_, PlusInfinity) => PlusInfinity
    case (MinusInfinity, _) => MinusInfinity
    case (_, MinusInfinity) => MinusInfinity
  }

  /** `a - b`. */
  function Sub(a: Number, b: Number): (r: Number)
    ensures r.Finite? <==> a.Finite? && b.Finite?
    ensures a.Finite? && b.Finite? ==> r == Finite(a.value - b.value)
    ensures r.NotANumber? <==>
              a.NotANumber? || b.NotANumber? || (a.PlusInfinity? && b.PlusInfinity?)
              || (a.MinusInfinity? && b.MinusInfinity?)
  {
    Add(a, Neg(b))
  }

  /** `a * b`: an infinity times zero is NaN, otherwise the signs multiply. */
  function Mul(a: Number, b: Number): (r: Number)
    ensures r.NotANumber? <==>
              a.NotANumber? || b.NotANumber? || (IsInfinite(a) && b == Finite(0.0))
              || (IsInfinite(b) && a == Finite(0.0))
    ensures r.Finite? <==> a.Finite? && b.Finite?
    ensures a.Finite? && b.Finite? ==> r == Finite(a.value * b.value)
    ensures IsInfinite(r) ==> r == Infinity(Sign(a) * Sign(b))
  {
    if a.NotANumber? || b.NotANumber? then NotANumber
    else if a.Finite? && b.Finite? then Finite(a.value * b.value)
    else
      var s := Sign(a) * Sign(b);
      if s == 0 then NotANumber else Infinity(s)
  }

  /** `a / b`: 0/0 and ∞/∞ are NaN, a non-zero number over zero is an infinity, and a
      finite number over an infinity is zero. */
  function Div(a: Number, b: Number): (r: Number)
    ensures r.NotANumber? <==>
              a.NotANumber? || b.NotANumber? || (IsInfinite(a) && IsInfinite(b))
              || (a == Finite(0.0) && b == Finite(0.0))
    ensures a.Finite? && b.Finite? && b.value != 0.0 ==> r == Finite(a.value / b.value)
    ensures a.Finite? && IsInfinite(b) ==> r == Finite(0.0)
    ensures IsInfinite(r) <==> !r.NotANumber? && (IsInfinite(a) || b == Finite(0.0))
    ensures IsInfinite(r) && b == Finite(0.0) ==> r == Infinity(Sign(a))
    ensures IsInfinite(r) && b != Finite(0.0) ==> r == Infinity(Sign(a) * Sign(b))
  {
    if a.NotANumber? || b.NotANumber? then NotANumber
    else if IsInfinite(a) && IsInfinite(b) then NotANumber
    else if a.Finite? && b.Finite? then
      if b.value != 0.0 then Finite(a.value / b.value)
      else if a.value == 0.0 then NotANumber
      else Infinity(Sign(a))
    else if a.Finite? then Finite(0.0)
    else if b == Finite(0.0) then Infinity(Sign(a))
    else Infinity(Sign(a) * Sign(b))
  }

  /** `a > b`, false whenever either side is NaN. */
  predicate Greater(a: Number, b: Number)
  {
    match (a, b)
    case (Finite(x), Finite(y)) => x > y
    case (PlusInfinity, _) => !b.NotANumber? && !b.PlusInfinity?
    case (_, MinusInfinity) => !a.NotANumber? && !a.MinusInfinity?
    case _ => false
  }

  /** `Math.abs(x)`. */
  function MathAbs(x: Number): (r: Number)
    ensures r.NotANumber? <==> x.NotANumber?
    ensures r.PlusInfinity? <==> IsInfinite(x)
    ensures x.Finite? ==> r.Finite? && r.value >= 0.0 && (r.value == x.value || r.value == -x.value)
  {
    match x
    case Finite(v) => Finite(if v < 0.0 then -v else v)
    case NotANumber => NotANumber
    case _ => PlusInfinity
  }

  /** `Math.max(a, b)`: NaN if either is. */
  function MathMax(a: Number, b: Number): (r: Number)
    ensures r.NotANumber? <==> a.NotANumber? || b.NotANumber?
    ensures !r.NotANumber? ==> r == a || r == b
    ensures !r.NotANumber? ==> !Greater(a, r) && !Greater(b, r)
  {
    if a.NotANumber? || b.NotANumber? then NotANumber
    else if Greater(b, a) then b
    else a
  }

  /** `Math.min(a, b)`: NaN if either is. */
  function MathMin(a: Number, b: Number): (r: Number)
    ensures r.NotANumber? <==> a.NotANumber? || b.NotANumber?
    ensures !r.NotANumber? ==> r == a || r == b
    ensures !r.NotANumber? ==> !Greater(r, a) && !Greater(r, b)
  {
    if a.NotANumber? || b.NotANumber? then NotANumber
    else if Greater(a, b) then b
    else a
  }

  /** A finite number in [0, 1]. */
  predicate InUnit(x: Number)
  {
    x.Finite? && 0.0 <= x.value <= 1.0
  }

  /** `Math.max(0, Math.min(1, x))`: NaN stays NaN, the infinities go to the ends. */
  function ClampUnit(x: Number): (r: Number)
    ensures r.NotANumber? <==> x.NotANumber?
    ensures !x.NotANumber? ==> InUnit(r)
    ensures InUnit(x) ==> r == x
    ensures x.PlusInfinity? ==> r == Finite(1.0)
    ensures x.MinusInfinity? ==> r == Finite(0.0)
    ensures x.Finite? && x.value > 1.0 ==> r == Finite(1.0)
    ensures x.Finite? && x.value < 0.0 ==> r == Finite(0.0)
  {
    MathMax(Finite(0.0), MathMin(Finite(1.0), x))
  }

  /** Clamping never reverses the order of two finite numbers. */
  lemma ClampUnitMonotone(x: real, y: real)
    requires x <= y
    ensures ClampUnit(Finite(x)).value <= ClampUnit(Finite(y)).value
  {
  }
}
