/** The `float` values the metering arithmetic can produce, idealised: a
    finite value is an exact real (rounding is not modelled), while the
    infinities and the NaN that a division by zero or the square root of a
    negative number produce are kept, because the metering code does not
    guard against them. Signed zeros are not distinguished. */
module Floats {

  datatype Float = Finite(value: real) | PosInf | NegInf | NaN
  {
    predicate IsInfinite()
    {
      PosInf? || NegInf?
    }

    /** The sign of a non-NaN value. */
    function Sign(): int
      requires !NaN?
    {
      match this
      case Finite(x) => if x > 0.0 then 1 else if x < 0.0 then -1 else 0
      case PosInf => 1
      case NegInf => -1
    }
  }

  /** An infinity of the given sign. */
  function Infinity(sign: int): (f: Float)
    requires sign != 0
    ensures f.IsInfinite() && (f.PosInf? <==> sign > 0)
  {
    if sign > 0 then PosInf else NegInf
  }

  /** `f > c` as C evaluates it: false when `f` is NaN. */
  predicate Above(f: Float, c: real)
  {
    match f
    case Finite(x) => x > c
    case PosInf => true
    case _ => false
  }

  /** Division: a NaN operand, 0/0 and an infinity over an infinity give
      NaN; a nonzero number over zero gives an infinity. */
  function Div(a: Float, b: Float): (q: Float)
    ensures q.NaN? <==> a.NaN? || b.NaN? || (a == Finite(0.0) && b == Finite(0.0)) || (a.IsInfinite() && b.IsInfinite())
    ensures b == Finite(0.0) ==> !q.Finite?
    ensures q.Finite? ==> a.Finite?
    ensures q.Finite? && b.Finite? ==> a.Finite? && q.value * b.value == a.value
    ensures a.Finite? && b.IsInfinite() ==> q == Finite(0.0)
  {
    if a.NaN? || b.NaN? then NaN
    else if a.Finite? && b.Finite? then
      if b.value != 0.0 then Finite(a.value / b.value)
      else if a.value == 0.0 then NaN
      else Infinity(a.Sign())
    else if a.Finite? then Finite(0.0)
    else if b.Finite? then (if b.value < 0.0 then Infinity(-a.Sign()) else a)
    else NaN
  }

  /** Multiplication: a NaN operand and an infinity times zero give NaN. */
  function Mul(a: Float, b: Float): (p: Float)
    ensures p.NaN? <==> a.NaN? || b.NaN? || (a.IsInfinite() && b == Finite(0.0)) || (a == Finite(0.0) && b.IsInfinite())
    ensures p.Finite? <==> a.Finite? && b.Finite?
    ensures p.Finite? ==> p.value == a.value * b.value
  {
    if a.NaN? || b.NaN? then NaN
    else if a.Finite? && b.Finite? then Finite(a.value * b.value)
    else if a.Sign() == 0 || b.Sign() == 0 then NaN
    else Infinity(a.Sign() * b.Sign())
  }

  /** The library square root `root` lifted to floats: negative numbers and
      negative infinity give NaN, positive infinity stays. `root` is what the
      math library computes for a non-negative finite argument. */
  function Sqrt(a: Float, root: real -> real): (r: Float)
    ensures r.NaN? <==> a.NaN? || a.NegInf? || (a.Finite? && a.value < 0.0)
    ensures r.PosInf? <==> a.PosInf?
    ensures r.Finite? <==> a.Finite? && a.value >= 0.0
    ensures r.Finite? ==> r.value == root(a.value)
  {
    match a
    case Finite(x) => if x >= 0.0 then Finite(root(x)) else NaN
    case PosInf => PosInf
    case _ => NaN
  }
}
