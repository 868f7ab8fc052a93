/**
 * JavaScript numbers as the workout model sees them: a finite value, or one
 * of the three non-finite values `NaN`, `Infinity` and `-Infinity`.
 * Finite values are mathematical reals: floating-point rounding and the sign
 * of zero are not modelled.
 */
module JsNumber {

  datatype Num = Fin(v: real) | NaN | PosInf | NegInf

  /** `Number.isFinite(n)`. */
  predicate IsFinite(n: Num) {
    n.Fin?
  }

  /** `n > 0` under JavaScript comparison: false for NaN, true for Infinity. */
  predicate IsPositive(n: Num) {
    match n
    case Fin(x) => x > 0.0
    case PosInf => true
    case _ => false
  }

  /** The sign of a non-NaN number as -1, 0 or 1. */
  function Sign(n: Num): int
    requires !n.NaN?
  {
    match n
    case Fin(x) => if x > 0.0 then 1 else if x < 0.0 then -1 else 0
    case PosInf => 1
    case NegInf => -1
  }

  /** An infinity of the given sign. */
  function Infinity(sign: int): Num {
    if sign < 0 then NegInf else PosInf
  }

  /**
   * The JavaScript division `a / b`. A NaN operand, 0 / 0 and an infinity
   * over an infinity give NaN; a non-zero value over zero gives an infinity;
   * a finite value over an infinity gives zero.
   */
  function Div(a: Num, b: Num): (r: Num)
    ensures a.Fin? && b.Fin? && b.v == 0.0 && a.v != 0.0 ==> r == Infinity(Sign(a))
    ensures r.Fin? <==> a.Fin? && ((b.Fin? && b.v != 0.0) || b.PosInf? || b.NegInf?)
    ensures r.NaN? <==>
      a.NaN? || b.NaN? || (a.Fin? && a.v == 0.0 && b.Fin? && b.v == 0.0) || (!a.Fin? && !b.Fin?)
    ensures IsPositive(a) && IsPositive(b) && a.Fin? && b.Fin? ==> IsPositive(r)
  {
    if a.NaN? || b.NaN? then NaN
    else if a.Fin? && b.Fin? then
      if b.v != 0.0 then Fin(a.v / b.v)
      else if a.v == 0.0 then NaN
      else Infinity(Sign(a))
    else if a.Fin? then Fin(0.0)
    else if b.Fin? then Infinity(Sign(a) * (if Sign(b) < 0 then -1 else 1))
    else NaN
  }

  /** A finite quotient times the divisor gives back the dividend. */
  lemma DivInverse(a: Num, b: Num)
    requires a.Fin? && b.Fin? && b.v != 0.0
    ensures Div(a, b).Fin? && Div(a, b).v * b.v == a.v
  {
  }
}
