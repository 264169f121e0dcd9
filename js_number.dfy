/**
 * The part of JavaScript number semantics the model needs where the source
 * divides by a quantity that can be zero: a finite value, NaN, or an infinity.
 * Every comparison with NaN is false, and Math.min/Math.max propagate NaN.
 */
module JsNumber {

  datatype Number = Num(v: real) | NaN | PosInf | NegInf

  /** `a / b` on finite operands. */
  function Div(a: real, b: real): (r: Number)
    ensures b != 0.0 ==> r == Num(a / b)
    ensures b == 0.0 ==> (r == NaN <==> a == 0.0)
    ensures b == 0.0 && a > 0.0 ==> r == PosInf
    ensures b == 0.0 && a < 0.0 ==> r == NegInf
  {
    if b != 0.0 then Num(a / b)
    else if a > 0.0 then PosInf
    else if a < 0.0 then NegInf
    else NaN
  }

  /** `a < b` */
  predicate Lt(a: Number, b: Number) {
    match (a, b)
    case (Num(x), Num(y)) => x < y
    case (NaN, _) => false
    case (_, NaN) => false
    case (NegInf, NegInf) => false
    case (NegInf, _) => true
    case (_, PosInf) => !a.PosInf?
    case _ => false
  }

  /** `a <= b` */
  predicate Le(a: Number, b: Number) {
    Lt(a, b) || (a == b && !a.NaN?)
  }

  /** `a - b` on a finite left operand. */
  function SubFrom(a: real, b: Number): Number {
    match b
    case Num(y) => Num(a - y)
    case NaN => NaN
    case PosInf => NegInf
    case NegInf => PosInf
  }

  /** `a - b` on a finite right operand. */
  function Sub(a: Number, b: real): Number {
    match a
    case Num(x) => Num(x - b)
    case _ => a
  }

  /** `a + b` on a finite right operand. */
  function Add(a: Number, b: real): Number {
    match a
    case Num(x) => Num(x + b)
    case _ => a
  }

  /** `a * c` on a finite right operand. */
  function Scale(a: Number, c: real): (r: Number)
    ensures a.Num? ==> r == Num(a.v * c)
    ensures a.NaN? ==> r.NaN?
    ensures !a.Num? && c == 0.0 ==> r.NaN?
  {
    if a.Num? then Num(a.v * c)
    else if a.NaN? || c == 0.0 then NaN
    else if (c > 0.0) == a.PosInf? then PosInf
    else NegInf
  }

  /** `Math.min(a, b)` */
  function Min(a: Number, b: Number): (r: Number)
    ensures (a.NaN? || b.NaN?) <==> r.NaN?
    ensures !r.NaN? ==> Le(r, a) && Le(r, b) && (r == a || r == b)
  {
    if a.NaN? || b.NaN? then NaN
    else if Lt(b, a) then b
    else a
  }

  /** `Math.max(a, b)` */
  function Max(a: Number, b: Number): (r: Number)
    ensures (a.NaN? || b.NaN?) <==> r.NaN?
    ensures !r.NaN? ==> Le(a, r) && Le(b, r) && (r == a || r == b)
  {
    if a.NaN? || b.NaN? then NaN
    else if Lt(a, b) then b
    else a
  }

  /** `Math.max(0, Math.min(1, x))` */
  function Clamp01(x: Number): (r: Number)
    ensures x.NaN? <==> r.NaN?
    ensures r.Num? || r.NaN?
    ensures r.Num? ==> 0.0 <= r.v <= 1.0
    ensures x.Num? && 0.0 <= x.v <= 1.0 ==> r == x
    ensures x.PosInf? ==> r == Num(1.0)
    ensures x.NegInf? ==> r == Num(0.0)
  {
    Max(Num(0.0), Min(Num(1.0), x))
  }

  /** Real clamp `Math.max(lo, Math.min(hi, x))` on finite values. */
  function ClampReal(x: real, lo: real, hi: real): (r: real)
    ensures lo <= hi ==> lo <= r <= hi
    ensures lo <= x <= hi ==> r == x
    ensures x <= lo ==> r == lo
  {
    if hi < x then (if lo < hi then hi else lo)
    else if lo < x then x
    else lo
  }

  function MinReal(a: real, b: real): (r: real)
    ensures r <= a && r <= b && (r == a || r == b)
  {
    if a <= b then a else b
  }

  function MaxReal(a: real, b: real): (r: real)
    ensures r >= a && r >= b && (r == a || r == b)
  {
    if a >= b then a else b
  }

  /** A part of a non-negative whole is at most the whole. */
  lemma RatioInUnit(a: real, b: real)
    requires 0.0 <= a <= b
    ensures b != 0.0 ==> 0.0 <= a / b <= 1.0
  {
    if b != 0.0 {
      assert a / b * b == a;
    }
  }

  lemma DivSelf(d: real)
    requires d > 0.0
    ensures d / d == 1.0
  {
  }
}
