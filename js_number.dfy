/**
 * The JavaScript number operations the application relies on, over exact reals:
 * `Math.round`, truncation, `%`, `Math.min`, division (which may leave the reals),
 * `parseFloat` of a number input, and the truthiness tests `x || 0`, `x || undefined`.
 */
module JsNumber {
  import opened Wrappers

  /** `Math.round`: the nearest integer, halves rounded toward +infinity. */
  function Round(x: real): (r: int)
    ensures x - 0.5 < r as real <= x + 0.5
  {
    (x + 0.5).Floor
  }

  /** Rounding an integer gives it back. */
  lemma RoundOfInteger(k: int)
    ensures Round(k as real) == k
  {
  }

  /** Truncation toward zero (what `parseInt` keeps of a decimal number). */
  function Trunc(x: real): (r: int)
    ensures 0.0 <= x ==> r as real <= x < r as real + 1.0
    ensures x < 0.0 ==> r as real - 1.0 < x <= r as real
  {
    if x >= 0.0 then x.Floor else -((-x).Floor)
  }

  /** `x % 12` on numbers: the remainder takes the sign of the dividend. */
  function RemTwelve(x: real): (r: real)
    ensures 0.0 <= x ==> 0.0 <= r < 12.0
    ensures x < 0.0 ==> -12.0 < r <= 0.0
    ensures x - r == 12.0 * Trunc(x / 12.0) as real
  {
    x - 12.0 * Trunc(x / 12.0) as real
  }

  /** A JavaScript number that may have left the reals through a division by zero. */
  datatype Num = Finite(value: real) | PosInf | NegInf | NaN {

    /** JavaScript truthiness of a number: false exactly for 0 and NaN. */
    predicate IsTruthy() {
      match this
      case Finite(v) => v != 0.0
      case NaN => false
      case _ => true
    }
  }

  /** `a / b` in floating point: infinite or NaN when `b` is zero. */
  function Quotient(a: real, b: real): (r: Num)
    ensures r.Finite? <==> b != 0.0
    ensures r == PosInf <==> b == 0.0 && a > 0.0
    ensures r == NegInf <==> b == 0.0 && a < 0.0
    ensures r == NaN <==> b == 0.0 && a == 0.0
  {
    if b != 0.0 then Finite(a / b)
    else if a > 0.0 then PosInf
    else if a < 0.0 then NegInf
    else NaN
  }

  /** A finite quotient times the divisor gives the dividend back. */
  lemma QuotientTimesDivisor(a: real, b: real)
    requires b != 0.0
    ensures Quotient(a, b).value * b == a
  {
  }

  /** `n * k` for a positive constant `k`: infinities and NaN are kept. */
  function Scale(n: Num, k: real): (r: Num)
    requires k > 0.0
    ensures r.Finite? <==> n.Finite?
    ensures n.Finite? ==> r.value == n.value * k
    ensures !n.Finite? ==> r == n
  {
    match n
    case Finite(v) => Finite(v * k)
    case _ => n
  }

  /** `Math.round(n)`: infinities and NaN are kept. */
  function RoundNum(n: Num): (r: Num)
    ensures r.Finite? <==> n.Finite?
    ensures n.Finite? ==> n.value - 0.5 < r.value <= n.value + 0.5
    ensures n.Finite? ==> r.value == r.value.Floor as real
    ensures !n.Finite? ==> r == n
  {
    match n
    case Finite(v) => Finite(Round(v) as real)
    case _ => n
  }

  /**
   * `Math.round((a / b) * 100 * 100) / 100`: the ratio `a / b` as a percentage
   * rounded to two decimal places.
   */
  function RoundedPercent(a: real, b: real): (r: Num)
    ensures r.Finite? <==> b != 0.0
    ensures b != 0.0 ==> 100.0 * (a / b) - 0.005 < r.value <= 100.0 * (a / b) + 0.005
    ensures b != 0.0 ==> (100.0 * r.value) == (100.0 * r.value).Floor as real
    ensures b == 0.0 ==> r == Quotient(a, b)
  {
    var r := Scale(RoundNum(Scale(Scale(Quotient(a, b), 100.0), 100.0)), 1.0 / 100.0);
    if b != 0.0 then
      assert r.value * 100.0 == RoundNum(Finite(a / b * 100.0 * 100.0)).value;
      r
    else
      r
  }

  /** `Math.min(n, c)` for a finite `c`. */
  function Min(n: Num, c: real): (r: Num)
    ensures n.Finite? || n == PosInf ==> r.Finite? && r.value <= c
    ensures n.Finite? && n.value <= c ==> r == n
    ensures n.Finite? && n.value > c ==> r == Finite(c)
    ensures n == PosInf ==> r == Finite(c)
    ensures n == NegInf || n == NaN ==> r == n
  {
    match n
    case Finite(v) => Finite(if v <= c then v else c)
    case PosInf => Finite(c)
    case _ => n
  }

  /** `parseFloat` of a number input, whose value is "" unless it holds a valid number. */
  function ParseFloat(field: Option<real>): (r: Num)
    ensures r.Finite? <==> field.Some?
    ensures field.Some? ==> r.value == field.value
    ensures field.None? ==> r == NaN
  {
    match field
    case Some(v) => Finite(v)
    case None => NaN
  }

  /** `parseInt` of a number input: blank reads NaN, a number is cut toward zero. */
  function ParseInt(field: Option<real>): (r: Num)
    ensures r.Finite? <==> field.Some?
    ensures field.Some? ==> r.value == Trunc(field.value) as real
    ensures field.Some? && 0.0 <= field.value ==> r.value <= field.value < r.value + 1.0
  {
    match field
    case Some(v) => Finite(Trunc(v) as real)
    case None => NaN
  }

  /** JavaScript truthiness of an optional number (`undefined`, `null`, 0 are falsy). */
  predicate Truthy(o: Option<real>) {
    o.Some? && o.value != 0.0
  }

  /** `x || 0`. */
  function OrZero(o: Option<real>): (r: real)
    ensures Truthy(o) ==> r == o.value
    ensures !Truthy(o) ==> r == 0.0
  {
    o.GetOr(0.0)
  }

  /** `x || undefined`: a falsy number becomes absent. */
  function OrUndefined(o: Option<real>): (r: Option<real>)
    ensures r.Some? <==> Truthy(o)
    ensures r.Some? ==> r == o
  {
    if Truthy(o) then o else None
  }
}
