/**
 * The pieces of JavaScript's semantics that the core depends on:
 * the `%` operator on numbers and the truthiness test behind `||` and `?:`.
 */
module Js {

  /**
   * JavaScript's `a % b`: the quotient is truncated toward zero, so the
   * remainder takes the sign of the dividend (`-3 % 2 == -1`), unlike
   * Dafny's Euclidean `%`.
   */
  function Remainder(a: int, b: int): (r: int)
    requires b != 0
    ensures -Abs(b) < r < Abs(b)
    ensures a >= 0 ==> r >= 0
    ensures a <= 0 ==> r <= 0
  {
    if a >= 0 then a % b else -((-a) % b)
  }

  function Abs(b: int): int
  {
    if b < 0 then -b else b
  }

  /** Facts about `x % 2` that the grid's parity encoding relies on. */
  lemma RemainderTwo(a: int)
    ensures Remainder(a, 2) == 0 <==> a % 2 == 0
    ensures a >= 0 ==> Remainder(a, 2) == a % 2
    ensures -1 <= Remainder(a, 2) <= 1
    ensures Remainder(Remainder(a, 2), 2) == Remainder(a, 2)
    ensures Remainder(a + 1, 2) != Remainder(a, 2)
  {
  }

  /** A JavaScript value as it can appear in a stored document field. */
  datatype Value =
    | Undefined
    | Null
    | Bool(b: bool)
    | Number(n: real)
    | Text(s: string)
    | Object

  /** ECMAScript ToBoolean (NaN, -0 and BigInt are not modelled). */
  function Truthy(v: Value): (r: bool)
    ensures !r <==> v == Undefined || v == Null || v == Bool(false) || v == Number(0.0) || v == Text("")
  {
    match v
    case Undefined => false
    case Null => false
    case Bool(b) => b
    case Number(n) => n != 0.0
    case Text(s) => s != ""
    case Object => true
  }
}
