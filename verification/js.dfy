/** The few pieces of JavaScript value semantics the story teller depends on:
    `undefined` versus a value, NaN, truthiness of the `x || fallback` idiom,
    `Math.floor(Math.random() * n)` and the `%` operator on numbers. */
module Js {

  /** A value that may be `undefined` (or `null`) in the source. */
  datatype Option<+T> = None | Some(value: T) {

    /** `x ?? fallback`. */
    function GetOr(default: T): T {
      match this
      case Some(v) => v
      case None => default
    }
  }

  /** A number that is either NaN or finite. Infinities do not arise in the model. */
  datatype JsNumber = NaN | Finite(value: real)

  /** `s || fallback` for a string that may be undefined: undefined and "" are falsy. */
  function OrString(s: Option<string>, fallback: string): (r: string)
    ensures s.Some? && s.value != "" ==> r == s.value
    ensures s.None? || s.value == "" ==> r == fallback
  {
    if s.Some? && s.value != "" then s.value else fallback
  }

  /** `n || fallback` for an integer that may be undefined: undefined and 0 are falsy. */
  function OrInt(n: Option<int>, fallback: int): (r: int)
    ensures n.Some? && n.value != 0 ==> r == n.value
    ensures n.None? || n.value == 0 ==> r == fallback
  {
    if n.Some? && n.value != 0 then n.value else fallback
  }

  /** The values `Math.random()` can return. */
  predicate IsRandom(roll: real) {
    0.0 <= roll < 1.0
  }

  lemma ScaledRollBounds(roll: real, n: nat)
    requires IsRandom(roll) && n > 0
    ensures 0.0 <= roll * n as real < n as real
  {
    assert roll * n as real <= roll * n as real;
    assert n as real - roll * n as real == (1.0 - roll) * n as real;
  }

  /** `Math.floor(roll * n)`: an index drawn from `[0, n)`. */
  function Pick(roll: real, n: nat): (k: nat)
    requires IsRandom(roll) && n > 0
    ensures k < n
    ensures k as real <= roll * n as real < k as real + 1.0
  {
    ScaledRollBounds(roll, n);
    (roll * n as real).Floor
  }

  /** Rounding toward zero, as `%` on numbers divides. */
  function Trunc(x: real): int {
    if x >= 0.0 then x.Floor else -((-x).Floor)
  }

  /** `a % 60` on numbers, the only modulus the story teller uses: the remainder of
      truncating division, which keeps the sign of `a`. It differs from `a` by a
      whole multiple of 60, and the bounds single out that multiple. */
  function Rem60(a: real): (r: real)
    ensures a >= 0.0 ==> 0.0 <= r < 60.0
    ensures a <= 0.0 ==> -60.0 < r <= 0.0
    ensures ((a - r) / 60.0).Floor as real == (a - r) / 60.0
  {
    a - 60.0 * Trunc(a / 60.0) as real
  }
}
