/**
 * The arithmetic of Java's `double` that the renderer relies on, idealised
 * over exact reals: the constant `Math.PI`, the remainder operator `%`
 * (which truncates, so that the remainder takes the dividend's sign) and
 * `Math.round` (nearest integer, ties towards positive infinity).
 */
module Numerics {

  /** `Math.PI`, as the shortest decimal that reads back as that double; the model takes it as an exact real. */
  const PI: real := 3.141592653589793

  /** One full turn, `2.0 * Math.PI`. */
  const TwoPi: real := 2.0 * PI

  /** True when `x` is a whole number. */
  predicate IsWhole(x: real) {
    x.Floor as real == x
  }

  /** True when the angles `a` and `b` differ by a whole number of turns. */
  predicate Coterminal(a: real, b: real) {
    IsWhole((a - b) / TwoPi)
  }

  /** The quotient `n / (2.0 * Math.PI)` truncated towards zero, as Java's `%` takes it. */
  function TurnsIn(n: real): int {
    if n >= 0.0 then (n / TwoPi).Floor else -((-n) / TwoPi).Floor
  }

  /**
   * Java's `n % (2.0 * Math.PI)`: the result differs from `n` by a whole
   * number of turns and carries the dividend's sign, so it lies in
   * `[0, 2pi)` for a non-negative dividend and in `(-2pi, 0]` for a
   * non-positive one.
   */
  function RemTwoPi(n: real): (r: real)
    ensures Coterminal(n, r)
    ensures 0.0 <= n ==> 0.0 <= r < TwoPi
    ensures n <= 0.0 ==> -TwoPi < r <= 0.0
  {
    n - (TurnsIn(n) as real) * TwoPi
  }

  /**
   * For a non-negative dividend the remainder is the one value in
   * `[0, 2pi)` coterminal with it.
   */
  lemma RemTwoPiUnique(n: real, r: real)
    requires 0.0 <= n
    requires 0.0 <= r < TwoPi && Coterminal(n, r)
    ensures RemTwoPi(n) == r
  {
  }

  /** Adding a whole number to, or subtracting from it, a whole number leaves a whole number. */
  lemma WholeShift(k: real, m: int)
    requires IsWhole(k)
    ensures IsWhole(m as real - k) && IsWhole(k + m as real)
  {
    var j := k.Floor;
    assert k == j as real;
    IntIsWhole(m - j);
    IntIsWhole(j + m);
  }

  lemma IntIsWhole(i: int)
    ensures IsWhole(i as real)
  {
  }

  /** `Math.round`: the nearest integer, with halves rounded upwards. */
  function Round(v: real): (n: int)
    ensures (n as real) - 0.5 <= v < (n as real) + 0.5
  {
    (v + 0.5).Floor
  }
}
