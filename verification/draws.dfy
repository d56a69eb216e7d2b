/**
  Random draws and number formatting. Every `Math.random()` call of the
  source becomes a `Unit` argument supplied by the caller, so the model is
  deterministic in its inputs.
 */
module Draws {

  /** A value `Math.random()` can return: a real in [0, 1). */
  type Unit = r: real | 0.0 <= r < 1.0

  /** `Math.floor(r * n)`: a uniformly drawn index below `n`. */
  function Pick(r: Unit, n: nat): (k: nat)
    requires n > 0
    ensures k < n
    ensures k as real <= r * n as real < (k + 1) as real
  {
    assert 0.0 <= r * n as real < n as real;
    (r * n as real).Floor
  }

  /**
    `parseFloat(x.toFixed(1))` counted in tenths, for non-negative `x`.
    `toFixed` picks the larger candidate when a non-negative `x` lies exactly
    half-way, so this is `x * 10` rounded half up. (On a negative half-way
    value `toFixed` rounds away from zero instead; every negative result is
    clamped to 0 where this is used, so the difference never shows.)
   */
  function ToFixed1(x: real): (t: int)
    ensures (t as real) - 0.5 <= x * 10.0 < (t as real) + 0.5
  {
    (x * 10.0 + 0.5).Floor
  }
}
