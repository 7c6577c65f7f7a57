/** Fixed-point money with four decimal places. An amount that has been rounded
    is an integer counting ten-thousandths; an amount before rounding is an exact
    `real`. */
module Decimals {

  /** Ten-thousandths per unit. */
  const Scale: real := 10000.0

  /** The value of an amount held in ten-thousandths. */
  function ToReal(units: int): real
  {
    units as real / Scale
  }

  /** Rounding to four decimal places, halves away from zero: the nearest
      multiple of 0.0001, and of two equally near ones the larger in magnitude. */
  function Round4(x: real): (r: int)
    ensures x >= 0.0 ==> r as real - 0.5 <= x * Scale < r as real + 0.5
    ensures x < 0.0 ==> r as real - 0.5 < x * Scale <= r as real + 0.5
  {
    if x >= 0.0 then (x * Scale + 0.5).Floor else -((-x) * Scale + 0.5).Floor
  }

  /** Rounding leaves an amount that already has four places unchanged. */
  lemma Round4OfUnits(n: int)
    ensures Round4(ToReal(n)) == n
  {
    assert ToReal(n) * Scale == n as real;
  }

  /** Rounding preserves order. */
  lemma Round4Monotone(x: real, y: real)
    requires x <= y
    ensures Round4(x) <= Round4(y)
  {
  }

  /** An amount at least `n` ten-thousandths rounds to at least `n`. */
  lemma Round4AtLeast(x: real, n: int)
    requires ToReal(n) <= x
    ensures n <= Round4(x)
  {
    Round4OfUnits(n);
    Round4Monotone(ToReal(n), x);
  }
}
