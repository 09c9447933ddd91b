/**
 * Decimal rounding as `parseFloat(x.toFixed(k))` performs it, taken on exact
 * reals: the nearest multiple of 10^-k, ties going away from zero.
 */
module Numeric {

  /** The integer nearest to `y`; a tie goes away from zero. */
  function RoundHalfAway(y: real): (n: int)
    ensures -0.5 <= n as real - y <= 0.5
    ensures n as real - y == 0.5 ==> y > 0.0
    ensures y - n as real == 0.5 ==> y < 0.0
    ensures (y >= 0.0) == (n >= 0) || n == 0
  {
    if y >= 0.0 then (y + 0.5).Floor else -((-y + 0.5).Floor)
  }

  /**
   * `x` rounded to the nearest multiple of `unit`, a tie going away from
   * zero: `toFixed(k)` followed by `parseFloat` is `RoundTo(x, 10^-k)`.
   */
  function RoundTo(x: real, unit: real): real
    requires unit > 0.0
  {
    RoundHalfAway(x / unit) as real * unit
  }

  /**
   * `x` rounded to a multiple of `unit` is such a multiple and lies within
   * half a unit of `x`.
   */
  lemma RoundToSpec(x: real, unit: real)
    requires unit > 0.0
    ensures IsWhole(RoundTo(x, unit) / unit)
    ensures -unit / 2.0 <= RoundTo(x, unit) - x <= unit / 2.0
  {
    var y := x / unit;
    var n := RoundHalfAway(y) as real;
    var r := RoundTo(x, unit);
    assert r == n * unit;
    Cancel(n, unit);
    assert r / unit == n;
    assert n.Floor as real == n;
    Cancel(y, unit);
    Distribute(n, y, unit);
    assert r - x == (n - y) * unit;
    var d := n - y;
    HalfScaled(d, unit);
    assert r - x == d * unit <= unit / 2.0;
  }

  /** Rounding to a whole number gives a whole number within half a unit. */
  lemma RoundToWhole(x: real)
    ensures IsWhole(RoundTo(x, 1.0))
    ensures -0.5 <= RoundTo(x, 1.0) - x <= 0.5
  {
    RoundToSpec(x, 1.0);
  }

  lemma Cancel(a: real, unit: real)
    requires unit > 0.0
    ensures (a * unit) / unit == a && (a / unit) * unit == a
  {
  }

  lemma Distribute(a: real, b: real, unit: real)
    ensures a * unit - b * unit == (a - b) * unit
  {
  }

  lemma HalfScaled(d: real, unit: real)
    requires unit > 0.0 && -0.5 <= d <= 0.5
    ensures -unit / 2.0 <= d * unit <= unit / 2.0
  {
    if d >= 0.0 {
      assert d * unit <= 0.5 * unit;
    } else {
      assert -0.5 * unit <= d * unit;
    }
  }

  predicate IsWhole(y: real)
  {
    y.Floor as real == y
  }

  function Min(a: real, b: real): (m: real)
    ensures m <= a && m <= b
    ensures m == a || m == b
  {
    if b < a then b else a
  }
}
