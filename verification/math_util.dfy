/** The scalar helpers the robot code takes from java.lang.Math and WPILib's MathUtil. */
module MathUtil {

  /** Math.abs on reals. */
  function Abs(x: real): (r: real)
    ensures r >= 0.0
    ensures r == x || r == -x
  {
    if x < 0.0 then -x else x
  }

  /** MathUtil.clamp(value, low, high): the point of [low, high] nearest to `value`. */
  function Clamp(value: real, low: real, high: real): (r: real)
    requires low <= high
    ensures low <= r <= high
    ensures low <= value <= high ==> r == value
    ensures value < low ==> r == low
    ensures value > high ==> r == high
  {
    if value < low then low else if value > high then high else value
  }

  /** Clamping twice with the same bounds changes nothing more. */
  lemma ClampIdempotent(value: real, low: real, high: real)
    requires low <= high
    ensures Clamp(Clamp(value, low, high), low, high) == Clamp(value, low, high)
  {
  }

  /** Scaling by a factor in [0, 1] never grows a value and never flips its sign. */
  lemma ScaleByUnitFraction(x: real, k: real)
    requires 0.0 <= k <= 1.0
    ensures Abs(x * k) <= Abs(x)
    ensures x * k * x >= 0.0
  {
    var y := x * k;
    if x >= 0.0 {
      MulNonNegative(x, k);
      MulNonNegative(x, 1.0 - k);
      assert x - y == x * (1.0 - k);
    } else {
      MulNonNegative(-x, k);
      MulNonNegative(-x, 1.0 - k);
      assert y - x == (-x) * (1.0 - k);
    }
  }

  lemma MulNonNegative(a: real, b: real)
    requires a >= 0.0 && b >= 0.0
    ensures a * b >= 0.0
  {
  }
}
