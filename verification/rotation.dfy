/**
 * Planar rotations as WPILib's Rotation2d treats them, measured in degrees.
 *
 * A rotation built from a number keeps that number: `getRadians()` of
 * `new Rotation2d(x)` is `x` itself, even outside (-pi, pi].  Arithmetic on
 * rotations (`minus`, `rotateBy`, `plus`) goes through cosine and sine, so its
 * result is the canonical angle in (-180, 180] degrees.  `Wrap` gives that
 * canonical angle.
 */
module Rotation2d {

  /** Java's Math.PI, as an exact real. */
  const Pi: real := 3.141592653589793

  /** Degrees in one full turn. */
  const FullTurnDeg: real := 360.0

  /** Degrees in half a turn. */
  const HalfTurnDeg: real := 180.0

  /** The number of whole turns that `Wrap` adds to `x`. */
  function WrapTurns(x: real): int
  {
    ((HalfTurnDeg - x) / FullTurnDeg).Floor
  }

  /** The angle in (-180, 180] that differs from `x` by whole turns. */
  function Wrap(x: real): (r: real)
    ensures -HalfTurnDeg < r <= HalfTurnDeg
    ensures -HalfTurnDeg < x <= HalfTurnDeg ==> r == x
  {
    x + FullTurnDeg * WrapTurns(x) as real
  }

  /**
   * `Wrap` is THE canonical representative: any angle in (-180, 180] that
   * differs from `x` by whole turns is `Wrap(x)`.
   */
  lemma WrapUnique(x: real, n: int)
    requires -HalfTurnDeg < x + FullTurnDeg * n as real <= HalfTurnDeg
    ensures Wrap(x) == x + FullTurnDeg * n as real
  {
    var k := WrapTurns(x);
    var d := k - n;
    assert Wrap(x) - (x + FullTurnDeg * n as real) == FullTurnDeg * d as real;
    assert -1.0 < d as real < 1.0;
    assert d == 0;
  }

  /** Whole turns do not change the canonical angle. */
  lemma WrapShift(x: real, n: int)
    ensures Wrap(x + FullTurnDeg * n as real) == Wrap(x)
  {
    var k := WrapTurns(x);
    WrapUnique(x + FullTurnDeg * n as real, k - n);
  }

  /** Wrapping a summand first does not change the wrapped sum. */
  lemma WrapOfSum(x: real, y: real)
    ensures Wrap(Wrap(x) + y) == Wrap(x + y)
  {
    WrapShift(x + y, WrapTurns(x));
  }

  /** Wrapping is idempotent. */
  lemma WrapIdempotent(x: real)
    ensures Wrap(Wrap(x)) == Wrap(x)
  {
  }

  /** Half a turn is never the same direction as no turn. */
  lemma HalfTurnIsNotWhole(x: real)
    ensures Wrap(x + HalfTurnDeg) != Wrap(x)
  {
    var d := WrapTurns(x + HalfTurnDeg) - WrapTurns(x);
    assert Wrap(x + HalfTurnDeg) - Wrap(x) == HalfTurnDeg + FullTurnDeg * d as real;
    assert d <= -1 || d >= 0;
  }

  /** A rotation: the angle it was built from, in degrees. */
  datatype Rotation = Rotation(degrees: real)

  /** No rotation: `new Rotation2d()`. */
  const Zero: Rotation := Rotation(0.0)

  /** getRadians(). */
  function Radians(a: Rotation): real
  {
    a.degrees * Pi / HalfTurnDeg
  }

  /** getRotations(). */
  function Rotations(a: Rotation): real
  {
    a.degrees / FullTurnDeg
  }

  /** `new Rotation2d(radians)`: keeps the value, so getRadians() gives it back. */
  function FromRadians(radians: real): (r: Rotation)
    ensures Radians(r) == radians
  {
    Rotation(radians * HalfTurnDeg / Pi)
  }

  /** Rebuilding a rotation from its radians gives the same rotation. */
  lemma RadiansRoundTrip(a: Rotation)
    ensures FromRadians(Radians(a)) == a
  {
  }

  /** Rotation2d.fromRotations(rotations): keeps the value, so getRotations() gives it back. */
  function FromRotations(rotations: real): (r: Rotation)
    ensures Rotations(r) == rotations
  {
    Rotation(rotations * FullTurnDeg)
  }

  /** Two rotations point the same way when they differ by whole turns. */
  predicate SameDirection(a: Rotation, b: Rotation)
  {
    Wrap(a.degrees) == Wrap(b.degrees)
  }

  /** rotateBy(other) and plus(other): the composed rotation, canonicalised. */
  function RotateBy(a: Rotation, b: Rotation): (r: Rotation)
    ensures -HalfTurnDeg < r.degrees <= HalfTurnDeg
    ensures SameDirection(r, Rotation(a.degrees + b.degrees))
  {
    Rotation(Wrap(a.degrees + b.degrees))
  }

  /** minus(other): the rotation that takes `b` to `a`, canonicalised. */
  function Minus(a: Rotation, b: Rotation): (r: Rotation)
    ensures -HalfTurnDeg < r.degrees <= HalfTurnDeg
    ensures SameDirection(RotateBy(r, b), a)
  {
    WrapOfSum(a.degrees - b.degrees, b.degrees);
    Rotation(Wrap(a.degrees - b.degrees))
  }

  /** Rotation arithmetic sees only direction: whole turns in an operand do not matter. */
  lemma MinusRespectsDirection(a: Rotation, a': Rotation, b: Rotation)
    requires SameDirection(a, a')
    ensures Minus(a, b) == Minus(a', b)
  {
    WrapOfSum(a.degrees, -b.degrees);
    WrapOfSum(a'.degrees, -b.degrees);
  }
}
