/**
 * Coordinates and poses reported by the simulator, and the small pieces of
 * float arithmetic the proximity code relies on: Euclidean distance (carried
 * as its square, so that no square root is needed) and Python's `%` on floats.
 */
module Geometry {

  /** A location in the simulator's world frame. */
  datatype Point = Point(x: real, y: real, z: real)

  /** A location together with the heading (yaw, in degrees). */
  datatype Transform = Transform(location: Point, yaw: real)

  const Origin := Point(0.0, 0.0, 0.0)

  /** What a protobuf message yields for a transform sub-message that was never set. */
  const DefaultTransform := Transform(Origin, 0.0)

  /** The square of the Euclidean distance between two points. */
  function SqDist(p: Point, q: Point): (d2: real)
    ensures d2 >= 0.0
    ensures p == q ==> d2 == 0.0
  {
    var dx, dy, dz := p.x - q.x, p.y - q.y, p.z - q.z;
    dx * dx + dy * dy + dz * dz
  }

  /**
   * `dist < radius`, stated on the square `d2` of the distance. It holds for a
   * non-positive radius never, as the comparison on distances does.
   */
  predicate CloserThan(d2: real, radius: real)
  {
    radius > 0.0 && d2 < radius * radius
  }

  /** `dist <= radius`, stated on the square `d2` of the distance. */
  predicate NoFartherThan(d2: real, radius: real)
  {
    radius >= 0.0 && d2 <= radius * radius
  }

  lemma SquareMonotonic(a: real, b: real)
    requires 0.0 <= a <= b
    ensures a * a <= b * b
    ensures a < b ==> a * a < b * b
  {
    var d := b - a;
    assert b * b == a * a + 2.0 * (a * d) + d * d;
    assert d * d >= 0.0 && a * d >= 0.0;
    if a < b {
      assert d * d > 0.0;
      assert a * a < b * b;
    }
  }

  /**
   * The encodings above say what the source's comparisons on distances say:
   * for every distance `d` and radius `r`, comparing squares gives the same
   * answer as comparing `d` with `r`.
   */
  lemma SquaredComparisons(d: real, r: real)
    requires d >= 0.0
    ensures CloserThan(d * d, r) <==> d < r
    ensures NoFartherThan(d * d, r) <==> d <= r
  {
    if r >= 0.0 {
      if d < r {
        SquareMonotonic(d, r);
      } else {
        SquareMonotonic(r, d);
      }
    }
  }

  /** Python's `x % 360` on floats: `x - 360 * floor(x / 360)`. */
  function Mod360(x: real): (r: real)
    ensures 0.0 <= r < 360.0
    ensures ((x - r) / 360.0).Floor as real == (x - r) / 360.0
  {
    x - 360.0 * ((x / 360.0).Floor as real)
  }

  /** Adding a whole number of turns does not change `x % 360`. */
  lemma Mod360Periodic(x: real, k: int)
    ensures Mod360(x + 360.0 * (k as real)) == Mod360(x)
  {
    var y := x + 360.0 * (k as real);
    assert y / 360.0 == x / 360.0 + (k as real);
    assert (y / 360.0).Floor == (x / 360.0).Floor + k;
  }
}
