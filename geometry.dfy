/**
 * Vectors of the game world. Coordinates are reals; Euclidean distances are
 * compared through the squared distance, which orders points exactly as the
 * distance does because the square root is monotone.
 */
module Geometry {

  datatype Point = Point(x: real, y: real, z: real)

  const Zero := Point(0.0, 0.0, 0.0)

  function Add(a: Point, b: Point): Point {
    Point(a.x + b.x, a.y + b.y, a.z + b.z)
  }

  function Sub(a: Point, b: Point): Point {
    Point(a.x - b.x, a.y - b.y, a.z - b.z)
  }

  function Scale(a: Point, k: real): Point {
    Point(a.x * k, a.y * k, a.z * k)
  }

  /** The `With(y: …)` extension: the same point moved to height `y`. */
  function WithY(a: Point, y: real): Point {
    Point(a.x, y, a.z)
  }

  /** Square of the Euclidean distance between `a` and `b`. */
  function SqDist(a: Point, b: Point): real {
    (a.x - b.x) * (a.x - b.x) + (a.y - b.y) * (a.y - b.y) + (a.z - b.z) * (a.z - b.z)
  }

  /** The Euclidean distance from `a` to `b` is strictly less than `r`. */
  predicate DistLess(a: Point, b: Point, r: real) {
    r > 0.0 && SqDist(a, b) < r * r
  }

  /** The Euclidean distance from `a` to `b` is strictly greater than `r`. */
  predicate DistGreater(a: Point, b: Point, r: real) {
    r < 0.0 || SqDist(a, b) > r * r
  }

  lemma SqDistNonNegative(a: Point, b: Point)
    ensures SqDist(a, b) >= 0.0
  {
  }

  /** Moving both points to the same height leaves only the horizontal distance. */
  lemma PlanarDistance(a: Point, b: Point)
    ensures SqDist(a, WithY(b, a.y)) == (a.x - b.x) * (a.x - b.x) + (a.z - b.z) * (a.z - b.z)
  {
  }

  lemma SquarePositive(r: real)
    requires r > 0.0
    ensures r * r > 0.0
  {
  }

  /** Every point is within any positive distance of itself. */
  lemma DistLessToSelf(a: Point, r: real)
    requires r > 0.0
    ensures DistLess(a, a, r)
  {
    calc {
      SqDist(a, a);
    ==
      0.0;
    < { SquarePositive(r); }
      r * r;
    }
  }
}
