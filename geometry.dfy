/**
 * Plane geometry of the chase: points, squared distances and the fixed-length
 * step of the chaser toward the target. Coordinates are mathematical reals.
 * The square root the game takes of the squared distance is never computed
 * here: it is a value `root` that `IsDistance` constrains.
 *
 * The arithmetic lemmas at the end each state one small polynomial fact; the
 * geometric lemmas are assembled from them.
 */
module Geometry {

  datatype Point = Point(x: real, y: real)

  /** Square of the Euclidean distance between a and b (dx * dx + dy * dy). */
  function DistSq(a: Point, b: Point): (d: real)
    ensures d >= 0.0
  {
    SquaresNonNegative(b.x - a.x, b.y - a.y);
    (b.x - a.x) * (b.x - a.x) + (b.y - a.y) * (b.y - a.y)
  }

  /** `root` is the distance between a and b: the non-negative square root of DistSq(a, b). */
  predicate IsDistance(a: Point, b: Point, root: real) {
    root >= 0.0 && root * root == DistSq(a, b)
  }

  /** A point is at distance zero from itself. */
  lemma SelfDistance(a: Point, root: real)
    requires IsDistance(a, a, root)
    ensures root == 0.0
  {
    ZeroSquare(root);
  }

  /** A distance test against a bound can be made on squared distances, without a square root. */
  lemma DistanceBelow(a: Point, b: Point, root: real, bound: real)
    requires IsDistance(a, b, root) && bound >= 0.0
    ensures root < bound <==> DistSq(a, b) < bound * bound
  {
    SquareMonotone(root, bound);
  }

  /**
   * One move of a point c that is `root` away from t: when the two are apart,
   * c advances `step` units along the unit vector toward t; when they coincide
   * it stays put (no division by zero).
   */
  function Toward(c: Point, t: Point, root: real, step: real): (r: Point)
    requires IsDistance(c, t, root)
    ensures root == 0.0 ==> r == c
    ensures root > 0.0 ==> DistSq(c, r) == step * step
    ensures root > 0.0 ==> (r.x - c.x) * root == (t.x - c.x) * step && (r.y - c.y) * root == (t.y - c.y) * step
    ensures root > 0.0 ==> DistSq(r, t) == (root - step) * (root - step)
  {
    if root > 0.0 then
      var unitX := (t.x - c.x) / root;
      var unitY := (t.y - c.y) / root;
      DivideThenScale(t.x - c.x, root, step);
      DivideThenScale(t.y - c.y, root, step);
      ScaledLength(t.x - c.x, t.y - c.y, step / root, root, step);
      RemainingLength(t.x - c.x, t.y - c.y, step / root, root, step);
      Point(c.x + unitX * step, c.y + unitY * step)
    else
      c
  }

  // ---- small facts of real arithmetic ----

  lemma SquaresNonNegative(a: real, b: real)
    ensures a * a + b * b >= 0.0
  {
  }

  lemma SquareLess(a: real, b: real)
    requires 0.0 <= a < b
    ensures a * a < b * b
  {
    var aa, ab, bb := a * a, a * b, b * b;
    assert aa <= ab;
    assert ab < bb;
  }

  /** Comparing two non-negative reals is the same as comparing their squares. */
  lemma SquareMonotone(a: real, b: real)
    requires a >= 0.0 && b >= 0.0
    ensures a < b <==> a * a < b * b
  {
    if a < b {
      SquareLess(a, b);
    } else if b < a {
      SquareLess(b, a);
    }
  }

  lemma ZeroSquare(r: real)
    requires r >= 0.0 && r * r == 0.0
    ensures r == 0.0
  {
    if r > 0.0 {
      SquareLess(0.0, r);
    }
  }

  lemma DivideThenScale(d: real, r: real, s: real)
    requires r != 0.0
    ensures (d / r) * s == d * (s / r) && (s / r) * r == s
  {
  }

  lemma ScaleSquares(a: real, b: real, k: real)
    ensures (a * k) * (a * k) + (b * k) * (b * k) == (a * a + b * b) * (k * k)
  {
  }

  lemma ScaleEquation(x: real, y: real, z: real)
    requires x == y
    ensures x * z == y * z
  {
  }

  lemma SquareOfScaled(s: real, r: real, k: real)
    requires k * r == s
    ensures (r * r) * (k * k) == s * s
  {
  }

  /** Scaling a vector of length r by k with k * r == s gives a vector of length s. */
  lemma ScaledLength(dx: real, dy: real, k: real, r: real, s: real)
    requires r * r == dx * dx + dy * dy && k * r == s
    ensures (dx * k) * (dx * k) + (dy * k) * (dy * k) == s * s
  {
    ScaleSquares(dx, dy, k);
    ScaleEquation(dx * dx + dy * dy, r * r, k * k);
    SquareOfScaled(s, r, k);
  }

  /** What is left of a vector of length r after removing its k-th part, k * r == s, has length r - s. */
  lemma RemainingLength(dx: real, dy: real, k: real, r: real, s: real)
    requires r * r == dx * dx + dy * dy && k * r == s
    ensures (dx - dx * k) * (dx - dx * k) + (dy - dy * k) * (dy - dy * k) == (r - s) * (r - s)
  {
    ScaleSquares(dx, dy, 1.0 - k);
    ScaleEquation(dx * dx + dy * dy, r * r, (1.0 - k) * (1.0 - k));
    SquareOfScaled(r - s, r, 1.0 - k);
  }
}
