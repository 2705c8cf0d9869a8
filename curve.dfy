/**
 * Cubic Bézier evaluation (`bezier`) and its first derivative (`bezierTangent`)
 * in the Bernstein basis, one coordinate at a time as the sketch writes them.
 */
module Curve {
  import opened Vectors

  /** One coordinate of `bezier`: u³a + 3u²t b + 3ut² c + t³d with u = 1 - t. */
  function Cubic(t: real, a: real, b: real, c: real, d: real): real
  {
    var u := 1.0 - t;
    u * u * u * a + 3.0 * u * u * t * b + 3.0 * u * t * t * c + t * t * t * d
  }

  /** One coordinate of `bezierTangent`: 3u²(b - a) + 6ut(c - b) + 3t²(d - c). */
  function CubicSlope(t: real, a: real, b: real, c: real, d: real): real
  {
    var u := 1.0 - t;
    3.0 * u * u * (b - a) + 6.0 * u * t * (c - b) + 3.0 * t * t * (d - c)
  }

  /**
   * `bezier(t, P0, P1, P2, P3)`: the curve starts at `p0`, ends at `p3`, and
   * collapses to a point when all four control points coincide.
   */
  function Bezier(t: real, p0: Vec, p1: Vec, p2: Vec, p3: Vec): (r: Vec)
    ensures t == 0.0 ==> r == p0
    ensures t == 1.0 ==> r == p3
    ensures p0 == p1 == p2 == p3 ==> r == p0
  {
    Vec(Cubic(t, p0.x, p1.x, p2.x, p3.x), Cubic(t, p0.y, p1.y, p2.y, p3.y))
  }

  /**
   * `bezierTangent(t, P0, P1, P2, P3)`: the tangent leaves `p0` towards `p1`
   * with three times their difference and arrives at `p3` from `p2` likewise;
   * it vanishes when all four control points coincide.
   */
  function BezierTangent(t: real, p0: Vec, p1: Vec, p2: Vec, p3: Vec): (r: Vec)
    ensures t == 0.0 ==> r == Mul(Sub(p1, p0), 3.0)
    ensures t == 1.0 ==> r == Mul(Sub(p3, p2), 3.0)
    ensures p0 == p1 == p2 == p3 ==> r == Zero
  {
    Vec(CubicSlope(t, p0.x, p1.x, p2.x, p3.x), CubicSlope(t, p0.y, p1.y, p2.y, p3.y))
  }

  /** The four Bernstein weights of a cubic sum to one for every `t`: a coordinate whose control values are all 1 is 1. */
  lemma BernsteinPartitionOfUnity(t: real)
    ensures Cubic(t, 1.0, 1.0, 1.0, 1.0) == 1.0
  {
  }

  /** Half the second derivative of one coordinate. */
  function CubicBend(t: real, a: real, b: real, c: real, d: real): real
  {
    3.0 * ((1.0 - t) * (a - 2.0 * b + c) + t * (b - 2.0 * c + d))
  }

  /** A sixth of the (constant) third derivative of one coordinate. */
  function CubicJerk(a: real, b: real, c: real, d: real): real
  {
    d - 3.0 * c + 3.0 * b - a
  }

  /**
   * Exact Taylor expansion of one coordinate around `t`: moving the parameter
   * by `h` changes the coordinate by `h` times CubicSlope plus terms of order h²
   * and h³ only, so each coordinate of BezierTangent is the derivative of the
   * same coordinate of Bezier.
   */
  lemma CubicExpansion(t: real, h: real, a: real, b: real, c: real, d: real)
    ensures Cubic(t + h, a, b, c, d)
         == Cubic(t, a, b, c, d) + h * CubicSlope(t, a, b, c, d)
          + h * h * CubicBend(t, a, b, c, d) + h * h * h * CubicJerk(a, b, c, d)
  {
  }

  /** Adding `e` to every control value adds `e` to the coordinate, since the weights sum to one. */
  lemma CubicTranslates(t: real, a: real, b: real, c: real, d: real, e: real)
    ensures Cubic(t, a + e, b + e, c + e, d + e) == Cubic(t, a, b, c, d) + e
  {
    BernsteinPartitionOfUnity(t);
    assert Cubic(t, a + e, b + e, c + e, d + e) == Cubic(t, a, b, c, d) + e * Cubic(t, 1.0, 1.0, 1.0, 1.0);
  }

  /** Translating all control points by `d` translates every point of the curve by `d`. */
  lemma {:induction false} BezierTranslates(t: real, p0: Vec, p1: Vec, p2: Vec, p3: Vec, d: Vec)
    ensures Bezier(t, Add(p0, d), Add(p1, d), Add(p2, d), Add(p3, d))
         == Add(Bezier(t, p0, p1, p2, p3), d)
  {
    CubicTranslates(t, p0.x, p1.x, p2.x, p3.x, d.x);
    CubicTranslates(t, p0.y, p1.y, p2.y, p3.y, d.y);
  }

  /** Translating all control points leaves the tangent unchanged. */
  lemma BezierTangentTranslates(t: real, p0: Vec, p1: Vec, p2: Vec, p3: Vec, d: Vec)
    ensures BezierTangent(t, Add(p0, d), Add(p1, d), Add(p2, d), Add(p3, d))
         == BezierTangent(t, p0, p1, p2, p3)
  {
  }

  /** Reversing the control points runs the same curve backwards. */
  lemma BezierReverses(t: real, p0: Vec, p1: Vec, p2: Vec, p3: Vec)
    ensures Bezier(1.0 - t, p3, p2, p1, p0) == Bezier(t, p0, p1, p2, p3)
  {
  }
}
