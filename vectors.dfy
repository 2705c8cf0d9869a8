/**
 * Two-dimensional vector helpers of the sketch (`vec`, `add`, `sub`, `mul`,
 * `len`, `normalize`). Coordinates are real numbers; floating-point rounding
 * is not modelled.
 */
module Vectors {

  /** A point or displacement in the plane; `Vec(x, y)` is the source's `vec`. */
  datatype Vec = Vec(x: real, y: real)

  const Zero := Vec(0.0, 0.0)

  /** Component-wise sum; subtracting `b` again gives `a` back. */
  function Add(a: Vec, b: Vec): (r: Vec)
    ensures Sub(r, b) == a
  {
    Vec(a.x + b.x, a.y + b.y)
  }

  /** Component-wise difference; adding `b` again gives `a` back. */
  function Sub(a: Vec, b: Vec): (r: Vec)
    ensures Vec(r.x + b.x, r.y + b.y) == a
    ensures r == Zero <==> a == b
  {
    Vec(a.x - b.x, a.y - b.y)
  }

  /** Scaling by `s`; undone by scaling with `1/s` when `s` is not zero. */
  function Mul(v: Vec, s: real): (r: Vec)
    ensures s == 0.0 ==> r == Zero
    ensures s != 0.0 ==> Vec(r.x / s, r.y / s) == v
  {
    Vec(v.x * s, v.y * s)
  }

  /** The squared Euclidean length x² + y². */
  function SquaredLength(v: Vec): real
  {
    v.x * v.x + v.y * v.y
  }

  /**
   * `l` is the Euclidean length of `v`: a non-negative square root of x² + y²,
   * zero exactly at the origin. The platform's `Math.hypot` computes it; Dafny
   * has no square root, so `hypot` is passed to Len and Normalize as a function
   * argument that is required to behave like this at the vector it is applied to.
   */
  ghost predicate IsLengthOf(l: real, v: Vec)
  {
    l >= 0.0 && (l == 0.0 <==> v == Zero) && l * l == SquaredLength(v)
  }

  /** `len(v)`, the platform's `Math.hypot(v.x, v.y)`. */
  function Len(hypot: (real, real) -> real, v: Vec): (r: real)
    requires IsLengthOf(hypot(v.x, v.y), v)
    ensures IsLengthOf(r, v)
  {
    hypot(v.x, v.y)
  }

  /** A product of two non-zero numbers is non-zero. */
  lemma NonZeroProduct(a: real, b: real)
    requires a != 0.0 && b != 0.0
    ensures a * b != 0.0
  {
  }

  /** Dividing by a non-zero `l` and scaling by it again gives the vector back. */
  lemma DivThenMul(x: real, y: real, l: real)
    requires l != 0.0
    ensures Mul(Vec(x / l, y / l), l) == Vec(x, y)
  {
    assert (x / l) * l == x;
    assert (y / l) * l == y;
  }

  /** If `a * l == x`, `b * l == y` and `l * l == x² + y²` with `l != 0`, then (a, b) is a unit vector. */
  lemma UnitAfterScaling(a: real, b: real, l: real, x: real, y: real)
    requires l != 0.0
    requires a * l == x && b * l == y
    requires l * l == x * x + y * y
    ensures a * a + b * b == 1.0
  {
    assert ((a * a + b * b - 1.0) * l) * l == 0.0;
    if a * a + b * b - 1.0 != 0.0 {
      NonZeroProduct(a * a + b * b - 1.0, l);
      NonZeroProduct((a * a + b * b - 1.0) * l, l);
    }
  }

  /**
   * `normalize(v)`: divides by the length, falling back to 1 when the length is 0
   * (`len(v) || 1`), so the zero vector maps to itself without a division by zero;
   * any other vector becomes a direction that, scaled back by the length, is `v`.
   */
  function Normalize(hypot: (real, real) -> real, v: Vec): (r: Vec)
    requires IsLengthOf(hypot(v.x, v.y), v)
    ensures v == Zero ==> r == Zero
    ensures v != Zero ==> Mul(r, Len(hypot, v)) == v
  {
    var l := Len(hypot, v);
    if l == 0.0 then
      v  // divided by the fallback length 1
    else
      DivThenMul(v.x, v.y, l);
      Vec(v.x / l, v.y / l)
  }

  /** Normalizing a non-zero vector gives a unit vector. */
  lemma NormalizeIsUnit(hypot: (real, real) -> real, v: Vec)
    requires IsLengthOf(hypot(v.x, v.y), v)
    requires v != Zero
    ensures SquaredLength(Normalize(hypot, v)) == 1.0
  {
    var l := Len(hypot, v);
    var r := Normalize(hypot, v);
    assert r == Vec(v.x / l, v.y / l);
    UnitAfterScaling(r.x, r.y, l, v.x, v.y);
  }
}
