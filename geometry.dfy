/**
  Two- and three-dimensional vectors and rectangles over the reals, standing in for
  glam's `Vec2`, `Vec3` and bevy's `Rect` (f32 arithmetic is idealised as `real`).
  The only non-linear operation the widget uses is `Vec2::clamp_length`, which needs a
  square root; Dafny's reals have none, so the host's square root is a parameter
  constrained by `IsSqrt`.
*/
module Geometry {

  datatype Vec2 = Vec2(x: real, y: real)

  datatype Vec3 = Vec3(x: real, y: real, z: real)

  /** An axis-aligned rectangle given by its min and max corners (bevy `Rect`). */
  datatype Rect = Rect(min: Vec2, max: Vec2)

  const ZERO: Vec2 := Vec2(0.0, 0.0)

  function Add(a: Vec2, b: Vec2): Vec2 {
    Vec2(a.x + b.x, a.y + b.y)
  }

  function Sub(a: Vec2, b: Vec2): Vec2 {
    Vec2(a.x - b.x, a.y - b.y)
  }

  /** `v * k` for a scalar `k`: both components multiplied. */
  function Scale(v: Vec2, k: real): Vec2 {
    Vec2(v.x * k, v.y * k)
  }

  /** `v / 2.` */
  function Half(v: Vec2): Vec2 {
    Vec2(v.x / 2.0, v.y / 2.0)
  }

  /** `v.extend(z)` */
  function Extend(v: Vec2, z: real): Vec3 {
    Vec3(v.x, v.y, z)
  }

  function Add3(a: Vec3, b: Vec3): Vec3 {
    Vec3(a.x + b.x, a.y + b.y, a.z + b.z)
  }

  function Abs(a: real): real {
    if a < 0.0 then -a else a
  }

  function LengthSquared(v: Vec2): real {
    v.x * v.x + v.y * v.y
  }

  /** `Rect::center`: the midpoint of the two corners. */
  function Center(r: Rect): Vec2 {
    Scale(Add(r.min, r.max), 0.5)
  }

  /** A rectangle from the origin to `size` is centred on half its size. */
  lemma CenterOfSizedRect(size: Vec2)
    ensures Sub(Center(Rect(ZERO, size)), Half(size)) == ZERO
  {
  }

  /** `f32::max(lo).min(hi)`, one axis of `Vec2::clamp`. */
  function ClampScalar(a: real, lo: real, hi: real): (r: real)
    requires lo <= hi
    ensures lo <= r <= hi
    ensures lo <= a <= hi ==> r == a
    ensures a < lo ==> r == lo
    ensures a > hi ==> r == hi
  {
    var m := if a < lo then lo else a;
    if m > hi then hi else m
  }

  /** `Vec2::clamp(Vec2::splat(lo), Vec2::splat(hi))`: each axis clamped independently. */
  function ClampAxes(v: Vec2, lo: real, hi: real): (r: Vec2)
    requires lo <= hi
    ensures lo <= r.x <= hi && lo <= r.y <= hi
    ensures lo <= v.x <= hi && lo <= v.y <= hi ==> r == v
    // each axis on its own: kept inside the range, pinned to the nearer bound outside it
    ensures lo <= v.x <= hi ==> r.x == v.x
    ensures v.x < lo ==> r.x == lo
    ensures v.x > hi ==> r.x == hi
    ensures lo <= v.y <= hi ==> r.y == v.y
    ensures v.y < lo ==> r.y == lo
    ensures v.y > hi ==> r.y == hi
  {
    Vec2(ClampScalar(v.x, lo, hi), ClampScalar(v.y, lo, hi))
  }

  /** `sqrt` returns the non-negative square root of every non-negative real. */
  ghost predicate IsSqrt(sqrt: real -> real) {
    forall a: real :: 0.0 <= a ==> 0.0 <= sqrt(a) && sqrt(a) * sqrt(a) == a
  }

  /** A non-negative root of a square larger than `m * m` is larger than `m`. */
  lemma RootAbove(s: real, m: real)
    requires 0.0 <= m && 0.0 <= s && s * s > m * m
    ensures s > m
  {
  }

  /**
    `Vec2::clamp_length(0.0, max)`: a vector longer than `max` is rescaled to length
    `max` in the same direction; a shorter one is returned as it is. (glam's lower-bound
    branch, taken when the squared length is below `min * min`, cannot fire for `min = 0`.)
  */
  function ClampLengthMax(v: Vec2, max: real, sqrt: real -> real): (r: Vec2)
    requires IsSqrt(sqrt) && 0.0 <= max
    ensures LengthSquared(r) <= max * max
    ensures LengthSquared(v) <= max * max ==> r == v
    ensures LengthSquared(v) > max * max ==> LengthSquared(r) == max * max
    ensures -Abs(v.x) <= r.x <= Abs(v.x)
    ensures -Abs(v.y) <= r.y <= Abs(v.y)
  {
    var lengthSq := LengthSquared(v);
    if lengthSq > max * max then
      var len := sqrt(lengthSq);
      RootAbove(len, max);
      ShrinkLength(v, len, max);
      ShrinkAxes(v, len, max);
      Scale(v, max / len)
    else
      v
  }

  /** `r` is a non-negative multiple of `v`: collinear with it and not pointing against it. */
  predicate SameDirection(r: Vec2, v: Vec2) {
    r.x * v.y == r.y * v.x && 0.0 <= r.x * v.x + r.y * v.y
  }

  /** `ClampLengthMax` never turns a vector: the result is a non-negative multiple of the input. */
  lemma ClampLengthKeepsDirection(v: Vec2, max: real, sqrt: real -> real)
    requires IsSqrt(sqrt) && 0.0 <= max
    ensures SameDirection(ClampLengthMax(v, max, sqrt), v)
  {
    var lengthSq := LengthSquared(v);
    var k := if lengthSq > max * max then max / sqrt(lengthSq) else 1.0;
    assert 0.0 <= k && ClampLengthMax(v, max, sqrt) == Scale(v, k) by {
      if lengthSq > max * max {
        RootAbove(sqrt(lengthSq), max);
      }
    }
    ScaledDirection(v, k);
  }

  /** Rescaling by `max / len`, where `len` is the length, gives length `max`. */
  lemma ShrinkLength(v: Vec2, len: real, max: real)
    requires 0.0 <= max < len && len * len == LengthSquared(v)
    ensures LengthSquared(Scale(v, max / len)) == max * max
  {
    var k := max / len;
    assert k * len == max;
    ScaledLength(v, k, len);
  }

  /** Rescaling by `max / len < 1` moves no coordinate away from zero. */
  lemma ShrinkAxes(v: Vec2, len: real, max: real)
    requires 0.0 <= max < len
    ensures var r := Scale(v, max / len);
      -Abs(v.x) <= r.x <= Abs(v.x) && -Abs(v.y) <= r.y <= Abs(v.y)
  {
    var k := max / len;
    assert 0.0 <= k < 1.0;
    ScaleShrinks(v.x, k);
    ScaleShrinks(v.y, k);
  }

  /** Scaling by `k` multiplies the squared length by `k * k`. */
  lemma ScaledLength(v: Vec2, k: real, len: real)
    requires len * len == LengthSquared(v)
    ensures LengthSquared(Scale(v, k)) == (k * len) * (k * len)
  {
    calc {
      LengthSquared(Scale(v, k));
      (v.x * k) * (v.x * k) + (v.y * k) * (v.y * k);
      (k * k) * LengthSquared(v);
      (k * len) * (k * len);
    }
  }

  /** Scaling by a non-negative factor keeps the direction. */
  lemma ScaledDirection(v: Vec2, k: real)
    requires 0.0 <= k
    ensures SameDirection(Scale(v, k), v)
  {
    var r := Scale(v, k);
    assert r.x * v.x + r.y * v.y == k * LengthSquared(v);
  }

  lemma ScaleShrinks(a: real, k: real)
    requires 0.0 <= k <= 1.0
    ensures -Abs(a) <= a * k <= Abs(a)
  {
    if a < 0.0 {
      assert (-a) * k <= -a;
    } else {
      assert a * k <= a;
    }
  }
}
