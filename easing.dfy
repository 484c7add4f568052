/** The cubic ease-in-out curve and the blend between two camera poses used by
    every moving segment of the cinematic. */
module Easing {
  import opened Scene

  function Cube(u: real): real {
    u * u * u
  }

  /** Symmetric cubic ease-in-out: `4t^3` on the first half, `1 - (2 - 2t)^3 / 2` on the second. */
  function EaseInOutCubic(t: real): (r: real)
    ensures t == 0.0 ==> r == 0.0
    ensures t == 1.0 ==> r == 1.0
    ensures t == 0.5 ==> r == 0.5
  {
    if t < 0.5 then 4.0 * t * t * t else 1.0 - Cube(-2.0 * t + 2.0) / 2.0
  }

  lemma CubeMonotone(a: real, b: real)
    requires 0.0 <= a <= b
    ensures 0.0 <= Cube(a) <= Cube(b)
  {
    assert a * a <= b * b by {
      assert a * a <= a * b;
      assert a * b <= b * b;
    }
    assert a * a * a <= b * b * a;
    assert b * b * a <= b * b * b;
  }

  /** On [0, 1] the curve stays within [0, 1]. */
  lemma EaseInUnitRange(t: real)
    requires 0.0 <= t <= 1.0
    ensures 0.0 <= EaseInOutCubic(t) <= 1.0
  {
    if t < 0.5 {
      CubeMonotone(t, 0.5);
      assert 4.0 * t * t * t == 4.0 * Cube(t);
    } else {
      CubeMonotone(-2.0 * t + 2.0, 1.0);
    }
  }

  /** The curve is point-symmetric about (0.5, 0.5). */
  lemma EaseSymmetric(t: real)
    requires 0.0 <= t <= 1.0
    ensures EaseInOutCubic(1.0 - t) == 1.0 - EaseInOutCubic(t)
  {
    if t < 0.5 {
      assert Cube(-2.0 * (1.0 - t) + 2.0) == 8.0 * (t * t * t);
    } else if t > 0.5 {
      var u := 1.0 - t;
      assert -2.0 * t + 2.0 == 2.0 * u;
      assert Cube(2.0 * u) == 8.0 * (u * u * u);
    }
  }

  /** The curve never goes backwards. */
  lemma EaseMonotone(a: real, b: real)
    requires 0.0 <= a <= b <= 1.0
    ensures EaseInOutCubic(a) <= EaseInOutCubic(b)
  {
    if b < 0.5 {
      CubeMonotone(a, b);
      assert 4.0 * a * a * a == 4.0 * Cube(a);
      assert 4.0 * b * b * b == 4.0 * Cube(b);
    } else if a >= 0.5 {
      CubeMonotone(-2.0 * b + 2.0, -2.0 * a + 2.0);
    } else {
      CubeMonotone(a, 0.5);
      assert 4.0 * a * a * a == 4.0 * Cube(a);
      CubeMonotone(-2.0 * b + 2.0, 1.0);
    }
  }

  /** Blend of two camera poses at eased progress `t`, clamped to [0, 1]. */
  function MixFrames(from: Frame, to: Frame, t: real): (r: Frame)
    ensures t >= 1.0 ==> r == to
    ensures t <= 0.0 ==> r == from
  {
    var tt := EaseInOutCubic(Clamp01(t));
    Frame(Lerp(from.pos, to.pos, tt), Lerp(from.target, to.target, tt))
  }

  predicate Between(a: real, b: real, v: real) {
    (a <= v <= b) || (b <= v <= a)
  }

  predicate VecBetween(a: Vec3, b: Vec3, v: Vec3) {
    Between(a.x, b.x, v.x) && Between(a.y, b.y, v.y) && Between(a.z, b.z, v.z)
  }

  lemma LerpBetween(a: real, b: real, alpha: real)
    requires 0.0 <= alpha <= 1.0
    ensures Between(a, b, a + (b - a) * alpha)
  {
    var d := b - a;
    var rest := 1.0 - alpha;
    assert d - d * alpha == d * rest;
    if a <= b {
      assert d * alpha >= 0.0 && d * rest >= 0.0;
    } else {
      var e := a - b;
      assert e * alpha >= 0.0 && e * rest >= 0.0;
      assert d * alpha == -(e * alpha) && d * rest == -(e * rest);
    }
  }

  /** A blended pose never overshoots: each coordinate of the camera position
      and of the look target lies between the two poses being blended. */
  lemma MixStaysBetween(from: Frame, to: Frame, t: real)
    ensures VecBetween(from.pos, to.pos, MixFrames(from, to, t).pos)
    ensures VecBetween(from.target, to.target, MixFrames(from, to, t).target)
  {
    var tt := EaseInOutCubic(Clamp01(t));
    EaseInUnitRange(Clamp01(t));
    LerpVecBetween(from.pos, to.pos, tt);
    LerpVecBetween(from.target, to.target, tt);
  }

  lemma LerpVecBetween(a: Vec3, b: Vec3, alpha: real)
    requires 0.0 <= alpha <= 1.0
    ensures VecBetween(a, b, Lerp(a, b, alpha))
  {
    LerpBetween(a.x, b.x, alpha);
    LerpBetween(a.y, b.y, alpha);
    LerpBetween(a.z, b.z, alpha);
  }
}
