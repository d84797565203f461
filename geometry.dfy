/**
 * Plane geometry used by the game step: points, squared distances, the
 * closest point of a platform rectangle, and the host square root.
 *
 * The engine compares distances against thresholds (`getDistance(a, b) < d`).
 * The model states each such test without a square root, as
 * `0 < d && DistSq(a, b) < d * d`; WithinMatchesDistance shows the two agree
 * whenever the square root is exact.
 */
module Geometry {

  datatype Vec = Vec(x: real, y: real)

  /** The host's `Math.sqrt`, taken as a parameter; the model relies only on
      its results being non-negative. */
  type Sqrt = f: real -> real | forall v :: 0.0 <= f(v) witness (v: real) => 0.0

  function DistSq(a: Vec, b: Vec): (d: real)
    ensures 0.0 <= d
  {
    (a.x - b.x) * (a.x - b.x) + (a.y - b.y) * (a.y - b.y)
  }

  /** `getDistance(a, b) < d` of the engine, without the square root. */
  predicate Within(a: Vec, b: Vec, d: real) {
    0.0 < d && DistSq(a, b) < d * d
  }

  /** `r` is the exact square root of `v`. */
  ghost predicate IsRoot(r: real, v: real) {
    0.0 <= r && r * r == v
  }

  /** The squared test agrees with comparing the real distance `r`. */
  lemma WithinMatchesDistance(a: Vec, b: Vec, d: real, r: real)
    requires IsRoot(r, DistSq(a, b))
    ensures Within(a, b, d) <==> r < d
  {
    if r < d {
      SquareStrict(r, d);
    } else if 0.0 < d {
      SquareMonotone(d, r);
    }
  }

  function Max(a: real, b: real): real { if a < b then b else a }
  function Min(a: real, b: real): real { if a < b then a else b }

  /** `Math.max(lo, Math.min(v, hi))` */
  function Clamp(v: real, lo: real, hi: real): (r: real)
    ensures lo <= hi ==> lo <= r <= hi
    ensures lo <= v <= hi ==> r == v
  {
    Max(lo, Min(v, hi))
  }

  datatype PlatformType = Untyped | Normal | Bouncy | Hazard | Exit

  /** An axis-aligned rectangle with its top-left corner at (x, y). */
  datatype Platform = Platform(x: real, y: real, w: real, h: real, kind: PlatformType)

  predicate InRect(p: Platform, v: Vec) {
    p.x <= v.x <= p.x + p.w && p.y <= v.y <= p.y + p.h
  }

  /** The point of the rectangle nearest to `v`, clamped per axis. */
  function ClosestPoint(p: Platform, v: Vec): (c: Vec)
    ensures 0.0 <= p.w && 0.0 <= p.h ==> InRect(p, c)
    ensures InRect(p, v) ==> c == v
  {
    Vec(Clamp(v.x, p.x, p.x + p.w), Clamp(v.y, p.y, p.y + p.h))
  }

  /** Per-axis clamping gives the nearest point of the rectangle. */
  lemma ClosestPointIsNearest(p: Platform, v: Vec, q: Vec)
    requires 0.0 <= p.w && 0.0 <= p.h && InRect(p, q)
    ensures DistSq(v, ClosestPoint(p, v)) <= DistSq(v, q)
  {
    var c := ClosestPoint(p, v);
    AxisNearest(v.x, p.x, p.x + p.w, q.x);
    AxisNearest(v.y, p.y, p.y + p.h, q.y);
    assert (v.x - c.x) * (v.x - c.x) <= (v.x - q.x) * (v.x - q.x);
    assert (v.y - c.y) * (v.y - c.y) <= (v.y - q.y) * (v.y - q.y);
  }

  lemma AxisNearest(v: real, lo: real, hi: real, q: real)
    requires lo <= q <= hi
    ensures (v - Clamp(v, lo, hi)) * (v - Clamp(v, lo, hi)) <= (v - q) * (v - q)
  {
    if v < lo {
      SquareMonotone(lo - v, q - v);
    } else if hi < v {
      SquareMonotone(v - hi, v - q);
    }
  }

  /** Squaring is monotone on non-negative reals. */
  lemma SquareMonotone(a: real, b: real)
    requires 0.0 <= a <= b
    ensures a * a <= b * b
  {
    NonNegativeProduct(b - a, b + a);
    assert b * b - a * a == (b - a) * (b + a);
  }

  /** Squaring is strictly monotone on non-negative reals. */
  lemma SquareStrict(a: real, b: real)
    requires 0.0 <= a < b
    ensures a * a < b * b
  {
    PositiveProduct(b - a, b + a);
    assert b * b - a * a == (b - a) * (b + a);
  }

  lemma NonNegativeProduct(a: real, b: real)
    requires 0.0 <= a && 0.0 <= b
    ensures 0.0 <= a * b
  {
  }

  lemma PositiveProduct(a: real, b: real)
    requires 0.0 < a && 0.0 < b
    ensures 0.0 < a * b
  {
  }

  /**
   * Contact classification without a division: for the push-out normal
   * (distX / dist, distY / dist) with dist the exact root of distSq > 0,
   * the normal points up (ny < -0.5) exactly when distY < 0 and
   * 4 * distY^2 > distSq; it points down (ny > 0.5) exactly when distY > 0
   * and 4 * distY^2 > distSq.
   */
  lemma NormalClassification(distY: real, distSq: real, dist: real)
    requires IsRoot(dist, distSq) && 0.0 < dist
    ensures distY / dist < -0.5 <==> distY < 0.0 && 4.0 * distY * distY > distSq
    ensures distY / dist > 0.5 <==> distY > 0.0 && 4.0 * distY * distY > distSq
  {
    var ny := distY / dist;
    var sq := dist * dist;
    assert distY == ny * dist;
    assert sq == distSq;
    PositiveProduct(dist, dist);
    assert 4.0 * distY * distY - distSq == (4.0 * ny * ny - 1.0) * distSq;
    if ny < -0.5 {
      assert 4.0 * ny * ny > 1.0 by { assert -ny > 0.5; assert (-ny) * (-ny) > 0.5 * 0.5; }
      assert distY < 0.0 by { assert (-ny) * dist > 0.0; }
      assert (4.0 * ny * ny - 1.0) * distSq > 0.0;
    } else if ny > 0.5 {
      assert 4.0 * ny * ny > 1.0 by { assert ny * ny > 0.5 * 0.5; }
      assert distY > 0.0 by { assert ny * dist > 0.0; }
      assert (4.0 * ny * ny - 1.0) * distSq > 0.0;
    } else {
      assert 4.0 * ny * ny <= 1.0 by {
        if 0.0 <= ny { assert ny * ny <= 0.5 * ny <= 0.5 * 0.5; }
        else { assert (-ny) * (-ny) <= 0.5 * (-ny) <= 0.5 * 0.5; }
      }
      assert (4.0 * ny * ny - 1.0) * distSq <= 0.0;
    }
  }
}
