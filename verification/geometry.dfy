/**
 * Real-valued stand-ins for the engine's `float3` and `quaternion` values,
 * and the pose every boid carries (`Position` + `Rotation`, also the
 * `UsedData` snapshot record of the steering job).
 *
 * Floating point is replaced by exact real arithmetic. Quaternion-times-vector
 * is written out with the polynomial the math library uses; the operations
 * that need a square root (`normalize`, `LookRotation`) are not computed
 * here but passed in as a `Numerics` value.
 */
module Geometry {

  datatype Vec3 = Vec3(x: real, y: real, z: real)

  /** A quaternion `x i + y j + z k + w`. */
  datatype Quat = Quat(x: real, y: real, z: real, w: real)

  /** Position and orientation of one boid. */
  datatype Pose = Pose(pos: Vec3, rot: Quat)

  const Zero := Vec3(0.0, 0.0, 0.0)

  function Add(a: Vec3, b: Vec3): Vec3
  {
    Vec3(a.x + b.x, a.y + b.y, a.z + b.z)
  }

  function Sub(a: Vec3, b: Vec3): Vec3
  {
    Vec3(a.x - b.x, a.y - b.y, a.z - b.z)
  }

  function Scale(a: Vec3, s: real): Vec3
  {
    Vec3(a.x * s, a.y * s, a.z * s)
  }

  function Neg(a: Vec3): Vec3
  {
    Vec3(-a.x, -a.y, -a.z)
  }

  function Dot(a: Vec3, b: Vec3): real
  {
    a.x * b.x + a.y * b.y + a.z * b.z
  }

  function Cross(a: Vec3, b: Vec3): Vec3
  {
    Vec3(a.y * b.z - a.z * b.y, a.z * b.x - a.x * b.z, a.x * b.y - a.y * b.x)
  }

  /** Squared Euclidean distance; the model's replacement for `math.distance`. */
  function SqDist(a: Vec3, b: Vec3): real
  {
    var d := Sub(a, b);
    Dot(d, d)
  }

  /** Moving a point by `v` displaces it by exactly `v`. */
  lemma DisplacementOfAdd()
    ensures forall p: Vec3, v: Vec3 :: Sub(Add(p, v), p) == v
  {
  }

  /** `math.mul(q, v)`: v + w t + u x t with u the vector part of q and t = 2 (u x v). */
  function Rotate(q: Quat, v: Vec3): Vec3
  {
    var u := Vec3(q.x, q.y, q.z);
    var t := Scale(Cross(u, v), 2.0);
    Add(Add(v, Scale(t, q.w)), Cross(u, t))
  }

  /** The boid's heading: its rotation applied to the unit z axis. */
  function Forward(q: Quat): Vec3
  {
    Rotate(q, Vec3(0.0, 0.0, 1.0))
  }

  /** The boid's up vector: its rotation applied to the unit y axis. */
  function Up(q: Quat): Vec3
  {
    Rotate(q, Vec3(0.0, 1.0, 0.0))
  }

  /**
   * The square-root based operations of the math library, left uninterpreted:
   * `normalize(v)` and `LookRotation(forward, up)`.
   */
  datatype Numerics = Numerics(normalize: Vec3 -> Vec3, lookRotation: (Vec3, Vec3) -> Quat)

  /** Squaring is strictly increasing on the non-negative reals. */
  lemma SquareStrictlyIncreasing(a: real, b: real)
    requires 0.0 <= a < b
    ensures a * a < b * b
  {
    calc {
      a * a;
      <= a * b;
      < b * b;
    }
  }

  /**
   * The squared test `sq < r * r` decides `distance < r` for every
   * non-negative radius: `d` is any non-negative number whose square is the
   * squared distance, i.e. the Euclidean distance itself.
   */
  lemma SquaredBelowIffDistanceBelow(d: real, sq: real, r: real)
    requires d >= 0.0 && r >= 0.0 && d * d == sq
    ensures sq < r * r <==> d < r
  {
    if d < r {
      SquareStrictlyIncreasing(d, r);
    } else if r < d {
      SquareStrictlyIncreasing(r, d);
    }
  }

  /** Dually, the squared test `sq > r * r` decides `distance > r`. */
  lemma SquaredAboveIffDistanceAbove(d: real, sq: real, r: real)
    requires d >= 0.0 && r >= 0.0 && d * d == sq
    ensures sq > r * r <==> d > r
  {
    if d < r {
      SquareStrictlyIncreasing(d, r);
    } else if r < d {
      SquareStrictlyIncreasing(r, d);
    }
  }
}
