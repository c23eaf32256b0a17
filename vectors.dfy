/**
 * Three-component vectors standing in for `THREE.Vector3`. Only the linear
 * operations are exact here; lengths need a square root, so the model either
 * compares squared distances or uses the abstract functions of `Kinematics`.
 */
module Vectors {

  datatype Vec = Vec(x: real, y: real, z: real)

  const Zero := Vec(0.0, 0.0, 0.0)

  function Add(a: Vec, b: Vec): Vec {
    Vec(a.x + b.x, a.y + b.y, a.z + b.z)
  }

  function Sub(a: Vec, b: Vec): Vec {
    Vec(a.x - b.x, a.y - b.y, a.z - b.z)
  }

  function Scale(v: Vec, k: real): Vec {
    Vec(v.x * k, v.y * k, v.z * k)
  }

  /** `v` raised by `dy` along the vertical axis (`v.clone(); v.y += dy`). */
  function Raise(v: Vec, dy: real): Vec {
    v.(y := v.y + dy)
  }

  function SqDist(a: Vec, b: Vec): (r: real)
    ensures r >= 0.0
  {
    (a.x - b.x) * (a.x - b.x) + (a.y - b.y) * (a.y - b.y) + (a.z - b.z) * (a.z - b.z)
  }

  /**
   * `a.distanceTo(b) < radius`. A Euclidean distance is never negative, so
   * it is below `radius` exactly when `radius` is positive and the squared
   * distance is below `radius * radius`.
   */
  predicate Within(a: Vec, b: Vec, radius: real) {
    radius > 0.0 && SqDist(a, b) < radius * radius
  }

  /**
   * The square-root and motion-prediction parts of vector arithmetic:
   * `dist(a, b)` stands for `a.distanceTo(b)`, `length(v)` for
   * `v.length()`, `normalize(v)` for `v.clone().normalize()`, and
   * `predict(pos, speed, t)` for a mob's `getPredictedPosition(t)` when it
   * is at `pos` and moves at `speed`.
   */
  datatype Kinematics = Kinematics(
    dist: (Vec, Vec) -> real,
    length: Vec -> real,
    normalize: Vec -> Vec,
    predict: (Vec, real, real) -> Vec)
  {
    /** Distances and lengths are never negative. */
    ghost predicate Valid() {
      (forall a, b :: dist(a, b) >= 0.0) && (forall v :: length(v) >= 0.0)
    }
  }
}
