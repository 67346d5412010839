/**
 * Shared geometry: three-dimensional points and the floating-point library of
 * the host. Trigonometry and Euclidean distance are not computed here; a
 * `MathHost` value carries them as arbitrary total functions, so every
 * property proved about a caller holds whatever these functions return.
 */
module Geometry {

  datatype Vec3 = Vec3(x: real, y: real, z: real)

  /** `Math.sin`, `Math.cos` and `Vector3.distanceTo` of the running host. */
  datatype MathHost = MathHost(
    sin: real -> real,
    cos: real -> real,
    distance: (Vec3, Vec3) -> real)

  /** The decimal value of JavaScript's `Math.PI`. */
  const Pi: real := 3.141592653589793

  const UnitScale: Vec3 := Vec3(1.0, 1.0, 1.0)

  function Norm2(v: Vec3): real {
    v.x * v.x + v.y * v.y + v.z * v.z
  }
}
