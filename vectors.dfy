/** Optional values, used where the source reports success through a bool
    and fills an out-parameter only on success. */
module Options {
  datatype Option<T> = None | Some(value: T)
}

/** Three-component vectors and rays over the reals. The repository's vec3.h
    and ray.h are not part of this model; only the component-wise arithmetic
    every caller relies on is defined here. */
module Vectors {
  datatype Vec3 = Vec3(x: real, y: real, z: real)

  datatype Ray = Ray(origin: Vec3, direction: Vec3)

  const Zero := Vec3(0.0, 0.0, 0.0)
  const White := Vec3(1.0, 1.0, 1.0)

  function Splat(k: real): Vec3 { Vec3(k, k, k) }

  function Add(a: Vec3, b: Vec3): Vec3 { Vec3(a.x + b.x, a.y + b.y, a.z + b.z) }

  function Sub(a: Vec3, b: Vec3): Vec3 { Vec3(a.x - b.x, a.y - b.y, a.z - b.z) }

  function Neg(a: Vec3): Vec3 { Vec3(-a.x, -a.y, -a.z) }

  function Scale(k: real, a: Vec3): Vec3 { Vec3(k * a.x, k * a.y, k * a.z) }

  /** Component-wise product, vec3's `operator*` on two vectors. */
  function Mul(a: Vec3, b: Vec3): Vec3 { Vec3(a.x * b.x, a.y * b.y, a.z * b.z) }

  function Dot(a: Vec3, b: Vec3): real { a.x * b.x + a.y * b.y + a.z * b.z }

  function SquaredLength(a: Vec3): real { Dot(a, a) }

  function Abs(k: real): real { if k < 0.0 then -k else k }

  /** ray::point_at_parameter */
  function PointAt(r: Ray, t: real): Vec3 { Add(r.origin, Scale(t, r.direction)) }
}
