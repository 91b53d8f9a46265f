/** The intersection interface of hittable.h: the hit record and the
    capability of reporting a hit within a parametric interval. */
module Hittables {
  import opened Vectors
  import opened Options

  /** Index of a material in the scene's material storage; stands for the
      non-owning `material *mat_ptr` of the record. */
  type MaterialId = nat

  datatype HitRecord = HitRecord(t: real, p: Vec3, normal: Vec3, mat: MaterialId)

  /** A record whose contents nobody reads: the uninitialised `hit_record rec`
      a caller passes before the first successful hit. */
  const Unset := HitRecord(0.0, Zero, Zero, 0)

  /** `hittable::hit(r, t_min, t_max, rec)`: the record on success, None when
      the call returns false. */
  type Hittable = (Ray, real, real) -> Option<HitRecord>

  /** The member honours its query interval: a reported distance lies within
      [tMin, tMax]. */
  ghost predicate ReportsWithin(h: Hittable) {
    forall r, tMin, tMax :: h(r, tMin, tMax).Some? ==> tMin <= h(r, tMin, tMax).value.t <= tMax
  }
}
