/** The scattering laws of material.h and Schlick's approximation of
    random.h. Random draws are parameters; reflect, refract, unit_vector
    and length come from vec3.h, which is not part of this model, and are
    passed in as the fields of an `Optics` value. */
module Materials {
  import opened Vectors
  import opened Options
  import opened Hittables

  datatype Material =
    | Lambertian(albedo: Vec3)
    | Metal(albedo: Vec3, fuzz: real)
    | Glass(refIdx: real)

  /** The vector helpers the laws call. `refract` yields the refracted
      direction, or None where it returns false (total internal
      reflection). */
  datatype Optics = Optics(
    reflect: (Vec3, Vec3) -> Vec3,
    refract: (Vec3, Vec3, real) -> Option<Vec3>,
    unitVector: Vec3 -> Vec3,
    length: Vec3 -> real)

  /** The `metal` constructor: the fuzz factor is clamped from above at 1;
      a value below 1, negative ones included, is kept. */
  function MakeMetal(a: Vec3, f: real): (m: Material)
    ensures m.Metal? && m.albedo == a
    ensures m.fuzz <= 1.0
    ensures f < 1.0 ==> m.fuzz == f
    ensures f >= 1.0 ==> m.fuzz == 1.0
  {
    Metal(a, if f < 1.0 then f else 1.0)
  }

  /** Any fuzz of at least 1 behaves like fuzz 1. */
  lemma MetalFuzzClamp(a: Vec3, f: real)
    requires f >= 1.0
    ensures MakeMetal(a, f) == MakeMetal(a, 1.0)
  {
  }

  function Pow5(x: real): real { x * x * x * x * x }

  /** `schlick`: reflectance at normal incidence r0, raised towards 1 as the
      incidence grows grazing. */
  function Schlick(cosine: real, refIdx: real): real
    requires 1.0 + refIdx != 0.0
  {
    var r0 := (1.0 - refIdx) / (1.0 + refIdx);
    var r0 := r0 * r0;
    r0 + (1.0 - r0) * Pow5(1.0 - cosine)
  }

  /** `lambertian::scatter`: always scatters, with the albedo as
      attenuation, from the hit point towards normal plus the unit-ball
      sample. */
  method LambertianScatter(albedo: Vec3, rIn: Ray, rec: HitRecord, sample: Vec3)
    returns (ok: bool, attenuation: Vec3, scattered: Ray)
    ensures ok
    ensures attenuation == albedo
    ensures scattered == Ray(rec.p, Add(rec.normal, sample))
  {
    var target := Add(Add(rec.p, rec.normal), sample);
    scattered := Ray(rec.p, Sub(target, rec.p));
    attenuation := albedo;
    return true, attenuation, scattered;
  }

  /** `metal::scatter`: the mirror direction of the unit incoming direction,
      perturbed by fuzz times the sample. It scatters iff that direction
      leaves the surface. */
  method MetalScatter(albedo: Vec3, fuzz: real, optics: Optics, rIn: Ray, rec: HitRecord, sample: Vec3)
    returns (ok: bool, attenuation: Vec3, scattered: Ray)
    ensures attenuation == albedo
    ensures scattered.origin == rec.p
    ensures scattered.direction == Add(optics.reflect(optics.unitVector(rIn.direction), rec.normal), Scale(fuzz, sample))
    ensures ok <==> Dot(scattered.direction, rec.normal) > 0.0
  {
    var reflected := optics.reflect(optics.unitVector(rIn.direction), rec.normal);
    scattered := Ray(rec.p, Add(reflected, Scale(fuzz, sample)));
    attenuation := albedo;
    ok := Dot(scattered.direction, rec.normal) > 0.0;
  }

  /** Which side of the surface the ray comes from: the normal facing the
      incoming ray, the ratio of refractive indices and the cosine of the
      incidence angle. */
  datatype Interface = Interface(outward: Vec3, ratio: real, cosine: real)

  /** Exiting the medium (`dot(d, n) > 0`): the flipped normal and ratio
      refIdx; otherwise, grazing included: the normal and 1 / refIdx. */
  function GlassInterface(refIdx: real, optics: Optics, d: Vec3, n: Vec3): (i: Interface)
    requires refIdx != 0.0 && optics.length(d) != 0.0
    ensures Dot(d, n) > 0.0 ==> i.outward == Neg(n) && i.ratio == refIdx
    ensures Dot(d, n) <= 0.0 ==> i.outward == n && i.ratio * refIdx == 1.0
  {
    if Dot(d, n) > 0.0 then Interface(Neg(n), refIdx, refIdx * Dot(d, n) / optics.length(d))
    else Interface(n, 1.0 / refIdx, -Dot(d, n) / optics.length(d))
  }

  /** The probability of emitting the reflected ray: Schlick's value when
      refraction is possible, and 1 otherwise. */
  function ReflectProb(refIdx: real, optics: Optics, d: Vec3, n: Vec3): real
    requires refIdx != 0.0 && refIdx != -1.0 && optics.length(d) != 0.0
  {
    var i := GlassInterface(refIdx, optics, d, n);
    if optics.refract(d, i.outward, i.ratio).Some? then Schlick(i.cosine, refIdx) else 1.0
  }

  /** `glass::scatter` with the uniform draw `draw` of `random_double`:
      always scatters with white attenuation, emitting the reflected ray if
      the draw falls below the reflection probability and the refracted ray
      otherwise; the refracted ray is emitted only when it exists. */
  method GlassScatter(refIdx: real, optics: Optics, rIn: Ray, rec: HitRecord, draw: real)
    returns (ok: bool, attenuation: Vec3, scattered: Ray)
    requires refIdx != 0.0 && refIdx != -1.0 && optics.length(rIn.direction) != 0.0
    requires draw < 1.0
    ensures ok && attenuation == White && scattered.origin == rec.p
    ensures var i := GlassInterface(refIdx, optics, rIn.direction, rec.normal);
      var refracted := optics.refract(rIn.direction, i.outward, i.ratio);
      if draw < ReflectProb(refIdx, optics, rIn.direction, rec.normal)
      then scattered.direction == optics.reflect(rIn.direction, rec.normal)
      else refracted.Some? && scattered.direction == refracted.value
  {
    var outwardNormal: Vec3;
    var reflected := optics.reflect(rIn.direction, rec.normal);
    var niOverNt: real;
    attenuation := White;
    var reflectProb: real;
    var cosine: real;

    if Dot(rIn.direction, rec.normal) > 0.0 {
      outwardNormal := Neg(rec.normal);
      niOverNt := refIdx;
      cosine := refIdx * Dot(rIn.direction, rec.normal) / optics.length(rIn.direction);
    } else {
      outwardNormal := rec.normal;
      niOverNt := 1.0 / refIdx;
      cosine := -Dot(rIn.direction, rec.normal) / optics.length(rIn.direction);
    }
    assert Interface(outwardNormal, niOverNt, cosine) == GlassInterface(refIdx, optics, rIn.direction, rec.normal);

    var refracted := optics.refract(rIn.direction, outwardNormal, niOverNt);
    if refracted.Some? {
      reflectProb := Schlick(cosine, refIdx);
    } else {
      reflectProb := 1.0;
    }

    if draw < reflectProb {
      scattered := Ray(rec.p, reflected);
    } else {
      scattered := Ray(rec.p, refracted.value);
    }
    ok := true;
  }

  /** `rec.mat_ptr->scatter`: the law of the hit material, with the
      direction each law produces. Only a metal can absorb the ray. */
  method Scatter(m: Material, optics: Optics, rIn: Ray, rec: HitRecord, sample: Vec3, draw: real)
    returns (ok: bool, attenuation: Vec3, scattered: Ray)
    requires m.Glass? ==> m.refIdx != 0.0 && m.refIdx != -1.0 && optics.length(rIn.direction) != 0.0 && draw < 1.0
    ensures !ok ==> m.Metal?
    ensures scattered.origin == rec.p
    ensures attenuation == (if m.Glass? then White else m.albedo)
    ensures m.Lambertian? ==> ok && scattered.direction == Add(rec.normal, sample)
    ensures m.Metal? ==>
      scattered.direction == Add(optics.reflect(optics.unitVector(rIn.direction), rec.normal), Scale(m.fuzz, sample)) &&
      (ok <==> Dot(scattered.direction, rec.normal) > 0.0)
    ensures m.Glass? ==> ok
    ensures m.Glass? ==>
      (var i := GlassInterface(m.refIdx, optics, rIn.direction, rec.normal);
       var refracted := optics.refract(rIn.direction, i.outward, i.ratio);
       if draw < ReflectProb(m.refIdx, optics, rIn.direction, rec.normal)
       then scattered.direction == optics.reflect(rIn.direction, rec.normal)
       else refracted.Some? && scattered.direction == refracted.value)
  {
    match m {
      case Lambertian(albedo) =>
        ok, attenuation, scattered := LambertianScatter(albedo, rIn, rec, sample);
      case Metal(albedo, fuzz) =>
        ok, attenuation, scattered := MetalScatter(albedo, fuzz, optics, rIn, rec, sample);
      case Glass(refIdx) =>
        ok, attenuation, scattered := GlassScatter(refIdx, optics, rIn, rec, draw);
    }
  }

  lemma SquareBelowOne(x: real)
    requires x * x < 1.0
    ensures -1.0 < x < 1.0
  {
  }

  lemma NonNegProduct(a: real, b: real)
    requires 0.0 <= a && 0.0 <= b
    ensures 0.0 <= a * b
  {
  }

  lemma UnitProduct(a: real, b: real)
    requires 0.0 <= a <= 1.0 && 0.0 <= b <= 1.0
    ensures 0.0 <= a * b <= a
  {
  }

  /** Lagrange's identity in three dimensions. */
  lemma Lagrange(s: Vec3, n: Vec3)
    ensures SquaredLength(s) * SquaredLength(n) - Dot(s, n) * Dot(s, n) ==
      (s.x * n.y - s.y * n.x) * (s.x * n.y - s.y * n.x) +
      (s.y * n.z - s.z * n.y) * (s.y * n.z - s.z * n.y) +
      (s.z * n.x - s.x * n.z) * (s.z * n.x - s.x * n.z)
  {
  }

  lemma NonNegSquares(a: real, b: real, c: real)
    ensures a * a + b * b + c * c >= 0.0
  {
  }

  lemma GapBound(ls: real, ln: real, d: real, gap: real)
    requires ls * ln - d * d == gap && gap >= 0.0 && ln == 1.0 && ls < 1.0
    ensures -1.0 < d < 1.0
  {
    SquareBelowOne(d);
  }

  /** Cauchy-Schwarz for a unit vector: a vector of squared length below 1
      has a dot product with it strictly between -1 and 1. */
  lemma DotWithUnitBelowOne(s: Vec3, n: Vec3)
    requires SquaredLength(n) == 1.0 && SquaredLength(s) < 1.0
    ensures -1.0 < Dot(s, n) < 1.0
  {
    var a, b, c := s.x * n.y - s.y * n.x, s.y * n.z - s.z * n.y, s.z * n.x - s.x * n.z;
    Lagrange(s, n);
    NonNegSquares(a, b, c);
    GapBound(SquaredLength(s), SquaredLength(n), Dot(s, n), a * a + b * b + c * c);
  }

  /** With a unit normal and a sample inside the unit ball, the lambertian
      direction normal + sample points away from the surface. */
  lemma LambertianLeavesSurface(n: Vec3, sample: Vec3)
    requires SquaredLength(n) == 1.0 && SquaredLength(sample) < 1.0
    ensures Dot(Add(n, sample), n) > 0.0
  {
    DotWithUnitBelowOne(sample, n);
  }

  /** A fuzz in [0, 1] keeps the perturbation inside the unit ball. */
  lemma FuzzedSampleInUnitBall(fuzz: real, sample: Vec3)
    requires 0.0 <= fuzz <= 1.0 && SquaredLength(sample) < 1.0
    ensures SquaredLength(Scale(fuzz, sample)) < 1.0
  {
    assert SquaredLength(Scale(fuzz, sample)) == fuzz * fuzz * SquaredLength(sample);
    UnitProduct(fuzz, fuzz);
    assert fuzz * fuzz * SquaredLength(sample) <= 1.0 * SquaredLength(sample);
  }

  /** A reflected direction that leaves the surface by more than the fuzz
      still leaves it after the perturbation, so the metal scatters. */
  lemma FuzzedReflectionLeaves(reflected: Vec3, n: Vec3, fuzz: real, sample: Vec3)
    requires SquaredLength(n) == 1.0 && SquaredLength(sample) < 1.0
    requires 0.0 <= fuzz && Dot(reflected, n) > fuzz
    ensures Dot(Add(reflected, Scale(fuzz, sample)), n) > 0.0
  {
    DotWithUnitBelowOne(sample, n);
    assert Dot(Add(reflected, Scale(fuzz, sample)), n) == Dot(reflected, n) + fuzz * Dot(sample, n);
    assert fuzz * Dot(sample, n) >= -fuzz;
  }

  /** The chosen normal faces the incoming ray, and for a positive index of
      refraction and a positive length the ratio and the cosine are
      positive and non-negative. */
  lemma GlassInterfaceFacesRay(refIdx: real, optics: Optics, d: Vec3, n: Vec3)
    requires refIdx != 0.0 && optics.length(d) != 0.0
    ensures Dot(d, GlassInterface(refIdx, optics, d, n).outward) <= 0.0
    ensures refIdx > 0.0 && optics.length(d) > 0.0 ==>
      GlassInterface(refIdx, optics, d, n).ratio > 0.0 && GlassInterface(refIdx, optics, d, n).cosine >= 0.0
  {
    var len := optics.length(d);
    if Dot(d, n) > 0.0 {
      assert Dot(d, Neg(n)) == -Dot(d, n);
      if refIdx > 0.0 && len > 0.0 {
        assert refIdx * Dot(d, n) > 0.0;
      }
    }
  }

  /** With refraction impossible, every draw of `random_double` emits the
      reflected ray. */
  lemma TotalInternalReflection(refIdx: real, optics: Optics, d: Vec3, n: Vec3, draw: real)
    requires refIdx != 0.0 && refIdx != -1.0 && optics.length(d) != 0.0
    requires optics.refract(d, GlassInterface(refIdx, optics, d, n).outward, GlassInterface(refIdx, optics, d, n).ratio).None?
    requires draw < 1.0
    ensures draw < ReflectProb(refIdx, optics, d, n)
  {
  }

  /** The reflectance at normal incidence of a positive index lies in
      [0, 1). */
  lemma NormalReflectance(refIdx: real)
    requires refIdx > 0.0
    ensures 0.0 <= (1.0 - refIdx) / (1.0 + refIdx) * ((1.0 - refIdx) / (1.0 + refIdx)) < 1.0
  {
    var q := (1.0 - refIdx) / (1.0 + refIdx);
    assert q * (1.0 + refIdx) == 1.0 - refIdx;
    assert -1.0 < q < 1.0;
    SquareBelowOneBound(q);
  }

  lemma SquareBelowOneBound(q: real)
    requires -1.0 < q < 1.0
    ensures 0.0 <= q * q < 1.0
  {
    if q >= 0.0 {
      assert q * q <= q * 1.0;
    } else {
      assert q * q <= (-q) * 1.0;
    }
  }

  lemma Pow5InUnit(x: real)
    requires 0.0 <= x <= 1.0
    ensures 0.0 <= Pow5(x) <= 1.0
  {
    UnitProduct(x, x);
    UnitProduct(x * x, x);
    UnitProduct(x * x * x, x);
    UnitProduct(x * x * x * x, x);
  }

  lemma Blend(r0: real, p: real)
    requires 0.0 <= r0 < 1.0 && 0.0 <= p <= 1.0
    ensures r0 <= r0 + (1.0 - r0) * p <= 1.0
  {
    NonNegProduct(1.0 - r0, p);
    NonNegProduct(1.0 - r0, 1.0 - p);
    assert (1.0 - r0) * (1.0 - p) == (1.0 - r0) - (1.0 - r0) * p;
  }

  /** For a positive index and a cosine in [0, 1], Schlick's value is a
      probability, no smaller than the reflectance at normal incidence
      and equal to it when the cosine is 1. */
  lemma SchlickIsProbability(cosine: real, refIdx: real)
    requires refIdx > 0.0 && 0.0 <= cosine <= 1.0
    ensures var r0 := (1.0 - refIdx) / (1.0 + refIdx) * ((1.0 - refIdx) / (1.0 + refIdx));
      0.0 <= r0 < 1.0 && r0 <= Schlick(cosine, refIdx) <= 1.0 && (cosine == 1.0 ==> Schlick(cosine, refIdx) == r0)
  {
    NormalReflectance(refIdx);
    Pow5InUnit(1.0 - cosine);
    Blend((1.0 - refIdx) / (1.0 + refIdx) * ((1.0 - refIdx) / (1.0 + refIdx)), Pow5(1.0 - cosine));
  }
}
