/** The axis-aligned cube of cube.h: bounds computed from centre and edge
    length, the slab intersection test, the choice between entry and exit
    distance, and the dominant-axis normal. */
module Cubes {
  import opened Vectors
  import opened Options
  import opened Hittables

  /** Dividing by a zero component gives an IEEE infinity; over the reals
      the slab test is defined only for directions without zero components. */
  predicate NonZeroDirection(d: Vec3) {
    d.x != 0.0 && d.y != 0.0 && d.z != 0.0
  }

  datatype Interval = Interval(lo: real, hi: real)

  predicate Within(iv: Interval, t: real) {
    iv.lo <= t <= iv.hi
  }

  /** Corner-wise ordered bounds, which is what a non-negative edge length
      gives. */
  predicate Ordered(lo: Vec3, hi: Vec3) {
    lo.x <= hi.x && lo.y <= hi.y && lo.z <= hi.z
  }

  predicate InBox(lo: Vec3, hi: Vec3, p: Vec3) {
    lo.x <= p.x <= hi.x && lo.y <= p.y <= hi.y && lo.z <= p.z <= hi.z
  }

  /** A signed unit axis vector: one component is 1 or -1, the others 0. */
  predicate IsAxisUnit(n: Vec3) {
    n == Vec3(1.0, 0.0, 0.0) || n == Vec3(-1.0, 0.0, 0.0) ||
    n == Vec3(0.0, 1.0, 0.0) || n == Vec3(0.0, -1.0, 0.0) ||
    n == Vec3(0.0, 0.0, 1.0) || n == Vec3(0.0, 0.0, -1.0)
  }

  function Max(a: real, b: real): real { if a < b then b else a }

  function Min(a: real, b: real): real { if a < b then a else b }

  /** The distances at which the ray crosses the two planes of one axis,
      near plane first: the near plane is `bounds[sign]` with
      `sign = (1/d < 0)`. */
  function Slab(lo: real, hi: real, o: real, d: real): Interval
    requires d != 0.0
  {
    var inv := 1.0 / d;
    if inv < 0.0 then Interval((hi - o) * inv, (lo - o) * inv)
    else Interval((lo - o) * inv, (hi - o) * inv)
  }

  function SlabX(lo: Vec3, hi: Vec3, r: Ray): Interval
    requires NonZeroDirection(r.direction)
  {
    Slab(lo.x, hi.x, r.origin.x, r.direction.x)
  }

  function SlabY(lo: Vec3, hi: Vec3, r: Ray): Interval
    requires NonZeroDirection(r.direction)
  {
    Slab(lo.y, hi.y, r.origin.y, r.direction.y)
  }

  function SlabZ(lo: Vec3, hi: Vec3, r: Ray): Interval
    requires NonZeroDirection(r.direction)
  {
    Slab(lo.z, hi.z, r.origin.z, r.direction.z)
  }

  /** The comparisons of the slab test on the x, y and z intervals: the
      running interval after the y and z steps, or None where the test
      returns false because the running interval and a slab are disjoint. */
  function SlabTest(x: Interval, y: Interval, z: Interval): Option<Interval> {
    if x.lo > y.hi || y.lo > x.hi then None
    else
      var xy := Interval(if y.lo > x.lo then y.lo else x.lo, if y.hi < x.hi then y.hi else x.hi);
      if xy.lo > z.hi || z.lo > xy.hi then None
      else Some(Interval(if z.lo > xy.lo then z.lo else xy.lo, if z.hi < xy.hi then z.hi else xy.hi))
  }

  function SlabIntersection(lo: Vec3, hi: Vec3, r: Ray): Option<Interval>
    requires NonZeroDirection(r.direction)
  {
    SlabTest(SlabX(lo, hi, r), SlabY(lo, hi, r), SlabZ(lo, hi, r))
  }

  /** The dominant-axis normal of a displacement from the centre. */
  function FaceNormal(d: Vec3): (n: Vec3)
    ensures IsAxisUnit(n)
    ensures n.x != 0.0 <==> Abs(d.x) > Abs(d.y) && Abs(d.x) > Abs(d.z)
    ensures n.y != 0.0 <==> Abs(d.y) >= Abs(d.x) && Abs(d.y) > Abs(d.z)
    ensures n.z != 0.0 <==> !(Abs(d.x) > Abs(d.y) && Abs(d.x) > Abs(d.z)) && !(Abs(d.y) >= Abs(d.x) && Abs(d.y) > Abs(d.z))
    ensures n.x != 0.0 ==> (n.x == 1.0 <==> d.x > 0.0)
    ensures n.y != 0.0 ==> (n.y == 1.0 <==> d.y > 0.0)
    ensures n.z != 0.0 ==> (n.z == 1.0 <==> d.z > 0.0)
  {
    if Abs(d.x) > Abs(d.y) then
      if Abs(d.x) > Abs(d.z) then
        (if d.x > 0.0 then Vec3(1.0, 0.0, 0.0) else Vec3(-1.0, 0.0, 0.0))
      else
        (if d.z > 0.0 then Vec3(0.0, 0.0, 1.0) else Vec3(0.0, 0.0, -1.0))
    else
      if Abs(d.y) > Abs(d.z) then
        (if d.y > 0.0 then Vec3(0.0, 1.0, 0.0) else Vec3(0.0, -1.0, 0.0))
      else
        (if d.z > 0.0 then Vec3(0.0, 0.0, 1.0) else Vec3(0.0, 0.0, -1.0))
  }

  /** The record a successful test writes for distance t. */
  function FaceHit(center: Vec3, mat: MaterialId, r: Ray, t: real): HitRecord {
    var p := PointAt(r, t);
    HitRecord(t, p, FaceNormal(Sub(p, center)), mat)
  }

  /** The distances along one axis to the plane the ray meets first and to
      the one it meets second, `(bounds[sign].c - orig.c) * invDir.c` and
      `(bounds[1 - sign].c - orig.c) * invDir.c`. */
  method PlaneDistances(near: real, far: real, o: real, inv: real, ghost lo: real, ghost hi: real, ghost d: real)
    returns (tNear: real, tFar: real)
    requires d != 0.0 && inv == 1.0 / d
    requires near == (if inv < 0.0 then hi else lo) && far == (if inv < 0.0 then lo else hi)
    ensures Interval(tNear, tFar) == Slab(lo, hi, o, d)
  {
    tNear := (near - o) * inv;
    tFar := (far - o) * inv;
  }

  /** The normal cascade of `cube::hit` as the source writes it, assigning
      `norm` in nested branches. It is the imperative copy of `FaceNormal`,
      whose contract states the axis and sign rules. */
  method DominantNormal(difference: Vec3) returns (norm: Vec3)
    ensures norm == FaceNormal(difference)
  {
    if Abs(difference.x) > Abs(difference.y) {
      if Abs(difference.x) > Abs(difference.z) {
        if difference.x > 0.0 {
          norm := Vec3(1.0, 0.0, 0.0);
        } else {
          norm := Vec3(-1.0, 0.0, 0.0);
        }
      } else {
        if difference.z > 0.0 {
          norm := Vec3(0.0, 0.0, 1.0);
        } else {
          norm := Vec3(0.0, 0.0, -1.0);
        }
      }
    } else {
      if Abs(difference.y) > Abs(difference.z) {
        if difference.y > 0.0 {
          norm := Vec3(0.0, 1.0, 0.0);
        } else {
          norm := Vec3(0.0, -1.0, 0.0);
        }
      } else {
        if difference.z > 0.0 {
          norm := Vec3(0.0, 0.0, 1.0);
        } else {
          norm := Vec3(0.0, 0.0, -1.0);
        }
      }
    }
  }

  /** `cube::hit` on bounds lo/hi: the result and the record afterwards.
      The query interval is not a parameter because the test never reads
      it. When both distances are negative the record keeps `t = tmax`,
      written before the test returns false. */
  function Intersect(lo: Vec3, hi: Vec3, center: Vec3, mat: MaterialId, r: Ray, rec: HitRecord): (bool, HitRecord)
    requires NonZeroDirection(r.direction)
  {
    match SlabIntersection(lo, hi, r)
    case None => (false, rec)
    case Some(iv) =>
      if iv.lo >= 0.0 then (true, FaceHit(center, mat, r, iv.lo))
      else if iv.hi >= 0.0 then (true, FaceHit(center, mat, r, iv.hi))
      else (false, rec.(t := iv.hi))
  }

  class Cube {
    const center: Vec3
    const size: real
    const bounds: array<Vec3>
    const mat: MaterialId

    ghost predicate Valid()
      reads bounds
    {
      bounds.Length == 2 &&
      bounds[0] == Sub(center, Splat(size / 2.0)) &&
      bounds[1] == Add(center, Splat(size / 2.0))
    }

    constructor (cen: Vec3, s: real, m: MaterialId)
      ensures Valid() && fresh(bounds)
      ensures center == cen && size == s && mat == m
    {
      center, size, mat := cen, s, m;
      var halfSize := s / 2.0;
      var b := new Vec3[2];
      b[0] := Sub(cen, Vec3(halfSize, halfSize, halfSize));
      b[1] := Add(cen, Vec3(halfSize, halfSize, halfSize));
      bounds := b;
    }

    /** `cube::hit`. The interval arguments are accepted and ignored. */
    method Hit(r: Ray, tMin: real, tMax: real, rec: HitRecord) returns (hit: bool, outRec: HitRecord)
      requires Valid()
      requires NonZeroDirection(r.direction)
      ensures (hit, outRec) == Intersect(bounds[0], bounds[1], center, mat, r, rec)
      ensures hit ==> outRec.t >= 0.0 && outRec.p == PointAt(r, outRec.t) && outRec.mat == mat
      ensures hit ==> IsAxisUnit(outRec.normal)
      ensures !hit ==> outRec.p == rec.p && outRec.normal == rec.normal && outRec.mat == rec.mat
    {
      var orig := r.origin;
      var dir := r.direction;
      var invDir := Vec3(1.0 / dir.x, 1.0 / dir.y, 1.0 / dir.z);
      var sign := [if invDir.x < 0.0 then 1 else 0, if invDir.y < 0.0 then 1 else 0, if invDir.z < 0.0 then 1 else 0];

      ghost var lo, hi := bounds[0], bounds[1];
      var tmin, tmax := PlaneDistances(bounds[sign[0]].x, bounds[1 - sign[0]].x, orig.x, invDir.x, lo.x, hi.x, dir.x);
      var tymin, tymax := PlaneDistances(bounds[sign[1]].y, bounds[1 - sign[1]].y, orig.y, invDir.y, lo.y, hi.y, dir.y);
      ghost var sx, sy := Interval(tmin, tmax), Interval(tymin, tymax);
      assert sx == SlabX(lo, hi, r) && sy == SlabY(lo, hi, r);

      if tmin > tymax || tymin > tmax {
        return false, rec;
      }
      if tymin > tmin {
        tmin := tymin;
      }
      if tymax < tmax {
        tmax := tymax;
      }

      ghost var sxy := Interval(tmin, tmax);
      var tzmin, tzmax := PlaneDistances(bounds[sign[2]].z, bounds[1 - sign[2]].z, orig.z, invDir.z, lo.z, hi.z, dir.z);
      ghost var sz := Interval(tzmin, tzmax);
      assert sz == SlabZ(lo, hi, r);

      if tmin > tzmax || tzmin > tmax {
        return false, rec;
      }
      if tzmin > tmin {
        tmin := tzmin;
      }
      if tzmax < tmax {
        tmax := tzmax;
      }

      assert SlabTest(sx, sy, sz) == Some(Interval(tmin, tmax));
      assert SlabIntersection(lo, hi, r) == Some(Interval(tmin, tmax));
      outRec := rec.(t := tmin);
      if outRec.t < 0.0 {
        outRec := outRec.(t := tmax);
        if outRec.t < 0.0 {
          return false, outRec;
        }
      }
      outRec := outRec.(p := PointAt(r, outRec.t));

      var difference := Sub(outRec.p, center);
      var norm := DominantNormal(difference);
      outRec := outRec.(normal := norm, mat := mat);
      hit := true;
    }
  }

  /** A non-negative edge length gives ordered bounds. */
  lemma CenteredBoundsOrdered(center: Vec3, s: real)
    requires s >= 0.0
    ensures Ordered(Sub(center, Splat(s / 2.0)), Add(center, Splat(s / 2.0)))
  {
  }

  /** The chosen axis is one whose displacement has the largest magnitude. */
  lemma FaceNormalIsDominant(d: Vec3)
    ensures var n := FaceNormal(d);
      (n.x != 0.0 ==> Abs(d.x) >= Abs(d.y) && Abs(d.x) >= Abs(d.z)) &&
      (n.y != 0.0 ==> Abs(d.y) >= Abs(d.x) && Abs(d.y) >= Abs(d.z)) &&
      (n.z != 0.0 ==> Abs(d.z) >= Abs(d.x) && Abs(d.z) >= Abs(d.y))
  {
  }

  /** The normal has unit length. */
  lemma AxisUnitHasUnitLength(n: Vec3)
    requires IsAxisUnit(n)
    ensures SquaredLength(n) == 1.0
  {
  }

  /** For d > 0, multiplying by 1/d preserves order; for d < 0 it reverses
      it. */
  lemma ScaleByInverse(a: real, d: real, t: real)
    requires d != 0.0
    ensures d > 0.0 ==> (a * (1.0 / d) <= t <==> a <= t * d) && (t <= a * (1.0 / d) <==> t * d <= a)
    ensures d < 0.0 ==> (a * (1.0 / d) <= t <==> t * d <= a) && (t <= a * (1.0 / d) <==> a <= t * d)
  {
    var q := a * (1.0 / d);
    assert q * d == a;
    if d > 0.0 {
      assert q <= t <==> q * d <= t * d;
    } else {
      assert q <= t <==> t * d <= q * d;
    }
  }

  /** A distance lies in the slab of an axis iff the point at that distance
      lies between the axis's two planes. */
  lemma SlabMeaning(lo: real, hi: real, o: real, d: real, t: real)
    requires d != 0.0
    ensures Within(Slab(lo, hi, o, d), t) <==> lo <= o + t * d <= hi
  {
    ScaleByInverse(lo - o, d, t);
    ScaleByInverse(hi - o, d, t);
  }

  /** Ordered planes give a slab whose near distance is at most its far
      distance. */
  lemma SlabOrdered(lo: real, hi: real, o: real, d: real)
    requires d != 0.0 && lo <= hi
    ensures Slab(lo, hi, o, d).lo <= Slab(lo, hi, o, d).hi
  {
    var inv := 1.0 / d;
    if inv < 0.0 {
      assert (hi - o) * inv <= (lo - o) * inv;
    } else {
      assert (lo - o) * inv <= (hi - o) * inv;
    }
  }

  /** On non-empty slabs, the test computes the intersection of the three
      intervals, largest near distance to smallest far distance, and
      rejects exactly when that intersection is empty. */
  lemma SlabTestIsMeet(x: Interval, y: Interval, z: Interval)
    requires x.lo <= x.hi && y.lo <= y.hi && z.lo <= z.hi
    ensures var near, far := Max(Max(x.lo, y.lo), z.lo), Min(Min(x.hi, y.hi), z.hi);
      SlabTest(x, y, z) == if near <= far then Some(Interval(near, far)) else None
  {
  }

  /** Each slab of the ray is non-empty for ordered bounds, and holds
      exactly the distances whose point lies between that axis's planes. */
  lemma AxisSlabX(lo: Vec3, hi: Vec3, r: Ray, t: real)
    requires Ordered(lo, hi) && NonZeroDirection(r.direction)
    ensures SlabX(lo, hi, r).lo <= SlabX(lo, hi, r).hi
    ensures Within(SlabX(lo, hi, r), t) <==> lo.x <= PointAt(r, t).x <= hi.x
  {
    SlabOrdered(lo.x, hi.x, r.origin.x, r.direction.x);
    SlabMeaning(lo.x, hi.x, r.origin.x, r.direction.x, t);
  }

  lemma AxisSlabY(lo: Vec3, hi: Vec3, r: Ray, t: real)
    requires Ordered(lo, hi) && NonZeroDirection(r.direction)
    ensures SlabY(lo, hi, r).lo <= SlabY(lo, hi, r).hi
    ensures Within(SlabY(lo, hi, r), t) <==> lo.y <= PointAt(r, t).y <= hi.y
  {
    SlabOrdered(lo.y, hi.y, r.origin.y, r.direction.y);
    SlabMeaning(lo.y, hi.y, r.origin.y, r.direction.y, t);
  }

  lemma AxisSlabZ(lo: Vec3, hi: Vec3, r: Ray, t: real)
    requires Ordered(lo, hi) && NonZeroDirection(r.direction)
    ensures SlabZ(lo, hi, r).lo <= SlabZ(lo, hi, r).hi
    ensures Within(SlabZ(lo, hi, r), t) <==> lo.z <= PointAt(r, t).z <= hi.z
  {
    SlabOrdered(lo.z, hi.z, r.origin.z, r.direction.z);
    SlabMeaning(lo.z, hi.z, r.origin.z, r.direction.z, t);
  }

  /** On non-empty slabs, a distance lies in the interval the test keeps
      iff it lies in all three slabs. */
  lemma SlabTestContains(x: Interval, y: Interval, z: Interval, t: real)
    requires x.lo <= x.hi && y.lo <= y.hi && z.lo <= z.hi
    ensures (SlabTest(x, y, z).Some? && Within(SlabTest(x, y, z).value, t)) <==>
            Within(x, t) && Within(y, t) && Within(z, t)
  {
    SlabTestIsMeet(x, y, z);
  }

  /** For ordered bounds, the slab test keeps exactly the intersection of
      the three slabs of the ray. */
  lemma SlabIntersectionIsMeet(lo: Vec3, hi: Vec3, r: Ray)
    requires Ordered(lo, hi) && NonZeroDirection(r.direction)
    ensures var x, y, z := SlabX(lo, hi, r), SlabY(lo, hi, r), SlabZ(lo, hi, r);
      var near, far := Max(Max(x.lo, y.lo), z.lo), Min(Min(x.hi, y.hi), z.hi);
      SlabIntersection(lo, hi, r) == if near <= far then Some(Interval(near, far)) else None
  {
    SlabOrdered(lo.x, hi.x, r.origin.x, r.direction.x);
    SlabOrdered(lo.y, hi.y, r.origin.y, r.direction.y);
    SlabOrdered(lo.z, hi.z, r.origin.z, r.direction.z);
    SlabTestIsMeet(SlabX(lo, hi, r), SlabY(lo, hi, r), SlabZ(lo, hi, r));
  }

  /** For ordered bounds, a distance lies in the interval the slab test
      keeps iff the point at that distance lies in the box. */
  lemma SlabIntersectionContains(lo: Vec3, hi: Vec3, r: Ray, t: real)
    requires Ordered(lo, hi) && NonZeroDirection(r.direction)
    ensures (SlabIntersection(lo, hi, r).Some? && Within(SlabIntersection(lo, hi, r).value, t)) <==>
            InBox(lo, hi, PointAt(r, t))
  {
    AxisSlabX(lo, hi, r, t);
    AxisSlabY(lo, hi, r, t);
    AxisSlabZ(lo, hi, r, t);
    SlabTestContains(SlabX(lo, hi, r), SlabY(lo, hi, r), SlabZ(lo, hi, r), t);
  }

  /** What the test reports, in terms of the interval the slabs keep: a
      hit exactly when that interval reaches a non-negative distance, at the
      entry distance when it is non-negative and the exit distance
      otherwise. */
  lemma IntersectChoosesDistance(lo: Vec3, hi: Vec3, center: Vec3, mat: MaterialId, r: Ray, rec: HitRecord)
    requires NonZeroDirection(r.direction)
    ensures var res, iv := Intersect(lo, hi, center, mat, r, rec), SlabIntersection(lo, hi, r);
      (res.0 <==> iv.Some? && (iv.value.lo >= 0.0 || iv.value.hi >= 0.0)) &&
      (res.0 ==> res.1.t == (if iv.value.lo >= 0.0 then iv.value.lo else iv.value.hi) &&
                 res.1.p == PointAt(r, res.1.t) && res.1.mat == mat)
  {
  }

  /** A reported hit is in front of the ray origin and inside the box. */
  lemma HitIsForward(lo: Vec3, hi: Vec3, center: Vec3, mat: MaterialId, r: Ray, rec: HitRecord)
    requires Ordered(lo, hi) && NonZeroDirection(r.direction)
    requires Intersect(lo, hi, center, mat, r, rec).0
    ensures var out := Intersect(lo, hi, center, mat, r, rec).1;
      out.t >= 0.0 && out.p == PointAt(r, out.t) && InBox(lo, hi, out.p)
  {
    IntersectChoosesDistance(lo, hi, center, mat, r, rec);
    SlabIntersectionIsMeet(lo, hi, r);
    var iv := SlabIntersection(lo, hi, r).value;
    var t := if iv.lo >= 0.0 then iv.lo else iv.hi;
    assert Within(iv, t);
    SlabIntersectionContains(lo, hi, r, t);
  }

  /** Any point of the box at a non-negative distance makes the test
      report a hit. */
  lemma ForwardIsHit(lo: Vec3, hi: Vec3, center: Vec3, mat: MaterialId, r: Ray, rec: HitRecord, t: real)
    requires Ordered(lo, hi) && NonZeroDirection(r.direction)
    requires t >= 0.0 && InBox(lo, hi, PointAt(r, t))
    ensures Intersect(lo, hi, center, mat, r, rec).0
  {
    IntersectChoosesDistance(lo, hi, center, mat, r, rec);
    SlabIntersectionContains(lo, hi, r, t);
  }

  /** From an origin outside the box, the reported distance is the entry:
      no point of the box lies nearer along the ray. */
  lemma HitFromOutsideIsEntry(lo: Vec3, hi: Vec3, center: Vec3, mat: MaterialId, r: Ray, rec: HitRecord, t: real)
    requires Ordered(lo, hi) && NonZeroDirection(r.direction)
    requires !InBox(lo, hi, r.origin)
    requires Intersect(lo, hi, center, mat, r, rec).0 && InBox(lo, hi, PointAt(r, t))
    ensures Intersect(lo, hi, center, mat, r, rec).1.t <= t
  {
    IntersectChoosesDistance(lo, hi, center, mat, r, rec);
    assert PointAt(r, 0.0) == r.origin;
    SlabIntersectionContains(lo, hi, r, 0.0);
    SlabIntersectionContains(lo, hi, r, t);
  }

  /** From an origin inside the box the test always hits, and it reports
      the exit, beyond which no point of the box lies along the ray, unless
      the origin sits on the entry face and the distance is 0. */
  lemma HitFromInsideIsExit(lo: Vec3, hi: Vec3, center: Vec3, mat: MaterialId, r: Ray, rec: HitRecord, t: real)
    requires Ordered(lo, hi) && NonZeroDirection(r.direction)
    requires InBox(lo, hi, r.origin) && InBox(lo, hi, PointAt(r, t))
    ensures Intersect(lo, hi, center, mat, r, rec).0
    ensures Intersect(lo, hi, center, mat, r, rec).1.t == 0.0 || t <= Intersect(lo, hi, center, mat, r, rec).1.t
  {
    IntersectChoosesDistance(lo, hi, center, mat, r, rec);
    SlabIntersectionIsMeet(lo, hi, r);
    assert PointAt(r, 0.0) == r.origin;
    SlabIntersectionContains(lo, hi, r, 0.0);
    SlabIntersectionContains(lo, hi, r, t);
  }

  /** The cube as a scene member, as written: the query interval is ignored. */
  function AsHittable(lo: Vec3, hi: Vec3, center: Vec3, mat: MaterialId): Hittable {
    (r: Ray, tMin: real, tMax: real) =>
      if NonZeroDirection(r.direction) && Intersect(lo, hi, center, mat, r, Unset).0
      then Some(Intersect(lo, hi, center, mat, r, Unset).1)
      else None
  }

  /** The test with the query interval honoured: the entry distance if it
      lies in [tMin, tMax], else the exit distance if it does, else no hit. */
  function IntersectWithin(lo: Vec3, hi: Vec3, center: Vec3, mat: MaterialId, r: Ray, tMin: real, tMax: real, rec: HitRecord): (res: (bool, HitRecord))
    requires NonZeroDirection(r.direction)
    ensures res.0 ==> tMin <= res.1.t <= tMax && res.1 == FaceHit(center, mat, r, res.1.t)
    ensures res.0 ==> SlabIntersection(lo, hi, r).Some? &&
                      (res.1.t == SlabIntersection(lo, hi, r).value.lo || res.1.t == SlabIntersection(lo, hi, r).value.hi)
    ensures !res.0 ==> res.1 == rec
  {
    match SlabIntersection(lo, hi, r)
    case None => (false, rec)
    case Some(iv) =>
      if tMin <= iv.lo <= tMax then (true, FaceHit(center, mat, r, iv.lo))
      else if tMin <= iv.hi <= tMax then (true, FaceHit(center, mat, r, iv.hi))
      else (false, rec)
  }

  function WithinHittable(lo: Vec3, hi: Vec3, center: Vec3, mat: MaterialId): Hittable {
    (r: Ray, tMin: real, tMax: real) =>
      if NonZeroDirection(r.direction) && IntersectWithin(lo, hi, center, mat, r, tMin, tMax, Unset).0
      then Some(IntersectWithin(lo, hi, center, mat, r, tMin, tMax, Unset).1)
      else None
  }

  /** The corrected cube honours its query interval, so the scan's
      closest-hit lemmas apply to scenes containing it. */
  lemma WithinHittableReportsWithin(lo: Vec3, hi: Vec3, center: Vec3, mat: MaterialId)
    ensures ReportsWithin(WithinHittable(lo, hi, center, mat))
  {
  }

  /** On the interval [0, tMax] the corrected test agrees with the original
      whenever the original's distance is at most tMax. */
  lemma WithinAgreesOnForwardInterval(lo: Vec3, hi: Vec3, center: Vec3, mat: MaterialId, r: Ray, tMax: real, rec: HitRecord)
    requires Ordered(lo, hi) && NonZeroDirection(r.direction)
    requires Intersect(lo, hi, center, mat, r, rec).0 && Intersect(lo, hi, center, mat, r, rec).1.t <= tMax
    ensures IntersectWithin(lo, hi, center, mat, r, 0.0, tMax, rec) == Intersect(lo, hi, center, mat, r, rec)
  {
    SlabOrdered(lo.x, hi.x, r.origin.x, r.direction.x);
    SlabOrdered(lo.y, hi.y, r.origin.y, r.direction.y);
    SlabOrdered(lo.z, hi.z, r.origin.z, r.direction.z);
    SlabIntersectionIsMeet(lo, hi, r);
  }
}
