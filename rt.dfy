/** The radiance estimate `color` of rt.cpp: the closest hit of the world
    on [0.001, FLT_MAX], a bounded recursion through the hit material's
    scatter, and the sky gradient on a miss. */
module Render {
  import opened Vectors
  import opened Options
  import opened Hittables
  import Materials

  /** `FLT_MAX`, the largest finite single-precision value. */
  const FltMax: real := 340282346638528859811704183484516925440.0

  /** Hits nearer than this are ignored, so that a scattered ray does not
      meet the surface it leaves. */
  const TMin: real := 0.001

  /** Calls at this depth or deeper do not scatter. */
  const MaxDepth: int := 5

  const SkyBlue := Vec3(0.5, 0.7, 1.0)

  /** A successful scatter: attenuation and outgoing ray. */
  datatype Scattered = Scattered(attenuation: Vec3, ray: Ray)

  /** `rec.mat_ptr->scatter` for an incoming ray and a hit record, None when
      the material absorbs the ray. The depth stands for the state of the
      random generator, which differs from one bounce to the next. */
  type Scatterer = (Ray, HitRecord, int) -> Option<Scattered>

  /** The background: white blended into sky blue by the height of the
      unit direction. */
  function Sky(unitDir: Vec3): Vec3 {
    var t := 0.5 * (unitDir.y + 1.0);
    Add(Scale(1.0 - t, White), Scale(t, SkyBlue))
  }

  /** `color(r, world, depth)`. */
  function Color(r: Ray, world: Hittable, depth: int, scatter: Scatterer, unitVector: Vec3 -> Vec3): Vec3
    decreases MaxDepth - depth
  {
    match world(r, TMin, FltMax)
    case Some(rec) =>
      if depth < MaxDepth && scatter(r, rec, depth).Some? then
        var s := scatter(r, rec, depth).value;
        Mul(s.attenuation, Color(s.ray, world, depth + 1, scatter, unitVector))
      else Zero
    case None => Sky(unitVector(r.direction))
  }

  /** `color` together with the depths of the calls it makes, itself
      first: consecutive depths, and no call beyond the one at depth 5.
      `TraceIsColor` ties its colour to `Color`. */
  function ColorTrace(r: Ray, world: Hittable, depth: int, scatter: Scatterer, unitVector: Vec3 -> Vec3): (res: (Vec3, seq<int>))
    ensures |res.1| >= 1 && res.1[0] == depth
    ensures forall i :: 0 <= i < |res.1| ==> res.1[i] == depth + i
    ensures |res.1| <= if depth < MaxDepth then MaxDepth - depth + 1 else 1
    decreases MaxDepth - depth
  {
    match world(r, TMin, FltMax)
    case Some(rec) =>
      if depth < MaxDepth && scatter(r, rec, depth).Some? then
        var s := scatter(r, rec, depth).value;
        var next := ColorTrace(s.ray, world, depth + 1, scatter, unitVector);
        (Mul(s.attenuation, next.0), [depth] + next.1)
      else (Zero, [depth])
    case None => (Sky(unitVector(r.direction)), [depth])
  }

  /** The traced colour is the colour `color` returns. */
  lemma {:induction false} TraceIsColor(r: Ray, world: Hittable, depth: int, scatter: Scatterer, unitVector: Vec3 -> Vec3)
    ensures ColorTrace(r, world, depth, scatter, unitVector).0 == Color(r, world, depth, scatter, unitVector)
    decreases MaxDepth - depth
  {
    match world(r, TMin, FltMax)
    case Some(rec) =>
      if depth < MaxDepth && scatter(r, rec, depth).Some? {
        TraceIsColor(scatter(r, rec, depth).value.ray, world, depth + 1, scatter, unitVector);
      }
    case None =>
  }

  /** A hit at depth 5 or deeper is black, whatever the material would
      have done: the scatter is not consulted. */
  lemma DepthCutoff(r: Ray, world: Hittable, depth: int, scatter: Scatterer, other: Scatterer, unitVector: Vec3 -> Vec3)
    requires world(r, TMin, FltMax).Some? && depth >= MaxDepth
    ensures Color(r, world, depth, scatter, unitVector) == Zero
    ensures Color(r, world, depth, scatter, unitVector) == Color(r, world, depth, other, unitVector)
  {
  }

  /** A hit whose material absorbs the ray is black. */
  lemma AbsorbedIsBlack(r: Ray, world: Hittable, depth: int, scatter: Scatterer, unitVector: Vec3 -> Vec3)
    requires world(r, TMin, FltMax).Some? && scatter(r, world(r, TMin, FltMax).value, depth).None?
    ensures Color(r, world, depth, scatter, unitVector) == Zero
  {
  }

  /** A hit below depth 5 whose material scatters is the attenuation times
      the colour of the scattered ray one level deeper. */
  lemma ScatteredIsAttenuated(r: Ray, world: Hittable, depth: int, scatter: Scatterer, unitVector: Vec3 -> Vec3)
    requires world(r, TMin, FltMax).Some? && depth < MaxDepth
    requires scatter(r, world(r, TMin, FltMax).value, depth).Some?
    ensures var s := scatter(r, world(r, TMin, FltMax).value, depth).value;
      Color(r, world, depth, scatter, unitVector) == Mul(s.attenuation, Color(s.ray, world, depth + 1, scatter, unitVector))
  {
  }

  /** A miss is the sky colour of the unit direction. */
  lemma MissIsSky(r: Ray, world: Hittable, depth: int, scatter: Scatterer, unitVector: Vec3 -> Vec3)
    requires world(r, TMin, FltMax).None?
    ensures Color(r, world, depth, scatter, unitVector) == Sky(unitVector(r.direction))
  {
  }

  /** Only the world's answers on [0.001, FLT_MAX] matter: two worlds that
      agree there on every ray give the same colour. */
  lemma {:induction false} ColorUsesQueryInterval(r: Ray, w1: Hittable, w2: Hittable, depth: int, scatter: Scatterer, unitVector: Vec3 -> Vec3)
    requires forall q: Ray :: w1(q, TMin, FltMax) == w2(q, TMin, FltMax)
    ensures Color(r, w1, depth, scatter, unitVector) == Color(r, w2, depth, scatter, unitVector)
    decreases MaxDepth - depth
  {
    assert w1(r, TMin, FltMax) == w2(r, TMin, FltMax);
    match w1(r, TMin, FltMax)
    case Some(rec) =>
      if depth < MaxDepth && scatter(r, rec, depth).Some? {
        ColorUsesQueryInterval(scatter(r, rec, depth).value.ray, w1, w2, depth + 1, scatter, unitVector);
      }
    case None =>
  }

  /** Straight up is sky blue, straight down is white. */
  lemma SkyEndpoints(u: Vec3)
    ensures u.y == 1.0 ==> Sky(u) == SkyBlue
    ensures u.y == -1.0 ==> Sky(u) == White
  {
  }

  predicate InUnitCube(c: Vec3) {
    0.0 <= c.x <= 1.0 && 0.0 <= c.y <= 1.0 && 0.0 <= c.z <= 1.0
  }

  /** For a unit direction the sky colour lies between sky blue and white,
      component by component. */
  lemma SkyBetweenBlueAndWhite(u: Vec3)
    requires -1.0 <= u.y <= 1.0
    ensures var c := Sky(u);
      0.5 <= c.x <= 1.0 && 0.7 <= c.y <= 1.0 && c.z == 1.0 && InUnitCube(c)
  {
  }

  lemma MulInUnitCube(a: Vec3, b: Vec3)
    requires InUnitCube(a) && InUnitCube(b)
    ensures InUnitCube(Mul(a, b))
  {
    Materials.UnitProduct(a.x, b.x);
    Materials.UnitProduct(a.y, b.y);
    Materials.UnitProduct(a.z, b.z);
  }

  /** When every attenuation lies in the unit cube and unit directions have
      a height in [-1, 1], every colour lies in the unit cube: bounces only
      darken the sky. */
  lemma {:induction false} ColorInUnitCube(r: Ray, world: Hittable, depth: int, scatter: Scatterer, unitVector: Vec3 -> Vec3)
    requires forall q: Ray, rec: HitRecord, d: int :: scatter(q, rec, d).Some? ==> InUnitCube(scatter(q, rec, d).value.attenuation)
    requires forall v: Vec3 :: -1.0 <= unitVector(v).y <= 1.0
    ensures InUnitCube(Color(r, world, depth, scatter, unitVector))
    decreases MaxDepth - depth
  {
    match world(r, TMin, FltMax)
    case Some(rec) =>
      if depth < MaxDepth && scatter(r, rec, depth).Some? {
        var s := scatter(r, rec, depth).value;
        ColorInUnitCube(s.ray, world, depth + 1, scatter, unitVector);
        MulInUnitCube(s.attenuation, Color(s.ray, world, depth + 1, scatter, unitVector));
      }
    case None =>
      SkyBetweenBlueAndWhite(unitVector(r.direction));
  }
}
