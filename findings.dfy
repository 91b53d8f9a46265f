/** The cube's hit test ignores its query interval. In a scene this lets a
    cube behind a nearer object replace that object's record, and a ray
    scattered from a cube face meets that face again at distance 0. */
module CubeFindings {
  import opened Vectors
  import opened Options
  import opened Hittables
  import opened HittableLists
  import opened Cubes

  /** A member that reports a hit at distance `at` whenever `at` lies in its
      query interval, like a wall facing the ray. */
  function Wall(at: real): Hittable {
    (r: Ray, tMin: real, tMax: real) =>
      if tMin <= at <= tMax then Some(HitRecord(at, PointAt(r, at), Vec3(-1.0, 0.0, 0.0), 0)) else None
  }

  /** The cube of edge 2 centred at (10, 0, 0). */
  const CubeLo := Vec3(9.0, -1.0, -1.0)
  const CubeHi := Vec3(11.0, 1.0, 1.0)
  const CubeCenter := Vec3(10.0, 0.0, 0.0)

  /** A ray from the origin towards the cube, slightly off the x axis so
      that no direction component is 0. */
  const Probe := Ray(Zero, Vec3(1.0, 0.01, 0.01))

  /** The slab test of the probe enters the cube at 9 and leaves at 11. */
  lemma ProbeMeetsCube()
    ensures SlabIntersection(CubeLo, CubeHi, Probe) == Some(Interval(9.0, 11.0))
  {
    assert SlabX(CubeLo, CubeHi, Probe) == Interval(9.0, 11.0);
    assert SlabY(CubeLo, CubeHi, Probe) == Interval(-100.0, 100.0);
    assert SlabZ(CubeLo, CubeHi, Probe) == Interval(-100.0, 100.0);
  }

  /** As written: queried on [0.001, 1], the cube still reports its entry
      at 9, so it does not honour its query interval. */
  lemma AsWrittenCubeIgnoresInterval()
    ensures AsHittable(CubeLo, CubeHi, CubeCenter, 1)(Probe, 0.001, 1.0) == Some(FaceHit(CubeCenter, 1, Probe, 9.0))
    ensures !ReportsWithin(AsHittable(CubeLo, CubeHi, CubeCenter, 1))
  {
    ProbeMeetsCube();
  }

  /** As written: a wall at distance 1 followed by the cube. The wall's hit
      shrinks the bound to 1, the cube answers 9 anyway, and the scan
      returns the cube's record although the wall is nearer. */
  lemma AsWrittenSceneReturnsFartherHit()
    ensures var scene := [Wall(1.0), AsHittable(CubeLo, CubeHi, CubeCenter, 1)];
      Answer(scene, Probe, 0.001, 1000.0, Unset, 0) == Some(HitRecord(1.0, PointAt(Probe, 1.0), Vec3(-1.0, 0.0, 0.0), 0)) &&
      ScanAll(scene, Probe, 0.001, 1000.0, Unset).found &&
      ScanAll(scene, Probe, 0.001, 1000.0, Unset).rec.t == 9.0
  {
    var scene := [Wall(1.0), AsHittable(CubeLo, CubeHi, CubeCenter, 1)];
    FirstQueryIsCallerInterval(scene, Probe, 0.001, 1000.0, Unset);
    assert scene[..1] == [Wall(1.0)];
    assert scene[..0] == [];
    assert BoundAt(scene, Probe, 0.001, 1000.0, Unset, 1) == 1.0;
    AsWrittenCubeIgnoresInterval();
    assert scene[..|scene|] == scene;
  }

  /** Corrected: the same scene with the cube honouring its interval
      returns the wall's record, the nearest hit. */
  lemma CorrectedSceneReturnsNearestHit()
    ensures var scene := [Wall(1.0), WithinHittable(CubeLo, CubeHi, CubeCenter, 1)];
      ScanAll(scene, Probe, 0.001, 1000.0, Unset).found &&
      ScanAll(scene, Probe, 0.001, 1000.0, Unset).rec == HitRecord(1.0, PointAt(Probe, 1.0), Vec3(-1.0, 0.0, 0.0), 0)
  {
    var scene := [Wall(1.0), WithinHittable(CubeLo, CubeHi, CubeCenter, 1)];
    assert scene[..1] == [Wall(1.0)];
    assert scene[..0] == [];
    var first := scene[..1];
    var afterWall := ScanAll(first, Probe, 0.001, 1000.0, Unset);
    assert first[..0] == [];
    assert ScanAll(first[..0], Probe, 0.001, 1000.0, Unset) == Scan(false, 1000.0, Unset);
    assert afterWall == Step(Scan(false, 1000.0, Unset), Wall(1.0), Probe, 0.001);
    assert Wall(1.0)(Probe, 0.001, 1000.0) == Some(HitRecord(1.0, PointAt(Probe, 1.0), Vec3(-1.0, 0.0, 0.0), 0));
    assert afterWall == Scan(true, 1.0, HitRecord(1.0, PointAt(Probe, 1.0), Vec3(-1.0, 0.0, 0.0), 0));
    ProbeMeetsCube();
    assert !IntersectWithin(CubeLo, CubeHi, CubeCenter, 1, Probe, 0.001, 1.0, Unset).0;
    assert scene[1](Probe, 0.001, 1.0) == None;
    assert scene[..|scene|] == scene;
    assert ScanAll(scene, Probe, 0.001, 1000.0, Unset) == Step(afterWall, scene[1], Probe, 0.001);
  }

  /** A ray leaving the cube through its +x face, as a diffuse bounce from
      that face does. */
  const Leaving := Ray(Vec3(11.0, 0.0, 0.0), Vec3(1.0, 0.5, 0.5))

  /** The leaving ray's slab interval ends at its own origin. */
  lemma LeavingMeetsCube()
    ensures SlabIntersection(CubeLo, CubeHi, Leaving) == Some(Interval(-2.0, 0.0))
  {
    assert SlabX(CubeLo, CubeHi, Leaving) == Interval(-2.0, 0.0);
    assert SlabY(CubeLo, CubeHi, Leaving) == Interval(-2.0, 2.0);
    assert SlabZ(CubeLo, CubeHi, Leaving) == Interval(-2.0, 2.0);
  }

  /** As written: queried on [0.001, FLT_MAX] like every bounce, the cube
      reports the ray's origin on its own face at distance 0, so the
      scattered ray hits the surface it leaves. */
  lemma AsWrittenCubeHitsItsOwnFace()
    ensures AsHittable(CubeLo, CubeHi, CubeCenter, 1)(Leaving, 0.001, 340282346638528859811704183484516925440.0) ==
            Some(FaceHit(CubeCenter, 1, Leaving, 0.0))
  {
    LeavingMeetsCube();
  }

  /** Corrected: the same query misses, and the ray leaves the cube. */
  lemma CorrectedCubeLetsRayLeave()
    ensures WithinHittable(CubeLo, CubeHi, CubeCenter, 1)(Leaving, 0.001, 340282346638528859811704183484516925440.0) == None
  {
    LeavingMeetsCube();
  }
}
