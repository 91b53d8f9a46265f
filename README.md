# Rendering kernel of kyou_tracer, modelled in Dafny

kyou_tracer is a small Monte Carlo ray tracer. This project models its
rendering kernel over the reals:

- the scene list's closest-hit scan (`hittable_list::hit`);
- the axis-aligned cube: its constructor and its slab intersection test (`cube::hit`);
- the three scattering laws of the materials: lambertian, metal and glass;
- the depth-bounded radiance recursion, `color` in rt.cpp.

Scene members are hit oracles, values of type
`(Ray, real, real) -> Option<HitRecord>`: a record on success and `None`
where the C++ call returns false. A hit record's `mat_ptr` becomes a
material index.

Random draws are parameters: the unit-ball sample of
`random_in_unit_sphere` and the uniform draw of `random_double`. So are
`reflect`, `refract`, `unit_vector` and `length` from vec3.h, which is not
part of this model. Where `color` invokes the hit material's `scatter`, the
model passes a scatter oracle indexed by the recursion depth; that index
stands for the state of the random generator.

Files:

- `vectors.dfy`: `Option`, `Vec3`, `Ray` and the component-wise arithmetic.
- `hittable.dfy`: the hit record and the hittable interface.
- `hittable_list.dfy`: class `HittableList`. Its `Hit` method is a `for` loop proved against the left fold `ScanAll`, and the scan's properties are lemmas about `ScanAll`.
- `cube.dfy`: class `Cube`, with the `bounds` array filled by the constructor.
  - `Hit` mirrors `cube::hit` step by step and is proved equal to the function `Intersect`.
  - The slab test is split into the per-axis intervals (`SlabX`/`SlabY`/`SlabZ`) and the comparisons (`SlabTest`), with lemmas on box containment.
- `findings.dfy`: a concrete scene and a concrete bounce showing what the cube's unused query interval does, and the corrected cube.
- `material.dfy`: the scattering laws as methods with several out-results, the metal constructor and Schlick's approximation.
- `rt.dfy`: `Color`, the sky gradient and the recursion's properties.

## Model

| member | source | states |
|---|---|---|
| HittableLists.HittableList.constructor | hittable_list.h:9 | The list holds the given members. |
| HittableLists.HittableList.Hit | hittable_list.h:17-34 | Result and record equal the in-order scan `ScanAll`. The i-th member call is made once, in index order, with lower bound tMin and upper bound the bound after the first i members, which starts at tMax. |
| HittableLists.FirstQueryIsCallerInterval | hittable_list.h:21-26 | The first member is queried on exactly [tMin, tMax]. |
| HittableLists.BoundStep | hittable_list.h:26-28 | After a member call the bound is the reported distance on a hit and unchanged on a miss. |
| HittableLists.BoundAtPrefix | hittable_list.h:24-26 | A member's query interval depends only on the members before it. |
| HittableLists.ScanFoundIff | hittable_list.h:20-27 | The result is true iff some member call returned true; both directions. |
| HittableLists.ScanShape | hittable_list.h:20-31 | With no hit, the record is exactly the caller's and the bound is tMax. With a hit, the bound equals the record's distance. |
| HittableLists.ScanKeepsLastHit | hittable_list.h:26-30 | On a hit, the record is the one returned by a member after which every call missed, i.e. the last successful one. |
| HittableLists.BoundsShrink | hittable_list.h:21-28 | If every member reports within its interval, the bound never increases and stays at most tMax. |
| HittableLists.ScanNearest | hittable_list.h:21-30 | If every member reports within its interval, a hit lies in [tMin, tMax] and is no farther than any hit reported during the scan. |
| HittableLists.Step | hittable_list.h:26-30 | No ensures; `BoundStep` states its effect on the bound. |
| HittableLists.ScanAll | hittable_list.h:20-31 | No ensures; `ScanFoundIff`, `ScanShape`, `ScanKeepsLastHit`, `BoundsShrink` and `ScanNearest` carry its properties, and `HittableList.Hit` is proved equal to it. |
| HittableLists.ListHittable | hittable_list.h:17-34 | No ensures; `ListReportsWithin` states that it honours its interval. |
| HittableLists.ListReportsWithin | hittable_list.h:17-34 | A list of interval-honouring members honours its own interval. |
| Cubes.Cube.constructor | cube.h:13-17 | `bounds[0]` is centre minus half the edge on each axis, `bounds[1]` centre plus half; centre, edge and material are stored. |
| Cubes.CenteredBoundsOrdered | cube.h:14-16 | A non-negative edge gives bounds ordered on every axis. |
| Cubes.PlaneDistances | cube.h:39-42 | The two plane distances of one axis, near plane `bounds[sign]` and far plane `bounds[1-sign]`, form that axis's slab interval. |
| Cubes.Cube.Hit | cube.h:28-110 | Result and record equal `Intersect` on the stored bounds; the query interval plays no part. On a hit: t >= 0, p is the point at t, the normal is a signed unit axis vector, and the material is the cube's. On a miss, p, normal and material are the caller's. |
| Cubes.Slab | cube.h:39-42 | No ensures; `SlabMeaning` and `SlabOrdered` carry its properties. |
| Cubes.SlabTest | cube.h:44-59 | No ensures; `SlabTestIsMeet` and `SlabTestContains` carry its properties. |
| Cubes.SlabIntersection | cube.h:39-59 | No ensures; `SlabIntersectionIsMeet` and `SlabIntersectionContains` carry its properties. |
| Cubes.Intersect | cube.h:28-110 | No ensures; `Cube.Hit` is proved equal to it, and `IntersectChoosesDistance`, `HitIsForward`, `ForwardIsHit`, `HitFromOutsideIsEntry` and `HitFromInsideIsExit` carry its properties. |
| Cubes.FaceHit | cube.h:66-107 | No ensures; the record's normal is `FaceNormal` of the displacement from the centre, whose contract states the rule. |
| Cubes.SlabTestIsMeet | cube.h:44-59 | For non-empty slabs, the running interval after the y and z steps is (max of the lows, min of the highs). The test rejects exactly when that interval is empty. |
| Cubes.SlabTestContains | cube.h:44-59 | A distance is in the kept interval iff it is in all three slabs. |
| Cubes.SlabMeaning | cube.h:39-42 | A distance is in an axis's slab iff the point at that distance lies between the axis's two planes. |
| Cubes.SlabOrdered | cube.h:33-42 | Ordered planes give a near distance no larger than the far one, whichever the sign of the direction. |
| Cubes.AxisSlabX | cube.h:39-40 | The x slab is non-empty and holds exactly the distances whose point lies between the x planes. |
| Cubes.AxisSlabY | cube.h:41-42 | As above for y. |
| Cubes.AxisSlabZ | cube.h:51-52 | As above for z. |
| Cubes.SlabIntersectionIsMeet | cube.h:39-59 | For ordered bounds, the slab test yields the intersection of the three slabs of the ray, or rejects exactly when it is empty. |
| Cubes.SlabIntersectionContains | cube.h:39-59 | For ordered bounds, a distance is in the kept interval iff the point at that distance is in the box. |
| Cubes.IntersectChoosesDistance | cube.h:61-66 | The test hits iff the kept interval has a non-negative end. The distance is tmin if tmin >= 0, else tmax, and the point is the point at that distance. |
| Cubes.HitIsForward | cube.h:61-66 | A reported hit is at a non-negative distance and inside the box. |
| Cubes.ForwardIsHit | cube.h:39-65 | Any point of the box at a non-negative distance makes the test hit. |
| Cubes.HitFromOutsideIsEntry | cube.h:61-65 | From an origin outside the box, no point of the box lies nearer than the reported distance. |
| Cubes.HitFromInsideIsExit | cube.h:61-65 | From an origin inside the box the test hits. No point of the box lies farther than the reported distance, unless that distance is 0 (an origin on the entry face). |
| Cubes.FaceNormal | cube.h:68-106 | The normal is a signed unit axis vector. It is x iff abs dx > abs dy and abs dx > abs dz, y iff abs dy >= abs dx and abs dy > abs dz, and z otherwise. Its sign is + iff that component is > 0. |
| Cubes.DominantNormal | cube.h:68-106 | The nested comparisons compute `FaceNormal`. |
| Cubes.FaceNormalIsDominant | cube.h:70-105 | The chosen axis has a displacement of largest magnitude. |
| Cubes.AxisUnitHasUnitLength | cube.h:73-102 | Every normal the cascade can choose has unit length. |
| Cubes.IntersectWithin | cube.h:28-66 | Corrected test: a hit lies in [tMin, tMax] and is the entry or the exit distance of the kept slab interval, with the record the original writes for that distance. A miss leaves the record as it was. |
| Cubes.AsHittable | cube.h:28-110 | No ensures; the cube as written as a scene member. `AsWrittenCubeIgnoresInterval` and `AsWrittenCubeHitsItsOwnFace` show that it does not honour its interval. |
| Cubes.WithinHittableReportsWithin | cube.h:28 | The corrected cube reports only distances inside its query interval. |
| Cubes.WithinAgreesOnForwardInterval | cube.h:28-65 | On [0, tMax] the corrected cube agrees with the original whenever the original's distance is at most tMax. |
| CubeFindings.ProbeMeetsCube | cube.h:39-59 | The probe ray enters the example cube at 9 and leaves at 11. |
| CubeFindings.AsWrittenCubeIgnoresInterval | cube.h:28-65 | Queried on [0.001, 1], the cube as written reports distance 9; it does not honour its interval. |
| CubeFindings.AsWrittenSceneReturnsFartherHit | hittable_list.h:24-30 | A wall at 1 followed by the cube: the wall hits at 1, yet the scan returns the cube's record at 9. |
| CubeFindings.CorrectedSceneReturnsNearestHit | hittable_list.h:24-30 | With the corrected cube, the same scene returns the wall's record at 1. |
| CubeFindings.LeavingMeetsCube | cube.h:39-59 | A ray from (11, 0, 0) in direction (1, 0.5, 0.5) has the kept interval [-2, 0]. |
| CubeFindings.AsWrittenCubeHitsItsOwnFace | cube.h:61-65 | Queried on [0.001, FLT_MAX], the cube as written reports that ray at distance 0, its own origin on the +x face. |
| CubeFindings.CorrectedCubeLetsRayLeave | cube.h:61-65 | The corrected cube reports no hit for the same query. |
| Materials.LambertianScatter | material.h:26-32 | Always scatters. Attenuation is the albedo; the ray leaves the hit point in direction normal + sample. |
| Materials.LambertianLeavesSurface | material.h:28-29 | For a unit normal and a sample inside the unit ball, the lambertian direction points away from the surface. |
| Materials.MakeMetal | material.h:39-41 | The stored fuzz is f when f < 1 and 1 otherwise, so it is at most 1. |
| Materials.MetalFuzzClamp | material.h:40 | Any fuzz f >= 1 gives the same material as fuzz 1. |
| Materials.MetalScatter | material.h:42-48 | Attenuation is the albedo. The ray leaves the hit point along reflect(unit d, n) + fuzz * sample. The metal scatters iff that direction has a positive dot product with the normal. |
| Materials.FuzzedSampleInUnitBall | material.h:45 | A fuzz in [0, 1] keeps the perturbation inside the unit ball. |
| Materials.FuzzedReflectionLeaves | material.h:44-47 | A reflection leaving the surface by more than the fuzz still leaves it after the perturbation, so the metal scatters. |
| Materials.GlassInterface | material.h:74-85 | Exiting (dot > 0) uses the flipped normal and ratio refIdx. Otherwise, grazing included, it uses the normal and ratio 1/refIdx. |
| Materials.GlassInterfaceFacesRay | material.h:74-85 | The chosen normal faces the incoming ray. For a positive index and length, the ratio is positive and the cosine non-negative. |
| Materials.GlassScatter | material.h:57-104 | Always scatters, attenuation white, from the hit point. The reflected direction is emitted iff the draw is below the reflection probability, otherwise the refracted one. The refracted one is emitted only when refraction exists. |
| Materials.TotalInternalReflection | material.h:88-98 | When refraction fails, every draw in the range of `random_double` emits the reflected ray. |
| Materials.SchlickIsProbability | random.h:24-28 | For a positive index and a cosine in [0, 1], Schlick's value lies in [r0, 1], with r0 in [0, 1); at cosine 1 it is r0. |
| Materials.Scatter | material.h:15-104 | Dispatch on the material: only a metal absorbs. The ray always starts at the hit point. Attenuation is white for glass and the albedo otherwise. A lambertian always scatters along normal + sample. A metal emits reflect(unit d, n) + fuzz * sample and scatters iff that direction has a positive dot product with the normal. Glass always scatters: along the reflection of d when the draw is below the reflection probability, otherwise along the refraction, which then exists. |
| Materials.ReflectProb | material.h:88-93 | No ensures. It is Schlick's value when refraction exists and 1 otherwise; `GlassScatter`, `TotalInternalReflection` and `Scatter` state what it decides. |
| Materials.Schlick | random.h:24-28 | No ensures; `SchlickIsProbability` states its range and its value at cosine 1. |
| Render.Color | rt.cpp:16-36 | No ensures; its properties are `TraceIsColor`, `DepthCutoff`, `AbsorbedIsBlack`, `ScatteredIsAttenuated`, `MissIsSky`, `ColorUsesQueryInterval` and `ColorInUnitCube`. |
| Render.Sky | rt.cpp:32-34 | No ensures; `SkyEndpoints` and `SkyBetweenBlueAndWhite` state its range. |
| Render.ColorTrace | rt.cpp:16-36 | `color` with the depths of the calls it makes: a call at depth d makes calls at depths d, d+1, ... consecutively, never beyond depth 5: at most 6 - d calls below depth 5, and one call otherwise. |
| Render.TraceIsColor | rt.cpp:16-36 | The traced colour is the colour of `Color`, so the depth bound holds for the recursion of `color` itself. |
| Render.DepthCutoff | rt.cpp:24-28 | A hit at depth >= 5 is black and does not depend on the scatter. |
| Render.AbsorbedIsBlack | rt.cpp:24-28 | A hit whose material absorbs is black. |
| Render.ScatteredIsAttenuated | rt.cpp:24-25 | A hit below depth 5 that scatters is attenuation times the colour of the scattered ray at depth + 1. |
| Render.MissIsSky | rt.cpp:31-35 | A miss is the sky colour of the unit direction. |
| Render.ColorUsesQueryInterval | rt.cpp:21 | The colour depends on the world only through its answers on [0.001, FLT_MAX]. |
| Render.SkyEndpoints | rt.cpp:32-34 | A unit height of 1 gives (0.5, 0.7, 1.0); a unit height of -1 gives white. |
| Render.SkyBetweenBlueAndWhite | rt.cpp:32-34 | For heights in [-1, 1], the sky colour lies between sky blue and white component-wise. |
| Render.ColorInUnitCube | rt.cpp:16-36 | With attenuations in the unit cube and unit heights in [-1, 1], every colour is in the unit cube. |

## Left out

- IEEE floating point is not modelled: floats are reals, and there is no rounding, no NaN and no infinity.
  - `cube::hit` divides by each direction component. A zero component gives an infinite `invDir`, so the model requires non-zero components.
  - `GlassScatter` divides by the index and by the direction's length, and `schlick` by 1 + index; the model requires all three to be non-zero.
- `FLT_MAX` is the real value of the largest finite float. The `float`/`double` mix of `closest_so_far` is not modelled.
- sphere.h, vec3.h, ray.h and camera.h are not part of this model. Sphere members are arbitrary hit oracles. `reflect`, `refract`, `unit_vector` and `length` are the fields of `Optics`. `ray::point_at_parameter` is `origin + t * direction`.
- `random_double` and `random_in_unit_sphere` are not modelled: their draws are parameters. The lemmas assume what random.h guarantees, a draw below 1 and a sample of squared length below 1. The rejection loop of random.h:15-21 has no termination bound and is left out.
- `main` in rt.cpp (file output, the sampling loop, gamma correction and conversion to integers) is not modelled.
- Ownership through raw pointers and virtual dispatch is replaced by values: a material index in the record, a datatype for materials and function values for scene members.
- Render.Color: the world is any hit oracle, and a list is used through `HittableLists.ListHittable`, i.e. the function `ScanAll` rather than the method `HittableList.Hit`. Functions cannot call methods; the method is proved equal to `ScanAll`.
- Render.Color: the material's `scatter` is an oracle indexed by depth, standing for the random generator's state, so it is not tied to `Materials.Scatter`, which is a method.
- Cubes.Cube.Hit: the `sign` array of cube.h:32-35 is a sequence of three integers; it is written once and only read afterwards.
- Cubes.Cube.Hit: on a miss at cube.h:64 the caller's record keeps `t = tmax`. The model returns that partial write, but the list never reads a failed member's record, so scene members report `None`.
- Materials.MakeMetal: the constructor only clamps from above (material.h:40), so a negative f is stored unchanged. The model follows the code, and `FuzzedSampleInUnitBall` assumes a fuzz of at least 0.
- Cubes.HitFromInsideIsExit: from an origin on the entry face the reported distance is 0, not the exit. The lemma states the exit property except in that case.

## Findings

| source | as written | input that shows it | evidently intended | confidence | as-written member | corrected member |
|---|---|---|---|---|---|---|
| cube.h:28-65 | `cube::hit` never reads `t_min`/`t_max`; it reports the entry or exit distance whenever that is >= 0. Inside a `hittable_list` it can therefore replace a nearer member's record with a farther one. | A wall at distance 1 followed by the cube of edge 2 centred at (10, 0, 0), probed from the origin in direction (1, 0.01, 0.01) on [0.001, 1000]. The wall hits at 1, the cube is then queried on [0.001, 1] and still reports 9, and the scan returns the cube's record. | Report a distance only inside [t_min, t_max], as the hittable interface and the closest-hit scan assume: the entry if it lies there, else the exit if it does, else no hit | not executed | CubeFindings.AsWrittenSceneReturnsFartherHit | Cubes.IntersectWithin |
| cube.h:61-65 | When the entry distance is negative the test falls back to the exit distance, even when that is 0 or below `t_min`. A ray scattered from a cube face leaves from a point where the exit distance is 0. | The same cube, a ray from (11, 0, 0) on its +x face in direction (1, 0.5, 0.5), queried on [0.001, FLT_MAX] as every bounce of `color` is. The kept interval is [-2, 0] and the cube reports distance 0. | The 0.001 lower bound of `color` keeps a scattered ray from meeting the surface it leaves: the cube should report no hit | not executed | CubeFindings.AsWrittenCubeHitsItsOwnFace | Cubes.IntersectWithin |
