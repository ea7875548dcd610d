# Simple-Raytracer core, modelled in Dafny

This project models the decision logic of a small CPU path tracer (ZweiteLen/Simple-Raytracer):

- the `vec3` algebra;
- the ray/primitive intersection tests for sphere, triangle, torus and cube;
- the nearest-hit scan of `hittable_list`;
- the six materials' `scatter` and `blinn` rules;
- the recursive integrator `ray_color`;
- the array filling of `random_scene`.

C++ `double` becomes Dafny `real`. The platform functions `sqrt`, `pow`, `unit_vector` and the quartic solver arrive as the `Environment.Oracles` record. Lemmas that need them state what they assume (`IsSqrt`, `IsUnitVector`, `IsQuarticSolver`, or all of them as `Sound`). Every random draw is a parameter with its range as a subset type: `Unit01` is [0, 1) and `BallPoint` is the open unit ball.

A `hit(r, t_min, t_max, rec)` that writes `rec` and returns `true` becomes a function returning `Option<HitRecord>`. The upper bound is `Bound = Finite(t) | Infinite`, because `ray_color` passes `+infinity`. Sphere and torus test `t < t_max` (`Below`); the triangle tests `t <= t_max` (`AtMost`).

Modules, one file each:

- `Numerics`: reals and the square-root contract.
- `VectorAlgebra`: `vec3`, plus the in-place operators on the class `Vec3Cell`.
- `Environment`: the oracles.
- `Rays`: rays and bounds.
- `Materials`.
- `Spheres`.
- `Triangles`.
- `Tori`, with `TorusSurface` for the quartic's geometry.
- `Cubes`.
- `Geometry`: the closed `Hittable` datatype, the `Hit` dispatch, and the list scan as a function.
- `HittableList`: the scan loop as a method.
- `Render`: `ray_color`.
- `Scene`: `random_scene`.

Two observations about the source. In `random_scene` the test that drops a grid sphere near (4, 2, 0) never fires: every small sphere has `y = 0.2`, so its centre lies at least 1.8 from that point (`Scene.CellAlwaysKept`), and the scene always has exactly 488 entries. The model keeps the test as written. In the dielectric materials, the cosine of an entering ray lies in [0, 1], which is the range Schlick's approximation expects (`Materials.GlassEnteringReflectance`); a leaving ray's cosine is scaled by `ref_inx` and is not bounded by 1.

## Model

| member | source | states |
|---|---|---|
| VectorAlgebra.SquaredLength | src/vec3.h:63-65 | equals `dot(v, v)`, is never negative, and is zero exactly for the zero vector |
| VectorAlgebra.CrossOrthogonal | src/vec3.h:111-121 | `cross(u, v)` is orthogonal to both `u` and `v` |
| VectorAlgebra.LagrangeIdentity | src/vec3.h:111-121 | `dot(a,b)^2 + dot(cross(a,b), cross(a,b)) = dot(a,a) dot(b,b)` |
| VectorAlgebra.CauchySchwarz | src/vec3.h:111-115 | `dot(a,b)^2 <= dot(a,a) dot(b,b)` |
| VectorAlgebra.ScaleRight | src/vec3.h:91-97 | `v * t` and `t * v` are the same vector |
| VectorAlgebra.DivScalarInverse | src/vec3.h:103-105 | `v / t`, defined as `(1/t) * v`, is undone by `t *` and undoes it, for `t != 0` |
| VectorAlgebra.ReflectFlipsNormal | src/vec3.h:123-125 | for a unit `n`, `dot(reflect(v, n), n) = -dot(v, n)` |
| VectorAlgebra.ReflectInvolution | src/vec3.h:123-125 | for a unit `n`, reflecting twice gives `v` back |
| VectorAlgebra.ReflectPreservesLength | src/vec3.h:123-125 | for a unit `n`, reflection keeps the squared length |
| VectorAlgebra.UnitVectorIsUnit | src/vec3.h:107-109 | `unit_vector` of a non-zero vector has length 1 and is a positive multiple of it |
| VectorAlgebra.UnitVectorComponents | src/vec3.h:107-109 | every component of a unit vector lies in [-1, 1] |
| VectorAlgebra.UnitVectorOfUnit | src/vec3.h:107-109 | `unit_vector` leaves a unit vector unchanged |
| VectorAlgebra.UnitVectorIdempotent | src/vec3.h:107-109 | `unit_vector(unit_vector(v)) = unit_vector(v)` for non-zero `v` |
| VectorAlgebra.Refract | src/vec3.h:135-144 | `refract` fails, leaving `refracted` unwritten, exactly when `1 - eta^2 (1 - dt^2) <= 0` |
| VectorAlgebra.RefractAlgebra | src/vec3.h:135-144 | with a unit `uv` and `n` and `s^2` equal to the discriminant, the refracted vector is a unit vector, has normal part `-s`, and has tangent part `eta` times that of `uv` |
| VectorAlgebra.RefractSnell | src/vec3.h:135-144 | a successful `refract` yields a unit vector pointing against `n`, with its tangent part scaled by `ni_over_nt` (Snell's law) |
| VectorAlgebra.RefractRoot | src/vec3.h:138-140 | the same facts, with the supplied square root of a positive discriminant |
| VectorAlgebra.RefractIntoDenserSucceeds | src/vec3.h:135-144 | for `-1 < ni_over_nt < 1` and a unit normal, `refract` always succeeds |
| VectorAlgebra.Candidate | src/vec3.h:130 | `2 (d0, d1, d2) - (1, 1, 1)` has every component in [-1, 1) when each draw is in [0, 1) |
| VectorAlgebra.RandomInUnitSphere | src/vec3.h:127-133 | the rejection loop over a finite draw sequence rejects every earlier candidate with squared length `>= 1`, returns the first candidate with squared length `< 1` and components in [-1, 1), and fails only when the draws run out |
| VectorAlgebra.Vec3Cell.constructor | src/vec3.h:15-16 | the new cell holds the given components |
| VectorAlgebra.Vec3Cell.AddAssign | src/vec3.h:26-31 | after `u += v`, `u` equals the old `u + v` |
| VectorAlgebra.Vec3Cell.SubAssign | src/vec3.h:32-37 | after `u -= v`, `u` equals the old `u - v` |
| VectorAlgebra.Vec3Cell.ScaleAssign | src/vec3.h:38-43 | after `u *= t`, `u` equals `t` times the old `u` |
| VectorAlgebra.Vec3Cell.MulAssign | src/vec3.h:44-49 | after `u *= v`, `u` equals the component-wise product |
| VectorAlgebra.Vec3Cell.DivAssign | src/vec3.h:50-55 | after `u /= v`, `u` equals the component-wise quotient |
| VectorAlgebra.Vec3Cell.DivScalarAssign | src/vec3.h:56-58 | after `u /= t`, `u` equals the old `u / t` |
| Materials.Max | src/material.h:17-19 | `max(a, b)` is at least `a` and `b` and equals one of them |
| Materials.ClampFuzz | src/material.h:63-69 | fuzz is `f` when `f < 1` and 1 otherwise, so it never exceeds 1 or `f` |
| Materials.MakeMetal | src/material.h:63-69 | `metal` keeps the albedo and clamps the fuzz to at most 1 |
| Materials.MakeBlinnMetal | src/material.h:200-206 | `blinn_metal` keeps albedo and shininess and clamps the fuzz to at most 1 |
| Materials.NormalReflectance | src/material.h:155-157 | for a positive index, `r0 = ((1-n)/(1+n))^2` lies in [0, 1) |
| Materials.SchlickBounds | src/material.h:155-159 | for a cosine in [0, 1], Schlick's value lies between `r0` and 1 |
| Materials.SchlickEnds | src/material.h:304-308 | `schlick(0, n) = 1` and `schlick(1, n) = ((1-n)/(1+n))^2` |
| Materials.SchlickAboveOne | src/material.h:155-159 | at cosine -1 the approximation exceeds 1 |
| Materials.GlassInterface | src/material.h:112-121 | a ray leaving the surface uses the flipped normal and `ref_inx`; otherwise it uses the normal and `1/ref_inx`; the cosine times the direction's length is `ref_inx * dot(d, normal)` when leaving and `-dot(d, normal)` when entering |
| Materials.GlassEnteringCosine | src/material.h:117-121 | with a unit normal and a true `sqrt`, an entering ray's cosine lies in [0, 1] (Cauchy-Schwarz) |
| Materials.GlassEnteringReflectance | src/material.h:117-124 | so an entering ray's Schlick reflection probability lies between `r0` and 1 |
| Materials.ScatterDiffuse | src/material.h:37-41 | both Lambertian variants always scatter from `rec.p` towards `normal + jitter`, with attenuation `c * albedo` |
| Materials.DiffuseOutward | src/material.h:37-41 | with a unit normal, the diffuse direction always points out of the surface |
| Materials.ScatterMirror | src/material.h:73-77 | metal variants reflect the unit direction, add `fuzz * jitter`, and use attenuation `c * albedo`; they fail only when the new direction is exactly tangent, so a direction into the surface still counts as a scatter |
| Materials.ScatterGlass | src/material.h:105-135 | dielectric variants always scatter, with attenuation (1,1,1) independent of `c`; they reflect when `refract` fails or the draw is below Schlick's value, and refract otherwise |
| Materials.GlassZeroDirection | src/material.h:112-130 | a zero-length incoming direction always reflects |
| Materials.GlassInterfaceDegenerate | src/material.h:115-120 | a zero-length incoming direction gets cosine 0 |
| Materials.GlassSureReflection | src/material.h:122-131 | a reflection probability of 1 always reflects, since every draw is below 1 |
| Materials.ShadowRay | src/material.h:46-52 | every shadow ray starts at the hit point |
| Materials.ShadowRayAims | src/material.h:46-52 | a point light aims the unit shadow ray at the jittered light position minus `rec.p`; any other kind aims it along the jittered light vector |
| Materials.BlinnAngles | src/material.h:53-54 | NLAngle and specular: Lambertian and dielectric give NLAngle 1 and no specular; metal gives 0 and no specular; `blinn_metal` gives 1; `blinn_lambertian` gives at least 0.1; `blinn_dielectric` gives at least 0 |
| Materials.SpecularAlongColour | src/material.h:189-190 | the specular term is always a multiple of the light colour |
| Spheres.Coefficients | src/sphere.h:19-22 | `a`, the squared length of the direction, is never negative |
| Spheres.PositiveDiscriminant | src/sphere.h:20-25 | a positive discriminant forces `a > 0` and a non-zero radius, so both divisions are defined |
| Spheres.SphereHit | src/sphere.h:18-43 | a hit lies strictly inside `(t_min, t_max)`, at the point on the ray, with the sphere's material and the normal `unit_vector((p - center) / radius)`; a discriminant `<= 0` is a miss |
| Spheres.SphereRootChoice | src/sphere.h:25-40 | the near root is returned whenever it is in range, the far root only otherwise, and a miss only when neither is in range |
| Spheres.SphereNearest | src/sphere.h:25-40 | the near root is below the far root; a hit returns one of them, and never exceeds an in-range near root |
| Spheres.SphereNarrow | src/sphere.h:26-34 | narrowing `t_max` keeps every hit strictly below the new bound and adds none |
| Spheres.SphereHitOnSurface | src/sphere.h:19-33 | the returned `t` solves `a t^2 + 2 b t + c = 0`, so the hit point is at distance `radius` from the centre |
| Spheres.SphereNormalUnit | src/sphere.h:29-37 | the recorded normal has length 1 and equals `(p - center) / radius`: for a positive radius it points away from the centre, for a negative radius towards it |
| Spheres.SurfaceNormal | src/sphere.h:29-37 | `unit_vector` leaves `(p - center) / radius` unchanged for a point at distance `radius` from the centre |
| Triangles.MakeTriangle | src/triangle.h:9 | the four-argument constructor keeps the vertices and material, and its normal is orthogonal to both edges meeting at `p2` |
| Triangles.MakeTriangleWithNormal | src/triangle.h:10 | the five-argument constructor keeps its arguments as given |
| Triangles.TriangleHit | src/triangle.h:22-54 | a ray parallel to the plane misses; any hit lies in the closed range `[t_min, t_max]` |
| Triangles.TriangleHitExactly | src/triangle.h:22-54 | a hit occurs exactly when the ray is not parallel, `k` is in the closed range and the ratio gate accepts; the record is `k`, the point on the ray, the stored normal unchanged, and the material |
| Triangles.TriangleKeepsTie | src/triangle.h:28 | a hit at `t` survives `t_max = t`, because both ends of the range are inclusive |
| Triangles.TriangleHitInPlane | src/triangle.h:23-29 | the hit point satisfies `dot(i - p1, normal) = 0` |
| Triangles.TriangleRatios | src/triangle.h:40-47 | an accepted point has every ratio in [0, 1] and a ratio sum of at most 1.001 |
| Tori.TorusCoefficients | src/torus.h:33-48 | the solver receives five coefficients |
| Tori.PositiveRoots | src/torus.h:50-52 | the kept roots are exactly those above `1e-4` |
| Tori.SeqMin | src/torus.h:54-56 | the scan's result is an element of the sequence and is no larger than any element |
| Tori.TorusHit | src/torus.h:57-63 | a hit lies strictly inside `(t_min, t_max)`, at the point on the ray, with the torus's material |
| Tori.CompactPositive | src/torus.h:50-52 | after the in-place loop, the first `numPosRoots` slots hold the roots above `1e-4` in their original order; `numPosRoots <= numRealRoots`, and later slots are unchanged |
| Tori.MinOf | src/torus.h:54-56 | the loop computes the minimum of the compacted roots |
| Tori.TorusHitInPlace | src/torus.h:22-66 | the four-slot array version computes the same result as `TorusHit` |
| Tori.TorusCandidateCases | src/torus.h:49-56 | no real root, or none above `1e-4`, is a miss; otherwise the candidate is the least root above `1e-4` |
| Tori.TorusCandidateFixed | src/torus.h:54-57 | a root in `(1e-4, t_min]` makes the hit a miss even when a larger root is in range |
| Tori.TorusHitRecord | src/torus.h:49-63 | a hit reports the least root above `1e-4`, strictly in range, at the point on the ray, with the torus's material |
| Tori.TorusIgnoresPlacement | src/torus.h:22-66 | the hit never depends on the stored centre or normal |
| TorusSurface.TorusQuarticIsImplicit | src/torus.h:33-48 | the quartic with coefficients `[j^2, 2jk, 2jl+k^2-g, 2kl-h, l^2-i]`, evaluated at `t`, is the torus's implicit equation at the point on the ray |
| TorusSurface.TorusHitOnSurface | src/torus.h:40-59 | when the solver returns true roots, the hit point lies on the torus |
| Cubes.CubeCorners | src/cube.h:20-24 | the corner array has eight entries |
| Cubes.CubeCornerLayout | src/cube.h:20-24 | `corners[0] = p1`, `corners[4] = p2`, `corners[5] = p3`; the edges `corners[1]-corners[0]` and `corners[5]-corners[4]` equal `side`, and the four back edges equal `back` |
| Cubes.CubeTriangles | src/cube.h:27-56 | the cube has twelve triangles |
| Cubes.BuildCube | src/cube.h:11-60 | the array version fills the twelve slots with the cube's triangles, writing each slot exactly once in order |
| Cubes.FillSides | src/cube.h:27-47 | the side loop writes slots 0-7 with the side triangles and leaves 8-11 unchanged |
| Cubes.FillCaps | src/cube.h:48-56 | slots 8-11 get the top triangles with normal `n` and the bottom ones with `-n`; slots 0-7 are unchanged |
| Cubes.SideSlot | src/cube.h:28-45 | one iteration computes the side triangle for index `i` |
| Cubes.CubeIndicesInRange | src/cube.h:30-42 | every index the side loop computes (`0+j`, `4+j`, `s`, `c`, `(1+j)%4`) lies in 0..7 |
| Cubes.SideNormalSign | src/cube.h:35-44 | a side triangle's normal is negated exactly when `i > 1` |
| Cubes.OddCornerMismatch | src/cube.h:40-45 | odd triangles use `corners[c]` while their normal uses `corners[(1+j)%4]`; these differ only at `j = 2` (0 against 3) |
| Cubes.OddTriangleVertex | src/cube.h:45 | the middle vertex of an odd triangle is `corners[c]` |
| Cubes.BottomOppositeTop | src/cube.h:48-56 | triangles 10 and 11 carry the negation of the normal shared by 8 and 9 |
| Cubes.CubeSharedMaterial | src/cube.h:36-56 | all twelve triangles carry the cube's material |
| Cubes.CubeTopAboveBottom | src/cube.h:20-24 | each top corner is `up = p1 - p2` above its bottom corner |
| Cubes.CubeBackOrthogonal | src/cube.h:20-23 | `back` is orthogonal to `up` and `side` when these span a plane |
| Geometry.MakeCube | src/cube.h:57-59 | a cube is a list of exactly its twelve triangles, with the cube's material |
| Geometry.HitInRange | src/hittable_list.h:17-29 | every object's hit lies in `[t_min, t_max]` |
| Geometry.ClosestNonIncreasing | src/hittable_list.h:20-25 | one more step of the scan never raises `closest_so_far` |
| Geometry.ClosestMonotone | src/hittable_list.h:20-25 | `closest_so_far` never increases over the whole scan |
| Geometry.ListMissExactly | src/hittable_list.h:17-28 | the list misses exactly when every child misses the full range; an empty list always misses |
| Geometry.ScanLastHit | src/hittable_list.h:21-26 | the kept record is that of the last child that reported a hit, in index order |
| Geometry.StrictBelow | src/sphere.h:26 | sphere and torus hits lie strictly below `t_max` |
| Geometry.StrictTieKeeps | src/hittable_list.h:22 | a strict-bound child with an equal `t` does not replace the current best |
| Geometry.TriangleTieReplaces | src/hittable_list.h:22 | a triangle with an equal `t` does replace the current best |
| Geometry.StrictNarrow | src/hittable_list.h:22 | for a strict-bound child, the narrowed query returns its full-range hit whenever that lies below the narrowed bound |
| Geometry.ListNearest | src/hittable_list.h:20-25 | with strict-bound children, the returned `t` is the least hit over all children, and it is some child's hit |
| Geometry.CubeHitIsListHit | src/cube.h:69-71 | `cube::hit` returns exactly what its triangle list returns |
| HittableList.HitList | src/hittable_list.h:17-29 | the loop returns true exactly when the list hits; `rec` is then the list's record, and it is left unwritten otherwise; the children are queried once each, in index order, with bound `closest_so_far` |
| Render.Shade | src/main.cc:32-39 | a shadowed point gets contribution 0.2 and no specular, an unshadowed one 1.0 and its specular; an NLAngle other than 1 replaces the contribution |
| Render.SkyAt | src/main.cc:45-47 | the sky colour's blue is always 1; for `y` in [-1, 1], red is in [0.5, 1] and green is in [0.7, 1] |
| Render.SceneQueryInRange | src/main.cc:19 | scene queries use `t_min = 0.001` and `t_max = +infinity`, so no hit is closer than 0.001 |
| Render.DepthCutoff | src/main.cc:17-18 | `depth > 50` returns black, whatever the scene and the draws |
| Render.DrawsUsed | src/main.cc:15-48 | only the draws of depths `depth..50` matter, so the recursion ends within 51 levels |
| Render.SkyOnMiss | src/main.cc:45-47 | a missed ray returns the sky gradient, whose blue is 1 and whose red and green stay in their bounds |
| Render.SkyEnds | src/main.cc:46-47 | straight up gives (0.5, 0.7, 1) and straight down gives white |
| Render.HitComposition | src/main.cc:19-43 | on a hit, an absorbed ray gives black; otherwise the result is `attenuation * ray_color(scattered, depth + 1) + specular` |
| Render.ShadeByMaterial | src/main.cc:31-39 | the contribution passed to `scatter` for each material class |
| Render.PlainMetalIsBlack | src/main.cc:39-43 | a primary hit on a plain `metal` always renders black, because NLAngle 0 becomes the scatter factor |
| Scene.Cell | src/main.cc:57-73 | each grid cell adds at most one sphere, of radius 0.2 |
| Scene.CellAlwaysKept | src/main.cc:58-59 | with a true `sqrt`, every cell keeps its sphere: its centre has `y = 0.2`, so it lies at least 1.8 from (4, 2, 0) |
| Scene.RowFull | src/main.cc:56-75 | so a row of cells adds exactly one sphere per column |
| Scene.GridFull | src/main.cc:55-76 | and the grid adds exactly 22 spheres per row |
| Scene.RandomScene | src/main.cc:50-83 | the array has 501 slots, and its first `i` entries are the ground, the kept grid spheres, and the three large spheres |
| Scene.FillGrid | src/main.cc:55-76 | the double loop appends the grid's spheres after the ground |
| Scene.FillRow | src/main.cc:56-75 | one pass of the inner loop appends one row of cells |
| Scene.WriteCell | src/main.cc:57-74 | one cell writes its sphere, if any, at the running index |
| Scene.FillLarge | src/main.cc:78-82 | the three large spheres follow the grid |
| Scene.GridSpheres | src/main.cc:55-76 | every grid entry is a sphere of radius 0.2 |
| Scene.SceneShape | src/main.cc:51-82 | the scene holds between 4 and 1 + 22·22 + 3 = 488 entries, fewer than the 501 slots, and every entry has a strict bound; with a true `sqrt` it holds exactly 488 |
| Scene.SceneNearest | src/main.cc:82 | the scene's list returns the nearest hit among its spheres |

## Left out

- `camera.h`: the camera model, its trigonometry and the lens jitter.
- The `main()` render loop: sample averaging, gamma correction, integer conversion and PPM output.
- The `vec3` stream operators.
- `random_double` and the C library generator. Each draw is a parameter with its range.
- The `random_in_unit_sphere` draw at `main.cc:24`: its result is never used.
- `sqrt`, `pow` with a real exponent, `unit_vector` and `Algebra::SolveQuarticEquation` are oracles with contracts. `algebra.h` is not part of this model.
- `ray.h` and `hittable.h` are not part of this model. `Ray` and `HitRecord` are rebuilt from their uses.
- IEEE-754 rounding: every computation is exact over the reals. The triangle's 1.001 tolerance and the `==` tests become exact real comparisons.
- NaN and infinity: divisions by zero that produce NaN in the source have unspecified values in the model. These are `unit_vector` of the zero vector, the torus normal on the axis, and the ratios of a zero-area triangle (a miss in both). The model gives the glass cosine 0 for a zero-length direction.
- The refraction index of a dielectric is taken positive; the source never checks it.
- VectorAlgebra.Div: requires every divisor component to be non-zero; IEEE-754 turns a zero divisor into infinity or NaN, which the model does not represent. No modelled path divides by zero.
- VectorAlgebra.DivScalar: requires `t != 0`, for the same reason.
- VectorAlgebra.Vec3Cell.DivAssign: requires every divisor component to be non-zero, for the same reason.
- VectorAlgebra.Vec3Cell.DivScalarAssign: requires `t != 0`, for the same reason.
- Render.RayColor: takes the scene query as a function of the ray. `Render.SceneQuery` supplies it with `t_min = 0.001` and `t_max = +infinity`.
- VectorAlgebra.RandomInUnitSphere: the unbounded rejection loop runs over a finite sequence of draws and reports when they run out. Termination with probability 1 is not modelled.
- Raw-pointer ownership, `new` without `delete`, and the virtual dispatch: objects and materials are closed datatypes.
- Tori.TorusHitInPlace: requires the solver to return at most four roots, as the four-slot array the source passes implies.
- Materials.Blinn: the specular magnitude `pow(max(0, dot(normal, unit_vector(half))), shininess)` is an oracle value; only its direction along the light colour is stated.
