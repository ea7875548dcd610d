/** `ray_color` of `main.cc`: the depth-bounded recursive integrator.  A ray
    that misses the world gets the sky gradient; a ray that hits it is
    shaded by the material's `blinn`, tested for shadow by a second query
    of the world, and continued by the material's `scatter`. */
module Render {
  import opened Numerics
  import opened VectorAlgebra
  import opened Environment
  import opened Rays
  import opened Materials
  import opened Geometry

  /** Deeper calls return black without looking at the scene. */
  const MaxDepth: int := 50

  /** The `t_min` of both world queries. */
  const SelfHitEpsilon: real := 0.001

  /** The random values one call of `ray_color` consumes: the point
      `random_in_unit_sphere` returns inside `blinn` (the jitter of the
      light), the one inside `scatter`, and the `random_double` of the
      dielectrics. */
  datatype Draws = Draws(lightJitter: BallPoint, scatterJitter: BallPoint, u: Unit01)

  /** The factor handed to `scatter` and the specular term added to the
      result. */
  datatype Lighting = Lighting(contribution: real, specular: Vec3)

  /** The shadow rule: a blocked shadow ray lowers the contribution from 1
      to 0.2 and removes the specular term; then the contribution is
      replaced by the material's angle term unless that term is exactly 1. */
  function Shade(shadowed: bool, sh: Shading): (lt: Lighting)
    ensures shadowed ==> lt.specular == Zero
    ensures !shadowed ==> lt.specular == sh.specular
    ensures sh.nlAngle != 1.0 ==> lt.contribution == sh.nlAngle
    ensures sh.nlAngle == 1.0 && shadowed ==> lt.contribution == 0.2
    ensures sh.nlAngle == 1.0 && !shadowed ==> lt.contribution == 1.0
  {
    var contribution := if shadowed then 0.2 else 1.0;
    var specular := if shadowed then Scale(0.0, sh.specular) else sh.specular;
    Lighting(if sh.nlAngle == 1.0 then contribution else sh.nlAngle, specular)
  }

  /** The sky gradient for the `y` component of the unit direction:
      `(1 - t) (1, 1, 1) + t (0.5, 0.7, 1)` with `t = (y + 1) / 2`. */
  function SkyAt(y: real): (c: Vec3)
    ensures c.z == 1.0
    ensures -1.0 <= y <= 1.0 ==> 0.5 <= c.x <= 1.0 && 0.7 <= c.y <= 1.0
  {
    var t := 0.5 * (y + 1.0);
    Add(Scale(1.0 - t, One), Scale(t, Vec3(0.5, 0.7, 1.0)))
  }

  function Sky(r: Ray, o: Oracles): Vec3
  {
    SkyAt(o.unitVector(r.direction).y)
  }

  /** What one call does locally: the ray escapes to the sky, or is
      absorbed, or scatters with an attenuation and a specular term. */
  datatype Bounce =
    | Escaped(sky: Vec3)
    | Absorbed
    | Scattered(attenuation: Vec3, next: Ray, specular: Vec3)

  /** The work of one call of `ray_color` below the depth limit, with the
      random values `d` of that call: the primary query, `blinn`, the shadow
      query, the shadow rule, and `scatter`. */
  function Interact(r: Ray, world: Ray -> Option<HitRecord>, l: Light, d: Draws, o: Oracles): Bounce
  {
    var hit := world(r);
    if hit.None? then Escaped(Sky(r, o))
    else
      var rec := hit.value;
      var sh := ShadingAt(r, rec, l, d, o);
      var lt := Shade(world(sh.shadowRay).Some?, sh);
      var s := Scatter(rec.mat, r, rec, lt.contribution, d.scatterJitter, d.u, o);
      if s.ok then Scattered(s.attenuation, s.scattered, lt.specular) else Absorbed
  }

  /** `ray_color(r, world, l, depth)`, with the random values of the call
      at depth `d` given by `draws(d)`.  The integrator sees the world only
      through `world->hit(ray, 0.001, infinity, rec)`, which is `world`
      here; for a scene object it is `SceneQuery`. */
  function RayColor(r: Ray, world: Ray -> Option<HitRecord>, l: Light, depth: int, draws: int -> Draws, o: Oracles): Vec3
    decreases if depth > MaxDepth then 0 else MaxDepth + 1 - depth
  {
    if depth > MaxDepth then Zero
    else
      match Interact(r, world, l, draws(depth), o)
      case Escaped(sky) => sky
      case Absorbed => Zero
      case Scattered(attenuation, next, specular) =>
        Add(Mul(attenuation, RayColor(next, world, l, depth + 1, draws, o)), specular)
  }

  /** The query `ray_color` makes of a scene object: `hit` from 0.001 to
      infinity. */
  function SceneQuery(scene: Hittable, o: Oracles): Ray -> Option<HitRecord>
  {
    r => Hit(scene, r, SelfHitEpsilon, Infinite, o)
  }

  /** Every hit the integrator receives from a scene object, on the primary
      or the shadow ray, lies at or beyond 0.001 along the ray. */
  lemma SceneQueryInRange(scene: Hittable, r: Ray, o: Oracles)
    ensures SceneQuery(scene, o)(r).Some? ==> SelfHitEpsilon <= SceneQuery(scene, o)(r).value.t
  {
    HitInRange(scene, r, SelfHitEpsilon, Infinite, o);
  }

  /** `blinn`'s outputs for a hit, with the view vector `unit_vector(-d)`. */
  function ShadingAt(r: Ray, rec: HitRecord, l: Light, d: Draws, o: Oracles): Shading
  {
    Blinn(rec.mat, rec, l, o.unitVector(Neg(r.direction)), d.lightJitter, o)
  }

  /** Past the depth limit the colour is black, whatever the scene and the
      draws. */
  lemma DepthCutoff(r: Ray, world: Ray -> Option<HitRecord>, world': Ray -> Option<HitRecord>, l: Light, depth: int, draws: int -> Draws, draws': int -> Draws, o: Oracles)
    requires depth > MaxDepth
    ensures RayColor(r, world, l, depth, draws, o) == Zero
    ensures RayColor(r, world, l, depth, draws, o) == RayColor(r, world', l, depth, draws', o)
  {
  }

  /** The recursion goes no deeper than `MaxDepth`: only the draws of depths
      `depth` to `MaxDepth` matter. */
  lemma {:induction false} DrawsUsed(r: Ray, world: Ray -> Option<HitRecord>, l: Light, depth: int, draws: int -> Draws, draws': int -> Draws, o: Oracles)
    requires forall d :: depth <= d <= MaxDepth ==> draws(d) == draws'(d)
    ensures RayColor(r, world, l, depth, draws, o) == RayColor(r, world, l, depth, draws', o)
    decreases if depth > MaxDepth then 0 else MaxDepth + 1 - depth
  {
    if depth <= MaxDepth {
      var b := Interact(r, world, l, draws(depth), o);
      if b.Scattered? {
        DrawsUsed(b.next, world, l, depth + 1, draws, draws', o);
      }
    }
  }

  /** A ray that misses the world gets the sky: blue is one, and for a
      non-zero direction under a true `unit_vector` red lies in [0.5, 1] and
      green in [0.7, 1]. */
  lemma SkyOnMiss(r: Ray, world: Ray -> Option<HitRecord>, l: Light, depth: int, draws: int -> Draws, o: Oracles)
    requires depth <= MaxDepth
    requires world(r).None?
    ensures RayColor(r, world, l, depth, draws, o) == Sky(r, o)
    ensures Sky(r, o).z == 1.0
    ensures Sound(o) && r.direction != Zero ==>
      0.5 <= Sky(r, o).x <= 1.0 && 0.7 <= Sky(r, o).y <= 1.0
  {
    if Sound(o) && r.direction != Zero {
      UnitVectorComponents(r.direction, o.unitVector, o.sqrt);
    }
  }

  /** Straight up is `(0.5, 0.7, 1)`, straight down is white. */
  lemma SkyEnds()
    ensures SkyAt(1.0) == Vec3(0.5, 0.7, 1.0)
    ensures SkyAt(-1.0) == One
  {
    assert Scale(0.0, One) == Zero;
    assert Scale(1.0, Vec3(0.5, 0.7, 1.0)) == Vec3(0.5, 0.7, 1.0);
    assert Scale(1.0, One) == One;
    assert Scale(0.0, Vec3(0.5, 0.7, 1.0)) == Zero;
  }

  /** On a hit, the ray is absorbed exactly when `scatter` returns false,
      and is then black; otherwise the colour is the attenuation times the
      colour of the scattered ray one level deeper, plus the specular term
      that survived the shadow test. */
  lemma HitComposition(r: Ray, world: Ray -> Option<HitRecord>, l: Light, depth: int, draws: int -> Draws, o: Oracles)
    requires depth <= MaxDepth
    requires world(r).Some?
    ensures var rec := world(r).value;
      var sh := ShadingAt(r, rec, l, draws(depth), o);
      var lt := Shade(world(sh.shadowRay).Some?, sh);
      var s := Scatter(rec.mat, r, rec, lt.contribution, draws(depth).scatterJitter, draws(depth).u, o);
      var b := Interact(r, world, l, draws(depth), o);
      && !b.Escaped?
      && (b.Absorbed? <==> !s.ok)
      && (b.Absorbed? ==> RayColor(r, world, l, depth, draws, o) == Zero)
      && (b.Scattered? ==> b.attenuation == s.attenuation && b.next == s.scattered && b.specular == lt.specular)
      && (b.Scattered? ==>
            RayColor(r, world, l, depth, draws, o) ==
            Add(Mul(s.attenuation, RayColor(s.scattered, world, l, depth + 1, draws, o)), lt.specular))
  {
  }

  /** The factor each material receives: the lambertian, dielectric and
      `blinn_metal` classes get 1, or 0.2 in shadow; plain metal gets 0;
      `blinn_lambertian` gets its angle term, at least 0.1, and
      `blinn_dielectric` its angle term, at least 0, unless that term is
      exactly 1. */
  lemma ShadeByMaterial(m: Material, rec: HitRecord, l: Light, view: Vec3, jitter: BallPoint, shadowed: bool, o: Oracles)
    ensures var lt := Shade(shadowed, Blinn(m, rec, l, view, jitter, o));
      && (m.Lambertian? || m.Dielectric? || m.BlinnMetal? ==> lt.contribution == (if shadowed then 0.2 else 1.0))
      && (m.Metal? ==> lt.contribution == 0.0 && lt.specular == Zero)
      && (m.BlinnLambertian? ==> 0.1 <= lt.contribution)
      && (m.BlinnDielectric? ==> 0.0 <= lt.contribution)
  {
    BlinnAngles(m, rec, l, view, jitter, o);
  }

  /** A consequence of the shading rules: a surface of plain `metal` is
      rendered black, since its angle term 0 becomes the factor that scales
      its attenuation, and it has no specular term. */
  lemma {:induction false} PlainMetalIsBlack(r: Ray, world: Ray -> Option<HitRecord>, l: Light, depth: int, draws: int -> Draws, o: Oracles)
    requires world(r).Some?
    requires world(r).value.mat.Metal?
    ensures RayColor(r, world, l, depth, draws, o) == Zero
  {
    if depth <= MaxDepth {
      var rec := world(r).value;
      var sh := ShadingAt(r, rec, l, draws(depth), o);
      var shadowed := world(sh.shadowRay).Some?;
      ShadeByMaterial(rec.mat, rec, l, o.unitVector(Neg(r.direction)), draws(depth).lightJitter, shadowed, o);
      var b := Interact(r, world, l, draws(depth), o);
      if b.Scattered? {
        var next := RayColor(b.next, world, l, depth + 1, draws, o);
        assert RayColor(r, world, l, depth, draws, o) == Add(Mul(b.attenuation, next), b.specular);
        assert b.attenuation == Scale(0.0, rec.mat.albedo) && b.specular == Zero;
        DarkSum(rec.mat.albedo, next, b.specular);
      } else {
        assert b.Absorbed?;
      }
    }
  }

  lemma DarkSum(a: Vec3, x: Vec3, spec: Vec3)
    requires spec == Zero
    ensures Add(Mul(Scale(0.0, a), x), spec) == Zero
  {
  }
}
