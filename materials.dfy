/** The materials of `material.h`: the light, the six material classes with
    their `scatter` and `blinn` operations, the fuzz clamp of the metal
    constructors, and Schlick's approximation.  `hittable.h` is not part of
    this model; its `hit_record` is reconstructed from its uses as `HitRecord`.

    Each `scatter` and `blinn` writes every one of its out-parameters on
    every path, so each becomes a function returning them as one record.
    Where the source draws from `random_in_unit_sphere` or `random_double`,
    the drawn value is a parameter. */
module Materials {
  import opened Numerics
  import opened VectorAlgebra
  import opened Environment
  import opened Rays

  /** `light`: `kind` 1 is a point light at `lightVector`; every other value
      is treated as a direction. */
  datatype Light = Light(kind: int, lightVector: Vec3, lightColour: Vec3)

  /** The refraction index of a dielectric.  Schlick's formula divides by
      `1 + ref_inx`; the source never checks the index, and the model takes
      it positive. */
  type RefIndex = n: real | 0.0 < n witness 1.0

  /** A metal's fuzz after the constructor's clamp. */
  type Fuzz = f: real | f <= 1.0 witness 0.0

  datatype Material =
    | Lambertian(albedo: Vec3)
    | Metal(albedo: Vec3, fuzz: Fuzz)
    | Dielectric(refIdx: RefIndex)
    | BlinnLambertian(albedo: Vec3, shininess: real)
    | BlinnMetal(albedo: Vec3, fuzz: Fuzz, shininess: real)
    | BlinnDielectric(refIdx: RefIndex, shininess: real)

  /** `hit_record`: the ray parameter, the point, the normal and the material. */
  datatype HitRecord = HitRecord(t: real, p: Vec3, normal: Vec3, mat: Material)

  /** `max(a, b)`: an upper bound of both that is one of them. */
  function Max(a: real, b: real): (m: real)
    ensures a <= m && b <= m
    ensures m == a || m == b
  {
    if a > b then a else b
  }

  // ---------------------------------------------------------------------
  // Constructors
  // ---------------------------------------------------------------------

  /** The fuzz clamp of `metal` and `blinn_metal`: `f` below one is kept,
      anything else becomes one. */
  function ClampFuzz(f: real): (r: Fuzz)
    ensures r <= f && (r == f || r == 1.0)
    ensures f <= 1.0 ==> r == f
  {
    if f < 1.0 then f else 1.0
  }

  function MakeMetal(a: Vec3, f: real): (m: Material)
    ensures m.Metal? && m.albedo == a
    ensures m.fuzz <= 1.0 && (f <= 1.0 ==> m.fuzz == f) && (f >= 1.0 ==> m.fuzz == 1.0)
  {
    Metal(a, ClampFuzz(f))
  }

  function MakeBlinnMetal(a: Vec3, f: real, s: real): (m: Material)
    ensures m.BlinnMetal? && m.albedo == a && m.shininess == s
    ensures m.fuzz <= 1.0 && (f <= 1.0 ==> m.fuzz == f) && (f >= 1.0 ==> m.fuzz == 1.0)
  {
    BlinnMetal(a, ClampFuzz(f), s)
  }

  // ---------------------------------------------------------------------
  // Schlick's approximation
  // ---------------------------------------------------------------------

  function Pow5(x: real): real
  {
    x * x * x * x * x
  }

  /** The reflectance at normal incidence, `((1 - n) / (1 + n))^2`. */
  function NormalReflectance(n: RefIndex): (r0: real)
    ensures 0.0 <= r0 < 1.0
  {
    var q := (1.0 - n) / (1.0 + n);
    QuotientInside(n);
    SquareBelowOne(q);
    q * q
  }

  lemma QuotientInside(n: real)
    requires 0.0 < n
    ensures -1.0 < (1.0 - n) / (1.0 + n) < 1.0
  {
    var d := 1.0 + n;
    var q := (1.0 - n) / d;
    assert 1.0 - q == (2.0 * n) / d;
    assert 1.0 + q == 2.0 / d;
  }

  lemma SquareBelowOne(q: real)
    requires -1.0 < q < 1.0
    ensures 0.0 <= q * q < 1.0
  {
    SquareNonNegative(q);
    if q < 0.0 {
      SquareLess(-q, 1.0);
    } else {
      SquareLess(q, 1.0);
    }
  }

  /** `schlick(cosine, ref_inx)`. */
  function Schlick(cosine: real, n: RefIndex): real
  {
    var r0 := NormalReflectance(n);
    r0 + (1.0 - r0) * Pow5(1.0 - cosine)
  }

  /** For a cosine in [0, 1] the reflection probability lies between the
      normal reflectance and one, so in [0, 1]. */
  lemma {:induction false} SchlickBounds(cosine: real, n: RefIndex)
    requires 0.0 <= cosine <= 1.0
    ensures NormalReflectance(n) <= Schlick(cosine, n) <= 1.0
    ensures 0.0 <= Schlick(cosine, n)
  {
    var x := 1.0 - cosine;
    Pow5Unit(x);
    var r0, p := NormalReflectance(n), Pow5(x);
    Blend(r0, p);
    var s := r0 + (1.0 - r0) * p;
    assert Schlick(cosine, n) == s;
  }

  lemma Pow5Unit(x: real)
    requires 0.0 <= x <= 1.0
    ensures 0.0 <= Pow5(x) <= 1.0
  {
    ScaleDown(x, x);
    ScaleDown(x * x, x);
    ScaleDown(x * x * x, x);
    ScaleDown(x * x * x * x, x);
  }

  /** Multiplying by a factor in [0, 1] does not increase a non-negative number. */
  lemma ScaleDown(a: real, x: real)
    requires 0.0 <= a && 0.0 <= x <= 1.0
    ensures 0.0 <= a * x && a * x <= a
  {
  }

  /** `r0 + (1 - r0) p` lies between `r0` and one for `p` in [0, 1]. */
  lemma Blend(r0: real, p: real)
    requires 0.0 <= r0 < 1.0 && 0.0 <= p <= 1.0
    ensures r0 <= r0 + (1.0 - r0) * p <= 1.0
  {
    var a, b := 1.0 - r0, 1.0 - p;
    assert 0.0 <= a * b;
    assert 0.0 <= a * p;
    assert 1.0 - (r0 + (1.0 - r0) * p) == a * b;
  }

  /** At grazing incidence (cosine 0) everything is reflected; head on
      (cosine 1) the normal reflectance remains. */
  lemma SchlickEnds(n: RefIndex)
    ensures Schlick(0.0, n) == 1.0
    ensures Schlick(1.0, n) == NormalReflectance(n)
    ensures NormalReflectance(n) == ((1.0 - n) / (1.0 + n)) * ((1.0 - n) / (1.0 + n))
  {
  }

  /** Outside [0, 1] the bound fails: at cosine -1 the value exceeds one. */
  lemma SchlickAboveOne(n: RefIndex)
    ensures Schlick(-1.0, n) > 1.0
  {
    var r0 := NormalReflectance(n);
    assert Pow5(2.0) == 32.0;
    assert (1.0 - r0) * 32.0 > 1.0 - r0;
  }

  // ---------------------------------------------------------------------
  // scatter
  // ---------------------------------------------------------------------

  /** The out-parameters of `scatter` and its result. */
  datatype Scattering = Scattering(ok: bool, attenuation: Vec3, scattered: Ray)

  /** `scatter` of each material.  `c` is the shading factor `ray_color`
      passes, `jitter` the point `random_in_unit_sphere` returns and `u` the
      value of `random_double` the dielectrics compare with. */
  function Scatter(m: Material, rIn: Ray, rec: HitRecord, c: real, jitter: BallPoint, u: Unit01, o: Oracles): Scattering
  {
    match m
    case Lambertian(albedo) => Diffuse(rec, c, albedo, jitter)
    case BlinnLambertian(albedo, _) => Diffuse(rec, c, albedo, jitter)
    case Metal(albedo, fuzz) => Mirror(rIn, rec, c, albedo, fuzz, jitter, o)
    case BlinnMetal(albedo, fuzz, _) => Mirror(rIn, rec, c, albedo, fuzz, jitter, o)
    case Dielectric(refIdx) => Glass(rIn, rec, refIdx, u, o)
    case BlinnDielectric(refIdx, _) => Glass(rIn, rec, refIdx, u, o)
  }

  /** The two lambertian variants: towards `p + normal + jitter`. */
  function Diffuse(rec: HitRecord, c: real, albedo: Vec3, jitter: BallPoint): Scattering
  {
    var target := Add(Add(rec.p, rec.normal), jitter);
    Scattering(true, Scale(c, albedo), Ray(rec.p, Sub(target, rec.p)))
  }

  /** The two metal variants: the mirror direction of the normalised
      incoming direction, perturbed by `fuzz * jitter`.  The source returns
      the dot product converted to `bool`, so only an exact zero absorbs. */
  function Mirror(rIn: Ray, rec: HitRecord, c: real, albedo: Vec3, fuzz: Fuzz, jitter: BallPoint, o: Oracles): Scattering
  {
    var reflected := Reflect(o.unitVector(rIn.direction), rec.normal);
    var scattered := Ray(rec.p, Add(reflected, Scale(fuzz, jitter)));
    Scattering(Dot(scattered.direction, rec.normal) != 0.0, Scale(c, albedo), scattered)
  }

  /** The normal facing the incoming ray, the index ratio and the cosine
      of the two dielectric variants. */
  datatype Interface = Interface(outwardNormal: Vec3, niOverNt: real, cosine: real)

  /** A ray leaving the body (`dot(d, normal) > 0`) flips the normal and uses
      `ref_inx`; an entering ray keeps it and uses `1 / ref_inx`.  The cosine
      divides by the length of the direction; for the zero direction, where
      the source computes NaN, the model takes 0, which leads to the same
      choice (see `GlassZeroDirection`). */
  function GlassInterface(d: Vec3, normal: Vec3, n: RefIndex, sqrt: real -> real): (g: Interface)
    ensures Dot(d, normal) > 0.0 ==> g.outwardNormal == Neg(normal) && g.niOverNt == n
    ensures Dot(d, normal) <= 0.0 ==> g.outwardNormal == normal && g.niOverNt == 1.0 / n
    ensures Length(d, sqrt) != 0.0 ==>
      g.cosine * Length(d, sqrt) == (if Dot(d, normal) > 0.0 then n * Dot(d, normal) else -Dot(d, normal))
    ensures Length(d, sqrt) == 0.0 ==> g.cosine == 0.0
  {
    var len := Length(d, sqrt);
    var along := if len == 0.0 then 0.0 else (AlongTimesLength(d, normal, len); Dot(d, DivScalar(normal, len)));
    ScaledProduct(n, along, len);
    if Dot(d, normal) > 0.0 then Interface(Neg(normal), n, n * along)
    else Interface(normal, 1.0 / n, -along)
  }

  /** `dot(d, normal / len) * len` is `dot(d, normal)`. */
  lemma AlongTimesLength(d: Vec3, normal: Vec3, len: real)
    requires len != 0.0
    ensures Dot(d, DivScalar(normal, len)) * len == Dot(d, normal)
  {
    DotScaleLeft(1.0 / len, normal, d);
    InverseCancels(len, Dot(d, normal));
  }

  lemma InverseCancels(len: real, x: real)
    requires len != 0.0
    ensures 1.0 / len * x * len == x
  {
  }

  lemma ScaledProduct(n: real, a: real, len: real)
    ensures n * a * len == n * (a * len)
    ensures -a * len == -(a * len)
  {
  }

  /** An entering ray meets a unit normal at a cosine in [0, 1]. */
  lemma {:induction false} GlassEnteringCosine(d: Vec3, normal: Vec3, n: RefIndex, sqrt: real -> real)
    requires IsSqrt(sqrt)
    requires Dot(normal, normal) == 1.0 && Dot(d, normal) <= 0.0
    ensures 0.0 <= GlassInterface(d, normal, n, sqrt).cosine <= 1.0
  {
    var c, len := GlassInterface(d, normal, n, sqrt).cosine, Length(d, sqrt);
    EnteringFacts(d, normal, n, sqrt);
    EnteringCosine(c, len, Dot(d, normal), Dot(d, d), Dot(normal, normal));
  }

  /** The scalars behind an entering cosine: the length is a square root of
      `dd`, Cauchy-Schwarz bounds the projection `dn` by `dd * nn`, and the
      cosine times the length is minus the projection. */
  predicate CosineScalars(c: real, len: real, dn: real, dd: real, nn: real)
  {
    && 0.0 <= len && len * len == dd && nn == 1.0
    && dn <= 0.0 && dn * dn <= dd * nn
    && (len == 0.0 ==> c == 0.0)
    && (len != 0.0 ==> c * len == -dn)
  }

  lemma EnteringFacts(d: Vec3, normal: Vec3, n: RefIndex, sqrt: real -> real)
    requires IsSqrt(sqrt)
    requires Dot(normal, normal) == 1.0 && Dot(d, normal) <= 0.0
    ensures CosineScalars(GlassInterface(d, normal, n, sqrt).cosine, Length(d, sqrt), Dot(d, normal), Dot(d, d), Dot(normal, normal))
  {
    LengthPositive(d, sqrt);
    CauchySchwarz(d, normal);
  }

  /** So an entering ray's reflection probability lies between the normal
      reflectance and one. */
  lemma {:induction false} GlassEnteringReflectance(d: Vec3, normal: Vec3, n: RefIndex, sqrt: real -> real)
    requires IsSqrt(sqrt)
    requires Dot(normal, normal) == 1.0 && Dot(d, normal) <= 0.0
    ensures var c := GlassInterface(d, normal, n, sqrt).cosine;
      NormalReflectance(n) <= Schlick(c, n) <= 1.0
  {
    GlassEnteringCosine(d, normal, n, sqrt);
    SchlickBounds(GlassInterface(d, normal, n, sqrt).cosine, n);
  }

  /** A cosine times a positive length equal to a projection no longer than
      that length lies in [0, 1]. */
  lemma EnteringCosine(c: real, len: real, dn: real, dd: real, nn: real)
    requires CosineScalars(c, len, dn, dd, nn)
    ensures 0.0 <= c <= 1.0
  {
    if len == 0.0 {
      return;
    }
    if -dn > len {
      SquareLess(len, -dn);
    }
    if c < 0.0 {
      ProductNegative(c, len);
    }
    if c > 1.0 {
      ProductAbove(c, len);
    }
  }

  lemma ProductNegative(c: real, len: real)
    requires c < 0.0 < len
    ensures c * len < 0.0
  {
  }

  lemma ProductAbove(c: real, len: real)
    requires c > 1.0 && 0.0 < len
    ensures c * len > len
  {
    var e := c - 1.0;
    assert e * len > 0.0;
  }

  /** The two dielectric variants: attenuation one; the refracted ray unless
      `u` falls below the reflection probability, which is Schlick's value
      when refraction succeeds and one when it fails. */
  function Glass(rIn: Ray, rec: HitRecord, n: RefIndex, u: Unit01, o: Oracles): Scattering
  {
    var reflected := Reflect(rIn.direction, rec.normal);
    var g := GlassInterface(rIn.direction, rec.normal, n, o.sqrt);
    var refracted := Refract(rIn.direction, g.outwardNormal, g.niOverNt, o.unitVector, o.sqrt);
    var reflectProb := if refracted.Some? then Schlick(g.cosine, n) else 1.0;
    var scattered := if u < reflectProb then Ray(rec.p, reflected) else Ray(rec.p, refracted.value);
    Scattering(true, One, scattered)
  }

  /** Both lambertian variants always scatter, with attenuation `c * albedo`,
      from the hit point along `normal + jitter`. */
  lemma ScatterDiffuse(m: Material, rIn: Ray, rec: HitRecord, c: real, jitter: BallPoint, u: Unit01, o: Oracles)
    requires m.Lambertian? || m.BlinnLambertian?
    ensures var s := Scatter(m, rIn, rec, c, jitter, u, o);
      && s.ok
      && s.attenuation == Scale(c, m.albedo)
      && s.scattered.origin == rec.p
      && s.scattered.direction == Add(rec.normal, jitter)
  {
  }

  /** With a unit normal, the diffuse direction points into the outer
      hemisphere, because the jitter is shorter than the normal. */
  lemma {:induction false} DiffuseOutward(rec: HitRecord, c: real, albedo: Vec3, jitter: BallPoint)
    requires Dot(rec.normal, rec.normal) == 1.0
    ensures Dot(Diffuse(rec, c, albedo, jitter).scattered.direction, rec.normal) > 0.0
  {
    var n := rec.normal;
    var j: Vec3 := jitter;
    var d := Diffuse(rec, c, albedo, jitter).scattered.direction;
    assert d == Add(n, j);
    DotAddLeft(n, j, n);
    CauchySchwarz(j, n);
    OutwardScalars(Dot(n, n), Dot(j, n), Dot(j, j));
  }

  lemma OutwardScalars(nn: real, dj: real, jj: real)
    requires nn == 1.0 && dj * dj <= jj * nn && jj < 1.0
    ensures nn + dj > 0.0
  {
    ShortProjection(dj, jj);
  }

  /** A projection whose square is below one is above minus one. */
  lemma ShortProjection(d: real, jj: real)
    requires d * d <= jj * 1.0 && jj < 1.0
    ensures -1.0 < d
  {
    if d <= -1.0 {
      SquareLess(1.0, -d);
    }
  }

  /** Both metal variants scatter unless the perturbed mirror direction is
      exactly tangent to the surface; in particular a direction below the
      surface (negative dot product) is still reported as scattered. */
  lemma ScatterMirror(m: Material, rIn: Ray, rec: HitRecord, c: real, jitter: BallPoint, u: Unit01, o: Oracles)
    requires m.Metal? || m.BlinnMetal?
    ensures var s := Scatter(m, rIn, rec, c, jitter, u, o);
      && s.attenuation == Scale(c, m.albedo)
      && s.scattered.origin == rec.p
      && s.scattered.direction == Add(Reflect(o.unitVector(rIn.direction), rec.normal), Scale(m.fuzz, jitter))
      && (s.ok <==> Dot(s.scattered.direction, rec.normal) != 0.0)
      && (Dot(s.scattered.direction, rec.normal) < 0.0 ==> s.ok)
  {
  }

  /** Both dielectric variants always scatter with attenuation one, ignore
      the shading factor `c`, and start the new ray at the hit point.  When
      refraction fails, or `u` falls below Schlick's probability, the ray is
      the mirror image of the incoming direction; otherwise it is the
      refracted direction. */
  lemma ScatterGlass(m: Material, rIn: Ray, rec: HitRecord, c: real, c': real, jitter: BallPoint, u: Unit01, o: Oracles)
    requires m.Dielectric? || m.BlinnDielectric?
    ensures var s := Scatter(m, rIn, rec, c, jitter, u, o);
      var g := GlassInterface(rIn.direction, rec.normal, m.refIdx, o.sqrt);
      var refracted := Refract(rIn.direction, g.outwardNormal, g.niOverNt, o.unitVector, o.sqrt);
      && s.ok
      && s.attenuation == One
      && s == Scatter(m, rIn, rec, c', jitter, u, o)
      && s.scattered.origin == rec.p
      && (refracted.None? ==> s.scattered.direction == Reflect(rIn.direction, rec.normal))
      && (refracted.Some? && u < Schlick(g.cosine, m.refIdx) ==> s.scattered.direction == Reflect(rIn.direction, rec.normal))
      && (refracted.Some? && u >= Schlick(g.cosine, m.refIdx) ==> s.scattered.direction == refracted.value)
  {
  }

  /** A dielectric hit by a ray whose direction has length zero sends out
      the mirror image of that direction, which is the zero direction, as the
      source does after its refraction test fails on NaN. */
  lemma GlassZeroDirection(rIn: Ray, rec: HitRecord, n: RefIndex, u: Unit01, o: Oracles)
    requires Length(rIn.direction, o.sqrt) == 0.0
    ensures Glass(rIn, rec, n, u, o).scattered == Ray(rec.p, Reflect(rIn.direction, rec.normal))
  {
    GlassInterfaceDegenerate(rIn.direction, rec.normal, n, o.sqrt);
    SchlickEnds(n);
    GlassSureReflection(rIn, rec, n, u, o);
  }

  /** A direction of length zero gets cosine zero. */
  lemma GlassInterfaceDegenerate(d: Vec3, normal: Vec3, n: RefIndex, sqrt: real -> real)
    requires Length(d, sqrt) == 0.0
    ensures GlassInterface(d, normal, n, sqrt).cosine == 0.0
  {
  }

  /** When the reflection probability is one, the mirror direction is taken
      whatever `u` is. */
  lemma GlassSureReflection(rIn: Ray, rec: HitRecord, n: RefIndex, u: Unit01, o: Oracles)
    requires Schlick(GlassInterface(rIn.direction, rec.normal, n, o.sqrt).cosine, n) == 1.0
    ensures Glass(rIn, rec, n, u, o).scattered == Ray(rec.p, Reflect(rIn.direction, rec.normal))
  {
  }

  // ---------------------------------------------------------------------
  // blinn
  // ---------------------------------------------------------------------

  /** The out-parameters of `blinn`. */
  datatype Shading = Shading(shadowRay: Ray, specular: Vec3, nlAngle: real)

  /** The shadow ray of every material: from the hit point towards the light
      position jittered by `jitter` for a point light, along the jittered
      light vector otherwise. */
  function ShadowRay(rec: HitRecord, l: Light, jitter: BallPoint, unitVector: Vec3 -> Vec3): (s: Ray)
    ensures s.origin == rec.p
  {
    var shadowLightPos := Add(l.lightVector, jitter);
    if l.kind == 1 then Ray(rec.p, unitVector(Sub(shadowLightPos, rec.p)))
    else Ray(rec.p, unitVector(shadowLightPos))
  }

  /** The normalised direction towards the light: `lightPos -= rec.p` for a
      point light, then `unit_vector`. */
  function LightDirection(rec: HitRecord, l: Light, unitVector: Vec3 -> Vec3): Vec3
  {
    unitVector(if l.kind == 1 then Sub(l.lightVector, rec.p) else l.lightVector)
  }

  /** `specAmount * lightColour` with the Blinn-Phong amount
      `pow(max(0, dot(normal, unit_vector(halfVector))), shininess)`. */
  function Specular(rec: HitRecord, l: Light, halfVector: Vec3, shininess: real, o: Oracles): Vec3
  {
    Scale(o.pow(Max(0.0, Dot(rec.normal, o.unitVector(halfVector))), shininess), l.lightColour)
  }

  /** `blinn` of each material; `view` is the view vector `ray_color` passes. */
  function Blinn(m: Material, rec: HitRecord, l: Light, view: Vec3, jitter: BallPoint, o: Oracles): Shading
  {
    var shadow := ShadowRay(rec, l, jitter, o.unitVector);
    var lightPos := LightDirection(rec, l, o.unitVector);
    var n := o.unitVector(rec.normal);
    match m
    case Lambertian(_) => Shading(shadow, Zero, 1.0)
    case Metal(_, _) => Shading(shadow, Zero, 0.0)
    case Dielectric(_) => Shading(shadow, Zero, 1.0)
    case BlinnLambertian(_, shininess) =>
      Shading(shadow, Specular(rec, l, Add(lightPos, view), shininess, o), Max(0.1, Dot(n, lightPos)))
    case BlinnMetal(_, _, shininess) =>
      Shading(shadow, Specular(rec, l, Add(o.unitVector(lightPos), view), shininess, o), 1.0)
    case BlinnDielectric(_, shininess) =>
      Shading(shadow, Specular(rec, l, Add(o.unitVector(lightPos), view), shininess, o), Max(0.0, Dot(n, lightPos)))
  }

  /** The angle term of each material: fixed at 1 for the lambertian and
      dielectric classes, 0 for metal, 1 for `blinn_metal`, at least 0.1 for
      `blinn_lambertian` and at least 0 for `blinn_dielectric`; the three
      classes without Blinn shading have no specular part. */
  lemma BlinnAngles(m: Material, rec: HitRecord, l: Light, view: Vec3, jitter: BallPoint, o: Oracles)
    ensures var b := Blinn(m, rec, l, view, jitter, o);
      && (m.Lambertian? || m.Dielectric? ==> b.nlAngle == 1.0 && b.specular == Zero)
      && (m.Metal? ==> b.nlAngle == 0.0 && b.specular == Zero)
      && (m.BlinnMetal? ==> b.nlAngle == 1.0)
      && (m.BlinnLambertian? ==> 0.1 <= b.nlAngle)
      && (m.BlinnDielectric? ==> 0.0 <= b.nlAngle)
  {
  }

  /** The Blinn variants' specular term is a multiple of the light colour. */
  lemma SpecularAlongColour(m: Material, rec: HitRecord, l: Light, view: Vec3, jitter: BallPoint, o: Oracles)
    ensures exists k :: Blinn(m, rec, l, view, jitter, o).specular == Scale(k, l.lightColour)
  {
    var b := Blinn(m, rec, l, view, jitter, o);
    if m.Lambertian? || m.Metal? || m.Dielectric? {
      assert b.specular == Scale(0.0, l.lightColour);
    }
  }

  /** Every material uses the same shadow ray, which starts at the hit
      point; with a true `unit_vector` its direction is the unit vector
      towards the jittered point light, or along the jittered light vector. */
  lemma {:induction false} ShadowRayAims(m: Material, rec: HitRecord, l: Light, view: Vec3, jitter: BallPoint, o: Oracles)
    requires Sound(o)
    requires Add(l.lightVector, jitter) != (if l.kind == 1 then rec.p else Zero)
    ensures var s := Blinn(m, rec, l, view, jitter, o).shadowRay;
      var target := if l.kind == 1 then Sub(Add(l.lightVector, jitter), rec.p) else Add(l.lightVector, jitter);
      && s.origin == rec.p
      && SquaredLength(s.direction) == 1.0
      && exists k :: 0.0 < k && s.direction == Scale(k, target)
  {
    var target := if l.kind == 1 then Sub(Add(l.lightVector, jitter), rec.p) else Add(l.lightVector, jitter);
    if l.kind == 1 {
      SubZero(Add(l.lightVector, jitter), rec.p);
    }
    UnitVectorIsUnit(target, o.unitVector, o.sqrt);
  }

  lemma SubZero(a: Vec3, b: Vec3)
    requires a != b
    ensures Sub(a, b) != Zero
  {
    assert Add(Sub(a, b), b) == a;
  }
}
