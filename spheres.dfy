/** `sphere::hit`: the ray `o + t d` meets the sphere with centre `C` and
    radius `r` where `a t^2 + 2 b t + c = 0`, with `a = |d|^2`,
    `b = (o - C) . d` and `c = |o - C|^2 - r^2`.  The smaller root is taken
    when it lies strictly between `t_min` and `t_max`, the larger one
    otherwise.  The record is written only on a hit, so the result is an
    `Option`. */
module Spheres {
  import opened Numerics
  import opened VectorAlgebra
  import opened Environment
  import opened Rays
  import opened Materials

  datatype Sphere = Sphere(center: Vec3, radius: real, mat: Material)

  /** The coefficients `a`, `b`, `c` of the sphere's quadratic. */
  datatype Quadratic = Quadratic(a: real, b: real, c: real)

  function Coefficients(s: Sphere, r: Ray): (q: Quadratic)
    ensures 0.0 <= q.a
  {
    var oc := Sub(r.origin, s.center);
    Quadratic(SquaredLength(r.direction), Dot(oc, r.direction), SquaredLength(oc) - s.radius * s.radius)
  }

  /** The quadratic's value `a t^2 + 2 b t + c` at `t`. */
  function Quad(q: Quadratic, t: real): real
  {
    q.a * t * t + 2.0 * q.b * t + q.c
  }

  function Discriminant(q: Quadratic): real
  {
    q.b * q.b - q.a * q.c
  }

  /** The two candidate roots `(-b - s) / a` and `(-b + s) / a` for a root `s`
      of the discriminant. */
  function NearRoot(q: Quadratic, s: real): real
    requires q.a != 0.0
  {
    (-q.b - s) / q.a
  }

  function FarRoot(q: Quadratic, s: real): real
    requires q.a != 0.0
  {
    (-q.b + s) / q.a
  }

  /** The open range test `temp < t_max && temp > t_min`. */
  predicate InRange(t: real, tMin: real, tMax: Bound)
  {
    Below(t, tMax) && t > tMin
  }

  /** A positive discriminant needs a non-zero direction and a non-zero
      radius, so both divisions of `sphere::hit` are defined. */
  lemma {:induction false} PositiveDiscriminant(s: Sphere, r: Ray)
    requires Discriminant(Coefficients(s, r)) > 0.0
    ensures Coefficients(s, r).a > 0.0
    ensures s.radius != 0.0
  {
    var oc := Sub(r.origin, s.center);
    var d := r.direction;
    CauchySchwarz(oc, d);
    DiscriminantScalars(Dot(oc, d), Dot(d, d), Dot(oc, oc), s.radius);
  }

  lemma DiscriminantScalars(b: real, a: real, oo: real, radius: real)
    requires b * b <= oo * a && 0.0 <= a
    requires b * b - a * (oo - radius * radius) > 0.0
    ensures a > 0.0 && radius != 0.0
  {
    var bb, ao, rr := b * b, a * oo, radius * radius;
    assert oo * a == ao;
    assert a * (oo - rr) == ao - a * rr;
    assert a * rr > 0.0;
    FactorsNonZero(a, rr);
    FactorsNonZero(radius, radius);
  }

  lemma FactorsNonZero(x: real, y: real)
    requires x * y != 0.0
    ensures x != 0.0 && y != 0.0
  {
  }

  /** The record of a hit at `t`: the point on the ray, the normal
      `unit_vector((p - center) / radius)` and the sphere's material. */
  function SphereRecord(s: Sphere, r: Ray, t: real, o: Oracles): (rec: HitRecord)
    requires s.radius != 0.0
    ensures rec.t == t && rec.p == PointAt(r, t) && rec.mat == s.mat
  {
    var p := PointAt(r, t);
    HitRecord(t, p, o.unitVector(DivScalar(Sub(p, s.center), s.radius)), s.mat)
  }

  /** `sphere::hit(r, t_min, t_max, rec)`. */
  function SphereHit(s: Sphere, r: Ray, tMin: real, tMax: Bound, o: Oracles): (res: Option<HitRecord>)
    ensures res.Some? ==> InRange(res.value.t, tMin, tMax)
    ensures res.Some? ==> res.value.p == PointAt(r, res.value.t) && res.value.mat == s.mat
    ensures res.Some? ==> s.radius != 0.0 && res.value.normal == o.unitVector(DivScalar(Sub(res.value.p, s.center), s.radius))
    ensures Discriminant(Coefficients(s, r)) <= 0.0 ==> res.None?
  {
    var q := Coefficients(s, r);
    var disc := Discriminant(q);
    if disc > 0.0 then
      PositiveDiscriminant(s, r);
      PickRoot(s, r, q, o.sqrt(disc), tMin, tMax, o)
    else None
  }

  /** The root selection of `sphere::hit` once the discriminant is known to
      be positive, with `root` its square root. */
  function PickRoot(s: Sphere, r: Ray, q: Quadratic, root: real, tMin: real, tMax: Bound, o: Oracles): (res: Option<HitRecord>)
    requires q.a != 0.0 && s.radius != 0.0
    ensures res.Some? ==> InRange(res.value.t, tMin, tMax)
    ensures res.Some? ==> res.value.p == PointAt(r, res.value.t) && res.value.mat == s.mat
    ensures res.Some? ==> res.value.t == NearRoot(q, root) || res.value.t == FarRoot(q, root)
    ensures res.Some? ==> res.value.normal == o.unitVector(DivScalar(Sub(res.value.p, s.center), s.radius))
  {
    var near := NearRoot(q, root);
    if InRange(near, tMin, tMax) then Some(SphereRecord(s, r, near, o))
    else
      var far := FarRoot(q, root);
      if InRange(far, tMin, tMax) then Some(SphereRecord(s, r, far, o))
      else None
  }

  /** Which root is returned: the near root whenever it is in range, the far
      root only when the near one is not, and nothing when neither is. */
  lemma SphereRootChoice(s: Sphere, r: Ray, tMin: real, tMax: Bound, o: Oracles)
    requires Discriminant(Coefficients(s, r)) > 0.0
    ensures Coefficients(s, r).a > 0.0
    ensures var q := Coefficients(s, r);
      var near := NearRoot(q, o.sqrt(Discriminant(q)));
      var far := FarRoot(q, o.sqrt(Discriminant(q)));
      var res := SphereHit(s, r, tMin, tMax, o);
      && (InRange(near, tMin, tMax) ==> res.Some? && res.value.t == near)
      && (!InRange(near, tMin, tMax) && InRange(far, tMin, tMax) ==> res.Some? && res.value.t == far)
      && (!InRange(near, tMin, tMax) && !InRange(far, tMin, tMax) ==> res.None?)
  {
    PositiveDiscriminant(s, r);
  }

  /** With a true square root the near root is the smaller one, so the
      sphere reports the nearest of its intersections in range. */
  lemma {:induction false} SphereNearest(s: Sphere, r: Ray, tMin: real, tMax: Bound, o: Oracles)
    requires IsSqrt(o.sqrt)
    requires SphereHit(s, r, tMin, tMax, o).Some?
    ensures Discriminant(Coefficients(s, r)) > 0.0 && Coefficients(s, r).a > 0.0
    ensures var q := Coefficients(s, r);
      var near := NearRoot(q, o.sqrt(Discriminant(q)));
      var far := FarRoot(q, o.sqrt(Discriminant(q)));
      var t := SphereHit(s, r, tMin, tMax, o).value.t;
      && near < far
      && (t == near || t == far)
      && (InRange(near, tMin, tMax) ==> t <= near)
  {
    var q := Coefficients(s, r);
    PositiveDiscriminant(s, r);
    var disc := Discriminant(q);
    SqrtFacts(o.sqrt, disc);
    RootsOrdered(q.a, q.b, o.sqrt(disc));
    SphereRootChoice(s, r, tMin, tMax, o);
  }

  /** Narrowing the bound of a sphere query never changes a hit that
      remains below the narrower bound, and a hit under the narrower bound is
      also the hit under the wider one. */
  lemma {:induction false} SphereNarrow(s: Sphere, r: Ray, tMin: real, wide: Bound, narrow: Bound, o: Oracles)
    requires IsSqrt(o.sqrt)
    requires Tighter(narrow, wide)
    ensures SphereHit(s, r, tMin, narrow, o).Some? ==> SphereHit(s, r, tMin, wide, o) == SphereHit(s, r, tMin, narrow, o)
    ensures SphereHit(s, r, tMin, wide, o).Some? && Below(SphereHit(s, r, tMin, wide, o).value.t, narrow) ==>
      SphereHit(s, r, tMin, narrow, o) == SphereHit(s, r, tMin, wide, o)
  {
    var q := Coefficients(s, r);
    var disc := Discriminant(q);
    if disc > 0.0 {
      PositiveDiscriminant(s, r);
      SqrtFacts(o.sqrt, disc);
      RootsOrdered(q.a, q.b, o.sqrt(disc));
    }
  }

  lemma RootsOrdered(a: real, b: real, root: real)
    requires a > 0.0 && root > 0.0
    ensures (-b - root) / a < (-b + root) / a
  {
    var lo, hi := (-b - root) / a, (-b + root) / a;
    assert lo * a == -b - root;
    assert hi * a == -b + root;
    assert (hi - lo) * a == 2.0 * root;
  }

  /** With a true square root the returned `t` solves the quadratic, so the
      hit point lies on the sphere: its distance from the centre is the
      radius. */
  lemma {:induction false} SphereHitOnSurface(s: Sphere, r: Ray, tMin: real, tMax: Bound, o: Oracles)
    requires IsSqrt(o.sqrt)
    requires SphereHit(s, r, tMin, tMax, o).Some?
    ensures var q := Coefficients(s, r);
      var t := SphereHit(s, r, tMin, tMax, o).value.t;
      Quad(q, t) == 0.0
    ensures var rec := SphereHit(s, r, tMin, tMax, o).value;
      SquaredLength(Sub(rec.p, s.center)) == s.radius * s.radius
  {
    var q := Coefficients(s, r);
    var disc := Discriminant(q);
    var root := o.sqrt(disc);
    var rec := SphereHit(s, r, tMin, tMax, o).value;
    var t := rec.t;
    assert q.a > 0.0 && root * root == disc && (t == NearRoot(q, root) || t == FarRoot(q, root)) by {
      PositiveDiscriminant(s, r);
      SqrtFacts(o.sqrt, disc);
    }
    assert Quad(q, t) == 0.0 by {
      PickedRootSolves(q, root, t);
    }
    assert SquaredLength(Sub(rec.p, s.center)) - s.radius * s.radius == Quad(q, t) by {
      OnSphere(s, r, t);
    }
  }

  /** Either root of a quadratic with positive leading coefficient, taken
      with a square root of its discriminant, solves it. */
  lemma PickedRootSolves(q: Quadratic, root: real, t: real)
    requires q.a > 0.0 && root * root == Discriminant(q)
    requires t == NearRoot(q, root) || t == FarRoot(q, root)
    ensures Quad(q, t) == 0.0
  {
    if t == NearRoot(q, root) {
      QuadraticRoot(q.a, q.b, q.c, root, t, -1.0);
    } else {
      QuadraticRoot(q.a, q.b, q.c, root, t, 1.0);
    }
  }

  /** `t = (-b + e s) / a` with `e = -1` or `e = 1` and `s^2 = b^2 - a c`
      solves `a t^2 + 2 b t + c = 0`. */
  lemma QuadraticRoot(a: real, b: real, c: real, root: real, t: real, e: real)
    requires a > 0.0
    requires root * root == b * b - a * c
    requires t == (-b + e * root) / a
    requires e * e == 1.0
    ensures a * t * t + 2.0 * b * t + c == 0.0
  {
    var at := a * t;
    assert at == -b + e * root;
    var v := a * t * t + 2.0 * b * t + c;
    assert a * v == at * at + 2.0 * b * at + a * c;
    assert at * at == b * b - 2.0 * e * b * root + e * e * (root * root);
    assert a * v == 0.0;
  }

  /** The quadratic's value at `t` is the squared distance of the ray point
      from the centre minus the squared radius. */
  lemma {:induction false} OnSphere(s: Sphere, r: Ray, t: real)
    ensures var q := Coefficients(s, r);
      SquaredLength(Sub(PointAt(r, t), s.center)) - s.radius * s.radius == Quad(q, t)
  {
    var oc := Sub(r.origin, s.center);
    var d := r.direction;
    assert Sub(PointAt(r, t), s.center) == Add(oc, Scale(t, d));
    SquaredLengthAddScaled(oc, d, t);
  }

  /** With true `sqrt` and `unit_vector`, the normal of a sphere hit has
      length one and is `(p - center) / radius`: it points away from the
      centre for a positive radius and towards it for a negative one. */
  lemma {:induction false} SphereNormalUnit(s: Sphere, r: Ray, tMin: real, tMax: Bound, o: Oracles)
    requires Sound(o)
    requires SphereHit(s, r, tMin, tMax, o).Some?
    ensures SquaredLength(SphereHit(s, r, tMin, tMax, o).value.normal) == 1.0
    ensures var rec := SphereHit(s, r, tMin, tMax, o).value;
      s.radius != 0.0 && rec.normal == DivScalar(Sub(rec.p, s.center), s.radius)
  {
    var rec := SphereHit(s, r, tMin, tMax, o).value;
    PositiveDiscriminant(s, r);
    SphereHitOnSurface(s, r, tMin, tMax, o);
    SurfaceNormalUnit(rec.p, s.center, s.radius, o);
    SurfaceNormal(rec.p, s.center, s.radius, o);
  }

  /** For a point at distance `radius` from the centre, `(p - center) / radius`
      is already a unit vector, so `unit_vector` returns it unchanged. */
  lemma {:induction false} SurfaceNormal(p: Vec3, center: Vec3, radius: real, o: Oracles)
    requires Sound(o)
    requires radius != 0.0 && SquaredLength(Sub(p, center)) == radius * radius
    ensures o.unitVector(DivScalar(Sub(p, center), radius)) == DivScalar(Sub(p, center), radius)
  {
    var u := Sub(p, center);
    SquaredLengthScale(1.0 / radius, u);
    InverseSquare(radius, SquaredLength(u));
    UnitVectorOfUnit(DivScalar(u, radius), o.unitVector, o.sqrt);
  }

  /** `(1 / r)^2 r^2 = 1`. */
  lemma InverseSquare(radius: real, sq: real)
    requires radius != 0.0 && sq == radius * radius
    ensures 1.0 / radius * (1.0 / radius) * sq == 1.0
  {
  }

  /** `unit_vector((p - center) / radius)` has length one for a point `p` at
      distance `radius` from the centre. */
  lemma {:induction false} SurfaceNormalUnit(p: Vec3, center: Vec3, radius: real, o: Oracles)
    requires Sound(o)
    requires radius != 0.0 && SquaredLength(Sub(p, center)) == radius * radius
    ensures SquaredLength(o.unitVector(DivScalar(Sub(p, center), radius))) == 1.0
  {
    var u := Sub(p, center);
    SquareNonNegative(radius);
    assert SquaredLength(u) != 0.0;
    ScaleNonZero(1.0 / radius, u);
    UnitVectorIsUnit(DivScalar(u, radius), o.unitVector, o.sqrt);
  }

  lemma ScaleNonZero(k: real, u: Vec3)
    requires k != 0.0 && u != Zero
    ensures Scale(k, u) != Zero
  {
    assert Scale(1.0 / k, Scale(k, u)) == u;
  }
}
