/** `triangle.h`: a triangle with a stored normal, its two constructors,
    `in_zero_one`, and `triangle::hit`, which intersects the ray with the
    plane through `p1` and accepts the point when its three area ratios lie
    in [0, 1] and sum to at most 1.001.  The areas are half the lengths of
    cross products, taken with the supplied square root. */
module Triangles {
  import opened Numerics
  import opened VectorAlgebra
  import opened Environment
  import opened Rays
  import opened Materials

  datatype Triangle = Triangle(p1: Vec3, p2: Vec3, p3: Vec3, normal: Vec3, mat: Material)

  /** The four-argument constructor: the normal is `cross(p1 - p2, p3 - p2)`,
      orthogonal to both edges that meet at `p2`. */
  function MakeTriangle(c1: Vec3, c2: Vec3, c3: Vec3, m: Material): (t: Triangle)
    ensures t.p1 == c1 && t.p2 == c2 && t.p3 == c3 && t.mat == m
    ensures Dot(t.normal, Sub(c1, c2)) == 0.0 && Dot(t.normal, Sub(c3, c2)) == 0.0
  {
    CrossOrthogonal(Sub(c1, c2), Sub(c3, c2));
    Triangle(c1, c2, c3, Cross(Sub(c1, c2), Sub(c3, c2)), m)
  }

  /** The five-argument constructor keeps the given normal as it is. */
  function MakeTriangleWithNormal(c1: Vec3, c2: Vec3, c3: Vec3, n: Vec3, m: Material): (t: Triangle)
    ensures t.p1 == c1 && t.p2 == c2 && t.p3 == c3 && t.normal == n && t.mat == m
  {
    Triangle(c1, c2, c3, n, m)
  }

  /** `in_zero_one(x)`. */
  predicate InZeroOne(x: real)
  {
    x >= 0.0 && x <= 1.0
  }

  /** The three area ratios `alpha`, `beta`, `gamma` of a point. */
  datatype Ratios = Ratios(alpha: real, beta: real, gamma: real)

  /** The area ratios of the point `i`, or `None` when the triangle's own
      area is zero: the source then divides by zero, and every ratio is
      infinite or NaN, which `in_zero_one` rejects. */
  function AreaRatios(tri: Triangle, i: Vec3, sqrt: real -> real): Option<Ratios>
  {
    var ab := Sub(tri.p2, tri.p1);
    var ac := Sub(tri.p3, tri.p1);
    var pa := Sub(tri.p1, i);
    var pb := Sub(tri.p2, i);
    var pc := Sub(tri.p3, i);
    var areaT := Length(Cross(ab, ac), sqrt) / 2.0;
    var areaA := Length(Cross(pb, pc), sqrt) / 2.0;
    var areaB := Length(Cross(pa, pc), sqrt) / 2.0;
    var areaC := Length(Cross(pa, pb), sqrt) / 2.0;
    if areaT == 0.0 then None
    else Some(Ratios(areaA / areaT, areaB / areaT, areaC / areaT))
  }

  /** The gate of `triangle::hit`: every ratio in [0, 1] and their sum at
      most 1.001. */
  predicate Inside(rs: Option<Ratios>)
  {
    && rs.Some?
    && InZeroOne(rs.value.alpha) && InZeroOne(rs.value.beta) && InZeroOne(rs.value.gamma)
    && !(rs.value.alpha + rs.value.beta + rs.value.gamma > 1.001)
  }

  /** `dot(direction, normal)`, zero for a ray parallel to the plane. */
  function Slope(tri: Triangle, r: Ray): real
  {
    Dot(r.direction, tri.normal)
  }

  /** `k = dot(p1 - origin, normal) / dot(direction, normal)`. */
  function PlaneParameter(tri: Triangle, r: Ray): real
    requires Slope(tri, r) != 0.0
  {
    Dot(Sub(tri.p1, r.origin), tri.normal) / Slope(tri, r)
  }

  /** `i = direction * k + origin`. */
  function PlanePoint(r: Ray, k: real): (i: Vec3)
    ensures i == PointAt(r, k)
  {
    Add(Scale(k, r.direction), r.origin)
  }

  /** `triangle::hit(r, t_min, t_max, rec)`.  The range test rejects
      `k < t_min` and `k > t_max` only, so both ends are accepted. */
  function TriangleHit(tri: Triangle, r: Ray, tMin: real, tMax: Bound, o: Oracles): (res: Option<HitRecord>)
    ensures Slope(tri, r) == 0.0 ==> res.None?
    ensures res.Some? ==> tMin <= res.value.t && AtMost(res.value.t, tMax)
  {
    if Slope(tri, r) == 0.0 then None
    else
      var k := PlaneParameter(tri, r);
      if k < tMin || !AtMost(k, tMax) then None
      else
        var i := PlanePoint(r, k);
        if !Inside(AreaRatios(tri, i, o.sqrt)) then None
        else Some(HitRecord(k, i, tri.normal, tri.mat))
  }

  /** A hit happens exactly when the ray is not parallel, `k` lies in the
      closed range, and the ratio gate accepts; the record then holds `k`,
      the point on the ray, the stored normal (neither normalised nor
      flipped) and the triangle's material. */
  lemma TriangleHitExactly(tri: Triangle, r: Ray, tMin: real, tMax: Bound, o: Oracles)
    ensures var res := TriangleHit(tri, r, tMin, tMax, o);
      res.Some? <==>
        && Slope(tri, r) != 0.0
        && tMin <= PlaneParameter(tri, r) && AtMost(PlaneParameter(tri, r), tMax)
        && Inside(AreaRatios(tri, PointAt(r, PlaneParameter(tri, r)), o.sqrt))
    ensures var res := TriangleHit(tri, r, tMin, tMax, o);
      res.Some? ==> res.value == HitRecord(PlaneParameter(tri, r), PointAt(r, PlaneParameter(tri, r)), tri.normal, tri.mat)
  {
  }

  /** Unlike the sphere, the triangle accepts a hit at exactly `t_max`:
      narrowing the bound to the parameter of an accepted hit keeps it. */
  lemma TriangleKeepsTie(tri: Triangle, r: Ray, tMin: real, tMax: Bound, o: Oracles)
    requires TriangleHit(tri, r, tMin, tMax, o).Some?
    ensures var t := TriangleHit(tri, r, tMin, tMax, o).value.t;
      TriangleHit(tri, r, tMin, Finite(t), o) == TriangleHit(tri, r, tMin, tMax, o)
  {
  }

  /** The hit point lies in the triangle's plane. */
  lemma {:induction false} TriangleHitInPlane(tri: Triangle, r: Ray, tMin: real, tMax: Bound, o: Oracles)
    requires TriangleHit(tri, r, tMin, tMax, o).Some?
    ensures Dot(Sub(TriangleHit(tri, r, tMin, tMax, o).value.p, tri.p1), tri.normal) == 0.0
  {
    TriangleHitExactly(tri, r, tMin, tMax, o);
    var k := PlaneParameter(tri, r);
    var n := tri.normal;
    var w := Sub(r.origin, tri.p1);
    assert Sub(PointAt(r, k), tri.p1) == Add(w, Scale(k, r.direction));
    DotAddLeft(w, Scale(k, r.direction), n);
    DotScaleLeft(k, r.direction, n);
    assert Dot(w, n) == -Dot(Sub(tri.p1, r.origin), n);
    CancelQuotient(Dot(Sub(tri.p1, r.origin), n), Slope(tri, r));
  }

  /** `-a + (a / b) b = 0`. */
  lemma CancelQuotient(a: real, b: real)
    requires b != 0.0
    ensures -a + (a / b) * b == 0.0
  {
  }

  /** The ratios of an accepted point each lie in [0, 1] and sum to at most
      1.001. */
  lemma TriangleRatios(tri: Triangle, r: Ray, tMin: real, tMax: Bound, o: Oracles)
    requires TriangleHit(tri, r, tMin, tMax, o).Some?
    ensures var rs := AreaRatios(tri, TriangleHit(tri, r, tMin, tMax, o).value.p, o.sqrt);
      && rs.Some?
      && 0.0 <= rs.value.alpha <= 1.0 && 0.0 <= rs.value.beta <= 1.0 && 0.0 <= rs.value.gamma <= 1.0
      && rs.value.alpha + rs.value.beta + rs.value.gamma <= 1.001
  {
  }
}
