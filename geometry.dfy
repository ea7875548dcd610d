/** The scene's objects and their `hit` queries.  `hittable.h` is not part
    of this model; its virtual `hit` becomes the dispatch `Hit` over a closed
    datatype.  A cube answers through the list of its twelve triangles, and
    `hittable_list::hit` is the left-to-right scan `Scan`, which narrows the
    bound to the last accepted `t` (the loop itself is
    `HittableList.HitList`). */
module Geometry {
  import opened Numerics
  import opened VectorAlgebra
  import opened Environment
  import opened Rays
  import opened Materials
  import opened Spheres
  import opened Triangles
  import opened Tori
  import opened Cubes

  datatype Hittable =
    | SphereObj(sphere: Sphere)
    | TriangleObj(triangle: Triangle)
    | TorusObj(torus: Torus)
    | CubeObj(faces: seq<Hittable>, mat: Material)
    | ListObj(children: seq<Hittable>)

  /** `cube(p1, p2, p3, m)` as a scene object: the list of its twelve
      triangles and its material. */
  function MakeCube(p1: Vec3, p2: Vec3, p3: Vec3, m: Material, o: Oracles): (h: Hittable)
    ensures h.CubeObj? && |h.faces| == 12 && h.mat == m
    ensures forall k :: 0 <= k < 12 ==> h.faces[k] == TriangleObj(CubeTriangles(p1, p2, p3, m, o)[k])
  {
    var ts := CubeTriangles(p1, p2, p3, m, o);
    CubeObj(seq(12, k requires 0 <= k < 12 => TriangleObj(ts[k])), m)
  }

  /** The virtual `hit(r, t_min, t_max, rec)`, with `rec` written exactly
      when the result is `Some`. */
  function Hit(h: Hittable, r: Ray, tMin: real, tMax: Bound, o: Oracles): Option<HitRecord>
    decreases h, 1
  {
    match h
    case SphereObj(s) => SphereHit(s, r, tMin, tMax, o)
    case TriangleObj(tri) => TriangleHit(tri, r, tMin, tMax, o)
    case TorusObj(tor) => TorusHit(tor, r, tMin, tMax, o)
    case CubeObj(faces, _) => ListHit(faces, r, tMin, tMax, o)
    case ListObj(children) => ListHit(children, r, tMin, tMax, o)
  }

  /** `hittable_list::hit`: the scan over all children. */
  function ListHit(cs: seq<Hittable>, r: Ray, tMin: real, tMax: Bound, o: Oracles): Option<HitRecord>
    decreases cs, 0
  {
    Scan(cs, |cs|, r, tMin, tMax, o)
  }

  /** `closest_so_far` after a scan that produced `best`. */
  function Closest(best: Option<HitRecord>, tMax: Bound): Bound
  {
    if best.Some? then Finite(best.value.t) else tMax
  }

  /** The record held after the first `n` passes of the loop: child `n - 1`
      is queried up to the closest `t` so far and replaces the record when
      it reports a hit. */
  function Scan(cs: seq<Hittable>, n: nat, r: Ray, tMin: real, tMax: Bound, o: Oracles): Option<HitRecord>
    requires n <= |cs|
    decreases cs, 0, n
  {
    if n == 0 then None
    else
      var best := Scan(cs, n - 1, r, tMin, tMax, o);
      var here := Hit(cs[n - 1], r, tMin, Closest(best, tMax), o);
      if here.Some? then here else best
  }

  /** Every object reports a `t` in `[t_min, t_max]`. */
  lemma {:induction false} HitInRange(h: Hittable, r: Ray, tMin: real, tMax: Bound, o: Oracles)
    ensures Hit(h, r, tMin, tMax, o).Some? ==>
      tMin <= Hit(h, r, tMin, tMax, o).value.t && AtMost(Hit(h, r, tMin, tMax, o).value.t, tMax)
    decreases h, 1
  {
    match h
    case SphereObj(s) =>
    case TriangleObj(tri) =>
    case TorusObj(tor) =>
    case CubeObj(faces, _) => ScanInRange(faces, |faces|, r, tMin, tMax, o);
    case ListObj(children) => ScanInRange(children, |children|, r, tMin, tMax, o);
  }

  /** The record held during the scan always has a `t` in `[t_min, t_max]`. */
  lemma {:induction false} ScanInRange(cs: seq<Hittable>, n: nat, r: Ray, tMin: real, tMax: Bound, o: Oracles)
    requires n <= |cs|
    ensures Scan(cs, n, r, tMin, tMax, o).Some? ==>
      tMin <= Scan(cs, n, r, tMin, tMax, o).value.t && AtMost(Scan(cs, n, r, tMin, tMax, o).value.t, tMax)
    decreases cs, 0, n
  {
    if n > 0 {
      var best := Scan(cs, n - 1, r, tMin, tMax, o);
      ScanInRange(cs, n - 1, r, tMin, tMax, o);
      HitInRange(cs[n - 1], r, tMin, Closest(best, tMax), o);
    }
  }

  /** `closest_so_far` never increases during the scan. */
  lemma {:induction false} ClosestNonIncreasing(cs: seq<Hittable>, n: nat, r: Ray, tMin: real, tMax: Bound, o: Oracles)
    requires n < |cs|
    ensures Tighter(Closest(Scan(cs, n + 1, r, tMin, tMax, o), tMax), Closest(Scan(cs, n, r, tMin, tMax, o), tMax))
  {
    var best := Scan(cs, n, r, tMin, tMax, o);
    ScanInRange(cs, n, r, tMin, tMax, o);
    HitInRange(cs[n], r, tMin, Closest(best, tMax), o);
  }

  /** Over the whole scan, a later `closest_so_far` is never above an
      earlier one. */
  lemma {:induction false} ClosestMonotone(cs: seq<Hittable>, i: nat, j: nat, r: Ray, tMin: real, tMax: Bound, o: Oracles)
    requires i <= j <= |cs|
    ensures Tighter(Closest(Scan(cs, j, r, tMin, tMax, o), tMax), Closest(Scan(cs, i, r, tMin, tMax, o), tMax))
    decreases j - i
  {
    if i < j {
      ClosestNonIncreasing(cs, i, r, tMin, tMax, o);
      ClosestMonotone(cs, i + 1, j, r, tMin, tMax, o);
    }
  }

  /** The list reports nothing exactly when no child hits within the full
      range; in particular the empty list never hits. */
  lemma {:induction false} ListMissExactly(cs: seq<Hittable>, r: Ray, tMin: real, tMax: Bound, o: Oracles)
    ensures ListHit(cs, r, tMin, tMax, o).None? <==>
      forall i :: 0 <= i < |cs| ==> Hit(cs[i], r, tMin, tMax, o).None?
    ensures |cs| == 0 ==> ListHit(cs, r, tMin, tMax, o).None?
  {
    ScanMissExactly(cs, |cs|, r, tMin, tMax, o);
  }

  lemma {:induction false} ScanMissExactly(cs: seq<Hittable>, n: nat, r: Ray, tMin: real, tMax: Bound, o: Oracles)
    requires n <= |cs|
    ensures Scan(cs, n, r, tMin, tMax, o).None? <==>
      forall i :: 0 <= i < n ==> Hit(cs[i], r, tMin, tMax, o).None?
  {
    if n > 0 {
      ScanMissExactly(cs, n - 1, r, tMin, tMax, o);
    }
  }

  /** Child `i` produced the record held after `n` passes, and every later
      child among the first `n`, asked up to the closest `t` before it,
      missed. */
  predicate LastHitAt(cs: seq<Hittable>, n: nat, i: int, r: Ray, tMin: real, tMax: Bound, o: Oracles)
    requires n <= |cs|
  {
    && 0 <= i < n
    && Scan(cs, n, r, tMin, tMax, o) == Hit(cs[i], r, tMin, Closest(Scan(cs, i, r, tMin, tMax, o), tMax), o)
    && forall j :: i < j < n ==> Hit(cs[j], r, tMin, Closest(Scan(cs, j, r, tMin, tMax, o), tMax), o).None?
  }

  /** On a hit, the record is that of the last child that reported a hit,
      each child having been asked up to the closest `t` found before it. */
  lemma {:induction false} ScanLastHit(cs: seq<Hittable>, n: nat, r: Ray, tMin: real, tMax: Bound, o: Oracles)
    requires n <= |cs|
    requires Scan(cs, n, r, tMin, tMax, o).Some?
    ensures exists i :: LastHitAt(cs, n, i, r, tMin, tMax, o)
  {
    var best := Scan(cs, n - 1, r, tMin, tMax, o);
    var here := Hit(cs[n - 1], r, tMin, Closest(best, tMax), o);
    if here.None? {
      ScanLastHit(cs, n - 1, r, tMin, tMax, o);
      var i :| LastHitAt(cs, n - 1, i, r, tMin, tMax, o);
      assert LastHitAt(cs, n, i, r, tMin, tMax, o);
    } else {
      assert LastHitAt(cs, n, n - 1, r, tMin, tMax, o);
    }
  }

  /** Spheres and tori accept only `t < t_max`. */
  predicate Strict(h: Hittable)
  {
    h.SphereObj? || h.TorusObj?
  }

  /** A strict child never reports a `t` equal to the bound. */
  lemma StrictBelow(h: Hittable, r: Ray, tMin: real, tMax: Bound, o: Oracles)
    requires Strict(h)
    ensures Hit(h, r, tMin, tMax, o).Some? ==> Below(Hit(h, r, tMin, tMax, o).value.t, tMax)
  {
  }

  /** A tie with a strict child keeps the record already held: the child's
      query is bounded by the held `t`, and it reports only smaller ones. */
  lemma {:induction false} StrictTieKeeps(cs: seq<Hittable>, n: nat, r: Ray, tMin: real, tMax: Bound, o: Oracles)
    requires n < |cs| && Strict(cs[n])
    requires Scan(cs, n, r, tMin, tMax, o).Some?
    ensures var held := Scan(cs, n, r, tMin, tMax, o).value;
      var next := Scan(cs, n + 1, r, tMin, tMax, o).value;
      next == held || next.t < held.t
  {
    StrictBelow(cs[n], r, tMin, Closest(Scan(cs, n, r, tMin, tMax, o), tMax), o);
  }

  /** A tie with a triangle replaces the record held: a triangle whose hit
      lies exactly at the held `t` is accepted under the inclusive bound. */
  lemma {:induction false} TriangleTieReplaces(cs: seq<Hittable>, n: nat, r: Ray, tMin: real, tMax: Bound, o: Oracles)
    requires n < |cs| && cs[n].TriangleObj?
    requires Scan(cs, n, r, tMin, tMax, o).Some?
    requires TriangleHit(cs[n].triangle, r, tMin, tMax, o).Some?
    requires TriangleHit(cs[n].triangle, r, tMin, tMax, o).value.t == Scan(cs, n, r, tMin, tMax, o).value.t
    ensures Scan(cs, n + 1, r, tMin, tMax, o) == TriangleHit(cs[n].triangle, r, tMin, tMax, o)
  {
    TriangleKeepsTie(cs[n].triangle, r, tMin, tMax, o);
  }

  /** Narrowing the bound of a strict child keeps a hit below the narrower
      bound, and a hit under the narrower bound is the hit under the wider. */
  lemma {:induction false} StrictNarrow(h: Hittable, r: Ray, tMin: real, wide: Bound, narrow: Bound, o: Oracles)
    requires IsSqrt(o.sqrt) && Strict(h) && Tighter(narrow, wide)
    ensures Hit(h, r, tMin, narrow, o).Some? ==> Hit(h, r, tMin, wide, o) == Hit(h, r, tMin, narrow, o)
    ensures Hit(h, r, tMin, wide, o).Some? && Below(Hit(h, r, tMin, wide, o).value.t, narrow) ==>
      Hit(h, r, tMin, narrow, o) == Hit(h, r, tMin, wide, o)
  {
    if h.SphereObj? {
      SphereNarrow(h.sphere, r, tMin, wide, narrow, o);
    }
  }

  /** With only strict children (spheres and tori) and a true square root,
      the list reports the nearest of the children's own hits in range, and
      its record is one of them. */
  lemma {:induction false} ListNearest(cs: seq<Hittable>, r: Ray, tMin: real, tMax: Bound, o: Oracles)
    requires IsSqrt(o.sqrt)
    requires forall i :: 0 <= i < |cs| ==> Strict(cs[i])
    ensures forall i :: 0 <= i < |cs| && Hit(cs[i], r, tMin, tMax, o).Some? ==>
      ListHit(cs, r, tMin, tMax, o).Some? && ListHit(cs, r, tMin, tMax, o).value.t <= Hit(cs[i], r, tMin, tMax, o).value.t
    ensures ListHit(cs, r, tMin, tMax, o).Some? ==>
      exists i :: 0 <= i < |cs| && ListHit(cs, r, tMin, tMax, o) == Hit(cs[i], r, tMin, tMax, o)
  {
    ScanNearest(cs, |cs|, r, tMin, tMax, o);
  }

  lemma {:induction false} ScanNearest(cs: seq<Hittable>, n: nat, r: Ray, tMin: real, tMax: Bound, o: Oracles)
    requires IsSqrt(o.sqrt)
    requires n <= |cs|
    requires forall i :: 0 <= i < |cs| ==> Strict(cs[i])
    ensures forall i :: 0 <= i < n && Hit(cs[i], r, tMin, tMax, o).Some? ==>
      Scan(cs, n, r, tMin, tMax, o).Some? && Scan(cs, n, r, tMin, tMax, o).value.t <= Hit(cs[i], r, tMin, tMax, o).value.t
    ensures Scan(cs, n, r, tMin, tMax, o).Some? ==>
      exists i :: 0 <= i < n && Scan(cs, n, r, tMin, tMax, o) == Hit(cs[i], r, tMin, tMax, o)
  {
    if n > 0 {
      ScanNearest(cs, n - 1, r, tMin, tMax, o);
      var best := Scan(cs, n - 1, r, tMin, tMax, o);
      var bound := Closest(best, tMax);
      ScanInRange(cs, n - 1, r, tMin, tMax, o);
      assert Tighter(bound, tMax);
      StrictNarrow(cs[n - 1], r, tMin, tMax, bound, o);
      StrictBelow(cs[n - 1], r, tMin, bound, o);
      var here := Hit(cs[n - 1], r, tMin, bound, o);
      if here.Some? {
        assert Scan(cs, n, r, tMin, tMax, o) == Hit(cs[n - 1], r, tMin, tMax, o);
      }
    }
  }

  /** `cube::hit` answers exactly as the list of its triangles. */
  lemma CubeHitIsListHit(p1: Vec3, p2: Vec3, p3: Vec3, m: Material, r: Ray, tMin: real, tMax: Bound, o: Oracles)
    ensures Hit(MakeCube(p1, p2, p3, m, o), r, tMin, tMax, o) == ListHit(MakeCube(p1, p2, p3, m, o).faces, r, tMin, tMax, o)
  {
  }
}
