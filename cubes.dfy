/** `cube.h`: a box given by three corners `p1`, `p2`, `p3` (`p1` above
    `p2`, `p3` beside `p2`), built as twelve triangles that share the cube's
    material.  The constructor fills `corners[8]` and `triangles[12]` with a
    loop driven by index arithmetic; `cube::hit` delegates to the list of
    the twelve triangles (see `Geometry`). */
module Cubes {
  import opened Numerics
  import opened VectorAlgebra
  import opened Environment
  import opened Materials
  import opened Triangles

  /** `back = unit_vector(cross(up, side))`, scaled by `side.length()`. */
  function Back(p1: Vec3, p2: Vec3, p3: Vec3, o: Oracles): Vec3
  {
    var up, side := Sub(p1, p2), Sub(p3, p2);
    Scale(Length(side, o.sqrt), o.unitVector(Cross(up, side)))
  }

  /** The eight corners: the top face `p1, p1 + side, p1 + side + back,
      p1 + back`, then the bottom face `p2, p3, p3 + back, p2 + back`. */
  function CubeCorners(p1: Vec3, p2: Vec3, p3: Vec3, o: Oracles): (cs: seq<Vec3>)
    ensures |cs| == 8
  {
    var side, back := Sub(p3, p2), Back(p1, p2, p3, o);
    [p1, Add(p1, side), Add(Add(p1, side), back), Add(p1, back), p2, p3, Add(p3, back), Add(p2, back)]
  }

  /** `s`: the third bottom corner of a side face, wrapping from 7 to 4. */
  function SideS(j: int): int
  {
    if 5 + j < 8 then 5 + j else 4
  }

  /** `c`: the second top corner of an odd triangle, wrapping from 2 to 0. */
  function SideC(j: int): int
  {
    if 1 + j < 3 then 1 + j else 0
  }

  /** The normal the loop computes for slot `i` before the sign flip:
      `unit_vector(cross(a, b))` with the two edges the source picks. */
  function SideNormal(cs: seq<Vec3>, i: int, o: Oracles): Vec3
    requires |cs| == 8 && 0 <= i < 8
  {
    if i % 2 == 0 then
      var j := i / 2;
      o.unitVector(Cross(Sub(cs[SideS(j)], cs[4 + j]), Sub(cs[0 + j], cs[4 + j])))
    else
      var j := (i - 1) / 2;
      o.unitVector(Cross(Sub(cs[0 + j], cs[(1 + j) % 4]), Sub(cs[SideS(j)], cs[(1 + j) % 4])))
  }

  /** The side triangle the loop stores at index `i`. */
  function SideTriangle(cs: seq<Vec3>, i: int, m: Material, o: Oracles): Triangle
    requires |cs| == 8 && 0 <= i < 8
  {
    var n := if i > 1 then Neg(SideNormal(cs, i, o)) else SideNormal(cs, i, o);
    if i % 2 == 0 then
      var j := i / 2;
      MakeTriangleWithNormal(cs[0 + j], cs[4 + j], cs[SideS(j)], n, m)
    else
      var j := (i - 1) / 2;
      MakeTriangleWithNormal(cs[0 + j], cs[SideC(j)], cs[SideS(j)], n, m)
  }

  /** The eight side triangles in slot order. */
  function SideTriangles(cs: seq<Vec3>, m: Material, o: Oracles): (ts: seq<Triangle>)
    requires |cs| == 8
    ensures |ts| == 8
  {
    seq(8, i requires 0 <= i < 8 => SideTriangle(cs, i, m, o))
  }

  /** The normal of the top face, `unit_vector(cross(c1 - c0, c3 - c0))`. */
  function TopNormal(cs: seq<Vec3>, o: Oracles): Vec3
    requires |cs| == 8
  {
    o.unitVector(Cross(Sub(cs[1], cs[0]), Sub(cs[3], cs[0])))
  }

  /** The twelve triangles in their slots: eight side triangles, then two
      top triangles with the top normal and two bottom triangles with its
      negation. */
  function CubeTriangles(p1: Vec3, p2: Vec3, p3: Vec3, m: Material, o: Oracles): (ts: seq<Triangle>)
    ensures |ts| == 12
  {
    var cs := CubeCorners(p1, p2, p3, o);
    var n := TopNormal(cs, o);
    SideTriangles(cs, m, o)
      + [ MakeTriangleWithNormal(cs[3], cs[0], cs[1], n, m),
          MakeTriangleWithNormal(cs[3], cs[2], cs[1], n, m),
          MakeTriangleWithNormal(cs[7], cs[4], cs[5], Neg(n), m),
          MakeTriangleWithNormal(cs[7], cs[6], cs[5], Neg(n), m) ]
  }

  /** The constructor `cube(p1, p2, p3, m)`: fills `corners[8]`, then
      `triangles[12]` slot by slot; `writes` logs the slots in the order
      they are written, so each slot is written exactly once. */
  method BuildCube(p1: Vec3, p2: Vec3, p3: Vec3, m: Material, o: Oracles)
    returns (triangles: array<Triangle>, ghost writes: seq<int>)
    ensures fresh(triangles)
    ensures triangles[..] == CubeTriangles(p1, p2, p3, m, o)
    ensures writes == seq(12, k => k)
  {
    var up := Sub(p1, p2);
    var side := Sub(p3, p2);
    var back := o.unitVector(Cross(up, side));
    back := Scale(Length(side, o.sqrt), back);
    var corners := new Vec3[8] [p1, Add(p1, side), Add(Add(p1, side), back), Add(p1, back), p2, p3, Add(p3, back), Add(p2, back)];
    ghost var cs := CubeCorners(p1, p2, p3, o);
    assert corners[..] == cs;
    triangles := new Triangle[12];
    writes := FillSides(corners, triangles, m, o);
    ghost var capWrites := FillCaps(corners, triangles, m, o);
    writes := writes + capWrites;
    assert triangles[..] == triangles[..8] + triangles[8..];
  }

  /** The constructor's loop over the eight side triangles. */
  method FillSides(corners: array<Vec3>, triangles: array<Triangle>, m: Material, o: Oracles)
    returns (ghost writes: seq<int>)
    requires corners.Length == 8 && triangles.Length == 12
    modifies triangles
    ensures triangles[..8] == SideTriangles(corners[..], m, o)
    ensures triangles[8..] == old(triangles[8..])
    ensures writes == seq(8, k => k)
  {
    ghost var sides := SideTriangles(corners[..], m, o);
    writes := [];
    for i := 0 to 8
      invariant triangles[..i] == sides[..i]
      invariant triangles[8..] == old(triangles[8..])
      invariant writes == seq(i, k => k)
    {
      var t := SideSlot(corners, i, m, o);
      assert t == sides[i];
      triangles[i] := t;
      writes := writes + [i];
    }
  }

  /** The top face (slots 8 and 9) and the bottom face (slots 10 and 11),
      the bottom with the negated top normal. */
  method FillCaps(corners: array<Vec3>, triangles: array<Triangle>, m: Material, o: Oracles)
    returns (ghost writes: seq<int>)
    requires corners.Length == 8 && triangles.Length == 12
    modifies triangles
    ensures triangles[..8] == old(triangles[..8])
    ensures var cs, n := corners[..], TopNormal(corners[..], o);
      triangles[8..] == [ MakeTriangleWithNormal(cs[3], cs[0], cs[1], n, m),
                          MakeTriangleWithNormal(cs[3], cs[2], cs[1], n, m),
                          MakeTriangleWithNormal(cs[7], cs[4], cs[5], Neg(n), m),
                          MakeTriangleWithNormal(cs[7], cs[6], cs[5], Neg(n), m) ]
    ensures writes == [8, 9, 10, 11]
  {
    var a := Sub(corners[1], corners[0]);
    var b := Sub(corners[3], corners[0]);
    var n := o.unitVector(Cross(a, b));
    triangles[8] := MakeTriangleWithNormal(corners[3], corners[0], corners[1], n, m);
    triangles[9] := MakeTriangleWithNormal(corners[3], corners[2], corners[1], n, m);
    triangles[10] := MakeTriangleWithNormal(corners[7], corners[4], corners[5], Neg(n), m);
    triangles[11] := MakeTriangleWithNormal(corners[7], corners[6], corners[5], Neg(n), m);
    writes := [8, 9, 10, 11];
  }

  /** One pass of the constructor's loop: the triangle for slot `i`. */
  method SideSlot(corners: array<Vec3>, i: int, m: Material, o: Oracles) returns (t: Triangle)
    requires corners.Length == 8 && 0 <= i < 8
    ensures t == SideTriangle(corners[..], i, m, o)
  {
    var a, b, n;
    if i % 2 == 0 {
      var j := i / 2;
      var s := if 5 + j < 8 then 5 + j else 4;
      a := Sub(corners[s], corners[4 + j]);
      b := Sub(corners[0 + j], corners[4 + j]);
      n := o.unitVector(Cross(a, b));
      n := if i > 1 then Neg(n) else n;
      t := MakeTriangleWithNormal(corners[0 + j], corners[4 + j], corners[s], n, m);
    } else {
      var j := (i - 1) / 2;
      var s := if 5 + j < 8 then 5 + j else 4;
      var c := if 1 + j < 3 then 1 + j else 0;
      a := Sub(corners[0 + j], corners[(1 + j) % 4]);
      b := Sub(corners[s], corners[(1 + j) % 4]);
      n := o.unitVector(Cross(a, b));
      n := if i > 1 then Neg(n) else n;
      t := MakeTriangleWithNormal(corners[0 + j], corners[c], corners[s], n, m);
    }
  }

  /** Every index the side loop computes (`0+j`, `4+j`, `s`, `c` and
      `(1+j) % 4`, for `j` from 0 to 3) lies in 0..7. */
  lemma CubeIndicesInRange(j: int)
    requires 0 <= j < 4
    ensures 0 <= 0 + j <= 7 && 0 <= 4 + j <= 7 && 4 <= SideS(j) <= 7
    ensures 0 <= SideC(j) <= 2 && 0 <= (1 + j) % 4 <= 3
  {
  }

  /** A side triangle's normal is the computed normal negated exactly in
      the slots after the first two. */
  lemma SideNormalSign(cs: seq<Vec3>, i: int, m: Material, o: Oracles)
    requires |cs| == 8 && 0 <= i < 8
    ensures i > 1 ==> SideTriangle(cs, i, m, o).normal == Neg(SideNormal(cs, i, o))
    ensures i <= 1 ==> SideTriangle(cs, i, m, o).normal == SideNormal(cs, i, o)
  {
  }

  /** The odd triangles take `corners[c]` as their second vertex while
      their normal is built around `corners[(1+j) % 4]`; the two indices
      differ only for `j = 2`, where they are 0 and 3. */
  lemma OddCornerMismatch(j: int)
    requires 0 <= j < 4
    ensures SideC(j) != (1 + j) % 4 <==> j == 2
    ensures j == 2 ==> SideC(j) == 0 && (1 + j) % 4 == 3
  {
  }

  /** The odd triangle in slot `2j + 1` has `corners[c]` as its second vertex. */
  lemma OddTriangleVertex(cs: seq<Vec3>, j: int, m: Material, o: Oracles)
    requires |cs| == 8 && 0 <= j < 4
    ensures SideTriangle(cs, 2 * j + 1, m, o).p2 == cs[SideC(j)]
  {
    assert (2 * j + 1 - 1) / 2 == j;
  }

  /** The bottom triangles carry the negation of the top triangles' shared
      normal. */
  lemma BottomOppositeTop(p1: Vec3, p2: Vec3, p3: Vec3, m: Material, o: Oracles)
    ensures var ts := CubeTriangles(p1, p2, p3, m, o);
      && ts[8].normal == ts[9].normal
      && ts[10].normal == Neg(ts[8].normal)
      && ts[11].normal == Neg(ts[9].normal)
  {
  }

  /** All twelve triangles share the cube's material. */
  lemma CubeSharedMaterial(p1: Vec3, p2: Vec3, p3: Vec3, m: Material, o: Oracles)
    ensures forall k :: 0 <= k < 12 ==> CubeTriangles(p1, p2, p3, m, o)[k].mat == m
  {
  }

  /** Each top corner sits at `up = p1 - p2` above the matching bottom
      corner. */
  lemma CubeTopAboveBottom(p1: Vec3, p2: Vec3, p3: Vec3, o: Oracles)
    ensures var cs := CubeCorners(p1, p2, p3, o);
      forall k :: 0 <= k < 4 ==> Sub(cs[k], cs[k + 4]) == Sub(p1, p2)
  {
  }

  /** With a true `unit_vector`, `back` is orthogonal to `up` and `side`
      whenever they are not parallel. */
  lemma {:induction false} CubeBackOrthogonal(p1: Vec3, p2: Vec3, p3: Vec3, o: Oracles)
    requires Sound(o)
    requires Cross(Sub(p1, p2), Sub(p3, p2)) != Zero
    ensures Dot(Back(p1, p2, p3, o), Sub(p1, p2)) == 0.0
    ensures Dot(Back(p1, p2, p3, o), Sub(p3, p2)) == 0.0
  {
    var up, side := Sub(p1, p2), Sub(p3, p2);
    var c := Cross(up, side);
    UnitVectorIsUnit(c, o.unitVector, o.sqrt);
    var k :| 0.0 < k && o.unitVector(c) == Scale(k, c);
    var len := Length(side, o.sqrt);
    assert Back(p1, p2, p3, o) == Scale(len * k, c);
    CrossOrthogonal(up, side);
    DotScaleLeft(len * k, c, up);
    DotScaleLeft(len * k, c, side);
  }

  /** The corner layout: slot 0 is `p1`, slots 4 and 5 are `p2` and `p3`,
      the first top edge and the first bottom edge are both `side`, and the
      top and bottom faces are each spanned by `side` and `back`. */
  lemma CubeCornerLayout(p1: Vec3, p2: Vec3, p3: Vec3, o: Oracles)
    ensures var cs := CubeCorners(p1, p2, p3, o);
      var side, back := Sub(p3, p2), Back(p1, p2, p3, o);
      && cs[0] == p1 && cs[4] == p2 && cs[5] == p3
      && Sub(cs[1], cs[0]) == side && Sub(cs[5], cs[4]) == side
      && Sub(cs[2], cs[1]) == back && Sub(cs[3], cs[0]) == back
      && Sub(cs[6], cs[5]) == back && Sub(cs[7], cs[4]) == back
  {
  }
}
