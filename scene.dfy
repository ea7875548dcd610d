/** `random_scene` of `main.cc`: a ground sphere, one small sphere per cell
    of the 22 x 22 grid `a, b` in `[-11, 11)` unless it lands within 0.9 of
    `(4, 2, 0)`, and three large spheres, written with a running index into
    an array of 501 slots. */
module Scene {
  import opened Numerics
  import opened VectorAlgebra
  import opened Environment
  import opened Rays
  import opened Materials
  import opened Spheres
  import opened Geometry

  /** The slots allocated: `n + 1` with `n = 500`. */
  const Slots: int := 501

  /** The random values one grid cell consumes: the material choice, the
      two offsets of the centre, and up to six values for the material. */
  datatype CellDraws = CellDraws(chooseMat: Unit01, dx: Unit01, dz: Unit01,
    u1: Unit01, u2: Unit01, u3: Unit01, u4: Unit01, u5: Unit01, u6: Unit01)

  const Ground: Hittable := SphereObj(Sphere(Vec3(0.0, -1000.0, 0.0), 1000.0, Lambertian(Vec3(0.5, 0.5, 0.5))))

  /** The three large spheres added after the grid. */
  function Large(): (ls: seq<Hittable>)
    ensures |ls| == 3
  {
    [ SphereObj(Sphere(Vec3(0.0, 1.0, 0.0), 1.0, Dielectric(1.5))),
      SphereObj(Sphere(Vec3(-4.0, 1.0, 0.0), 1.0, Lambertian(Vec3(0.4, 0.2, 0.1)))),
      SphereObj(Sphere(Vec3(4.0, 1.0, 0.0), 1.0, MakeMetal(Vec3(0.7, 0.6, 0.0), 0.0))) ]
  }

  /** The sphere of cell `(a, b)`: diffuse below 0.8, metal below 0.95,
      glass otherwise; none when its centre is within 0.9 of `(4, 2, 0)`. */
  function Cell(a: int, b: int, d: CellDraws, o: Oracles): (cell: seq<Hittable>)
    ensures |cell| <= 1
    ensures forall k :: 0 <= k < |cell| ==> cell[k].SphereObj? && cell[k].sphere.radius == 0.2
  {
    var center := CellCenter(a, b, d);
    if Kept(center, o) then [SphereObj(Sphere(center, 0.2, CellMaterial(d)))]
    else []
  }

  /** `vec3(a + 0.9 r1, 0.2, b + 0.9 r2)`. */
  function CellCenter(a: int, b: int, d: CellDraws): Vec3
  {
    Vec3(a as real + 0.9 * d.dx, 0.2, b as real + 0.9 * d.dz)
  }

  /** The test `(center - vec3(4, 2, 0)).length() > 0.9`. */
  predicate Kept(center: Vec3, o: Oracles)
  {
    Length(Sub(center, Vec3(4.0, 2.0, 0.0)), o.sqrt) > 0.9
  }

  /** The material drawn for a kept cell. */
  function CellMaterial(d: CellDraws): Material
  {
    if d.chooseMat < 0.8 then
      Lambertian(Vec3(d.u1 * d.u2, d.u3 * d.u4, d.u5 * d.u6))
    else if d.chooseMat < 0.95 then
      MakeMetal(Vec3(0.5 * (1.0 + d.u1), 0.5 * (1.0 + d.u2), 0.5 * (1.0 + d.u3)), 0.5 * d.u4)
    else
      Dielectric(1.5)
  }

  /** The spheres of the cells `(a, -11)` to `(a, -11 + cols - 1)`. */
  function Row(a: int, cols: nat, draws: (int, int) -> CellDraws, o: Oracles): (row: seq<Hittable>)
    ensures |row| <= cols
  {
    if cols == 0 then []
    else Row(a, cols - 1, draws, o) + Cell(a, -11 + cols - 1, draws(a, -11 + cols - 1), o)
  }

  /** The spheres of the first `rows` rows of the grid. */
  function Grid(rows: nat, draws: (int, int) -> CellDraws, o: Oracles): (grid: seq<Hittable>)
    ensures |grid| <= 22 * rows
  {
    if rows == 0 then []
    else Grid(rows - 1, draws, o) + Row(-11 + rows - 1, 22, draws, o)
  }

  /** The whole scene in the order the source writes it. */
  function SceneList(draws: (int, int) -> CellDraws, o: Oracles): seq<Hittable>
  {
    [Ground] + Grid(22, draws, o) + Large()
  }

  /** `random_scene`.  Each write is at the running index, which stays below
      `Slots`; the filled prefix is `SceneList`. */
  method RandomScene(draws: (int, int) -> CellDraws, o: Oracles) returns (list: array<Hittable>, size: nat)
    ensures fresh(list) && list.Length == Slots
    ensures size == |SceneList(draws, o)| && list[..size] == SceneList(draws, o)
  {
    var n := 500;
    list := new Hittable[n + 1](_ => Ground);
    list[0] := Ground;
    assert list[..1] == [Ground];
    var i := FillGrid(list, draws, o);
    size := FillLarge(list, i, draws, o);
  }

  /** The outer loop over `a`, after the ground sphere in slot 0. */
  method FillGrid(list: array<Hittable>, draws: (int, int) -> CellDraws, o: Oracles) returns (i: nat)
    requires list.Length == Slots && list[..1] == [Ground]
    modifies list
    ensures i == 1 + |Grid(22, draws, o)|
    ensures list[..i] == [Ground] + Grid(22, draws, o)
  {
    i := 1;
    for a := -11 to 11
      invariant i == 1 + |Grid(a + 11, draws, o)|
      invariant list[..i] == [Ground] + Grid(a + 11, draws, o)
    {
      i := FillRow(list, i, a, draws, o);
    }
  }

  /** The three writes after the grid. */
  method FillLarge(list: array<Hittable>, i: nat, draws: (int, int) -> CellDraws, o: Oracles) returns (size: nat)
    requires list.Length == Slots
    requires i == 1 + |Grid(22, draws, o)|
    requires list[..i] == [Ground] + Grid(22, draws, o)
    modifies list
    ensures size == |SceneList(draws, o)| && list[..size] == SceneList(draws, o)
  {
    assert i <= 1 + 22 * 22;
    ghost var prefix := list[..i];
    var large := Large();
    list[i] := large[0];
    list[i + 1] := large[1];
    list[i + 2] := large[2];
    assert list[..i + 3] == prefix + large;
    size := i + 3;
  }

  /** The inner loop over `b` for one row `a`: it extends the grid written
      so far by the spheres of row `a`. */
  method FillRow(list: array<Hittable>, start: nat, a: int, draws: (int, int) -> CellDraws, o: Oracles) returns (i: nat)
    requires -11 <= a < 11
    requires list.Length == Slots
    requires start == 1 + |Grid(a + 11, draws, o)|
    requires list[..start] == [Ground] + Grid(a + 11, draws, o)
    modifies list
    ensures i == 1 + |Grid(a + 12, draws, o)|
    ensures list[..i] == [Ground] + Grid(a + 12, draws, o)
  {
    assert |Grid(a + 11, draws, o)| <= 22 * (a + 11);
    ghost var prefix := list[..start];
    i := start;
    for b := -11 to 11
      invariant i == start + |Row(a, b + 11, draws, o)|
      invariant list[..i] == prefix + Row(a, b + 11, draws, o)
    {
      ghost var row := Row(a, b + 11, draws, o);
      i := WriteCell(list, i, a, b, draws(a, b), o);
      RowStep(a, b + 11, draws, o);
      Associate(prefix, row, Cell(a, b, draws(a, b), o));
    }
    GridStep(a + 11, draws, o);
    Associate([Ground], Grid(a + 11, draws, o), Row(a, 22, draws, o));
  }

  lemma GridStep(rows: nat, draws: (int, int) -> CellDraws, o: Oracles)
    ensures Grid(rows + 1, draws, o) == Grid(rows, draws, o) + Row(-11 + rows, 22, draws, o)
  {
  }

  lemma RowStep(a: int, cols: nat, draws: (int, int) -> CellDraws, o: Oracles)
    ensures Row(a, cols + 1, draws, o) == Row(a, cols, draws, o) + Cell(a, -11 + cols, draws(a, -11 + cols), o)
  {
  }

  lemma Associate(x: seq<Hittable>, y: seq<Hittable>, z: seq<Hittable>)
    ensures x + y + z == x + (y + z)
  {
  }

  /** One pass of the inner loop: the cell's sphere, if any, goes to slot
      `start`. */
  method WriteCell(list: array<Hittable>, start: nat, a: int, b: int, d: CellDraws, o: Oracles) returns (i: nat)
    requires start < list.Length
    modifies list
    ensures i == start + |Cell(a, b, d, o)|
    ensures list[..i] == old(list[..start]) + Cell(a, b, d, o)
  {
    var cell := Cell(a, b, d, o);
    i := start;
    if |cell| == 1 {
      list[i] := cell[0];
      i := i + 1;
    }
  }

  /** Every cell of a row holds a sphere of radius 0.2. */
  lemma {:induction false} RowSpheres(a: int, cols: nat, draws: (int, int) -> CellDraws, o: Oracles)
    ensures forall k :: 0 <= k < |Row(a, cols, draws, o)| ==>
      Row(a, cols, draws, o)[k].SphereObj? && Row(a, cols, draws, o)[k].sphere.radius == 0.2
  {
    if cols > 0 {
      RowSpheres(a, cols - 1, draws, o);
    }
  }

  /** Every object of the grid is a sphere of radius 0.2. */
  lemma {:induction false} GridSpheres(rows: nat, draws: (int, int) -> CellDraws, o: Oracles)
    ensures forall k :: 0 <= k < |Grid(rows, draws, o)| ==>
      Grid(rows, draws, o)[k].SphereObj? && Grid(rows, draws, o)[k].sphere.radius == 0.2
  {
    if rows > 0 {
      GridSpheres(rows - 1, draws, o);
      RowSpheres(-11 + rows - 1, 22, draws, o);
    }
  }

  /** The scene holds between 4 and `1 + 22 * 22 + 3 = 488` objects, all of
      them spheres; with a true square root it holds exactly 488, since no
      cell is ever dropped. */
  lemma SceneShape(draws: (int, int) -> CellDraws, o: Oracles)
    ensures 4 <= |SceneList(draws, o)| <= 488 < Slots
    ensures IsSqrt(o.sqrt) ==> |SceneList(draws, o)| == 488
    ensures forall k :: 0 <= k < |SceneList(draws, o)| ==> Strict(SceneList(draws, o)[k])
  {
    var grid := Grid(22, draws, o);
    GridSpheres(22, draws, o);
    if IsSqrt(o.sqrt) {
      GridFull(22, draws, o);
    }
    assert forall k :: 0 <= k < |SceneList(draws, o)| ==>
      SceneList(draws, o)[k] == (if k == 0 then Ground else if k <= |grid| then grid[k - 1] else Large()[k - 1 - |grid|]);
  }

  /** The exclusion test never fires: every centre has height 0.2, so it is
      at least 1.8 from `(4, 2, 0)`, more than 0.9.  Each cell adds one
      sphere. */
  lemma {:induction false} CellAlwaysKept(a: int, b: int, d: CellDraws, o: Oracles)
    requires IsSqrt(o.sqrt)
    ensures |Cell(a, b, d, o)| == 1
  {
    var v := Sub(CellCenter(a, b, d), Vec3(4.0, 2.0, 0.0));
    assert v.y == -1.8;
    SquareNonNegative(v.x);
    SquareNonNegative(v.z);
    assert SquaredLength(v) >= 3.24;
    SqrtFacts(o.sqrt, SquaredLength(v));
    RootAbove(o.sqrt(SquaredLength(v)), SquaredLength(v));
  }

  /** A non-negative root of a value above `0.81` is above `0.9`. */
  lemma RootAbove(root: real, x: real)
    requires 0.0 <= root && root * root == x && x > 0.81
    ensures root > 0.9
  {
    if root < 0.9 {
      SquareLess(root, 0.9);
    }
  }

  /** With a true square root, a row of `cols` cells holds `cols` spheres. */
  lemma {:induction false} RowFull(a: int, cols: nat, draws: (int, int) -> CellDraws, o: Oracles)
    requires IsSqrt(o.sqrt)
    ensures |Row(a, cols, draws, o)| == cols
  {
    if cols > 0 {
      RowFull(a, cols - 1, draws, o);
      CellAlwaysKept(a, -11 + cols - 1, draws(a, -11 + cols - 1), o);
    }
  }

  /** With a true square root, `rows` rows hold `22 * rows` spheres. */
  lemma {:induction false} GridFull(rows: nat, draws: (int, int) -> CellDraws, o: Oracles)
    requires IsSqrt(o.sqrt)
    ensures |Grid(rows, draws, o)| == 22 * rows
  {
    if rows > 0 {
      GridFull(rows - 1, draws, o);
      RowFull(-11 + rows - 1, 22, draws, o);
    }
  }

  /** Since every object is a sphere, the scene reports, for any ray and any
      range, the nearest of its spheres' hits. */
  lemma SceneNearest(draws: (int, int) -> CellDraws, r: Ray, tMin: real, tMax: Bound, o: Oracles)
    requires IsSqrt(o.sqrt)
    ensures var cs := SceneList(draws, o);
      && (forall i :: 0 <= i < |cs| && Hit(cs[i], r, tMin, tMax, o).Some? ==>
            ListHit(cs, r, tMin, tMax, o).Some? && ListHit(cs, r, tMin, tMax, o).value.t <= Hit(cs[i], r, tMin, tMax, o).value.t)
      && (ListHit(cs, r, tMin, tMax, o).Some? ==>
            exists i :: 0 <= i < |cs| && ListHit(cs, r, tMin, tMax, o) == Hit(cs[i], r, tMin, tMax, o))
  {
    SceneShape(draws, o);
    ListNearest(SceneList(draws, o), r, tMin, tMax, o);
  }
}
