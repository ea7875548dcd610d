/** `torus.h`: a torus of radii `R1` (centre to tube) and `R2` (tube),
    always placed at the origin with the z-axis as its axis of symmetry,
    since `torus::hit` never reads the stored centre and normal.  The hit
    builds a quartic in `t`, lets the solver find its real roots, compacts
    the roots above `1e-4` to the front of `solutions[4]` in place, takes
    their minimum, and checks that one candidate against the open range. */
module Tori {
  import opened Numerics
  import opened VectorAlgebra
  import opened Environment
  import opened Rays
  import opened Materials

  datatype Torus = Torus(center: Vec3, normal: Vec3, r1: real, r2: real, mat: Material)

  /** Roots at or below this are discarded as self-intersections. */
  const Epsilon: real := 0.0001

  /** The intermediate values `g` to `l` of `torus::hit`. */
  datatype Terms = Terms(g: real, h: real, i: real, j: real, k: real, l: real)

  function TorusTerms(r1: real, r2: real, r: Ray): Terms
  {
    Terms(
      4.0 * r1 * r1 * PlanarDot(r.direction, r.direction),
      8.0 * r1 * r1 * PlanarDot(r.origin, r.direction),
      4.0 * r1 * r1 * PlanarDot(r.origin, r.origin),
      SquaredLength(r.direction),
      2.0 * Dot(r.origin, r.direction),
      SquaredLength(r.origin) + (r1 * r1 - r2 * r2))
  }

  /** `u.x v.x + u.y v.y`: the dot product of the projections onto the
      plane of the torus. */
  function PlanarDot(u: Vec3, v: Vec3): real
  {
    u.x * v.x + u.y * v.y
  }

  /** The coefficients `[j^2, 2jk, 2jl + k^2 - g, 2kl - h, l^2 - i]`
      handed to the quartic solver, built from the ray and the radii only. */
  function TorusCoefficients(r1: real, r2: real, r: Ray): (cs: seq<real>)
    ensures |cs| == 5
  {
    QuarticOf(TorusTerms(r1, r2, r))
  }

  function QuarticOf(tm: Terms): (cs: seq<real>)
    ensures |cs| == 5
  {
    [tm.j * tm.j, 2.0 * tm.j * tm.k, 2.0 * tm.j * tm.l + tm.k * tm.k - tm.g, 2.0 * tm.k * tm.l - tm.h, tm.l * tm.l - tm.i]
  }

  /** The implicit equation of the torus about the z-axis:
      `(|p|^2 + R1^2 - R2^2)^2 - 4 R1^2 (x^2 + y^2)`, zero on its surface. */
  function Implicit(tor: Torus, p: Vec3): real
  {
    var q := SquaredLength(p) + tor.r1 * tor.r1 - tor.r2 * tor.r2;
    q * q - 4.0 * tor.r1 * tor.r1 * PlanarDot(p, p)
  }

  /** The roots above `Epsilon`, in their original order. */
  function PositiveRoots(s: seq<real>): (p: seq<real>)
    ensures |p| <= |s|
    ensures forall x :: x in p <==> x in s && x > Epsilon
  {
    if |s| == 0 then []
    else
      assert s == s[..|s| - 1] + [s[|s| - 1]];
      PositiveRoots(s[..|s| - 1]) + (if s[|s| - 1] > Epsilon then [s[|s| - 1]] else [])
  }

  /** The minimum, found by scanning left to right and replacing the
      candidate by any strictly smaller value. */
  function SeqMin(s: seq<real>): (m: real)
    requires |s| > 0
    ensures m in s
    ensures forall x :: x in s ==> m <= x
  {
    if |s| == 1 then s[0]
    else
      assert s == s[..|s| - 1] + [s[|s| - 1]];
      var m := SeqMin(s[..|s| - 1]);
      if s[|s| - 1] < m then s[|s| - 1] else m
  }

  /** The one parameter `torus::hit` goes on to test: the least root above
      `Epsilon`, or `None` when the solver found no root or none above it. */
  function TorusCandidate(tor: Torus, r: Ray, o: Oracles): Option<real>
  {
    var roots := o.solveQuartic(TorusCoefficients(tor.r1, tor.r2, r));
    if |roots| == 0 then None
    else
      var pos := PositiveRoots(roots);
      if |pos| == 0 then None else Some(SeqMin(pos))
  }

  /** `a = 1 - R1 / sqrt(x^2 + y^2)` and the normal `unit_vector(a x, a y, z)`.
      On the axis the division yields NaN in the source; the model then
      returns the unspecified `unit_vector` of the zero vector. */
  function TorusNormal(p: Vec3, r1: real, o: Oracles): Vec3
  {
    var rho := o.sqrt(p.x * p.x + p.y * p.y);
    if rho == 0.0 then o.unitVector(Zero)
    else
      var a := 1.0 - r1 / rho;
      o.unitVector(Vec3(a * p.x, a * p.y, p.z))
  }

  /** `torus::hit(r, t_min, t_max, rec)`: both ends of the range are
      excluded. */
  function TorusHit(tor: Torus, r: Ray, tMin: real, tMax: Bound, o: Oracles): (res: Option<HitRecord>)
    ensures res.Some? ==> tMin < res.value.t && Below(res.value.t, tMax)
    ensures res.Some? ==> res.value.mat == tor.mat && res.value.p == PointAt(r, res.value.t)
  {
    var c := TorusCandidate(tor, r, o);
    if c.None? then None
    else if Below(c.value, tMax) && c.value > tMin then
      var p := PointAt(r, c.value);
      Some(HitRecord(c.value, p, TorusNormal(p, tor.r1, o), tor.mat))
    else None
  }

  /** The in-place compaction loop: afterwards the first `numPos` slots hold
      the roots above `Epsilon` in their original order, and the slots from
      `n` on are untouched. */
  method CompactPositive(solutions: array<real>, n: nat) returns (numPos: nat)
    requires n <= solutions.Length
    modifies solutions
    ensures numPos <= n
    ensures solutions[..numPos] == PositiveRoots(old(solutions[..n]))
    ensures solutions[n..] == old(solutions[n..])
  {
    ghost var s := solutions[..n];
    ghost var rest := solutions[n..];
    numPos := 0;
    var c := 0;
    while c < n
      invariant 0 <= numPos <= c <= n
      invariant solutions[..numPos] == PositiveRoots(s[..c])
      invariant solutions[c..n] == s[c..]
      invariant solutions[n..] == rest
    {
      assert s[..c + 1][..c] == s[..c];
      assert solutions[c] == s[c];
      if solutions[c] > Epsilon {
        solutions[numPos] := solutions[c];
        numPos := numPos + 1;
      }
      c := c + 1;
    }
    assert s[..n] == s;
  }

  /** The minimum-finding loop over the first `n` slots. */
  method MinOf(solutions: array<real>, n: nat) returns (t: real)
    requires 0 < n <= solutions.Length
    ensures t == SeqMin(solutions[..n])
  {
    t := solutions[0];
    var c := 1;
    assert solutions[..1] == [solutions[0]];
    while c < n
      invariant 1 <= c <= n
      invariant t == SeqMin(solutions[..c])
    {
      assert solutions[..c + 1][..c] == solutions[..c];
      if solutions[c] < t {
        t := solutions[c];
      }
      c := c + 1;
    }
  }

  /** `torus::hit` as the source runs it, on a four-slot array; the solver
      writes at most four roots. */
  method TorusHitInPlace(tor: Torus, r: Ray, tMin: real, tMax: Bound, o: Oracles) returns (res: Option<HitRecord>)
    requires |o.solveQuartic(TorusCoefficients(tor.r1, tor.r2, r))| <= 4
    ensures res == TorusHit(tor, r, tMin, tMax, o)
  {
    var roots := o.solveQuartic(TorusCoefficients(tor.r1, tor.r2, r));
    var solutions := new real[4];
    var numRealRoots := |roots|;
    forall c | 0 <= c < numRealRoots {
      solutions[c] := roots[c];
    }
    assert solutions[..numRealRoots] == roots;
    if numRealRoots == 0 {
      return None;
    }
    var numPosRoots := CompactPositive(solutions, numRealRoots);
    if numPosRoots == 0 {
      return None;
    }
    var t := MinOf(solutions, numPosRoots);
    if Below(t, tMax) && t > tMin {
      var p := PointAt(r, t);
      res := Some(HitRecord(t, p, TorusNormal(p, tor.r1, o), tor.mat));
    } else {
      res := None;
    }
  }

  /** The solver finding no real root, or no root above `Epsilon`, is a
      miss; otherwise the candidate is the least root above `Epsilon`. */
  lemma TorusCandidateCases(tor: Torus, r: Ray, o: Oracles)
    ensures var roots := o.solveQuartic(TorusCoefficients(tor.r1, tor.r2, r));
      TorusCandidate(tor, r, o).None? <==> forall x :: x in roots ==> x <= Epsilon
    ensures var roots := o.solveQuartic(TorusCoefficients(tor.r1, tor.r2, r));
      TorusCandidate(tor, r, o).Some? ==>
        var t := TorusCandidate(tor, r, o).value;
        t in roots && t > Epsilon && forall x :: x in roots && x > Epsilon ==> t <= x
  {
    var roots := o.solveQuartic(TorusCoefficients(tor.r1, tor.r2, r));
    if |roots| != 0 && |PositiveRoots(roots)| != 0 {
      assert PositiveRoots(roots)[0] in roots;
    }
  }

  /** The candidate is fixed before the range test: a root above `Epsilon`
      at or below `t_min` makes the whole hit a miss, even when a larger
      root lies inside the range. */
  lemma {:induction false} TorusCandidateFixed(tor: Torus, r: Ray, tMin: real, tMax: Bound, o: Oracles, x: real)
    requires x in o.solveQuartic(TorusCoefficients(tor.r1, tor.r2, r))
    requires Epsilon < x <= tMin
    ensures TorusHit(tor, r, tMin, tMax, o).None?
  {
    TorusCandidateCases(tor, r, o);
  }

  /** A hit reports the least root above `Epsilon`, strictly inside the
      range, at the point on the ray, with the torus's material. */
  lemma {:induction false} TorusHitRecord(tor: Torus, r: Ray, tMin: real, tMax: Bound, o: Oracles)
    requires TorusHit(tor, r, tMin, tMax, o).Some?
    ensures var rec := TorusHit(tor, r, tMin, tMax, o).value;
      var roots := o.solveQuartic(TorusCoefficients(tor.r1, tor.r2, r));
      && rec.t in roots && rec.t > Epsilon
      && (forall x :: x in roots && x > Epsilon ==> rec.t <= x)
      && tMin < rec.t && Below(rec.t, tMax)
      && rec.p == PointAt(r, rec.t) && rec.mat == tor.mat
  {
    TorusCandidateCases(tor, r, o);
  }

  /** `torus::hit` never reads the centre or the normal it stores. */
  lemma TorusIgnoresPlacement(tor: Torus, center: Vec3, normal: Vec3, r: Ray, tMin: real, tMax: Bound, o: Oracles)
    ensures TorusHit(tor.(center := center, normal := normal), r, tMin, tMax, o) == TorusHit(tor, r, tMin, tMax, o)
  {
    var moved := tor.(center := center, normal := normal);
    assert moved.r1 == tor.r1 && moved.r2 == tor.r2 && moved.mat == tor.mat;
  }
}
