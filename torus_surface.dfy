/** The torus of `torus.h` as a surface: the quartic that `torus::hit`
    hands to the solver is the torus's implicit equation along the ray, so
    with a sound solver every hit point lies on the torus. */
module TorusSurface {
  import opened Numerics
  import opened VectorAlgebra
  import opened Rays
  import opened Environment
  import opened Tori

  /** The quartic handed to the solver is the torus's implicit equation
      along the ray. */
  lemma {:induction false} TorusQuarticIsImplicit(tor: Torus, r: Ray, t: real)
    ensures Quartic(TorusCoefficients(tor.r1, tor.r2, r), t) == Implicit(tor, PointAt(r, t))
  {
    var tm := TorusTerms(tor.r1, tor.r2, r);
    var cs := QuarticOf(tm);
    var p := PointAt(r, t);
    var x, y := SquaredLength(p) + tor.r1 * tor.r1 - tor.r2 * tor.r2, 4.0 * tor.r1 * tor.r1 * PlanarDot(p, p);
    assert Quartic(cs, t) == x * x - y by {
      DistanceAlongRay(tor.r1, tor.r2, r, t);
      AxialAlongRay(tor.r1, tor.r2, r, t);
      HornerSquare(tm, t, x, y);
    }
  }

  /** Along the ray, `j t^2 + k t + l` is `|p|^2 + R1^2 - R2^2` at the
      point `p`. */
  lemma DistanceAlongRay(r1: real, r2: real, r: Ray, t: real)
    ensures var tm, p := TorusTerms(r1, r2, r), PointAt(r, t);
      tm.j * t * t + tm.k * t + tm.l == SquaredLength(p) + r1 * r1 - r2 * r2
  {
    SquaredLengthAddScaled(r.origin, r.direction, t);
  }

  /** Along the ray, `g t^2 + h t + i` is `4 R1^2 (x^2 + y^2)` at the
      point `p`. */
  lemma AxialAlongRay(r1: real, r2: real, r: Ray, t: real)
    ensures var tm, p := TorusTerms(r1, r2, r), PointAt(r, t);
      tm.g * t * t + tm.h * t + tm.i == 4.0 * r1 * r1 * PlanarDot(p, p)
  {
    var d, o, p := r.direction, r.origin, PointAt(r, t);
    var dd, od, oo := PlanarDot(d, d), PlanarDot(o, d), PlanarDot(o, o);
    assert PlanarDot(p, p) == dd * t * t + 2.0 * od * t + oo by {
      PlanarDotAlongRay(o, d, t);
    }
    ScaledQuadratic(4.0 * r1 * r1, 8.0 * r1 * r1, dd, od, oo, t, PlanarDot(p, p));
  }

  /** The squared distance from the axis along the ray, as a quadratic. */
  lemma PlanarDotAlongRay(o: Vec3, d: Vec3, t: real)
    ensures var p := Add(o, Scale(t, d));
      PlanarDot(p, p) == PlanarDot(d, d) * t * t + 2.0 * PlanarDot(o, d) * t + PlanarDot(o, o)
  {
  }

  /** Scaling `q = a t^2 + 2 b t + e` by `c`. */
  lemma ScaledQuadratic(c: real, c2: real, a: real, b: real, e: real, t: real, q: real)
    requires c2 == 2.0 * c
    requires q == a * t * t + 2.0 * b * t + e
    ensures c * q == c * a * t * t + c2 * b * t + c * e
  {
  }

  /** Horner's form of the coefficients is `x^2 - y` for
      `x = j t^2 + k t + l` and `y = g t^2 + h t + i`. */
  lemma HornerSquare(tm: Terms, t: real, x: real, y: real)
    requires x == tm.j * t * t + tm.k * t + tm.l
    requires y == tm.g * t * t + tm.h * t + tm.i
    ensures Quartic(QuarticOf(tm), t)
         == x * x - y
  {
    var cs := QuarticOf(tm);
    QuarticOfEntries(tm);
    HornerScalar(cs[0], cs[1], cs[2], cs[3], cs[4], tm.j, tm.k, tm.l, tm.g, tm.h, tm.i, t, x, y, Quartic(cs, t));
  }

  /** The entries of `QuarticOf`, one by one. */
  lemma QuarticOfEntries(tm: Terms)
    ensures var cs := QuarticOf(tm);
      && cs[0] == tm.j * tm.j && cs[1] == 2.0 * tm.j * tm.k
      && cs[2] == 2.0 * tm.j * tm.l + tm.k * tm.k - tm.g
      && cs[3] == 2.0 * tm.k * tm.l - tm.h && cs[4] == tm.l * tm.l - tm.i
  {
  }

  /** `HornerSquare` over named reals: the Horner evaluation of
      `[j^2, 2jk, 2jl + k^2 - g, 2kl - h, l^2 - i]` at `t` is `x^2 - y`. */
  lemma HornerScalar(c0: real, c1: real, c2: real, c3: real, c4: real,
                     j: real, k: real, l: real, g: real, h: real, i: real, t: real, x: real, y: real, q: real)
    requires c0 == j * j && c1 == 2.0 * j * k && c2 == 2.0 * j * l + k * k - g
    requires c3 == 2.0 * k * l - h && c4 == l * l - i
    requires x == j * t * t + k * t + l
    requires y == g * t * t + h * t + i
    requires q == (((c0 * t + c1) * t + c2) * t + c3) * t + c4
    ensures q == x * x - y
  {
    var u := j * t + k;
    var w := u * u;
    LinearInner(j, k, l, t, u, x);
    SquareOfLinear(j, k, t, u);
    HornerSubstitute(c0, c1, c2, c3, c4, t, w, j, k, l, g, h, i, q);
    HornerTail(w, j, k, l, g, h, i, t, u, x, y, q);
  }

  /** `j t^2 + k t + l = (j t + k) t + l`. */
  lemma LinearInner(j: real, k: real, l: real, t: real, u: real, x: real)
    requires u == j * t + k
    requires x == j * t * t + k * t + l
    ensures x == u * t + l
  {
  }

  /** `(j^2 t + 2 j k) t + k^2 = (j t + k)^2`. */
  lemma SquareOfLinear(j: real, k: real, t: real, u: real)
    requires u == j * t + k
    ensures (j * j * t + 2.0 * j * k) * t + k * k == u * u
  {
    assert u * u == (j * t) * (j * t) + 2.0 * (j * t) * k + k * k;
  }

  /** The coefficients of `QuarticOf`, written into Horner's form with the
      first two steps replaced by `w`. */
  lemma HornerSubstitute(c0: real, c1: real, c2: real, c3: real, c4: real, t: real,
                         w: real, j: real, k: real, l: real, g: real, h: real, i: real, q: real)
    requires q == (((c0 * t + c1) * t + c2) * t + c3) * t + c4
    requires c0 == j * j && c1 == 2.0 * j * k
    requires (j * j * t + 2.0 * j * k) * t + k * k == w
    requires c2 == 2.0 * j * l + k * k - g && c3 == 2.0 * k * l - h && c4 == l * l - i
    ensures q == ((w + 2.0 * j * l - g) * t + (2.0 * k * l - h)) * t + (l * l - i)
  {
    assert (c0 * t + c1) * t + c2 == w + 2.0 * j * l - g;
  }

  /** The last two Horner steps, with `w = u^2` and `x = u t + l`. */
  lemma HornerTail(w: real, j: real, k: real, l: real, g: real, h: real, i: real, t: real, u: real, x: real, y: real, q: real)
    requires w == u * u && u == j * t + k && x == u * t + l
    requires y == g * t * t + h * t + i
    requires q == ((w + 2.0 * j * l - g) * t + (2.0 * k * l - h)) * t + (l * l - i)
    ensures q == x * x - y
  {
    assert x * x == w * t * t + 2.0 * l * (u * t) + l * l;
    assert 2.0 * l * (u * t) == 2.0 * j * l * t * t + 2.0 * k * l * t;
  }

  /** With a sound solver, every torus hit lies on the torus's surface. */
  lemma {:induction false} TorusHitOnSurface(tor: Torus, r: Ray, tMin: real, tMax: Bound, o: Oracles)
    requires IsQuarticSolver(o.solveQuartic)
    requires TorusHit(tor, r, tMin, tMax, o).Some?
    ensures Implicit(tor, TorusHit(tor, r, tMin, tMax, o).value.p) == 0.0
  {
    var cs := TorusCoefficients(tor.r1, tor.r2, r);
    var roots := o.solveQuartic(cs);
    var t := TorusHit(tor, r, tMin, tMax, o).value.t;
    TorusHitRecord(tor, r, tMin, tMax, o);
    var k :| 0 <= k < |roots| && roots[k] == t;
    assert Quartic(cs, roots[k]) == 0.0;
    TorusQuarticIsImplicit(tor, r, t);
  }
}
