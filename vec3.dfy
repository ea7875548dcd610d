/** The `vec3` class of the ray tracer: three real components used as point,
    direction and colour, with the free operators, `dot`, `cross`, `reflect`,
    `refract`, `unit_vector` and the rejection sampler
    `random_in_unit_sphere`.  The in-place operators `+=`, `-=`, `*=` and `/=`
    are the methods of `Vec3Cell`, which holds the three components in an
    array as the source does. */
module VectorAlgebra {
  import opened Numerics

  datatype Vec3 = Vec3(x: real, y: real, z: real)

  const Zero := Vec3(0.0, 0.0, 0.0)
  const One := Vec3(1.0, 1.0, 1.0)

  function Neg(v: Vec3): Vec3
  {
    Vec3(-v.x, -v.y, -v.z)
  }

  function Add(u: Vec3, v: Vec3): Vec3
  {
    Vec3(u.x + v.x, u.y + v.y, u.z + v.z)
  }

  function Sub(u: Vec3, v: Vec3): Vec3
  {
    Vec3(u.x - v.x, u.y - v.y, u.z - v.z)
  }

  /** Component-wise product `u * v`, used to filter one colour by another. */
  function Mul(u: Vec3, v: Vec3): Vec3
  {
    Vec3(u.x * v.x, u.y * v.y, u.z * v.z)
  }

  /** `t * v`; the source defines `v * t` as `t * v`, so both are this function. */
  function Scale(t: real, v: Vec3): Vec3
  {
    Vec3(t * v.x, t * v.y, t * v.z)
  }

  /** Component-wise quotient `u / v`. */
  function Div(u: Vec3, v: Vec3): Vec3
    requires v.x != 0.0 && v.y != 0.0 && v.z != 0.0
  {
    Vec3(u.x / v.x, u.y / v.y, u.z / v.z)
  }

  /** `v / t`, which the source defines as `(1/t) * v`. */
  function DivScalar(v: Vec3, t: real): Vec3
    requires t != 0.0
  {
    Scale(1.0 / t, v)
  }

  function Dot(u: Vec3, v: Vec3): real
  {
    u.x * v.x + u.y * v.y + u.z * v.z
  }

  function Cross(u: Vec3, v: Vec3): Vec3
  {
    Vec3(u.y * v.z - u.z * v.y,
         u.z * v.x - u.x * v.z,
         u.x * v.y - u.y * v.x)
  }

  /** `squared_length`: never negative, zero only for the zero vector, and
      the dot product of the vector with itself. */
  function SquaredLength(v: Vec3): (r: real)
    ensures r == Dot(v, v)
    ensures 0.0 <= r
    ensures r == 0.0 <==> v == Zero
  {
    var xx, yy, zz := v.x * v.x, v.y * v.y, v.z * v.z;
    SquareNonNegative(v.x);
    SquareNonNegative(v.y);
    SquareNonNegative(v.z);
    xx + yy + zz
  }

  lemma SquareNonNegative(a: real)
    ensures 0.0 <= a * a
    ensures a * a == 0.0 ==> a == 0.0
  {
    if a < 0.0 {
      SquareLess(0.0, -a);
    } else if a > 0.0 {
      SquareLess(0.0, a);
    }
  }

  /** `length`, through the supplied square root. */
  function Length(v: Vec3, sqrt: real -> real): real
  {
    sqrt(SquaredLength(v))
  }

  /** `unitVector` is `unit_vector(v) = v / v.length()` on every non-zero
      vector.  For the zero vector the source divides by zero and produces
      NaN components, which reals cannot represent, so nothing is said there. */
  ghost predicate IsUnitVector(unitVector: Vec3 -> Vec3, sqrt: real -> real)
  {
    forall v {:trigger Normalized(v)} ::
      Normalized(v) != Zero ==> Length(v, sqrt) != 0.0 && unitVector(v) == DivScalar(v, Length(v, sqrt))
  }

  /** The identity, named so that the property of `IsUnitVector` is used only
      where a proof asks for it (through `UnitVectorIsUnit`). */
  function Normalized(v: Vec3): Vec3
  {
    v
  }

  /** `reflect(v, n) = v - 2 dot(v, n) n`. */
  function Reflect(v: Vec3, n: Vec3): Vec3
  {
    Sub(v, Scale(2.0 * Dot(v, n), n))
  }

  /** `refract`: `None` is the source's `false`, for which the out-parameter
      `refracted` is left unwritten; `Some(t)` writes `t` and returns `true`. */
  function Refract(v: Vec3, n: Vec3, niOverNt: real, unitVector: Vec3 -> Vec3, sqrt: real -> real): (r: Option<Vec3>)
    ensures r.None? <==> RefractDiscriminant(unitVector(v), n, niOverNt) <= 0.0
  {
    var uv := unitVector(v);
    var discriminant := RefractDiscriminant(uv, n, niOverNt);
    if discriminant > 0.0 then
      Some(Refracted(uv, n, niOverNt, sqrt(discriminant)))
    else
      None
  }

  /** `1 - ni_over_nt^2 (1 - dt^2)` with `dt = dot(uv, n)`. */
  function RefractDiscriminant(uv: Vec3, n: Vec3, niOverNt: real): real
  {
    var dt := Dot(uv, n);
    1.0 - niOverNt * niOverNt * (1.0 - dt * dt)
  }

  /** `ni_over_nt * (uv - n * dt) - n * s` with `s` the root of the discriminant. */
  function Refracted(uv: Vec3, n: Vec3, niOverNt: real, s: real): Vec3
  {
    Sub(Scale(niOverNt, Tangent(uv, n)), Scale(s, n))
  }

  /** The part of `uv` tangent to the surface with unit normal `n`. */
  function Tangent(uv: Vec3, n: Vec3): Vec3
  {
    Sub(uv, Scale(Dot(uv, n), n))
  }

  // ---------------------------------------------------------------------
  // Algebraic identities
  // ---------------------------------------------------------------------

  lemma DotSubLeft(a: Vec3, b: Vec3, n: Vec3)
    ensures Dot(Sub(a, b), n) == Dot(a, n) - Dot(b, n)
  {
  }

  lemma DotAddLeft(a: Vec3, b: Vec3, n: Vec3)
    ensures Dot(Add(a, b), n) == Dot(a, n) + Dot(b, n)
  {
  }

  lemma DotScaleLeft(t: real, a: Vec3, n: Vec3)
    ensures Dot(Scale(t, a), n) == t * Dot(a, n)
  {
  }

  /** `v * t`, computed component by component on the right, is `t * v`. */
  lemma ScaleRight(v: Vec3, t: real)
    ensures Vec3(v.x * t, v.y * t, v.z * t) == Scale(t, v)
  {
  }

  /** `v / t` is undone by `t * (v / t)`. */
  lemma DivScalarInverse(v: Vec3, t: real)
    requires t != 0.0
    ensures Scale(t, DivScalar(v, t)) == v
    ensures DivScalar(Scale(t, v), t) == v
  {
  }

  lemma SquaredLengthScale(t: real, v: Vec3)
    ensures SquaredLength(Scale(t, v)) == t * t * SquaredLength(v)
  {
  }

  /** The squared length of a difference, expanded. */
  lemma SquaredLengthSub(a: Vec3, b: Vec3)
    ensures SquaredLength(Sub(a, b)) == SquaredLength(a) - 2.0 * Dot(a, b) + SquaredLength(b)
  {
  }

  /** The squared length along the line `u + t d`, as a quadratic in `t`. */
  lemma SquaredLengthAddScaled(u: Vec3, d: Vec3, t: real)
    ensures SquaredLength(Add(u, Scale(t, d))) == SquaredLength(u) + 2.0 * t * Dot(u, d) + t * t * SquaredLength(d)
  {
  }

  /** `cross(u, v)` is orthogonal to both `u` and `v`. */
  lemma CrossOrthogonal(u: Vec3, v: Vec3)
    ensures Dot(Cross(u, v), u) == 0.0
    ensures Dot(Cross(u, v), v) == 0.0
  {
  }

  /** The Cauchy-Schwarz inequality, from Lagrange's identity. */
  lemma CauchySchwarz(a: Vec3, b: Vec3)
    ensures Dot(a, b) * Dot(a, b) <= Dot(a, a) * Dot(b, b)
  {
    LagrangeIdentity(a, b);
    var c := Cross(a, b);
    assert 0.0 <= SquaredLength(c);
    DropNonNegative(Dot(a, b) * Dot(a, b), Dot(c, c), Dot(a, a) * Dot(b, b));
  }

  lemma DropNonNegative(d: real, c: real, p: real)
    requires d + c == p && 0.0 <= c
    ensures d <= p
  {
  }

  /** Lagrange's identity in three dimensions. */
  lemma LagrangeIdentity(a: Vec3, b: Vec3)
    ensures Dot(a, b) * Dot(a, b) + Dot(Cross(a, b), Cross(a, b)) == Dot(a, a) * Dot(b, b)
  {
  }

  /** Reflection in a unit normal flips the component along the normal. */
  lemma {:induction false} ReflectFlipsNormal(v: Vec3, n: Vec3)
    requires Dot(n, n) == 1.0
    ensures Dot(Reflect(v, n), n) == -Dot(v, n)
  {
    var d := Dot(v, n);
    DotSubLeft(v, Scale(2.0 * d, n), n);
    DotScaleLeft(2.0 * d, n, n);
    assert Dot(Scale(2.0 * d, n), n) == 2.0 * d;
  }

  /** Reflection in a unit normal is an involution. */
  lemma {:induction false} ReflectInvolution(v: Vec3, n: Vec3)
    requires Dot(n, n) == 1.0
    ensures Reflect(Reflect(v, n), n) == v
  {
    ReflectFlipsNormal(v, n);
    var d := Dot(v, n);
    var w := Reflect(v, n);
    assert Dot(w, n) == -d;
    assert Reflect(w, n) == Sub(w, Scale(-2.0 * d, n));
  }

  /** Reflection in a unit normal keeps the length. */
  lemma {:induction false} ReflectPreservesLength(v: Vec3, n: Vec3)
    requires Dot(n, n) == 1.0
    ensures SquaredLength(Reflect(v, n)) == SquaredLength(v)
  {
    var d := Dot(v, n);
    var m := Scale(2.0 * d, n);
    SquaredLengthSub(v, m);
    SquaredLengthScale(2.0 * d, n);
    DotScaleLeft(2.0 * d, n, v);
    DotSymmetric(m, v);
    DotSymmetric(n, v);
    ReflectScalars(SquaredLength(v), Dot(v, m), SquaredLength(m), d, SquaredLength(n));
  }

  lemma DotSymmetric(a: Vec3, b: Vec3)
    ensures Dot(a, b) == Dot(b, a)
  {
  }

  /** The scalar step of `ReflectPreservesLength`: with `dvm = 2 d^2` and
      `sm = 4 d^2`, the cross terms cancel. */
  lemma ReflectScalars(sv: real, dvm: real, sm: real, d: real, nn: real)
    requires nn == 1.0 && dvm == 2.0 * d * d && sm == 2.0 * d * (2.0 * d) * nn
    ensures sv - 2.0 * dvm + sm == sv
  {
  }

  // ---------------------------------------------------------------------
  // Lengths and normalisation, given a true square root
  // ---------------------------------------------------------------------

  /** A non-zero vector has a positive length. */
  lemma LengthPositive(v: Vec3, sqrt: real -> real)
    requires IsSqrt(sqrt)
    ensures 0.0 <= Length(v, sqrt)
    ensures Length(v, sqrt) == 0.0 <==> v == Zero
    ensures Length(v, sqrt) * Length(v, sqrt) == SquaredLength(v)
  {
    SqrtFacts(sqrt, SquaredLength(v));
  }

  /** `unit_vector` of a non-zero vector is a positive multiple of it with
      length one. */
  lemma {:induction false} UnitVectorIsUnit(v: Vec3, unitVector: Vec3 -> Vec3, sqrt: real -> real)
    requires IsSqrt(sqrt) && IsUnitVector(unitVector, sqrt)
    requires v != Zero
    ensures SquaredLength(unitVector(v)) == 1.0
    ensures exists k :: 0.0 < k && unitVector(v) == Scale(k, v)
  {
    assert Normalized(v) != Zero;
    LengthPositive(v, sqrt);
    var l := Length(v, sqrt);
    var k := 1.0 / l;
    assert unitVector(v) == Scale(k, v);
    SquaredLengthScale(k, v);
    var s := SquaredLength(v);
    assert s == l * l;
    assert k * l == 1.0;
    assert k * k * s == (k * l) * (k * l);
  }

  /** Every component of `unit_vector(v)` lies in [-1, 1]. */
  lemma {:induction false} UnitVectorComponents(v: Vec3, unitVector: Vec3 -> Vec3, sqrt: real -> real)
    requires IsSqrt(sqrt) && IsUnitVector(unitVector, sqrt)
    requires v != Zero
    ensures var u := unitVector(v);
      -1.0 <= u.x <= 1.0 && -1.0 <= u.y <= 1.0 && -1.0 <= u.z <= 1.0
  {
    UnitVectorIsUnit(v, unitVector, sqrt);
    UnitLengthComponents(unitVector(v));
  }

  /** Every component of a vector of length one lies in [-1, 1]. */
  lemma UnitLengthComponents(u: Vec3)
    requires SquaredLength(u) == 1.0
    ensures -1.0 <= u.x <= 1.0 && -1.0 <= u.y <= 1.0 && -1.0 <= u.z <= 1.0
  {
    UnitComponents(u.x, u.y, u.z);
  }

  /** Three reals whose squares sum to one each lie in [-1, 1]. */
  lemma UnitComponents(a: real, b: real, c: real)
    requires a * a + b * b + c * c == 1.0
    ensures -1.0 <= a <= 1.0 && -1.0 <= b <= 1.0 && -1.0 <= c <= 1.0
  {
    SquareNonNegative(a);
    SquareNonNegative(b);
    SquareNonNegative(c);
    BoundedBySquare(a);
    BoundedBySquare(b);
    BoundedBySquare(c);
  }

  lemma BoundedBySquare(a: real)
    requires a * a <= 1.0
    ensures -1.0 <= a <= 1.0
  {
    if a > 1.0 {
      SquareLess(1.0, a);
    } else if a < -1.0 {
      SquareLess(1.0, -a);
    }
  }

  /** A vector of length one is its own `unit_vector`. */
  lemma UnitVectorOfUnit(u: Vec3, unitVector: Vec3 -> Vec3, sqrt: real -> real)
    requires IsSqrt(sqrt) && IsUnitVector(unitVector, sqrt)
    requires SquaredLength(u) == 1.0
    ensures unitVector(u) == u
  {
    assert Normalized(u) != Zero;
    SqrtOfSquare(sqrt, 1.0);
    assert Length(u, sqrt) == 1.0;
  }

  /** Normalising a non-zero vector twice is normalising it once. */
  lemma {:induction false} UnitVectorIdempotent(v: Vec3, unitVector: Vec3 -> Vec3, sqrt: real -> real)
    requires IsSqrt(sqrt) && IsUnitVector(unitVector, sqrt)
    requires v != Zero
    ensures unitVector(unitVector(v)) == unitVector(v)
  {
    UnitVectorIsUnit(v, unitVector, sqrt);
    UnitVectorOfUnit(unitVector(v), unitVector, sqrt);
  }

  // ---------------------------------------------------------------------
  // Refraction
  // ---------------------------------------------------------------------

  /** The algebra behind Snell's law for the vector `refract` returns, with
      the root `s` of the discriminant given. */
  lemma {:induction false} RefractAlgebra(uv: Vec3, n: Vec3, e: real, s: real)
    requires SquaredLength(uv) == 1.0 && Dot(n, n) == 1.0
    requires s * s == RefractDiscriminant(uv, n, e)
    ensures var t := Refracted(uv, n, e, s);
      && SquaredLength(t) == 1.0
      && Dot(t, n) == -s
      && Tangent(t, n) == Scale(e, Tangent(uv, n))
  {
    var dt := Dot(uv, n);
    var tang := Tangent(uv, n);
    var t := Refracted(uv, n, e, s);
    // the tangent part is orthogonal to n and has squared length 1 - dt^2
    DotSubLeft(uv, Scale(dt, n), n);
    DotScaleLeft(dt, n, n);
    assert Dot(tang, n) == 0.0;
    SquaredLengthSub(uv, Scale(dt, n));
    SquaredLengthScale(dt, n);
    DotScaleLeft(dt, n, uv);
    var tt := SquaredLength(tang);
    assert tt == 1.0 - dt * dt;
    // t . n = -s
    DotSubLeft(Scale(e, tang), Scale(s, n), n);
    DotScaleLeft(e, tang, n);
    DotScaleLeft(s, n, n);
    assert Dot(t, n) == -s;
    // |t|^2 = e^2 (1 - dt^2) + s^2 = 1
    SquaredLengthSub(Scale(e, tang), Scale(s, n));
    SquaredLengthScale(e, tang);
    SquaredLengthScale(s, n);
    DotScaleLeft(e, tang, Scale(s, n));
    DotScaleLeft(s, n, tang);
    var ee := e * e;
    assert SquaredLength(t) == ee * tt + s * s;
  }

  /** For a unit normal, a successful refraction obeys Snell's law: the
      refracted direction has length one, it points against the normal, and
      its part tangent to the surface is the tangent part of the normalised
      incoming direction scaled by `niOverNt`. */
  lemma {:induction false} RefractSnell(v: Vec3, n: Vec3, niOverNt: real, unitVector: Vec3 -> Vec3, sqrt: real -> real)
    requires IsSqrt(sqrt) && IsUnitVector(unitVector, sqrt)
    requires v != Zero
    requires Dot(n, n) == 1.0
    requires Refract(v, n, niOverNt, unitVector, sqrt).Some?
    ensures var t := Refract(v, n, niOverNt, unitVector, sqrt).value;
      && SquaredLength(t) == 1.0
      && Dot(t, n) < 0.0
      && Tangent(t, n) == Scale(niOverNt, Tangent(unitVector(v), n))
  {
    UnitVectorIsUnit(v, unitVector, sqrt);
    RefractRoot(unitVector(v), n, niOverNt, sqrt);
  }

  /** `RefractAlgebra` with the supplied square root of a positive discriminant. */
  lemma RefractRoot(uv: Vec3, n: Vec3, e: real, sqrt: real -> real)
    requires IsSqrt(sqrt)
    requires SquaredLength(uv) == 1.0 && Dot(n, n) == 1.0
    requires RefractDiscriminant(uv, n, e) > 0.0
    ensures var s := sqrt(RefractDiscriminant(uv, n, e));
      var t := Refracted(uv, n, e, s);
      && SquaredLength(t) == 1.0
      && Dot(t, n) == -s < 0.0
      && Tangent(t, n) == Scale(e, Tangent(uv, n))
  {
    var disc := RefractDiscriminant(uv, n, e);
    SqrtFacts(sqrt, disc);
    RefractAlgebra(uv, n, e, sqrt(disc));
  }

  /** The discriminant of `refract` is positive when the index ratio is
      below one in size and the cosine at most one in size. */
  lemma DiscriminantPositive(e: real, dt: real)
    requires -1.0 < e < 1.0
    requires dt * dt <= 1.0
    ensures 1.0 - e * e * (1.0 - dt * dt) > 0.0
  {
    var dd, ee := dt * dt, e * e;
    SquareNonNegative(dt);
    SquareNonNegative(e);
    if e < 0.0 {
      SquareLess(-e, 1.0);
    } else {
      SquareLess(e, 1.0);
    }
    assert ee < 1.0;
    var w := 1.0 - dd;
    assert 0.0 <= w <= 1.0;
    assert ee * w <= ee;
  }

  /** Going into the denser medium (`niOverNt` below one in size) with a unit
      normal, refraction never fails. */
  lemma {:induction false} RefractIntoDenserSucceeds(v: Vec3, n: Vec3, niOverNt: real, unitVector: Vec3 -> Vec3, sqrt: real -> real)
    requires IsSqrt(sqrt) && IsUnitVector(unitVector, sqrt)
    requires v != Zero
    requires Dot(n, n) == 1.0
    requires -1.0 < niOverNt < 1.0
    ensures Refract(v, n, niOverNt, unitVector, sqrt).Some?
  {
    UnitVectorIsUnit(v, unitVector, sqrt);
    UnitCosine(unitVector(v), n);
    DiscriminantPositive(niOverNt, Dot(unitVector(v), n));
  }

  /** The cosine between two vectors of length one is at most one in size. */
  lemma UnitCosine(u: Vec3, n: Vec3)
    requires SquaredLength(u) == 1.0 && Dot(n, n) == 1.0
    ensures Dot(u, n) * Dot(u, n) <= 1.0
  {
    CauchySchwarz(u, n);
    ProductOfOnes(Dot(u, u), Dot(n, n), Dot(u, n) * Dot(u, n));
  }

  lemma ProductOfOnes(a: real, b: real, p: real)
    requires a == 1.0 && b == 1.0 && p <= a * b
    ensures p <= 1.0
  {
  }

  // ---------------------------------------------------------------------
  // random_in_unit_sphere
  // ---------------------------------------------------------------------

  /** A point strictly inside the unit sphere: what `random_in_unit_sphere`
      returns. */
  type BallPoint = p: Vec3 | SquaredLength(p) < 1.0 witness Zero

  /** One candidate of the rejection loop: `2 * (d0, d1, d2) - (1, 1, 1)`
      for three draws in [0, 1); every component lies in [-1, 1). */
  function Candidate(d0: Unit01, d1: Unit01, d2: Unit01): (p: Vec3)
    ensures -1.0 <= p.x < 1.0 && -1.0 <= p.y < 1.0 && -1.0 <= p.z < 1.0
  {
    Sub(Scale(2.0, Vec3(d0, d1, d2)), One)
  }

  /** The `k`-th candidate drawn from the stream `draws`. */
  function CandidateAt(draws: seq<Unit01>, k: nat): Vec3
    requires 3 * k + 3 <= |draws|
  {
    Candidate(draws[3 * k], draws[3 * k + 1], draws[3 * k + 2])
  }

  /** `random_in_unit_sphere` run on a finite prefix `draws` of the random
      stream.  The do-while loop draws three numbers per candidate and stops
      at the first candidate strictly inside the unit sphere; `tries` is the
      number of candidates drawn.  The source keeps drawing for ever; when the
      prefix runs out first the model returns `None`. */
  method RandomInUnitSphere(draws: seq<Unit01>) returns (p: Option<Vec3>, tries: nat)
    ensures 3 * tries <= |draws|
    ensures forall k :: 0 <= k < tries && (p.None? || k < tries - 1) ==> SquaredLength(CandidateAt(draws, k)) >= 1.0
    ensures p.Some? ==> 1 <= tries && p.value == CandidateAt(draws, tries - 1)
    ensures p.Some? ==> SquaredLength(p.value) < 1.0
    ensures p.Some? ==> -1.0 <= p.value.x < 1.0 && -1.0 <= p.value.y < 1.0 && -1.0 <= p.value.z < 1.0
    ensures p.None? ==> |draws| < 3 * tries + 3
  {
    tries := 0;
    while 3 * tries + 3 <= |draws|
      invariant 3 * tries <= |draws|
      invariant forall k :: 0 <= k < tries ==> SquaredLength(CandidateAt(draws, k)) >= 1.0
      decreases |draws| - 3 * tries
    {
      var q := Candidate(draws[3 * tries], draws[3 * tries + 1], draws[3 * tries + 2]);
      tries := tries + 1;
      if SquaredLength(q) < 1.0 {
        return Some(q), tries;
      }
    }
    return None, tries;
  }

  // ---------------------------------------------------------------------
  // The in-place operators
  // ---------------------------------------------------------------------

  /** A `vec3` object whose `e[3]` array the compound operators update in place. */
  class Vec3Cell {
    const e: array<real>

    ghost predicate Valid()
      reads this
    {
      e.Length == 3
    }

    /** The vector the array currently holds. */
    function Value(): Vec3
      reads this, e
      requires Valid()
    {
      Vec3(e[0], e[1], e[2])
    }

    constructor (v: Vec3)
      ensures Valid() && fresh(e) && Value() == v
    {
      e := new real[3] [v.x, v.y, v.z];
    }

    /** `u += v` leaves `u == old(u) + v`. */
    method AddAssign(v: Vec3)
      requires Valid()
      modifies e
      ensures Valid() && Value() == Add(old(Value()), v)
    {
      e[0] := e[0] + v.x;
      e[1] := e[1] + v.y;
      e[2] := e[2] + v.z;
    }

    /** `u -= v` leaves `u == old(u) - v`. */
    method SubAssign(v: Vec3)
      requires Valid()
      modifies e
      ensures Valid() && Value() == Sub(old(Value()), v)
    {
      e[0] := e[0] - v.x;
      e[1] := e[1] - v.y;
      e[2] := e[2] - v.z;
    }

    /** `u *= t` leaves `u == t * old(u)`. */
    method ScaleAssign(t: real)
      requires Valid()
      modifies e
      ensures Valid() && Value() == Scale(t, old(Value()))
    {
      e[0] := e[0] * t;
      e[1] := e[1] * t;
      e[2] := e[2] * t;
    }

    /** `u *= v` leaves the component-wise product. */
    method MulAssign(v: Vec3)
      requires Valid()
      modifies e
      ensures Valid() && Value() == Mul(old(Value()), v)
    {
      e[0] := e[0] * v.x;
      e[1] := e[1] * v.y;
      e[2] := e[2] * v.z;
    }

    /** `u /= v` leaves the component-wise quotient. */
    method DivAssign(v: Vec3)
      requires Valid()
      requires v.x != 0.0 && v.y != 0.0 && v.z != 0.0
      modifies e
      ensures Valid() && Value() == Div(old(Value()), v)
    {
      e[0] := e[0] / v.x;
      e[1] := e[1] / v.y;
      e[2] := e[2] / v.z;
    }

    /** `u /= t` is `u *= 1/t`, so it leaves `u == old(u) / t`. */
    method DivScalarAssign(t: real)
      requires Valid()
      requires t != 0.0
      modifies e
      ensures Valid() && Value() == DivScalar(old(Value()), t)
    {
      ScaleAssign(1.0 / t);
    }
  }
}
