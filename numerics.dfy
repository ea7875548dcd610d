/** Numeric groundwork: option values, the range of `random_double`, and the
    contracts of the square root and of the quartic solver
    `Algebra::SolveQuarticEquation`, which exact real arithmetic does not
    provide and which the model therefore takes as parameters. */
module Numerics {

  datatype Option<T> = None | Some(value: T)

  /** A value of `random_double()`: `rand() / (RAND_MAX + 1.0)` lies in [0, 1). */
  type Unit01 = u: real | 0.0 <= u < 1.0

  /** `sqrt` returns the non-negative square root of a non-negative argument. */
  ghost predicate IsSqrt(sqrt: real -> real)
  {
    forall x {:trigger Radicand(x)} :: 0.0 <= Radicand(x) ==> 0.0 <= sqrt(x) && sqrt(x) * sqrt(x) == x
  }

  /** The identity, named so that the property of `IsSqrt` is used only where
      a proof asks for it (through `SqrtFacts`), not at every `sqrt` term. */
  function Radicand(x: real): real
  {
    x
  }

  /** The value of the quartic with coefficients `cs` (highest degree first) at `t`. */
  function Quartic(cs: seq<real>, t: real): real
    requires |cs| == 5
  {
    (((cs[0] * t + cs[1]) * t + cs[2]) * t + cs[3]) * t + cs[4]
  }

  /** The solver's contract: at most four roots, each of them a root. */
  ghost predicate IsQuarticSolver(solve: seq<real> -> seq<real>)
  {
    && (forall cs :: |solve(cs)| <= 4)
    && (forall cs, k :: |cs| == 5 && 0 <= k < |solve(cs)| ==> Quartic(cs, solve(cs)[k]) == 0.0)
  }

  /** Squaring is strictly increasing on the non-negative reals. */
  lemma SquareLess(a: real, b: real)
    requires 0.0 <= a < b
    ensures a * a < b * b
  {
    var aa, ab, bb := a * a, a * b, b * b;
    assert aa <= ab;
    assert ab < bb;
  }

  /** A square root of a square is the number itself when that is non-negative. */
  lemma SqrtOfSquare(sqrt: real -> real, x: real)
    requires IsSqrt(sqrt)
    requires 0.0 <= x
    ensures sqrt(x * x) == x
  {
    var s := sqrt(x * x);
    assert 0.0 <= Radicand(x * x);
    assert 0.0 <= s && s * s == x * x;
    if s < x {
      SquareLess(s, x);
    } else if s > x {
      SquareLess(x, s);
    }
  }

  /** What the rest of the model uses of a true square root, for one argument. */
  lemma SqrtFacts(sqrt: real -> real, a: real)
    requires IsSqrt(sqrt)
    requires 0.0 <= a
    ensures 0.0 <= sqrt(a) && sqrt(a) * sqrt(a) == a
    ensures sqrt(a) == 0.0 <==> a == 0.0
  {
    assert 0.0 <= Radicand(a);
    SqrtZero(sqrt, a);
  }

  /** The square root is zero exactly at zero. */
  lemma SqrtZero(sqrt: real -> real, x: real)
    requires IsSqrt(sqrt)
    requires 0.0 <= x
    ensures sqrt(x) == 0.0 <==> x == 0.0
  {
    assert 0.0 <= Radicand(x);
    SqrtOfSquare(sqrt, 0.0);
  }
}
