/** The functions the ray tracer takes from outside the modelled core: the C
    library's `sqrt` and `pow`, `unit_vector` (whose division by `sqrt` is
    kept abstract), and `Algebra::SolveQuarticEquation`.  Every operation
    that needs one of them receives this record; lemmas that depend on their
    behaviour assume `Sound`. */
module Environment {
  import opened Numerics
  import opened VectorAlgebra

  datatype Oracles = Oracles(
    sqrt: real -> real,
    unitVector: Vec3 -> Vec3,
    pow: (real, real) -> real,
    solveQuartic: seq<real> -> seq<real>)

  /** `sqrt` is a true square root, `unitVector` is `v / length(v)` on
      non-zero vectors, and the quartic solver returns at most four roots. */
  ghost predicate Sound(o: Oracles)
  {
    IsSqrt(o.sqrt) && IsUnitVector(o.unitVector, o.sqrt) && IsQuarticSolver(o.solveQuartic)
  }
}
