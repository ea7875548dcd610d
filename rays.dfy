/** Rays and the upper bound of a hit query.  `ray.h` is not part of this
    model; its `ray` is reconstructed from its uses: an origin, a direction
    and `point_at_parameter(t) = origin + t * direction`. */
module Rays {
  import opened VectorAlgebra

  datatype Ray = Ray(origin: Vec3, direction: Vec3)

  function PointAt(r: Ray, t: real): (p: Vec3)
    ensures Sub(p, r.origin) == Scale(t, r.direction)
  {
    Add(r.origin, Scale(t, r.direction))
  }

  /** The `t_max` argument of `hit`: `ray_color` passes positive infinity,
      and `hittable_list::hit` narrows it to finite values. */
  datatype Bound = Finite(value: real) | Infinite

  /** `t < t_max`, the test of the sphere and the torus. */
  predicate Below(t: real, bound: Bound)
  {
    bound.Infinite? || t < bound.value
  }

  /** `!(t > t_max)`, the test of the triangle. */
  predicate AtMost(t: real, bound: Bound)
  {
    bound.Infinite? || t <= bound.value
  }

  /** `b` is at most `bound`: the narrowing `hittable_list::hit` applies. */
  predicate Tighter(b: Bound, bound: Bound)
  {
    bound.Infinite? || (b.Finite? && b.value <= bound.value)
  }

  /** The strict test implies the inclusive one, and they differ only at the
      bound itself. */
  lemma BelowAtMost(t: real, bound: Bound)
    ensures Below(t, bound) ==> AtMost(t, bound)
    ensures AtMost(t, bound) && !Below(t, bound) <==> bound == Finite(t)
  {
  }
}
