/** `hittable_list::hit`: the loop over the children that narrows
    `closest_so_far` to each accepted `t` and keeps the last accepted
    record.  The children are a sequence (`list_size` is its length), and
    the caller's `rec` is passed in as `rec0` and returned as `rec`. */
module HittableList {
  import opened Numerics
  import opened Rays
  import opened Environment
  import opened Materials
  import opened Geometry

  /** The loop, proved against `ListHit`.  `asked` logs the bound each
      child was queried with: every child is queried once, in index order,
      up to the closest `t` found before it. */
  method HitList(list: seq<Hittable>, r: Ray, tMin: real, tMax: Bound, o: Oracles, rec0: HitRecord)
    returns (hitAnything: bool, rec: HitRecord, ghost asked: seq<Bound>)
    ensures hitAnything == ListHit(list, r, tMin, tMax, o).Some?
    ensures hitAnything ==> rec == ListHit(list, r, tMin, tMax, o).value
    ensures !hitAnything ==> rec == rec0
    ensures |asked| == |list|
    ensures forall i :: 0 <= i < |list| ==> asked[i] == Closest(Scan(list, i, r, tMin, tMax, o), tMax)
  {
    hitAnything := false;
    var closestSoFar := tMax;
    rec := rec0;
    asked := [];
    for i := 0 to |list|
      invariant hitAnything == Scan(list, i, r, tMin, tMax, o).Some?
      invariant hitAnything ==> rec == Scan(list, i, r, tMin, tMax, o).value
      invariant !hitAnything ==> rec == rec0
      invariant closestSoFar == Closest(Scan(list, i, r, tMin, tMax, o), tMax)
      invariant |asked| == i
      invariant forall k :: 0 <= k < i ==> asked[k] == Closest(Scan(list, k, r, tMin, tMax, o), tMax)
    {
      var tempRec := Hit(list[i], r, tMin, closestSoFar, o);
      asked := asked + [closestSoFar];
      if tempRec.Some? {
        hitAnything := true;
        closestSoFar := Finite(tempRec.value.t);
        rec := tempRec.value;
      }
    }
  }
}
