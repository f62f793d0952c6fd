/** The infinite xz plane (plane.rs). */
module Planes {
  import opened Floats
  import opened Tuples

  /**
   * `Plane::local_intersect`: a ray running (almost) parallel to the plane
   * misses it; any other ray meets it exactly once, at the distance where its
   * y coordinate is zero.
   */
  function LocalIntersect(r: Ray): (ts: seq<real>)
    ensures ts == [] <==> Abs(r.direction.y) < EPSILON
    ensures ts != [] ==> |ts| == 1 && Position(r, ts[0]).y == 0.0
  {
    if Abs(r.direction.y) < EPSILON then [] else [-r.origin.y / r.direction.y]
  }

  /** `Plane::local_normal_at`: the normal is (0, 1, 0) at every point. */
  function LocalNormalAt(p: Tuple): (n: Tuple)
    ensures n == Vector(0.0, 1.0, 0.0)
  {
    Vector(0.0, 1.0, 0.0)
  }
}
