/** Flat triangles (triangle.rs): the precomputed edges and the Moller-Trumbore test. */
module Triangles {
  import opened Floats
  import opened Tuples
  import opened Bounds
  import opened Externals

  datatype Triangle = Triangle(p1: Tuple, p2: Tuple, p3: Tuple, e1: Tuple, e2: Tuple, normal: Tuple)

  /**
   * `Triangle::new`: the two edges leaving p1 and the normalised normal
   * e2 x e1; the corners can be recovered from p1 and the edges.
   */
  function NewTriangle(num: Numerics, p1: Tuple, p2: Tuple, p3: Tuple): (tri: Triangle)
    ensures tri.p1 == p1 && tri.p2 == p2 && tri.p3 == p3
    ensures Add(p1, tri.e1) == p2 && Add(p1, tri.e2) == p3
    ensures tri.normal == num.normalize(Cross(tri.e2, tri.e1))
  {
    var e1 := Sub(p2, p1);
    var e2 := Sub(p3, p1);
    Triangle(p1, p2, p3, e1, e2, num.normalize(Cross(e2, e1)))
  }

  /** The determinant of the Moller-Trumbore system; zero when the ray is parallel to the face. */
  function Det(tri: Triangle, r: Ray): real
  {
    Dot(tri.e1, Cross(r.direction, tri.e2))
  }

  /** The first barycentric coordinate of the ray's crossing point. */
  function U(tri: Triangle, r: Ray): real
    requires Det(tri, r) != 0.0
  {
    (1.0 / Det(tri, r)) * Dot(Sub(r.origin, tri.p1), Cross(r.direction, tri.e2))
  }

  /** The second barycentric coordinate of the ray's crossing point. */
  function V(tri: Triangle, r: Ray): real
    requires Det(tri, r) != 0.0
  {
    (1.0 / Det(tri, r)) * Dot(r.direction, Cross(Sub(r.origin, tri.p1), tri.e1))
  }

  /** The distance along the ray to the crossing point. */
  function T(tri: Triangle, r: Ray): real
    requires Det(tri, r) != 0.0
  {
    (1.0 / Det(tri, r)) * Dot(tri.e2, Cross(Sub(r.origin, tri.p1), tri.e1))
  }

  /**
   * `Triangle::local_intersect`: at most one intersection, present exactly
   * when the ray is not parallel to the face and the crossing point's
   * barycentric coordinates lie inside the triangle (0 <= u <= 1, v >= 0, u + v <= 1).
   */
  function LocalIntersect(tri: Triangle, r: Ray): (ts: seq<real>)
    ensures |ts| <= 1
    ensures Det(tri, r) == 0.0 ==> ts == []
    ensures ts != [] <==> Det(tri, r) != 0.0 && 0.0 <= U(tri, r) <= 1.0 && V(tri, r) >= 0.0 && U(tri, r) + V(tri, r) <= 1.0
    ensures ts != [] ==> ts == [T(tri, r)]
  {
    var det := Det(tri, r);
    if Abs(det) == 0.0 then []
    else
      var u := U(tri, r);
      if u < 0.0 || u > 1.0 then []
      else
        var v := V(tri, r);
        if v < 0.0 || u + v > 1.0 then []
        else [T(tri, r)]
  }

  /** `Triangle::local_normal_at`: the stored normal, whatever the point. */
  function LocalNormalAt(tri: Triangle, p: Tuple): (n: Tuple)
    ensures n == tri.normal
  {
    tri.normal
  }

  /** The triangle's box: the empty box at the origin grown by the three corners. */
  function BoundingBoxOf(tri: Triangle): BoundingBox
  {
    AddPoint(AddPoint(AddPoint(EMPTY_BOX, tri.p1), tri.p2), tri.p3)
  }

  /**
   * The box contains the three corners and, since it starts from the empty box
   * at the origin, the origin as well.
   */
  lemma BoundingBoxContainsCorners(tri: Triangle)
    ensures ContainsPoint(BoundingBoxOf(tri), tri.p1)
    ensures ContainsPoint(BoundingBoxOf(tri), tri.p2)
    ensures ContainsPoint(BoundingBoxOf(tri), tri.p3)
    ensures ContainsPoint(BoundingBoxOf(tri), EMPTY_POINT)
  {
  }
}
