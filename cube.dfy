/**
 * The axis-aligned cube from -1 to 1 (cube.rs). Its slab test multiplies by
 * infinity when a direction component is below EPSILON, so its distances are
 * IEEE values (`Ext`).
 */
module Cubes {
  import opened Floats
  import opened Tuples

  /**
   * `Cube::check_axis`: where a ray enters and leaves the slab -1..1 along one
   * axis, in increasing order unless NaN is involved.
   */
  function CheckAxis(origin: real, direction: real): (r: (Ext, Ext))
    ensures !ExtGreater(r.0, r.1)
    ensures Abs(direction) >= EPSILON ==>
      var a := (-1.0 - origin) / direction;
      var b := (1.0 - origin) / direction;
      r == (Fin(Min(a, b)), Fin(Max(a, b)))
    ensures Abs(direction) < EPSILON && -1.0 < origin < 1.0 ==> r == (NegInf, PosInf)
  {
    var tminNumerator := -1.0 - origin;
    var tmaxNumerator := 1.0 - origin;
    var (tmin, tmax) :=
      if Abs(direction) >= EPSILON then (Fin(tminNumerator / direction), Fin(tmaxNumerator / direction))
      else (TimesInfinity(tminNumerator), TimesInfinity(tmaxNumerator));
    if ExtGreater(tmin, tmax) then (tmax, tmin) else (tmin, tmax)
  }

  /** The latest entry and earliest exit over the three axes. */
  function Slabs(r: Ray): (Ext, Ext)
  {
    var (xtmin, xtmax) := CheckAxis(r.origin.x, r.direction.x);
    var (ytmin, ytmax) := CheckAxis(r.origin.y, r.direction.y);
    var (ztmin, ztmax) := CheckAxis(r.origin.z, r.direction.z);
    (ExtMax(xtmin, ExtMax(ytmin, ztmin)), ExtMin(xtmax, ExtMin(ytmax, ztmax)))
  }

  /**
   * `Cube::local_intersect`: no intersection when the latest entry is after
   * the earliest exit, otherwise exactly the two values [entry, exit].
   */
  function LocalIntersect(r: Ray): (ts: seq<Ext>)
    ensures ts == [] <==> ExtGreater(Slabs(r).0, Slabs(r).1)
    ensures ts != [] ==> ts == [Slabs(r).0, Slabs(r).1]
  {
    var (tmin, tmax) := Slabs(r);
    if ExtGreater(tmin, tmax) then [] else [tmin, tmax]
  }

  /**
   * For a ray that is not parallel to any face, the test is the classic real
   * slab intersection: empty exactly when max of the entries exceeds min of the
   * exits, and otherwise two finite, ordered distances.
   */
  lemma LocalIntersectNonParallel(r: Ray)
    requires Abs(r.direction.x) >= EPSILON && Abs(r.direction.y) >= EPSILON && Abs(r.direction.z) >= EPSILON
    ensures var lx := (-1.0 - r.origin.x) / r.direction.x;
            var hx := (1.0 - r.origin.x) / r.direction.x;
            var ly := (-1.0 - r.origin.y) / r.direction.y;
            var hy := (1.0 - r.origin.y) / r.direction.y;
            var lz := (-1.0 - r.origin.z) / r.direction.z;
            var hz := (1.0 - r.origin.z) / r.direction.z;
            var tmin := Max(Min(lx, hx), Max(Min(ly, hy), Min(lz, hz)));
            var tmax := Min(Max(lx, hx), Min(Max(ly, hy), Max(lz, hz)));
            (LocalIntersect(r) == [] <==> tmin > tmax)
            && (LocalIntersect(r) != [] ==> LocalIntersect(r) == [Fin(tmin), Fin(tmax)] && tmin <= tmax)
  {
    var lx := (-1.0 - r.origin.x) / r.direction.x;
    var hx := (1.0 - r.origin.x) / r.direction.x;
    var ly := (-1.0 - r.origin.y) / r.direction.y;
    var hy := (1.0 - r.origin.y) / r.direction.y;
    var lz := (-1.0 - r.origin.z) / r.direction.z;
    var hz := (1.0 - r.origin.z) / r.direction.z;
    FiniteSlabs(Min(lx, hx), Max(lx, hx), Min(ly, hy), Max(ly, hy), Min(lz, hz), Max(lz, hz));
    assert Slabs(r) == (Fin(Max(Min(lx, hx), Max(Min(ly, hy), Min(lz, hz)))),
                        Fin(Min(Max(lx, hx), Min(Max(ly, hy), Max(lz, hz)))));
  }

  /** On finite values the IEEE maximum and minimum are the real ones. */
  lemma FiniteSlabs(xmin: real, xmax: real, ymin: real, ymax: real, zmin: real, zmax: real)
    ensures ExtMax(Fin(xmin), ExtMax(Fin(ymin), Fin(zmin))) == Fin(Max(xmin, Max(ymin, zmin)))
    ensures ExtMin(Fin(xmax), ExtMin(Fin(ymax), Fin(zmax))) == Fin(Min(xmax, Min(ymax, zmax)))
    ensures ExtGreater(Fin(Max(xmin, Max(ymin, zmin))), Fin(Min(xmax, Min(ymax, zmax))))
            <==> Max(xmin, Max(ymin, zmin)) > Min(xmax, Min(ymax, zmax))
  {
  }

  /** A ray along -x from (5, 0.5, 0) meets the cube at 4 and 6, through the infinite slabs of y and z. */
  lemma RayAlongXHitsCube()
    ensures LocalIntersect(Ray(Point(5.0, 0.5, 0.0), Vector(-1.0, 0.0, 0.0))) == [Fin(4.0), Fin(6.0)]
  {
  }

  /**
   * `Cube::local_normal_at`: the point's component of largest magnitude, the
   * others zeroed; ties go to x, then y.
   */
  function LocalNormalAt(p: Tuple): (n: Tuple)
    ensures n.w == 0.0
    ensures Abs(p.x) >= Abs(p.y) && Abs(p.x) >= Abs(p.z) ==> n == Vector(p.x, 0.0, 0.0)
    ensures Abs(p.x) < Max(Abs(p.y), Abs(p.z)) && Abs(p.y) >= Abs(p.z) ==> n == Vector(0.0, p.y, 0.0)
    ensures Abs(p.x) < Abs(p.z) && Abs(p.y) < Abs(p.z) ==> n == Vector(0.0, 0.0, p.z)
  {
    var maxc := Max(Abs(p.x), Max(Abs(p.y), Abs(p.z)));
    if maxc == Abs(p.x) then Vector(p.x, 0.0, 0.0)
    else if maxc == Abs(p.y) then Vector(0.0, p.y, 0.0)
    else Vector(0.0, 0.0, p.z)
  }
}
