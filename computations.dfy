/**
 * `Intersection::prepare_computations` and `PreparedComputations::schlick`
 * (intersection.rs): everything shading needs about one hit, including the
 * refractive indices on both sides of the surface found by replaying the
 * intersection list with a stack of the objects the ray is inside.
 */
module Computations {
  import opened Options
  import opened Floats
  import opened Tuples
  import opened Externals
  import opened Intersections
  import opened Objects

  /** Intersection equality (derived `PartialEq`): the same t and an equal object. */
  predicate SameIntersection(a: Intersection<Object>, b: Intersection<Object>)
  {
    a.t == b.t && SameObject(a.obj, b.obj)
  }

  /** `Vec::contains` under object equality. */
  predicate Contains(cs: seq<Object>, o: Object)
  {
    exists k :: 0 <= k < |cs| && SameObject(cs[k], o)
  }

  /** No two containers are equal objects. */
  predicate NoDuplicates(cs: seq<Object>)
  {
    forall i, j :: 0 <= i < j < |cs| ==> !SameObject(cs[i], cs[j])
  }

  /** `Vec::retain(|e| *e != o)`: keeps, in order, exactly the elements not equal to `o`. */
  function RemoveAll(cs: seq<Object>, o: Object): (r: seq<Object>)
    ensures !Contains(r, o)
    ensures forall k :: 0 <= k < |r| ==> r[k] in cs
    ensures forall k :: 0 <= k < |cs| && !SameObject(cs[k], o) ==> cs[k] in r
    ensures !Contains(cs, o) ==> r == cs
  {
    if |cs| == 0 then []
    else
      var rest := RemoveAll(cs[1..], o);
      assert forall k :: 1 <= k < |cs| ==> cs[k] == cs[1..][k - 1];
      (if SameObject(cs[0], o) then [] else [cs[0]]) + rest
  }

  /**
   * One step of the containers loop: an object already on the stack leaves
   * it (every equal copy is removed); any other object is pushed on top.
   */
  function Toggle(cs: seq<Object>, o: Object): (r: seq<Object>)
    ensures Contains(r, o) <==> !Contains(cs, o)
    ensures !Contains(cs, o) ==> r == cs + [o]
  {
    if Contains(cs, o) then RemoveAll(cs, o)
    else
      assert (cs + [o])[|cs|] == o;
      cs + [o]
  }

  lemma {:induction false} RemoveAllKeepsNoDuplicates(cs: seq<Object>, o: Object)
    requires NoDuplicates(cs)
    ensures NoDuplicates(RemoveAll(cs, o))
  {
    if |cs| > 0 {
      RemoveAllKeepsNoDuplicates(cs[1..], o);
      var rest := RemoveAll(cs[1..], o);
      forall k | 0 <= k < |rest| ensures !SameObject(cs[0], rest[k]) {
        var j :| 0 <= j < |cs[1..]| && cs[1..][j] == rest[k];
        assert cs[j + 1] == rest[k];
      }
    }
  }

  /** Toggling never creates a duplicate. */
  lemma ToggleKeepsNoDuplicates(cs: seq<Object>, o: Object)
    requires NoDuplicates(cs)
    ensures NoDuplicates(Toggle(cs, o))
  {
    if Contains(cs, o) {
      RemoveAllKeepsNoDuplicates(cs, o);
    }
  }

  /** The containers after the loop has processed the intersections `s`, in order. */
  function ContainersAfter(s: seq<Intersection<Object>>): seq<Object>
  {
    if |s| == 0 then [] else Toggle(ContainersAfter(s[..|s| - 1]), s[|s| - 1].obj)
  }

  /** The stack of containers never holds the same object twice. */
  lemma {:induction false} ContainersHaveNoDuplicates(s: seq<Intersection<Object>>)
    ensures NoDuplicates(ContainersAfter(s))
  {
    if |s| > 0 {
      ContainersHaveNoDuplicates(s[..|s| - 1]);
      ToggleKeepsNoDuplicates(ContainersAfter(s[..|s| - 1]), s[|s| - 1].obj);
    }
  }

  /** The refractive index of the innermost container, or 1.0 (vacuum) when there is none. */
  function TopIndex(cs: seq<Object>): real
  {
    if |cs| == 0 then 1.0 else cs[|cs| - 1].material.refractiveIndex
  }

  /** The position of the first intersection equal to `hit`, if any. */
  function FirstSame(xs: seq<Intersection<Object>>, hit: Intersection<Object>): (k: Option<nat>)
    ensures k.None? <==> forall j :: 0 <= j < |xs| ==> !SameIntersection(xs[j], hit)
    ensures k.Some? ==> k.value < |xs| && SameIntersection(xs[k.value], hit)
                        && forall j :: 0 <= j < k.value ==> !SameIntersection(xs[j], hit)
  {
    if |xs| == 0 then None
    else if SameIntersection(xs[0], hit) then Some(0)
    else
      var k := FirstSame(xs[1..], hit);
      assert forall j :: 1 <= j < |xs| ==> xs[j] == xs[1..][j - 1];
      if k.Some? then Some(k.value + 1) else None
  }

  /**
   * (n1, n2): the innermost container's index just before the hit is
   * processed and just after; 1.0 for both when the hit is not in the list.
   */
  function RefractiveIndices(xs: seq<Intersection<Object>>, hit: Intersection<Object>): (r: (real, real))
    ensures xs == [] ==> r == (1.0, 1.0)
  {
    match FirstSame(xs, hit)
    case None => (1.0, 1.0)
    case Some(k) => (TopIndex(ContainersAfter(xs[..k])), TopIndex(ContainersAfter(xs[..k + 1])))
  }

  /**
   * Entering an object (it is not yet a container) makes n2 its own index;
   * leaving one (it is a container) makes n1 the index of whatever is
   * innermost, and n2 the innermost index once it has been removed.
   */
  lemma EnteringAndLeaving(xs: seq<Intersection<Object>>, hit: Intersection<Object>)
    requires FirstSame(xs, hit).Some?
    ensures var k := FirstSame(xs, hit).value;
            var before := ContainersAfter(xs[..k]);
            && RefractiveIndices(xs, hit).0 == TopIndex(before)
            && (!Contains(before, xs[k].obj) ==> RefractiveIndices(xs, hit).1 == xs[k].obj.material.refractiveIndex)
            && (Contains(before, xs[k].obj) ==>
                  RefractiveIndices(xs, hit).1 == TopIndex(RemoveAll(before, xs[k].obj)))
  {
    var k := FirstSame(xs, hit).value;
    assert xs[..k + 1][..k] == xs[..k];
  }

  /** A ray meeting a single object from outside: n1 is 1.0 and n2 is that object's index. */
  lemma SingleEntry(i: Intersection<Object>)
    ensures RefractiveIndices([i], i) == (1.0, i.obj.material.refractiveIndex)
  {
    assert [i][..0] == [];
    assert [i][..1] == [i];
    assert ContainersAfter([i]) == [i.obj];
  }

  /** `PreparedComputations`. */
  datatype PreparedComputations = PreparedComputations(
    t: real, obj: Object, point: Tuple, overPoint: Tuple, underPoint: Tuple,
    eyev: Tuple, normalv: Tuple, reflectv: Tuple, cosI: real, sin2T: real,
    inside: bool, n1: real, n2: real, nRatio: real)

  /**
   * The inside rule: a normal pointing away from the eye is negated, so the
   * normal used for shading always faces the eye.
   */
  function FacingNormal(normal: Tuple, eyev: Tuple): (n: Tuple)
    ensures Dot(normal, eyev) < 0.0 ==> n == Neg(normal)
    ensures Dot(normal, eyev) >= 0.0 ==> n == normal
    ensures Dot(n, eyev) >= 0.0 && Dot(eyev, n) >= 0.0
  {
    DotNeg(normal, eyev);
    var n := if Dot(normal, eyev) < 0.0 then Neg(normal) else normal;
    assert Dot(eyev, n) == Dot(n, eyev);
    n
  }

  /** The points just above and just below the surface are one offset either side of the hit point. */
  lemma SurfaceOffsets(point: Tuple, normalv: Tuple)
    ensures Sub(Add(point, Scale(normalv, EPSILON)), Scale(normalv, EPSILON)) == point
    ensures Add(Sub(point, Scale(normalv, EPSILON)), Scale(normalv, EPSILON)) == point
  {
  }

  /**
   * `prepare_computations` as a specification: the hit point, the eye
   * vector, the surface normal turned to face the eye, the points just
   * above and below the surface, the reflected direction, and the
   * refraction quantities from the indices on both sides.
   */
  function Prepare(num: Numerics, hit: Intersection<Object>, r: Ray, xs: seq<Intersection<Object>>): (c: PreparedComputations)
    requires !hit.obj.shape.Group?
    ensures c.t == hit.t && c.obj == hit.obj && c.point == Position(r, hit.t)
    ensures c.eyev == Neg(r.direction)
    ensures c.inside <==> Dot(NormalAt(num, hit.obj, c.point), c.eyev) < 0.0
    ensures c.normalv == if c.inside then Neg(NormalAt(num, hit.obj, c.point)) else NormalAt(num, hit.obj, c.point)
    ensures Dot(c.normalv, c.eyev) >= 0.0 && c.cosI >= 0.0
    ensures Sub(c.overPoint, Scale(c.normalv, EPSILON)) == c.point
    ensures Add(c.underPoint, Scale(c.normalv, EPSILON)) == c.point
    ensures (c.n1, c.n2) == RefractiveIndices(xs, hit)
    ensures c.n2 != 0.0 ==> c.nRatio * c.n2 == c.n1
  {
    var point := Position(r, hit.t);
    var eyev := Neg(r.direction);
    var normal := NormalAt(num, hit.obj, point);
    var inside := Dot(normal, eyev) < 0.0;
    var normalv := FacingNormal(normal, eyev);
    SurfaceOffsets(point, normalv);
    var indices := RefractiveIndices(xs, hit);
    var nRatio := Divide(num, indices.0, indices.1);
    var cosI := Dot(eyev, normalv);
    PreparedComputations(
      hit.t, hit.obj, point,
      Add(point, Scale(normalv, EPSILON)), Sub(point, Scale(normalv, EPSILON)),
      eyev, normalv, Reflect(r.direction, normalv), cosI,
      num.powf(nRatio, 2.0) * (1.0 - num.powf(cosI, 2.0)),
      inside, indices.0, indices.1, nRatio)
  }

  /**
   * The containers loop of `prepare_computations`: the stack is replayed up
   * to the hit, taking n1 before and n2 after the hit's own toggle.
   */
  method ContainersLoop(xs: seq<Intersection<Object>>, hit: Intersection<Object>) returns (n1: real, n2: real)
    ensures (n1, n2) == RefractiveIndices(xs, hit)
  {
    n1 := 1.0;
    n2 := 1.0;
    var containers: seq<Object> := [];
    var k := 0;
    while k < |xs|
      invariant 0 <= k <= |xs|
      invariant containers == ContainersAfter(xs[..k])
      invariant forall j :: 0 <= j < k ==> !SameIntersection(xs[j], hit)
      invariant n1 == 1.0 && n2 == 1.0
    {
      var i := xs[k];
      var isHit := SameIntersection(i, hit);
      if isHit {
        n1 := TopIndex(containers);
      }
      assert xs[..k + 1][..k] == xs[..k];
      if Contains(containers, i.obj) {
        containers := RemoveAll(containers, i.obj);
      } else {
        containers := containers + [i.obj];
      }
      if isHit {
        n2 := TopIndex(containers);
        assert FirstSame(xs, hit) == Some(k);
        break;
      }
      k := k + 1;
    }
  }

  /**
   * `prepare_computations` as the source computes it, statement by statement,
   * with the containers loop above.
   */
  method PrepareComputations(num: Numerics, hit: Intersection<Object>, r: Ray, xs: seq<Intersection<Object>>)
    returns (c: PreparedComputations)
    requires !hit.obj.shape.Group?
    ensures c == Prepare(num, hit, r, xs)
  {
    var point := Position(r, hit.t);
    var eyev := Neg(r.direction);
    var normal := NormalAt(num, hit.obj, point);
    var normalv := normal;
    var inside := Dot(normalv, eyev) < 0.0;
    if inside {
      normalv := Neg(normalv);
    }
    assert normalv == FacingNormal(normal, eyev);
    var overPoint := Add(point, Scale(normalv, EPSILON));
    var underPoint := Sub(point, Scale(normalv, EPSILON));
    var reflectv := Reflect(r.direction, normalv);
    var cosI := Dot(eyev, normalv);

    var n1, n2 := ContainersLoop(xs, hit);
    var nRatio := Divide(num, n1, n2);
    var sin2T := num.powf(nRatio, 2.0) * (1.0 - num.powf(cosI, 2.0));
    c := PreparedComputations(t := hit.t, obj := hit.obj, point := point, overPoint := overPoint,
                              underPoint := underPoint, eyev := eyev, normalv := normalv, reflectv := reflectv,
                              cosI := cosI, sin2T := sin2T, inside := inside, n1 := n1, n2 := n2, nRatio := nRatio);
  }

  /** Schlick's approximation for a given cosine: r0 + (1 - r0)(1 - cos)^5. */
  function SchlickFormula(num: Numerics, c: PreparedComputations, cos: real): real
  {
    var r0 := num.powf(Divide(num, c.n1 - c.n2, c.n1 + c.n2), 2.0);
    r0 + (1.0 - r0) * num.powf(1.0 - cos, 5.0)
  }

  /**
   * `PreparedComputations::schlick`: total internal reflection (n1 > n2 and
   * sin2_t > 1) reflects everything; otherwise the approximation uses the
   * incident cosine, or, when n1 > n2, the transmitted one.
   */
  function Schlick(num: Numerics, c: PreparedComputations): (r: real)
    ensures c.n1 > c.n2 && c.sin2T > 1.0 ==> r == 1.0
    ensures c.n1 <= c.n2 ==> r == SchlickFormula(num, c, c.cosI)
    ensures c.n1 > c.n2 && c.sin2T <= 1.0 ==> r == SchlickFormula(num, c, num.sqrt(1.0 - c.sin2T))
  {
    if c.n1 > c.n2 && c.sin2T > 1.0 then 1.0
    else
      var cos := if c.n1 > c.n2 then num.sqrt(1.0 - c.sin2T) else c.cosI;
      SchlickFormula(num, c, cos)
  }
}
