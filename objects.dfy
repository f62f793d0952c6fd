/**
 * Scene objects (object.rs, shape.rs, group.rs): a transform and its
 * inverse, a material, one of the eight shapes, and an optional parent.
 * Objects are values: a group holds copies of its children, each copy
 * remembering a copy of the group as it was when the child was added.
 */
module Objects {
  import opened Options
  import opened Floats
  import opened Tuples
  import opened Bounds
  import opened Externals
  import opened Materials
  import opened Intersections
  import Triangles
  import Cubes
  import Planes

  /** The closed set of shapes (shape.rs). */
  datatype Shape =
    | Sphere
    | Plane
    | Cube
    | Cylinder(cylinder: CylinderShape)
    | Cone(cone: ConeShape)
    | Group(children: seq<Object>)
    | Triangle(triangle: Triangles.Triangle)
    | SmoothTriangle(smooth: SmoothTriangleShape)

  datatype Object = Object(transform: Matrix, inverseTransform: Matrix, material: Material,
                           shape: Shape, parent: Option<Object>)

  /**
   * The object with what equality ignores erased at every level of its group
   * tree: the parent is cleared and the cached inverse set to the identity.
   */
  function Detached(o: Object): (d: Object)
    ensures d.parent.None? && d.inverseTransform == IDENTITY
    ensures d.transform == o.transform && d.material == o.material
    decreases o, 1
  {
    Object(o.transform, IDENTITY, o.material, DetachedShape(o), None)
  }

  function DetachedShape(o: Object): (s: Shape)
    ensures s.Group? == o.shape.Group?
    ensures !o.shape.Group? ==> s == o.shape
    decreases o, 0
  {
    match o.shape
    case Group(cs) => Group(seq(|cs|, i requires 0 <= i < |cs| => Detached(cs[i])))
    case _ => o.shape
  }

  /** Object equality (`PartialEq for Object`): transform, material and shape; the parent and the inverse are ignored. */
  predicate SameObject(a: Object, b: Object)
  {
    Detached(a) == Detached(b)
  }

  /**
   * The comparison ignores the parent and the inverse, and it tells apart
   * objects whose transforms, materials or shapes differ; it is an equivalence.
   */
  lemma SameObjectIgnoresParent(a: Object, b: Object, c: Object, p: Option<Object>)
    ensures SameObject(a, a.(parent := p))
    ensures SameObject(a, a.(inverseTransform := b.inverseTransform))
    ensures SameObject(a, b) ==> a.transform == b.transform && a.material == b.material
    ensures SameObject(a, b) ==> a.shape.Group? == b.shape.Group?
    ensures !a.shape.Group? && !b.shape.Group? ==>
              (SameObject(a, b) <==> a.transform == b.transform && a.material == b.material && a.shape == b.shape)
    ensures SameObject(a, b) && SameObject(b, c) ==> SameObject(a, c)
  {
  }

  /** Every constructor: the given transform, its inverse, material and shape, and no parent. */
  function NewObject(num: Numerics, shape: Shape, transform: Matrix, material: Material): (o: Object)
    ensures o.transform == transform && o.inverseTransform == num.inverse(transform)
    ensures o.material == material && o.shape == shape && o.parent == None
  {
    Object(transform, num.inverse(transform), material, shape, None)
  }

  /** `Object::new_triangle`: a flat triangle through the three points. */
  function NewTriangle(num: Numerics, p1: Tuple, p2: Tuple, p3: Tuple, transform: Matrix, material: Material): (o: Object)
    ensures o.shape == Triangle(Triangles.NewTriangle(num, p1, p2, p3))
    ensures o.transform == transform && o.material == material && o.parent == None
  {
    NewObject(num, Triangle(Triangles.NewTriangle(num, p1, p2, p3)), transform, material)
  }

  /** `Object::new_smooth_triangle`: a triangle with a normal at each corner. */
  function NewSmoothTriangle(num: Numerics, p1: Tuple, p2: Tuple, p3: Tuple, n1: Tuple, n2: Tuple, n3: Tuple,
                             transform: Matrix, material: Material): (o: Object)
    ensures o.shape == SmoothTriangle(SmoothTriangleShape(p1, p2, p3, n1, n2, n3))
    ensures o.transform == transform && o.material == material && o.parent == None
  {
    NewObject(num, SmoothTriangle(SmoothTriangleShape(p1, p2, p3, n1, n2, n3)), transform, material)
  }

  /** `Object::new_group` (and `empty_group` with the identity and the default material): no children. */
  function NewGroup(num: Numerics, transform: Matrix, material: Material): (o: Object)
    ensures o.shape == Group([])
    ensures o.transform == transform && o.material == material && o.parent == None
  {
    NewObject(num, Group([]), transform, material)
  }

  /**
   * `Shape::update_parents`: a group's children all get `parent` as their
   * parent; every other shape is unchanged.
   */
  function UpdateParents(s: Shape, parent: Object): (r: Shape)
    ensures !s.Group? ==> r == s
    ensures s.Group? ==> r.Group? && |r.children| == |s.children|
    ensures s.Group? ==> forall i :: 0 <= i < |s.children| ==>
              r.children[i] == s.children[i].(parent := Some(parent))
  {
    match s
    case Group(cs) => Group(seq(|cs|, i requires 0 <= i < |cs| => cs[i].(parent := Some(parent))))
    case _ => s
  }

  /**
   * `Object::set_transform`: stores the transform and its inverse; a group's
   * children are re-parented to the updated object.
   */
  function SetTransform(num: Numerics, o: Object, m: Matrix): (r: Object)
    ensures r.transform == m && r.inverseTransform == num.inverse(m)
    ensures r.material == o.material && r.parent == o.parent
    ensures r.shape == UpdateParents(o.shape, o.(transform := m, inverseTransform := num.inverse(m)))
  {
    var updated := o.(transform := m, inverseTransform := num.inverse(m));
    updated.(shape := UpdateParents(updated.shape, updated))
  }

  /** `Object::set_material`: stores the material; a group's children are re-parented. */
  function SetMaterial(o: Object, m: Material): (r: Object)
    ensures r.material == m && r.transform == o.transform && r.inverseTransform == o.inverseTransform
    ensures r.parent == o.parent
    ensures r.shape == UpdateParents(o.shape, o.(material := m))
  {
    var updated := o.(material := m);
    updated.(shape := UpdateParents(updated.shape, updated))
  }

  /**
   * `Object::add_child` (with `Shape::add_child` and `Group::add_child`): the
   * child's parent becomes the group as it was, and a copy of the child is
   * appended after the existing children. Only groups accept children.
   */
  function AddChild(g: Object, child: Object): (r: (Object, Object))
    requires g.shape.Group?
    ensures r.1 == child.(parent := Some(g))
    ensures r.0 == g.(shape := Group(g.shape.children + [r.1]))
    ensures SameObject(r.1, child)
  {
    SameObjectIgnoresParent(child, child, child, Some(g));
    var updatedChild := child.(parent := Some(g));
    (g.(shape := Group(g.shape.children + [updatedChild])), updatedChild)
  }

  /** `Object::is_transparent`: true when the transparency is exactly zero (the name is inverted). */
  predicate IsTransparent(o: Object)
  {
    o.material.transparency == 0.0
  }

  /** `Object::is_reflective`. */
  predicate IsReflective(o: Object)
  {
    o.material.reflective > 0.0
  }

  /** `Object::world_to_object`: the parent chain's conversion first, then this object's inverse. */
  function WorldToObject(o: Object, p: Tuple): Tuple
    decreases o
  {
    var q := if o.parent.Some? then WorldToObject(o.parent.value, p) else p;
    Apply(o.inverseTransform, q)
  }

  /** The inverse transforms from the outermost ancestor down to `o`. */
  function InverseChain(o: Object): (ms: seq<Matrix>)
    ensures |ms| >= 1 && ms[|ms| - 1] == o.inverseTransform
    decreases o
  {
    (if o.parent.Some? then InverseChain(o.parent.value) else []) + [o.inverseTransform]
  }

  /** Applies the matrices in sequence order: the first one is applied first. */
  function ApplyInOrder(ms: seq<Matrix>, p: Tuple): Tuple
  {
    if |ms| == 0 then p else ApplyInOrder(ms[1..], Apply(ms[0], p))
  }

  lemma {:induction false} ApplyInOrderSnoc(ms: seq<Matrix>, m: Matrix, p: Tuple)
    ensures ApplyInOrder(ms + [m], p) == Apply(m, ApplyInOrder(ms, p))
  {
    if |ms| > 0 {
      assert (ms + [m])[1..] == ms[1..] + [m];
      ApplyInOrderSnoc(ms[1..], m, Apply(ms[0], p));
    }
  }

  /**
   * `world_to_object` walks the finite parent chain: it applies the inverse
   * transforms from the outermost ancestor inwards, ending with the object's own.
   */
  lemma {:induction false} WorldToObjectIsChain(o: Object, p: Tuple)
    ensures WorldToObject(o, p) == ApplyInOrder(InverseChain(o), p)
    decreases o
  {
    if o.parent.Some? {
      WorldToObjectIsChain(o.parent.value, p);
      ApplyInOrderSnoc(InverseChain(o.parent.value), o.inverseTransform, p);
    } else {
      assert InverseChain(o) == [o.inverseTransform];
    }
  }

  /**
   * `Object::normal_to_world`: the transposed inverse applied, w cleared,
   * normalised, then converted by the parent chain outwards. Whatever the
   * depth of the chain, the last step is a normalisation.
   */
  function NormalToWorld(num: Numerics, o: Object, n: Tuple): (r: Tuple)
    ensures exists m :: r == num.normalize(m)
    decreases o
  {
    var m := Apply(Transpose(o.inverseTransform), n).(w := 0.0);
    if o.parent.Some? then NormalToWorld(num, o.parent.value, num.normalize(m)) else num.normalize(m)
  }

  /** The IEEE distances of the cube read as reals: finite ones exactly, the others through `nonFinite`. */
  function ExtsToReals(num: Numerics, es: seq<Ext>): (ts: seq<real>)
    ensures |ts| == |es|
    ensures forall i :: 0 <= i < |es| && es[i].Fin? ==> ts[i] == es[i].v
  {
    seq(|es|, i requires 0 <= i < |es| => if es[i].Fin? then es[i].v else num.nonFinite(es[i]))
  }

  /**
   * `Shape::local_normal_at`, dispatched to the variant. A group never
   * computes a normal (its children do), so groups are excluded.
   */
  function LocalNormalAt(num: Numerics, s: Shape, p: Tuple): (n: Tuple)
    requires !s.Group?
    ensures s.Plane? ==> n == Vector(0.0, 1.0, 0.0)
    ensures s.Cube? ==> n == Cubes.LocalNormalAt(p)
    ensures s.Triangle? ==> n == s.triangle.normal
  {
    match s
    case Sphere => num.sphereNormal(p)
    case Plane => Planes.LocalNormalAt(p)
    case Cube => Cubes.LocalNormalAt(p)
    case Cylinder(c) => num.cylinderNormal(c, p)
    case Cone(c) => num.coneNormal(c, p)
    case Triangle(tri) => Triangles.LocalNormalAt(tri, p)
    case SmoothTriangle(sm) => num.smoothNormal(sm, p)
  }

  /**
   * `Object::normal_at`: into object space, the shape's normal, back to world
   * space. A flat shape's world normal does not depend on the point.
   */
  function NormalAt(num: Numerics, o: Object, p: Tuple): (n: Tuple)
    requires !o.shape.Group?
    ensures o.shape.Plane? ==> n == NormalToWorld(num, o, Vector(0.0, 1.0, 0.0))
    ensures o.shape.Triangle? ==> n == NormalToWorld(num, o, o.shape.triangle.normal)
    ensures exists m :: n == num.normalize(m)
  {
    NormalToWorld(num, o, LocalNormalAt(num, o.shape, WorldToObject(o, p)))
  }

  /** Every intersection names a leaf object, never a group. */
  predicate AllLeaves(xs: seq<Intersection<Object>>)
  {
    forall i :: 0 <= i < |xs| ==> !xs[i].obj.shape.Group?
  }

  lemma CombineLeaves(a: seq<Intersection<Object>>, b: seq<Intersection<Object>>)
    requires AllLeaves(a) && AllLeaves(b)
    ensures AllLeaves(Combine(a, b))
  {
    var r := Combine(a, b);
    forall i | 0 <= i < |r| ensures !r[i].obj.shape.Group? {
      assert r[i] in multiset(a) + multiset(b);
    }
  }

  /** `Object::intersect`: the ray taken into object space, then the shape's own test. */
  function Intersect(num: Numerics, o: Object, r: Ray): (xs: seq<Intersection<Object>>)
    ensures SortedByT(xs) && AllLeaves(xs)
    decreases o, 3, 0, 0
  {
    LocalIntersect(num, o, Transform(r, o.inverseTransform))
  }

  /** The distances along the ray at which a leaf shape is hit, dispatched to the variant. */
  function LeafDistances(num: Numerics, s: Shape, r: Ray): (ts: seq<real>)
    requires !s.Group?
    ensures s.Plane? ==> ts == Planes.LocalIntersect(r)
    ensures s.Triangle? ==> ts == Triangles.LocalIntersect(s.triangle, r)
  {
    match s
    case Sphere => num.sphereIntersect(r)
    case Plane => Planes.LocalIntersect(r)
    case Cube => ExtsToReals(num, Cubes.LocalIntersect(r))
    case Cylinder(c) => num.cylinderIntersect(c, r)
    case Cone(c) => num.coneIntersect(c, r)
    case Triangle(tri) => Triangles.LocalIntersect(tri, r)
    case SmoothTriangle(sm) => num.smoothIntersect(sm, r)
  }

  /**
   * `Shape::local_intersect`, dispatched to the variant: a group consults
   * its children; every leaf shape tags its distances with the object
   * itself, sorted.
   */
  function LocalIntersect(num: Numerics, o: Object, r: Ray): (xs: seq<Intersection<Object>>)
    ensures SortedByT(xs) && AllLeaves(xs)
    ensures !o.shape.Group? ==> forall i :: 0 <= i < |xs| ==> xs[i].obj == o
    decreases o, 2, 0, 0
  {
    if o.shape.Group? then GroupLocalIntersect(num, o, r)
    else FromObject(LeafDistances(num, o.shape, r), o)
  }

  /**
   * `Group::local_intersect`: nothing when the ray misses the group's box
   * (no child is consulted); otherwise every child's intersections, combined.
   */
  function GroupLocalIntersect(num: Numerics, g: Object, r: Ray): (xs: seq<Intersection<Object>>)
    requires g.shape.Group?
    ensures SortedByT(xs) && AllLeaves(xs)
    ensures !Bounds.Intersects(BoundingBoxOf(num, g), r, num.boxCheckAxis) ==> xs == []
    decreases g, 1, 0, 0
  {
    if !Bounds.Intersects(BoundingBoxOf(num, g), r, num.boxCheckAxis) then []
    else IntersectChildren(num, g, |g.shape.children|, r)
  }

  /** The fold of `Group::local_intersect` over the first k children. */
  function IntersectChildren(num: Numerics, g: Object, k: nat, r: Ray): (xs: seq<Intersection<Object>>)
    requires g.shape.Group? && k <= |g.shape.children|
    ensures SortedByT(xs) && AllLeaves(xs)
    decreases g, 0, k
  {
    if k == 0 then []
    else
      var before := IntersectChildren(num, g, k - 1, r);
      var child := Intersect(num, g.shape.children[k - 1], r);
      CombineLeaves(before, child);
      Combine(before, child)
  }

  /** All intersections of the first k children, as a bag. */
  function ChildrenIntersections(num: Numerics, g: Object, k: nat, r: Ray): multiset<Intersection<Object>>
    requires g.shape.Group? && k <= |g.shape.children|
  {
    if k == 0 then multiset{}
    else ChildrenIntersections(num, g, k - 1, r) + multiset(Intersect(num, g.shape.children[k - 1], r))
  }

  /** The sum of the first k children's intersection counts. */
  function ChildrenCount(num: Numerics, g: Object, k: nat, r: Ray): nat
    requires g.shape.Group? && k <= |g.shape.children|
  {
    if k == 0 then 0 else ChildrenCount(num, g, k - 1, r) + |Intersect(num, g.shape.children[k - 1], r)|
  }

  /** One step of the fold: combining keeps every intersection of both lists. */
  lemma CombineCollects(xs: seq<Intersection<Object>>, before: seq<Intersection<Object>>, child: seq<Intersection<Object>>,
                        bag: multiset<Intersection<Object>>, bagBefore: multiset<Intersection<Object>>, n: nat, nBefore: nat)
    requires xs == Combine(before, child)
    requires multiset(before) == bagBefore && |before| == nBefore
    requires bag == bagBefore + multiset(child) && n == nBefore + |child|
    ensures multiset(xs) == bag && |xs| == n
  {
  }

  lemma IntersectChildrenCollects(num: Numerics, g: Object, k: nat, r: Ray)
    requires g.shape.Group? && k <= |g.shape.children|
    ensures multiset(IntersectChildren(num, g, k, r)) == ChildrenIntersections(num, g, k, r)
    ensures |IntersectChildren(num, g, k, r)| == ChildrenCount(num, g, k, r)
  {
    for i := 0 to k
      invariant multiset(IntersectChildren(num, g, i, r)) == ChildrenIntersections(num, g, i, r)
      invariant |IntersectChildren(num, g, i, r)| == ChildrenCount(num, g, i, r)
    {
      CollectOneMoreChild(num, g, i + 1, r);
    }
  }

  /** The fold's step: child k's intersections join the bag and the count. */
  lemma CollectOneMoreChild(num: Numerics, g: Object, k: nat, r: Ray)
    requires g.shape.Group? && 0 < k <= |g.shape.children|
    requires multiset(IntersectChildren(num, g, k - 1, r)) == ChildrenIntersections(num, g, k - 1, r)
    requires |IntersectChildren(num, g, k - 1, r)| == ChildrenCount(num, g, k - 1, r)
    ensures multiset(IntersectChildren(num, g, k, r)) == ChildrenIntersections(num, g, k, r)
    ensures |IntersectChildren(num, g, k, r)| == ChildrenCount(num, g, k, r)
  {
    CombineCollects(IntersectChildren(num, g, k, r), IntersectChildren(num, g, k - 1, r),
                    Intersect(num, g.shape.children[k - 1], r),
                    ChildrenIntersections(num, g, k, r), ChildrenIntersections(num, g, k - 1, r),
                    ChildrenCount(num, g, k, r), ChildrenCount(num, g, k - 1, r));
  }

  /**
   * When the ray meets the group's box, the group's intersections are
   * exactly all of its children's, and their number is the sum of the
   * children's counts.
   */
  lemma GroupHitCombinesChildren(num: Numerics, g: Object, r: Ray)
    requires g.shape.Group?
    requires Bounds.Intersects(BoundingBoxOf(num, g), r, num.boxCheckAxis)
    ensures multiset(GroupLocalIntersect(num, g, r)) == ChildrenIntersections(num, g, |g.shape.children|, r)
    ensures |GroupLocalIntersect(num, g, r)| == ChildrenCount(num, g, |g.shape.children|, r)
  {
    IntersectChildrenCollects(num, g, |g.shape.children|, r);
  }

  /** An empty group has no intersections, whatever the ray. */
  lemma EmptyGroupNoIntersections(num: Numerics, g: Object, r: Ray)
    requires g.shape == Group([])
    ensures Intersect(num, g, r) == []
  {
    var local := Transform(r, g.inverseTransform);
    assert IntersectChildren(num, g, 0, local) == [];
    assert LocalIntersect(num, g, local) == GroupLocalIntersect(num, g, local);
  }

  /** `Shape::bounding_box`, dispatched to the variant, in the object's own space. */
  function BoundingBoxOf(num: Numerics, o: Object): (b: BoundingBox)
    ensures o.shape.Sphere? || o.shape.Cube? ==> b == DEFAULT_BOX
    decreases o, 1, 0, 0
  {
    match o.shape
    case Sphere => DEFAULT_BOX
    case Plane => num.planeBox
    case Cube => DEFAULT_BOX
    case Cylinder(c) => BoundingBox(Point(-1.0, c.minimum, -1.0), Point(1.0, c.maximum, 1.0))
    case Cone(c) =>
      var limit := Max(Abs(c.minimum), Abs(c.maximum));
      BoundingBox(Point(-limit, c.minimum, -limit), Point(limit, c.maximum, limit))
    case Group(cs) => GroupBoundingBox(num, o, |cs|)
    case Triangle(tri) => Triangles.BoundingBoxOf(tri)
    case SmoothTriangle(sm) => num.smoothBox(sm)
  }

  /** `Object::bounding_box_in_parent_space`: the object's box under its transform. */
  function BoundingBoxInParentSpace(num: Numerics, o: Object): BoundingBox
    decreases o, 2, 0, 0
  {
    num.boxTransform(BoundingBoxOf(num, o), o.transform)
  }

  /** The parent-space boxes of a group's first k children. */
  function ChildBoxes(num: Numerics, g: Object, k: nat): (bs: seq<BoundingBox>)
    requires g.shape.Group? && k <= |g.shape.children|
    ensures |bs| == k
    ensures forall i :: 0 <= i < k ==> bs[i] == BoundingBoxInParentSpace(num, g.shape.children[i])
  {
    seq(k, i requires 0 <= i < k => BoundingBoxInParentSpace(num, g.shape.children[i]))
  }

  /**
   * `Group::bounding_box`: the children's parent-space boxes added one by
   * one to the empty box at the origin.
   */
  function GroupBoundingBox(num: Numerics, g: Object, k: nat): (b: BoundingBox)
    requires g.shape.Group? && k <= |g.shape.children|
    ensures k == 0 ==> b == EMPTY_BOX
    decreases g, 0, k, 1
  {
    if k == 0 then EMPTY_BOX
    else AddBox(GroupBoundingBox(num, g, k - 1), BoundingBoxInParentSpace(num, g.shape.children[k - 1]))
  }

  /** The group's box is the sum of its children's parent-space boxes. */
  lemma {:induction false} GroupBoundingBoxIsSum(num: Numerics, g: Object, k: nat)
    requires g.shape.Group? && k <= |g.shape.children|
    ensures GroupBoundingBox(num, g, k) == SumBoxes(ChildBoxes(num, g, k))
  {
    if k > 0 {
      GroupBoundingBoxIsSum(num, g, k - 1);
      assert ChildBoxes(num, g, k)[..k - 1] == ChildBoxes(num, g, k - 1);
    }
  }

  /** A group's box contains every child's parent-space box, and the origin. */
  lemma GroupBoxContainsChildren(num: Numerics, g: Object)
    requires g.shape.Group?
    ensures forall i :: 0 <= i < |g.shape.children| ==>
              ContainsBox(BoundingBoxOf(num, g), BoundingBoxInParentSpace(num, g.shape.children[i]))
    ensures ContainsPoint(BoundingBoxOf(num, g), EMPTY_POINT)
  {
    var bs := ChildBoxes(num, g, |g.shape.children|);
    GroupBoundingBoxIsSum(num, g, |g.shape.children|);
    SumBoxesIsLeastCover(bs, EMPTY_BOX);
  }

  /**
   * `group`/`untransformed_group` as a specification: the children of
   * `children` added one after the other to `g`.
   */
  function AddChildren(g: Object, children: seq<Object>): (r: Object)
    requires g.shape.Group?
    ensures r.shape.Group?
    ensures r.transform == g.transform && r.material == g.material && r.parent == g.parent
    ensures |r.shape.children| == |g.shape.children| + |children|
    ensures r.shape.children[..|g.shape.children|] == g.shape.children
    ensures forall i :: 0 <= i < |children| ==> SameObject(r.shape.children[|g.shape.children| + i], children[i])
  {
    if |children| == 0 then g
    else
      var last := children[|children| - 1];
      var init := AddChildren(g, children[..|children| - 1]);
      var r := AddChild(init, last).0;
      assert forall i :: 0 <= i < |children| - 1 ==> children[..|children| - 1][i] == children[i];
      r
  }

  /**
   * `group(transform, children)`: a new group with the default material,
   * adding each child in order (and giving each its parent).
   */
  method NewGroupOf(num: Numerics, transform: Matrix, children: seq<Object>) returns (g: Object)
    ensures g == AddChildren(NewGroup(num, transform, DEFAULT_MATERIAL), children)
    ensures g.shape.Group? && |g.shape.children| == |children|
    ensures g.transform == transform && g.material == DEFAULT_MATERIAL && g.parent == None
    ensures forall i :: 0 <= i < |children| ==> SameObject(g.shape.children[i], children[i])
  {
    g := NewGroup(num, transform, DEFAULT_MATERIAL);
    var k := 0;
    while k < |children|
      invariant 0 <= k <= |children|
      invariant g == AddChildren(NewGroup(num, transform, DEFAULT_MATERIAL), children[..k])
    {
      var added := AddChild(g, children[k]);
      g := added.0;
      assert children[..k + 1][..k] == children[..k];
      k := k + 1;
    }
    assert children[..k] == children;
  }

  /** `Group::local_intersect` as the source's loop: the box test, then each child's intersections combined in. */
  method GroupIntersectLoop(num: Numerics, g: Object, r: Ray) returns (xs: seq<Intersection<Object>>)
    requires g.shape.Group?
    ensures xs == GroupLocalIntersect(num, g, r)
    ensures SortedByT(xs) && AllLeaves(xs)
  {
    var box := GroupBoxLoop(num, g);
    if !Bounds.Intersects(box, r, num.boxCheckAxis) {
      return [];
    }
    xs := [];
    for k := 0 to |g.shape.children|
      invariant xs == IntersectChildren(num, g, k, r)
    {
      xs := CombineChild(num, g, r, k, xs);
    }
  }

  /** One iteration of the group's loop: child k's intersections combined in. */
  method CombineChild(num: Numerics, g: Object, r: Ray, k: nat, xs: seq<Intersection<Object>>)
    returns (next: seq<Intersection<Object>>)
    requires g.shape.Group? && k < |g.shape.children| && xs == IntersectChildren(num, g, k, r)
    ensures next == IntersectChildren(num, g, k + 1, r)
  {
    next := Combine(xs, Intersect(num, g.shape.children[k], r));
  }

  /** `Group::bounding_box` as the source's loop: each child's parent-space box added in turn. */
  method GroupBoxLoop(num: Numerics, g: Object) returns (b: BoundingBox)
    requires g.shape.Group?
    ensures b == BoundingBoxOf(num, g)
  {
    b := EMPTY_BOX;
    var k := 0;
    while k < |g.shape.children|
      invariant 0 <= k <= |g.shape.children|
      invariant b == GroupBoundingBox(num, g, k)
    {
      b := AddBox(b, BoundingBoxInParentSpace(num, g.shape.children[k]));
      k := k + 1;
    }
  }
}
