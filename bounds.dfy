/**
 * Axis-aligned bounding boxes (bounds.rs): growing a box by a point or a box,
 * summing a list of boxes, and the ray/box test of group pruning.
 */
module Bounds {
  import opened Floats
  import opened Tuples

  datatype BoundingBox = BoundingBox(minimum: Tuple, maximum: Tuple)

  /** `BoundingBox::empty()` (also `Default`): the degenerate box at the origin. */
  const EMPTY_BOX: BoundingBox := BoundingBox(EMPTY_POINT, EMPTY_POINT)

  /** `default_bounding_box()`, the box the `Bounds` trait gives a shape by default. */
  const DEFAULT_BOX: BoundingBox := BoundingBox(Point(-1.0, -1.0, -1.0), Point(1.0, 1.0, 1.0))

  /** `bounding_box(min, max)`. */
  function NewBox(minimum: Tuple, maximum: Tuple): (b: BoundingBox)
    ensures b.minimum == minimum && b.maximum == maximum
  {
    BoundingBox(minimum, maximum)
  }

  predicate ContainsPoint(b: BoundingBox, p: Tuple)
  {
    b.minimum.x <= p.x <= b.maximum.x
    && b.minimum.y <= p.y <= b.maximum.y
    && b.minimum.z <= p.z <= b.maximum.z
  }

  /** `outer` spans at least the extent of `inner` on every axis. */
  predicate ContainsBox(outer: BoundingBox, inner: BoundingBox)
  {
    outer.minimum.x <= inner.minimum.x && inner.maximum.x <= outer.maximum.x
    && outer.minimum.y <= inner.minimum.y && inner.maximum.y <= outer.maximum.y
    && outer.minimum.z <= inner.minimum.z && inner.maximum.z <= outer.maximum.z
  }

  predicate WellFormed(b: BoundingBox)
  {
    b.minimum.x <= b.maximum.x && b.minimum.y <= b.maximum.y && b.minimum.z <= b.maximum.z
  }

  /** `box + point`: the component-wise minimum and maximum, as points. */
  function AddPoint(b: BoundingBox, p: Tuple): BoundingBox
  {
    BoundingBox(Point(Min(b.minimum.x, p.x), Min(b.minimum.y, p.y), Min(b.minimum.z, p.z)),
                Point(Max(b.maximum.x, p.x), Max(b.maximum.y, p.y), Max(b.maximum.z, p.z)))
  }

  /**
   * `box + point` contains the point and the original box, and is the least
   * such box; adding the same point again changes nothing.
   */
  lemma AddPointIsLeastCover(b: BoundingBox, p: Tuple, c: BoundingBox)
    ensures ContainsPoint(AddPoint(b, p), p)
    ensures ContainsBox(AddPoint(b, p), b)
    ensures ContainsBox(c, b) && ContainsPoint(c, p) ==> ContainsBox(c, AddPoint(b, p))
    ensures AddPoint(AddPoint(b, p), p) == AddPoint(b, p)
  {
  }

  /** `box + box`: the left box grown by the other's two corners. */
  function AddBox(b: BoundingBox, other: BoundingBox): BoundingBox
  {
    AddPoint(AddPoint(b, other.minimum), other.maximum)
  }

  /** `box + box` contains both boxes and is the least box that does. */
  lemma AddBoxIsLeastCover(b: BoundingBox, other: BoundingBox, c: BoundingBox)
    ensures ContainsBox(AddBox(b, other), b) && ContainsBox(AddBox(b, other), other)
    ensures WellFormed(other) && ContainsBox(c, b) && ContainsBox(c, other) ==> ContainsBox(c, AddBox(b, other))
  {
  }

  /** `Sum`: the boxes folded with `+` from the empty box at the origin. */
  function SumBoxes(boxes: seq<BoundingBox>): BoundingBox
  {
    if |boxes| == 0 then EMPTY_BOX else AddBox(SumBoxes(boxes[..|boxes| - 1]), boxes[|boxes| - 1])
  }

  lemma ContainsBoxTransitive(a: BoundingBox, b: BoundingBox, c: BoundingBox)
    requires ContainsBox(a, b) && ContainsBox(b, c)
    ensures ContainsBox(a, c)
  {
  }

  /**
   * The sum contains every summand and the origin (the empty box it starts
   * from); for well-formed summands it is the least box that does.
   */
  lemma {:induction false} SumBoxesIsLeastCover(boxes: seq<BoundingBox>, c: BoundingBox)
    ensures ContainsPoint(SumBoxes(boxes), EMPTY_POINT)
    ensures forall i :: 0 <= i < |boxes| ==> ContainsBox(SumBoxes(boxes), boxes[i])
    ensures ContainsPoint(c, EMPTY_POINT) ==>
              (forall i :: 0 <= i < |boxes| ==> WellFormed(boxes[i]) && ContainsBox(c, boxes[i])) ==>
                ContainsBox(c, SumBoxes(boxes))
  {
    if |boxes| > 0 {
      var init := boxes[..|boxes| - 1];
      var last := boxes[|boxes| - 1];
      SumBoxesIsLeastCover(init, c);
      AddBoxIsLeastCover(SumBoxes(init), last, c);
      forall i | 0 <= i < |boxes|
        ensures ContainsBox(SumBoxes(boxes), boxes[i])
      {
        if i < |boxes| - 1 {
          assert boxes[i] == init[i];
          ContainsBoxTransitive(SumBoxes(boxes), SumBoxes(init), boxes[i]);
        }
      }
    }
  }

  /**
   * `BoundingBox::intersects`: with the per-axis entry and exit values given
   * by `checkAxis` (origin, direction, minimum, maximum), the box is hit when
   * the nearest exit is not behind the ray and the farthest entry is no later
   * than it.
   */
  function Intersects(b: BoundingBox, r: Ray, checkAxis: (real, real, real, real) -> (Ext, Ext)): (hit: bool)
    ensures hit ==> !ExtLess(ExtMin(checkAxis(r.origin.x, r.direction.x, b.minimum.x, b.maximum.x).1,
                                    ExtMin(checkAxis(r.origin.y, r.direction.y, b.minimum.y, b.maximum.y).1,
                                           checkAxis(r.origin.z, r.direction.z, b.minimum.z, b.maximum.z).1)),
                             Fin(0.0))
  {
    var (xtmin, xtmax) := checkAxis(r.origin.x, r.direction.x, b.minimum.x, b.maximum.x);
    var (ytmin, ytmax) := checkAxis(r.origin.y, r.direction.y, b.minimum.y, b.maximum.y);
    var (ztmin, ztmax) := checkAxis(r.origin.z, r.direction.z, b.minimum.z, b.maximum.z);
    var tmax := ExtMin(xtmax, ExtMin(ytmax, ztmax));
    if ExtLess(tmax, Fin(0.0)) then false
    else
      var tmin := ExtMax(xtmin, ExtMax(ytmin, ztmin));
      ExtLess(tmin, tmax) || (tmin == tmax && tmin != NaN)
  }
}
