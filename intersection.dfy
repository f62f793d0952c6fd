/**
 * Intersection lists (intersection.rs): sorting by distance, tagging
 * distances with their object, and picking the hit. Generic in the object
 * type, which module Objects instantiates.
 */
module Intersections {
  import opened Options

  datatype Intersection<O> = Intersection(t: real, obj: O)

  /** `Intersection::positive`: in front of the ray's origin; t = 0 does not count. */
  predicate Positive<O>(i: Intersection<O>)
  {
    i.t > 0.0
  }

  predicate SortedByT<O>(xs: seq<Intersection<O>>)
  {
    forall i, j :: 0 <= i < j < |xs| ==> xs[i].t <= xs[j].t
  }

  /** Inserts `x` after every element whose t is not greater (so equal elements keep their order). */
  function InsertByT<O>(x: Intersection<O>, xs: seq<Intersection<O>>): (r: seq<Intersection<O>>)
    requires SortedByT(xs)
    ensures SortedByT(r)
    ensures multiset(r) == multiset(xs) + multiset{x}
    ensures |r| == |xs| + 1
    ensures forall i :: 0 <= i < |r| ==> r[i] == x || r[i] in xs
  {
    if |xs| == 0 then [x]
    else if x.t < xs[0].t then [x] + xs
    else
      var rest := InsertByT(x, xs[1..]);
      assert xs == [xs[0]] + xs[1..];
      HeadBoundsInsertion(x, xs, rest);
      [xs[0]] + rest
  }

  lemma HeadBoundsInsertion<O>(x: Intersection<O>, xs: seq<Intersection<O>>, rest: seq<Intersection<O>>)
    requires SortedByT(xs) && |xs| > 0 && xs[0].t <= x.t
    requires forall i :: 0 <= i < |rest| ==> rest[i] == x || rest[i] in xs[1..]
    ensures forall i :: 0 <= i < |rest| ==> xs[0].t <= rest[i].t
  {
    forall i | 0 <= i < |rest|
      ensures xs[0].t <= rest[i].t
    {
      if rest[i] != x {
        var j :| 0 <= j < |xs[1..]| && xs[1..][j] == rest[i];
        assert xs[j + 1] == rest[i];
      }
    }
  }

  /**
   * `Intersections::new`: the list sorted ascending by t (`sort_by`); the
   * result is a permutation of the input.
   */
  function Sort<O>(xs: seq<Intersection<O>>): (r: seq<Intersection<O>>)
    ensures SortedByT(r)
    ensures multiset(r) == multiset(xs)
    ensures |r| == |xs|
  {
    if |xs| == 0 then []
    else
      var init := xs[..|xs| - 1];
      assert xs == init + [xs[|xs| - 1]];
      InsertByT(xs[|xs| - 1], Sort(init))
  }

  /** Sorting a sorted list changes nothing. */
  lemma {:induction false} SortSorted<O>(xs: seq<Intersection<O>>)
    requires SortedByT(xs)
    ensures Sort(xs) == xs
  {
    if |xs| > 0 {
      var init := xs[..|xs| - 1];
      SortSorted(init);
      InsertLast(xs[|xs| - 1], init);
      assert init + [xs[|xs| - 1]] == xs;
    }
  }

  lemma {:induction false} InsertLast<O>(x: Intersection<O>, xs: seq<Intersection<O>>)
    requires SortedByT(xs)
    requires forall i :: 0 <= i < |xs| ==> xs[i].t <= x.t
    ensures InsertByT(x, xs) == xs + [x]
  {
    if |xs| > 0 {
      InsertLast(x, xs[1..]);
      assert [xs[0]] + (xs[1..] + [x]) == xs + [x];
    }
  }

  /** Each distance tagged with the same object, in the given order. */
  function Tag<O>(ts: seq<real>, o: O): (r: seq<Intersection<O>>)
    ensures |r| == |ts|
    ensures forall i :: 0 <= i < |r| ==> r[i] == Intersection(ts[i], o)
  {
    seq(|ts|, i requires 0 <= i < |ts| => Intersection(ts[i], o))
  }

  /**
   * `Intersections::from_object`: one intersection per distance, all for the
   * given object, sorted by t.
   */
  function FromObject<O>(ts: seq<real>, o: O): (r: seq<Intersection<O>>)
    ensures |r| == |ts|
    ensures SortedByT(r)
    ensures multiset(r) == multiset(Tag(ts, o))
    ensures forall i :: 0 <= i < |r| ==> r[i].obj == o && r[i].t in ts
  {
    var r := Sort(Tag(ts, o));
    assert forall i :: 0 <= i < |r| ==> r[i] in multiset(Tag(ts, o));
    r
  }

  /** `Intersections + Intersections`: both lists together, sorted again. */
  function Combine<O>(a: seq<Intersection<O>>, b: seq<Intersection<O>>): (r: seq<Intersection<O>>)
    ensures SortedByT(r)
    ensures multiset(r) == multiset(a) + multiset(b)
    ensures |r| == |a| + |b|
  {
    Sort(a + b)
  }

  /** `Intersections::len`. */
  function Len<O>(xs: seq<Intersection<O>>): (n: nat)
    ensures n == |xs|
  {
    |xs|
  }

  /** `Intersections::is_empty`. */
  predicate IsEmpty<O>(xs: seq<Intersection<O>>)
  {
    Len(xs) == 0
  }

  /** An empty list is exactly the one without elements, and it has no hit. */
  lemma EmptyHasNoHit<O>(xs: seq<Intersection<O>>)
    ensures IsEmpty(xs) <==> xs == []
    ensures IsEmpty(xs) ==> Hit(xs) == None
  {
  }

  /**
   * `Intersections::hit`: the first intersection with positive t, and None
   * exactly when no t is positive.
   */
  function Hit<O>(xs: seq<Intersection<O>>): (h: Option<Intersection<O>>)
    ensures h.None? <==> forall i :: 0 <= i < |xs| ==> !Positive(xs[i])
    ensures h.Some? ==> exists k :: 0 <= k < |xs| && xs[k] == h.value && Positive(xs[k])
                                    && forall j :: 0 <= j < k ==> !Positive(xs[j])
  {
    if |xs| == 0 then None
    else if Positive(xs[0]) then Some(xs[0])
    else
      var h := Hit(xs[1..]);
      assert forall k :: 0 <= k < |xs| - 1 ==> xs[1..][k] == xs[k + 1];
      h
  }

  /** On a sorted list the hit is the intersection with the smallest positive t. */
  lemma HitIsNearestPositive<O>(xs: seq<Intersection<O>>)
    requires SortedByT(xs)
    ensures Hit(xs).Some? ==> forall i :: 0 <= i < |xs| && Positive(xs[i]) ==> Hit(xs).value.t <= xs[i].t
  {
    if Hit(xs).Some? {
      var k :| 0 <= k < |xs| && xs[k] == Hit(xs).value && Positive(xs[k])
               && forall j :: 0 <= j < k ==> !Positive(xs[j]);
      forall i | 0 <= i < |xs| && Positive(xs[i]) ensures xs[k].t <= xs[i].t {
        assert k <= i;
      }
    }
  }
}
