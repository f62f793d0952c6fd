/**
 * The world (world.rs): the objects and lights of a scene, the ray-world
 * intersection, and the colour of a ray with its bounded recursion through
 * reflection and refraction.
 */
module Worlds {
  import opened Options
  import opened Floats
  import opened Tuples
  import opened Externals
  import Colors
  import opened Lights
  import opened Materials
  import opened Intersections
  import opened Objects
  import opened Computations

  /** The world's contents while a picture is rendered; nothing changes them meanwhile. */
  datatype Scene = Scene(objects: seq<Object>, lights: seq<Light>)

  /** The objects' intersections, first to last object, concatenated (before sorting). */
  function AllIntersections(num: Numerics, objects: seq<Object>, r: Ray): (xs: seq<Intersection<Object>>)
    ensures AllLeaves(xs)
  {
    if |objects| == 0 then []
    else
      var init := AllIntersections(num, objects[..|objects| - 1], r);
      var last := Objects.Intersect(num, objects[|objects| - 1], r);
      assert forall i :: 0 <= i < |init + last| ==> (init + last)[i] in multiset(init) + multiset(last);
      init + last
  }

  /** The sum of the objects' own intersection counts. */
  function CountAll(num: Numerics, objects: seq<Object>, r: Ray): nat
  {
    if |objects| == 0 then 0
    else CountAll(num, objects[..|objects| - 1], r) + |Objects.Intersect(num, objects[|objects| - 1], r)|
  }

  lemma {:induction false} AllIntersectionsCount(num: Numerics, objects: seq<Object>, r: Ray)
    ensures |AllIntersections(num, objects, r)| == CountAll(num, objects, r)
  {
    if |objects| > 0 {
      AllIntersectionsCount(num, objects[..|objects| - 1], r);
    }
  }

  /**
   * `World::intersect`: every object's intersections, sorted by t; the count
   * is the sum of the objects' counts and every one of them is kept.
   */
  function IntersectWorld(num: Numerics, s: Scene, r: Ray): (xs: seq<Intersection<Object>>)
    ensures SortedByT(xs) && AllLeaves(xs)
    ensures |xs| == CountAll(num, s.objects, r)
    ensures multiset(xs) == multiset(AllIntersections(num, s.objects, r))
    ensures s.objects == [] ==> xs == []
  {
    var all := AllIntersections(num, s.objects, r);
    AllIntersectionsCount(num, s.objects, r);
    var xs := Sort(all);
    assert forall i :: 0 <= i < |xs| ==> xs[i] in multiset(all);
    xs
  }

  /**
   * `World::is_shadowed`: a ray from the point towards the light; the point
   * is in shadow when the nearest positive hit casts shadows and lies
   * before the light.
   */
  function IsShadowed(num: Numerics, hasShadow: Object -> bool, s: Scene, lightPosition: Tuple, point: Tuple): (b: bool)
    ensures s.objects == [] ==> !b
    ensures b ==> Hit(IntersectWorld(num, s, ShadowRay(num, lightPosition, point))).Some?
  {
    var v := Sub(lightPosition, point);
    var distance := num.magnitude(v);
    match Hit(IntersectWorld(num, s, ShadowRay(num, lightPosition, point)))
    case None => false
    case Some(h) => hasShadow(h.obj) && h.t < distance
  }

  /** The shadow test that `intensity_at` consults: the world's own `is_shadowed`. */
  function ShadowTest(num: Numerics, hasShadow: Object -> bool, s: Scene): (Tuple, Tuple) -> bool
  {
    (lightPosition, point) => IsShadowed(num, hasShadow, s, lightPosition, point)
  }

  /**
   * `Light::intensity_at` in a world: 0.0 exactly when the world's shadow
   * test holds between the light and the point, and always 1.0 in a world
   * without objects.
   */
  lemma IntensityInWorld(num: Numerics, hasShadow: Object -> bool, s: Scene, l: Light, p: Tuple)
    ensures IntensityAt(l, p, ShadowTest(num, hasShadow, s)) == 0.0 <==> IsShadowed(num, hasShadow, s, l.position, p)
    ensures s.objects == [] ==> IntensityAt(l, p, ShadowTest(num, hasShadow, s)) == 1.0
  {
  }

  /** The ray from the point towards the light position. */
  function ShadowRay(num: Numerics, lightPosition: Tuple, point: Tuple): (r: Ray)
    ensures r.origin == point
  {
    Ray(point, num.normalize(Sub(lightPosition, point)))
  }

  /** What one light adds at the hit, before reflection and refraction. */
  function LightSurfaceColor(num: Numerics, shadowed: (Tuple, Tuple) -> bool, s: Scene, c: PreparedComputations, l: Light): Colors.Color
  {
    var intensity := IntensityAt(l, c.overPoint, shadowed);
    Lighting(num, c.obj.material, c.obj.transform, l, c.overPoint, c.eyev, c.normalv, intensity)
  }

  /**
   * What one light adds in `shade_hit`: its surface colour plus the
   * reflected and refracted colours, the two blended by Schlick's
   * reflectance when the object is reflective and `is_transparent` is false.
   */
  function Contribution(num: Numerics, shadowed: (Tuple, Tuple) -> bool, s: Scene, c: PreparedComputations,
                        l: Light, remaining: nat): Colors.Color
    decreases remaining, 1, 0
  {
    var surface := LightSurfaceColor(num, shadowed, s, c, l);
    var reflected := ReflectedColor(num, shadowed, s, c, remaining);
    var refracted := RefractedColor(num, shadowed, s, c, remaining);
    if IsReflective(c.obj) && !IsTransparent(c.obj) then
      var reflectance := Schlick(num, c);
      Colors.Add(Colors.Add(surface, Colors.Scale(reflected, reflectance)), Colors.Scale(refracted, 1.0 - reflectance))
    else Colors.Add(Colors.Add(surface, reflected), refracted)
  }

  /** The `shade_hit` loop after k lights: their contributions summed from black. */
  function ShadeHitLights(num: Numerics, shadowed: (Tuple, Tuple) -> bool, s: Scene, c: PreparedComputations,
                          remaining: nat, k: nat): (acc: Colors.Color)
    requires k <= |s.lights|
    ensures k == 0 ==> acc == Colors.BLACK
    decreases remaining, 1, k + 1
  {
    if k == 0 then Colors.BLACK
    else Colors.Add(ShadeHitLights(num, shadowed, s, c, remaining, k - 1), Contribution(num, shadowed, s, c, s.lights[k - 1], remaining))
  }

  /** `World::shade_hit`: the contributions of all lights, summed from black. */
  function ShadeHit(num: Numerics, shadowed: (Tuple, Tuple) -> bool, s: Scene, c: PreparedComputations, remaining: nat): (acc: Colors.Color)
    ensures s.lights == [] ==> acc == Colors.BLACK
    decreases remaining, 1, |s.lights| + 2
  {
    ShadeHitLights(num, shadowed, s, c, remaining, |s.lights|)
  }

  /**
   * `World::color_at`: black when no intersection has positive t; otherwise
   * the shading of the nearest positive hit.
   */
  function ColorAt(num: Numerics, shadowed: (Tuple, Tuple) -> bool, s: Scene, r: Ray, remaining: nat): (c: Colors.Color)
    ensures Hit(IntersectWorld(num, s, r)).None? ==> c == Colors.BLACK
    ensures s.objects == [] ==> c == Colors.BLACK
    decreases remaining, 2, 0
  {
    var xs := IntersectWorld(num, s, r);
    match Hit(xs)
    case None => Colors.BLACK
    case Some(h) =>
      assert !h.obj.shape.Group?;
      ShadeHit(num, shadowed, s, Prepare(num, h, r, xs), remaining)
  }

  /**
   * `World::reflected_color`: black when the budget is spent or the surface
   * is not reflective; otherwise the colour along the reflected ray, one
   * bounce fewer, scaled by the reflectivity.
   */
  function ReflectedColor(num: Numerics, shadowed: (Tuple, Tuple) -> bool, s: Scene, c: PreparedComputations, remaining: nat): (col: Colors.Color)
    ensures remaining < 1 || !IsReflective(c.obj) ==> col == Colors.BLACK
    decreases remaining, 0, 0
  {
    if remaining < 1 || !IsReflective(c.obj) then Colors.BLACK
    else Colors.Scale(ColorAt(num, shadowed, s, Ray(c.overPoint, c.reflectv), remaining - 1), c.obj.material.reflective)
  }

  /** The refracted ray's direction, from Snell's law with cos(theta_t) = sqrt(1 - sin2_t). */
  function RefractedDirection(num: Numerics, c: PreparedComputations): Tuple
  {
    var cosT := num.sqrt(1.0 - c.sin2T);
    Sub(Tuples.Scale(c.normalv, c.nRatio * c.cosI - cosT), Tuples.Scale(c.eyev, c.nRatio))
  }

  /**
   * `World::refracted_color`: black when the budget is spent, when
   * `is_transparent` holds (transparency exactly zero), or under total
   * internal reflection (sin2_t > 1); otherwise the colour along the
   * refracted ray from just below the surface, one bounce fewer, scaled by
   * the transparency.
   */
  function RefractedColor(num: Numerics, shadowed: (Tuple, Tuple) -> bool, s: Scene, c: PreparedComputations, remaining: nat): (col: Colors.Color)
    ensures remaining == 0 || IsTransparent(c.obj) || c.sin2T > 1.0 ==> col == Colors.BLACK
    decreases remaining, 0, 0
  {
    if remaining == 0 || IsTransparent(c.obj) then Colors.BLACK
    else if c.sin2T > 1.0 then Colors.BLACK
    else
      Colors.Scale(ColorAt(num, shadowed, s, Ray(c.underPoint, RefractedDirection(num, c)), remaining - 1),
                   c.obj.material.transparency)
  }

  /** The lights' surface colours alone, summed from black. */
  function DirectLighting(num: Numerics, shadowed: (Tuple, Tuple) -> bool, s: Scene, c: PreparedComputations, k: nat): Colors.Color
    requires k <= |s.lights|
  {
    if k == 0 then Colors.BLACK
    else Colors.Add(DirectLighting(num, shadowed, s, c, k - 1), LightSurfaceColor(num, shadowed, s, c, s.lights[k - 1]))
  }

  /** With the budget spent, a light contributes its surface colour alone. */
  lemma ContributionWithoutBudget(num: Numerics, shadowed: (Tuple, Tuple) -> bool, s: Scene, c: PreparedComputations, l: Light)
    ensures Contribution(num, shadowed, s, c, l, 0) == LightSurfaceColor(num, shadowed, s, c, l)
  {
    assert ReflectedColor(num, shadowed, s, c, 0) == Colors.BLACK;
    assert RefractedColor(num, shadowed, s, c, 0) == Colors.BLACK;
  }

  /**
   * With the bounce budget spent there is no reflection and no refraction:
   * `shade_hit` is exactly the sum of the lights' surface colours.
   */
  lemma {:induction false} ShadeHitWithoutBudget(num: Numerics, shadowed: (Tuple, Tuple) -> bool, s: Scene,
                                                 c: PreparedComputations, k: nat)
    requires k <= |s.lights|
    ensures ShadeHitLights(num, shadowed, s, c, 0, k) == DirectLighting(num, shadowed, s, c, k)
  {
    if k > 0 {
      ShadeHitWithoutBudget(num, shadowed, s, c, k - 1);
      ContributionWithoutBudget(num, shadowed, s, c, s.lights[k - 1]);
    }
  }

  /** A colour added to itself k times, from black. */
  function Repeated(b: Colors.Color, k: nat): Colors.Color
  {
    if k == 0 then Colors.BLACK else Colors.Add(Repeated(b, k - 1), b)
  }

  /** Adding a colour k times is scaling it by k. */
  lemma {:induction false} RepeatedIsScale(b: Colors.Color, k: nat)
    ensures Repeated(b, k) == Colors.Scale(b, k as real)
  {
    if k > 0 {
      RepeatedIsScale(b, k - 1);
      assert b.red * (k - 1) as real + b.red == b.red * k as real;
      assert b.green * (k - 1) as real + b.green == b.green * k as real;
      assert b.blue * (k - 1) as real + b.blue == b.blue * k as real;
    }
  }

  /** The reflected plus the refracted colour at a hit. */
  function Bounce(num: Numerics, shadowed: (Tuple, Tuple) -> bool, s: Scene, c: PreparedComputations, remaining: nat): Colors.Color
  {
    Colors.Add(ReflectedColor(num, shadowed, s, c, remaining), RefractedColor(num, shadowed, s, c, remaining))
  }

  lemma ContributionUnblended(num: Numerics, shadowed: (Tuple, Tuple) -> bool, s: Scene, c: PreparedComputations,
                              l: Light, remaining: nat)
    requires !(IsReflective(c.obj) && !IsTransparent(c.obj))
    ensures Contribution(num, shadowed, s, c, l, remaining)
            == Colors.Add(LightSurfaceColor(num, shadowed, s, c, l), Bounce(num, shadowed, s, c, remaining))
  {
    Colors.AddLaws(LightSurfaceColor(num, shadowed, s, c, l), ReflectedColor(num, shadowed, s, c, remaining),
                   RefractedColor(num, shadowed, s, c, remaining));
  }

  /**
   * One step of the per-light sum, regrouped: if the first k - 1 lights gave
   * their direct lighting plus k - 1 bounces, the first k give theirs plus k.
   */
  lemma OneMoreBounce(total: Colors.Color, totalBefore: Colors.Color, direct: Colors.Color, directBefore: Colors.Color,
                      surface: Colors.Color, bounce: Colors.Color, k: nat)
    requires k > 0
    requires totalBefore == Colors.Add(directBefore, Repeated(bounce, k - 1))
    requires total == Colors.Add(totalBefore, Colors.Add(surface, bounce))
    requires direct == Colors.Add(directBefore, surface)
    ensures total == Colors.Add(direct, Repeated(bounce, k))
  {
  }

  /**
   * Without blending, one more light adds its surface colour and the
   * reflected and refracted colours to `shade_hit`, and its surface colour
   * alone to the direct lighting.
   */
  lemma UnblendedStep(num: Numerics, shadowed: (Tuple, Tuple) -> bool, s: Scene, c: PreparedComputations,
                      remaining: nat, i: nat)
    requires 0 < i <= |s.lights|
    requires !(IsReflective(c.obj) && !IsTransparent(c.obj))
    ensures ShadeHitLights(num, shadowed, s, c, remaining, i)
            == Colors.Add(ShadeHitLights(num, shadowed, s, c, remaining, i - 1),
                          Colors.Add(LightSurfaceColor(num, shadowed, s, c, s.lights[i - 1]), Bounce(num, shadowed, s, c, remaining)))
    ensures DirectLighting(num, shadowed, s, c, i)
            == Colors.Add(DirectLighting(num, shadowed, s, c, i - 1), LightSurfaceColor(num, shadowed, s, c, s.lights[i - 1]))
  {
    ContributionUnblended(num, shadowed, s, c, s.lights[i - 1], remaining);
  }

  /**
   * Every light adds the same reflected and refracted colours: with k
   * lights and unblended shading, the result is the direct lighting plus
   * k times the reflected and refracted colours.
   */
  lemma {:induction false} ShadeHitCountsBouncesPerLight(num: Numerics, shadowed: (Tuple, Tuple) -> bool, s: Scene,
                                                         c: PreparedComputations, remaining: nat, k: nat)
    requires k <= |s.lights|
    requires !(IsReflective(c.obj) && !IsTransparent(c.obj))
    ensures ShadeHitLights(num, shadowed, s, c, remaining, k)
            == Colors.Add(DirectLighting(num, shadowed, s, c, k), Repeated(Bounce(num, shadowed, s, c, remaining), k))
  {
    if k > 0 {
      ShadeHitCountsBouncesPerLight(num, shadowed, s, c, remaining, k - 1);
      UnblendedStep(num, shadowed, s, c, remaining, k);
      OneMoreBounce(ShadeHitLights(num, shadowed, s, c, remaining, k), ShadeHitLights(num, shadowed, s, c, remaining, k - 1),
                    DirectLighting(num, shadowed, s, c, k), DirectLighting(num, shadowed, s, c, k - 1),
                    LightSurfaceColor(num, shadowed, s, c, s.lights[k - 1]), Bounce(num, shadowed, s, c, remaining), k);
    }
  }

  /** `World`: the objects and the lights, updated in place by its methods. */
  class World {
    var objects: seq<Object>
    var lights: seq<Light>

    /** `World::new`: no objects and no lights. */
    constructor()
      ensures objects == [] && lights == []
    {
      objects := [];
      lights := [];
    }

    /** The contents as a scene snapshot. */
    function Contents(): Scene
      reads this
    {
      Scene(objects, lights)
    }

    /** `World::set_lights`: the light list is replaced as a whole. */
    method SetLights(ls: seq<Light>)
      modifies this
      ensures lights == ls && objects == old(objects)
    {
      lights := ls;
    }

    /** `World::add_light`: one light appended after the existing ones. */
    method AddLight(l: Light)
      modifies this
      ensures lights == old(lights) + [l] && objects == old(objects)
    {
      lights := lights + [l];
    }

    /** `World::intersect` as the source's loop: each object's list appended, then sorted. */
    method IntersectAll(num: Numerics, r: Ray) returns (xs: seq<Intersection<Object>>)
      ensures xs == IntersectWorld(num, Contents(), r)
    {
      var all: seq<Intersection<Object>> := [];
      var k := 0;
      while k < |objects|
        invariant 0 <= k <= |objects|
        invariant all == AllIntersections(num, objects[..k], r)
      {
        all := all + Objects.Intersect(num, objects[k], r);
        assert objects[..k + 1][..k] == objects[..k];
        k := k + 1;
      }
      assert objects[..k] == objects;
      xs := Sort(all);
    }

    /** `World::shade_hit` as the source's loop: one `+=` per light, from black. */
    method ShadeHitAll(num: Numerics, hasShadow: Object -> bool, c: PreparedComputations, remaining: nat)
      returns (acc: Colors.Color)
      ensures acc == ShadeHit(num, ShadowTest(num, hasShadow, Contents()), Contents(), c, remaining)
    {
      var s := Contents();
      var shadowed := ShadowTest(num, hasShadow, s);
      acc := Colors.BLACK;
      for k := 0 to |s.lights|
        invariant acc == ShadeHitLights(num, shadowed, s, c, remaining, k)
      {
        acc := AddLightContribution(num, shadowed, s, c, remaining, k, acc);
      }
    }
  }

  /** One iteration of the `shade_hit` loop: light k's contribution added with `+=`. */
  method AddLightContribution(num: Numerics, shadowed: (Tuple, Tuple) -> bool, s: Scene, c: PreparedComputations,
                              remaining: nat, k: nat, acc: Colors.Color) returns (next: Colors.Color)
    requires k < |s.lights| && acc == ShadeHitLights(num, shadowed, s, c, remaining, k)
    ensures next == ShadeHitLights(num, shadowed, s, c, remaining, k + 1)
  {
    next := Colors.AddAssign(acc, Contribution(num, shadowed, s, c, s.lights[k], remaining));
  }
}
