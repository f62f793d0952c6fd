/** Procedural textures (pattern.rs): stripes, gradients, rings and checkers. */
module Patterns {
  import opened Floats
  import opened Tuples
  import opened Colors
  import opened Externals

  datatype Texture =
    | Striped(a: Color, b: Color)
    | Gradient(a: Color, b: Color)
    | Ring(a: Color, b: Color)
    | Checkers(a: Color, b: Color)

  /** `floor(v) % 2.0 == 0.0` with Rust's float remainder. */
  predicate FloorIsEven(v: real)
  {
    RustRem(v.Floor as real, 2.0) == 0.0
  }

  /** `x` lies between `a` and `b`, in either order. */
  predicate Between(x: real, a: real, b: real)
  {
    Min(a, b) <= x <= Max(a, b)
  }

  lemma MulNonNegative(x: real, y: real)
    requires x >= 0.0 && y >= 0.0
    ensures x * y >= 0.0
  {
  }

  /** A point a fraction `f` of the way from `a` to `b` lies between them. */
  lemma BetweenLerp(a: real, b: real, f: real)
    requires 0.0 <= f < 1.0
    ensures Between(a + (b - a) * f, a, b)
  {
    if a <= b {
      MulNonNegative(b - a, f);
      MulNonNegative(b - a, 1.0 - f);
      assert (b - a) * (1.0 - f) == (b - a) - (b - a) * f;
    } else {
      MulNonNegative(a - b, f);
      MulNonNegative(a - b, 1.0 - f);
      assert (a - b) * (1.0 - f) == (a - b) - (a - b) * f;
      assert (b - a) * f == -((a - b) * f);
    }
  }

  /**
   * `Texture::color_at`, in the texture's own space. Stripes, rings and
   * checkers only ever give one of their two colours; a gradient gives a
   * colour whose every channel lies between the two colours' channels.
   */
  function TextureColorAt(num: Numerics, tex: Texture, p: Tuple): (c: Color)
    ensures !tex.Gradient? ==> c == tex.a || c == tex.b
    ensures tex.Gradient? ==>
      Between(c.red, tex.a.red, tex.b.red) && Between(c.green, tex.a.green, tex.b.green)
      && Between(c.blue, tex.a.blue, tex.b.blue)
  {
    if tex.Gradient? then
      var f := p.x - p.x.Floor as real;
      BetweenLerp(tex.a.red, tex.b.red, f);
      BetweenLerp(tex.a.green, tex.b.green, f);
      BetweenLerp(tex.a.blue, tex.b.blue, f);
      Colors.Add(tex.a, Colors.Scale(Colors.Sub(tex.b, tex.a), f))
    else
    match tex
    case Striped(a, b) => if FloorIsEven(p.x) then a else b
    case Gradient(a, b) => Colors.Add(a, Colors.Scale(Colors.Sub(b, a), p.x - p.x.Floor as real))
    case Ring(a, b) => if FloorIsEven(num.sqrt(num.powf(p.x, 2.0) + num.powf(p.z, 2.0))) then a else b
    case Checkers(a, b) =>
      if RustRem((p.x.Floor + p.y.Floor + p.z.Floor) as real, 2.0) == 0.0 then a else b
  }

  lemma FloorIsEvenIff(v: real)
    ensures FloorIsEven(v) <==> v.Floor % 2 == 0
  {
    RemTwoZeroIffEven(v.Floor);
  }

  /**
   * Stripes alternate with the parity of floor(x): colour a on even cells,
   * b on odd ones, whatever y and z, and repeat every 2 units along x.
   */
  lemma StripedByParity(num: Numerics, a: Color, b: Color, p: Tuple, y: real, z: real)
    ensures TextureColorAt(num, Striped(a, b), p) == if p.x.Floor % 2 == 0 then a else b
    ensures TextureColorAt(num, Striped(a, b), p.(y := y, z := z)) == TextureColorAt(num, Striped(a, b), p)
    ensures TextureColorAt(num, Striped(a, b), p.(x := p.x + 2.0)) == TextureColorAt(num, Striped(a, b), p)
  {
    StripeColor(num, a, b, p);
    StripeColor(num, a, b, p.(y := y, z := z));
    StripeColor(num, a, b, p.(x := p.x + 2.0));
    FloorShiftByTwo(p.x);
  }

  lemma StripeColor(num: Numerics, a: Color, b: Color, p: Tuple)
    ensures TextureColorAt(num, Striped(a, b), p) == if p.x.Floor % 2 == 0 then a else b
  {
    FloorIsEvenIff(p.x);
  }

  /** Moving two units along an axis moves the floor by two and keeps its parity. */
  lemma FloorShiftByTwo(v: real)
    ensures (v + 2.0).Floor == v.Floor + 2
    ensures (v + 2.0).Floor % 2 == v.Floor % 2
  {
  }

  /** Checkers take colour a exactly where floor(x) + floor(y) + floor(z) is even. */
  lemma CheckersByParity(num: Numerics, a: Color, b: Color, p: Tuple)
    ensures TextureColorAt(num, Checkers(a, b), p)
            == if (p.x.Floor + p.y.Floor + p.z.Floor) % 2 == 0 then a else b
  {
    RemTwoZeroIffEven(p.x.Floor + p.y.Floor + p.z.Floor);
  }

  /**
   * The gradient blends from a towards b by the fractional part of x, which
   * lies in [0, 1); at integer x it is exactly a.
   */
  lemma GradientFraction(num: Numerics, a: Color, b: Color, p: Tuple)
    ensures 0.0 <= p.x - p.x.Floor as real < 1.0
    ensures TextureColorAt(num, Gradient(a, b), p)
            == Colors.Add(a, Colors.Scale(Colors.Sub(b, a), p.x - p.x.Floor as real))
    ensures p.x == p.x.Floor as real ==> TextureColorAt(num, Gradient(a, b), p) == a
  {
  }

  /**
   * Rings alternate with the parity of the floor of the distance from the y
   * axis; where sqrt and powf give 0 at 0, the origin is in ring a.
   */
  lemma RingByParity(num: Numerics, a: Color, b: Color, p: Tuple)
    ensures TextureColorAt(num, Ring(a, b), p)
            == if num.sqrt(num.powf(p.x, 2.0) + num.powf(p.z, 2.0)).Floor % 2 == 0 then a else b
    ensures num.powf(0.0, 2.0) == 0.0 && num.sqrt(0.0) == 0.0 ==>
              TextureColorAt(num, Ring(a, b), Point(0.0, 0.0, 0.0)) == a
  {
    FloorIsEvenIff(num.sqrt(num.powf(p.x, 2.0) + num.powf(p.z, 2.0)));
    FloorIsEvenIff(0.0);
  }

  datatype Pattern = Pattern(transform: Matrix, texture: Texture)

  /** `Pattern::new`. */
  function NewPattern(transform: Matrix, texture: Texture): (p: Pattern)
    ensures p.transform == transform && p.texture == texture
  {
    Pattern(transform, texture)
  }

  /** `stripe_pattern`, `gradient_pattern`, `ring_pattern`, `checkers_pattern`: the texture with the identity transform. */
  function StripePattern(a: Color, b: Color): (p: Pattern)
    ensures p.transform == IDENTITY && p.texture == Striped(a, b)
  {
    NewPattern(IDENTITY, Striped(a, b))
  }

  function GradientPattern(a: Color, b: Color): (p: Pattern)
    ensures p.transform == IDENTITY && p.texture == Gradient(a, b)
  {
    NewPattern(IDENTITY, Gradient(a, b))
  }

  function RingPattern(a: Color, b: Color): (p: Pattern)
    ensures p.transform == IDENTITY && p.texture == Ring(a, b)
  {
    NewPattern(IDENTITY, Ring(a, b))
  }

  function CheckersPattern(a: Color, b: Color): (p: Pattern)
    ensures p.transform == IDENTITY && p.texture == Checkers(a, b)
  {
    NewPattern(IDENTITY, Checkers(a, b))
  }

  /** `Pattern::set_transform`: replaces the transform and nothing else. */
  function SetTransform(p: Pattern, transform: Matrix): (q: Pattern)
    ensures q.transform == transform && q.texture == p.texture
  {
    p.(transform := transform)
  }

  /** `Pattern::set_texture`: replaces the texture and nothing else. */
  function SetTexture(p: Pattern, texture: Texture): (q: Pattern)
    ensures q.texture == texture && q.transform == p.transform
  {
    p.(texture := texture)
  }

  /**
   * `Pattern::pattern_at_object`: the world point is taken into the object's
   * space by the inverse of the object's transform, then into the pattern's
   * space by the inverse of the pattern's transform.
   */
  function PatternAtObject(num: Numerics, pat: Pattern, objectTransform: Matrix, p: Tuple): (c: Color)
    ensures !pat.texture.Gradient? ==> c == pat.texture.a || c == pat.texture.b
  {
    var objectPoint := Apply(num.inverse(objectTransform), p);
    var patternPoint := Apply(num.inverse(pat.transform), objectPoint);
    TextureColorAt(num, pat.texture, patternPoint)
  }

  /** With identity transforms whose inverse is the identity, the texture is sampled at the point itself. */
  lemma PatternAtObjectIdentity(num: Numerics, pat: Pattern, p: Tuple)
    requires pat.transform == IDENTITY && num.inverse(IDENTITY) == IDENTITY
    ensures PatternAtObject(num, pat, IDENTITY, p) == TextureColorAt(num, pat.texture, p)
  {
    assert Apply(IDENTITY, p) == p;
  }
}
