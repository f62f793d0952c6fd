/** RGB colours (color.rs): component-wise arithmetic and the 0-255 channel strings of PPM output. */
module Colors {
  import opened Floats
  import opened Strings
  import opened Options

  datatype Color = Color(red: real, green: real, blue: real)

  const BLACK: Color := Color(0.0, 0.0, 0.0)
  const WHITE: Color := Color(1.0, 1.0, 1.0)

  function Add(a: Color, b: Color): Color
  {
    Color(a.red + b.red, a.green + b.green, a.blue + b.blue)
  }

  function Sub(a: Color, b: Color): Color
  {
    Color(a.red - b.red, a.green - b.green, a.blue - b.blue)
  }

  /** The Hadamard (component-wise) product of two colours. */
  function Mul(a: Color, b: Color): Color
  {
    Color(a.red * b.red, a.green * b.green, a.blue * b.blue)
  }

  function Scale(a: Color, k: real): Color
  {
    Color(a.red * k, a.green * k, a.blue * k)
  }

  /** Subtraction undoes addition, addition is commutative and associative, and BLACK is neutral. */
  lemma AddLaws(a: Color, b: Color, c: Color)
    ensures Sub(Add(a, b), b) == a
    ensures Add(Sub(a, b), b) == a
    ensures Add(a, b) == Add(b, a)
    ensures Add(Add(a, b), c) == Add(a, Add(b, c))
    ensures Add(a, BLACK) == a
  {
  }

  /** Scaling distributes over addition and scaling by 1 and 0 gives the colour and BLACK. */
  lemma ScaleLaws(a: Color, b: Color, k: real)
    ensures Scale(Add(a, b), k) == Add(Scale(a, k), Scale(b, k))
    ensures Scale(a, 1.0) == a
    ensures Scale(a, 0.0) == BLACK
    ensures Mul(a, WHITE) == a
    ensures Mul(a, b) == Mul(b, a)
  {
  }

  /**
   * `+=` (AddAssign) updates the three channels of the receiver one after the
   * other; the receiver ends up equal to the sum `a + rhs`.
   */
  method AddAssign(a: Color, rhs: Color) returns (updated: Color)
    ensures updated == Add(a, rhs)
    ensures Sub(updated, rhs) == a
  {
    updated := a;
    updated := updated.(red := updated.red + rhs.red);
    updated := updated.(green := updated.green + rhs.green);
    updated := updated.(blue := updated.blue + rhs.blue);
  }

  /** Keeps the brighter value of each channel. */
  function LightenOnlyBlend(a: Color, b: Color): Color
  {
    Color(Max(a.red, b.red), Max(a.green, b.green), Max(a.blue, b.blue))
  }

  predicate Below(a: Color, b: Color)
  {
    a.red <= b.red && a.green <= b.green && a.blue <= b.blue
  }

  /**
   * The blend is the least colour above both arguments: hence commutative and
   * idempotent, with every channel taken from one of the two colours.
   */
  lemma LightenOnlyBlendIsJoin(a: Color, b: Color, c: Color)
    ensures Below(a, LightenOnlyBlend(a, b)) && Below(b, LightenOnlyBlend(a, b))
    ensures Below(a, c) && Below(b, c) ==> Below(LightenOnlyBlend(a, b), c)
    ensures LightenOnlyBlend(a, b) == LightenOnlyBlend(b, a)
    ensures LightenOnlyBlend(a, a) == a
    ensures LightenOnlyBlend(a, b).red in {a.red, b.red}
  {
  }

  /** Colour equality (PartialEq): every channel equal within EPSILON. */
  predicate ColorEquals(a: Color, b: Color)
  {
    FloatEquals(a.red, b.red) && FloatEquals(a.green, b.green) && FloatEquals(a.blue, b.blue)
  }

  /** The comparison is reflexive and symmetric but, because of the tolerance, not transitive. */
  lemma ColorEqualsProperties(a: Color, b: Color)
    ensures ColorEquals(a, a)
    ensures ColorEquals(a, b) <==> ColorEquals(b, a)
    ensures ColorEquals(BLACK, Color(EPSILON / 2.0, 0.0, 0.0))
    ensures ColorEquals(Color(EPSILON / 2.0, 0.0, 0.0), Color(EPSILON, 0.0, 0.0))
    ensures !ColorEquals(BLACK, Color(EPSILON, 0.0, 0.0))
  {
  }

  /** Rust's `f32::round`: to the nearest integer, halves away from zero. */
  function Round(a: real): (r: int)
    ensures Abs(a - r as real) <= 0.5
    ensures a >= 0.0 ==> r as real - 0.5 <= a < r as real + 0.5
    ensures a < 0.0 ==> r as real - 0.5 < a <= r as real + 0.5
  {
    if a >= 0.0 then (a + 0.5).Floor else -((-a + 0.5).Floor)
  }

  /** `(c * 255.0).round().clamp(0.0, 255.0) as u8` for one channel. */
  function ChannelByte(c: real): (b: nat)
    ensures b <= 255
    ensures c * 255.0 <= 0.0 ==> b == 0
    ensures c * 255.0 >= 255.0 ==> b == 255
    ensures 0.0 <= c * 255.0 <= 255.0 ==> b == Round(c * 255.0)
  {
    var r := Round(c * 255.0);
    if r < 0 then 0 else if r > 255 then 255 else r
  }

  /** The three channel strings of a pixel, red, green, blue. */
  function AsByteStrings(c: Color): (r: seq<string>)
    ensures |r| == 3
  {
    [NatToString(ChannelByte(c.red)), NatToString(ChannelByte(c.green)), NatToString(ChannelByte(c.blue))]
  }

  /** Each of the three strings reads back as its channel's byte, in the order red, green, blue. */
  lemma AsByteStringsReadBack(c: Color)
    ensures ParseUsize(AsByteStrings(c)[0]) == Some(ChannelByte(c.red))
    ensures ParseUsize(AsByteStrings(c)[1]) == Some(ChannelByte(c.green))
    ensures ParseUsize(AsByteStrings(c)[2]) == Some(ChannelByte(c.blue))
  {
    ParseUsizeOfNatToString(ChannelByte(c.red));
    ParseUsizeOfNatToString(ChannelByte(c.green));
    ParseUsizeOfNatToString(ChannelByte(c.blue));
  }

  /**
   * What a channel string means: a one- to three-digit decimal that reads back
   * as a byte, 0 for a scaled value at most 0, 255 from 255 on, and otherwise
   * the scaled value rounded (within 0.5, halves away from zero).
   */
  lemma ChannelStringMeaning(c: real)
    ensures var s := NatToString(ChannelByte(c));
      1 <= |s| <= 3 && NoWhitespace(s) && ParseUsize(s) == Some(ChannelByte(c))
    ensures c * 255.0 < -0.5 ==> ChannelByte(c) == 0
    ensures c * 255.0 > 255.5 ==> ChannelByte(c) == 255
    ensures c * 255.0 <= 0.0 ==> ChannelByte(c) == 0
    ensures c * 255.0 >= 255.0 ==> ChannelByte(c) == 255
    ensures 0.0 <= c * 255.0 <= 255.0 ==> Abs(ChannelByte(c) as real - c * 255.0) <= 0.5
  {
    NatToStringLength(ChannelByte(c));
    NatToStringNoWhitespace(ChannelByte(c));
    ParseUsizeOfNatToString(ChannelByte(c));
  }

  /** Every channel string is a word of one to three characters. */
  lemma AsByteStringsAreWords(c: Color)
    ensures forall i :: 0 <= i < 3 ==> 1 <= |AsByteStrings(c)[i]| <= 3 && NoWhitespace(AsByteStrings(c)[i])
  {
    ChannelStringMeaning(c.red);
    ChannelStringMeaning(c.green);
    ChannelStringMeaning(c.blue);
  }
}
