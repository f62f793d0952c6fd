/**
 * Scalars of the ray tracer. Rust `Float` values are modelled as `real`;
 * the IEEE infinities and NaN are only needed by the cube's slab test and are
 * modelled by the extended-real datatype `Ext` below.
 */
module Floats {

  /** The tolerance used by every approximate comparison (float.rs). */
  const EPSILON: real := 0.00001

  function Abs(a: real): (r: real)
    ensures r >= 0.0
    ensures r == a || r == -a
  {
    if a < 0.0 then -a else a
  }

  function Max(a: real, b: real): (r: real)
    ensures r >= a && r >= b
    ensures r == a || r == b
  {
    if a >= b then a else b
  }

  function Min(a: real, b: real): (r: real)
    ensures r <= a && r <= b
    ensures r == a || r == b
  {
    if a <= b then a else b
  }

  /** `FloatExt::equals`: two floats are equal when they differ by less than EPSILON. */
  predicate FloatEquals(a: real, b: real)
  {
    Abs(a - b) < EPSILON
  }

  /** The approximate equality is reflexive and symmetric ... */
  lemma FloatEqualsReflexiveSymmetric(a: real, b: real)
    ensures FloatEquals(a, a)
    ensures FloatEquals(a, b) <==> FloatEquals(b, a)
  {
  }

  /** ... but not transitive: 0 ~ EPSILON/2 ~ EPSILON, yet 0 and EPSILON are not equal. */
  lemma FloatEqualsNotTransitive()
    ensures FloatEquals(0.0, EPSILON / 2.0) && FloatEquals(EPSILON / 2.0, EPSILON)
    ensures !FloatEquals(0.0, EPSILON)
  {
  }

  /** Rounding toward zero, as Rust's float `%` uses for its quotient. */
  function Trunc(a: real): (r: int)
    ensures Abs(a - r as real) < 1.0
    ensures a >= 0.0 ==> 0.0 <= r as real <= a
    ensures a < 0.0 ==> a <= r as real <= 0.0
  {
    if a >= 0.0 then a.Floor else -((-a).Floor)
  }

  /**
   * Rust's float remainder `a % b`: `a` minus `b` times the quotient rounded
   * toward zero, so the result is smaller than `b` in magnitude and never has
   * the opposite sign of `a`.
   */
  function RustRem(a: real, b: real): (r: real)
    requires b != 0.0
    ensures Abs(r) < Abs(b)
    ensures a >= 0.0 ==> r >= 0.0
    ensures a <= 0.0 ==> r <= 0.0
  {
    RemainderBounds(a, b);
    a - b * (Trunc(a / b) as real)
  }

  /** The remainder is `b` times the fractional part the truncation dropped from `a / b`. */
  lemma RemainderBounds(a: real, b: real)
    requires b != 0.0
    ensures Abs(a - b * (Trunc(a / b) as real)) < Abs(b)
    ensures a >= 0.0 ==> a - b * (Trunc(a / b) as real) >= 0.0
    ensures a <= 0.0 ==> a - b * (Trunc(a / b) as real) <= 0.0
  {
    var q := a / b;
    var t := Trunc(q) as real;
    QuotientSign(a, b);
    Distribute(b, q, t);
    var g := q - t;
    assert -1.0 < g < 1.0;
    assert q >= 0.0 ==> g >= 0.0;
    assert q <= 0.0 ==> g <= 0.0;
    DroppedFraction(b, g);
    assert a - b * t == b * g;
  }

  lemma SmallerMagnitude(b: real, g: real)
    requires b > 0.0 ==> -b < b * g < b
    requires b < 0.0 ==> b < b * g < -b
    requires b != 0.0
    ensures Abs(b * g) < Abs(b)
  {
  }

  lemma Distribute(b: real, q: real, t: real)
    ensures b * (q - t) == b * q - b * t
  {
  }

  lemma QuotientSign(a: real, b: real)
    requires b != 0.0
    ensures b * (a / b) == a
    ensures a / b >= 0.0 <==> (a >= 0.0 && b > 0.0) || (a <= 0.0 && b < 0.0)
  {
  }

  lemma ScaledFraction(x: real, f: real)
    requires x > 0.0 && 0.0 <= f < 1.0
    ensures 0.0 <= x * f < x
  {
    assert x - x * f == x * (1.0 - f);
  }

  lemma PositiveTimesFraction(x: real, g: real)
    requires x > 0.0 && -1.0 < g < 1.0
    ensures -x < x * g < x
    ensures g >= 0.0 ==> x * g >= 0.0
    ensures g <= 0.0 ==> x * g <= 0.0
  {
    if g >= 0.0 {
      ScaledFraction(x, g);
    } else {
      ScaledFraction(x, -g);
      assert x * (-g) == -(x * g);
    }
  }

  lemma NegativeTimesFraction(x: real, g: real)
    requires x < 0.0 && -1.0 < g < 1.0
    ensures x < x * g < -x
    ensures g >= 0.0 ==> x * g <= 0.0
    ensures g <= 0.0 ==> x * g >= 0.0
  {
    if g >= 0.0 {
      ScaledFraction(-x, g);
      assert (-x) * g == -(x * g);
    } else {
      ScaledFraction(-x, -g);
      assert (-x) * (-g) == x * g;
    }
  }

  /** `b` times a fraction of magnitude below 1 stays below |b| and has the sign of `b·g`. */
  lemma DroppedFraction(b: real, g: real)
    requires b != 0.0 && -1.0 < g < 1.0
    ensures Abs(b * g) < Abs(b)
    ensures b > 0.0 && g >= 0.0 ==> b * g >= 0.0
    ensures b > 0.0 && g <= 0.0 ==> b * g <= 0.0
    ensures b < 0.0 && g >= 0.0 ==> b * g <= 0.0
    ensures b < 0.0 && g <= 0.0 ==> b * g >= 0.0
  {
    if b > 0.0 {
      PositiveTimesFraction(b, g);
      SmallerMagnitude(b, g);
    } else {
      NegativeTimesFraction(b, g);
      SmallerMagnitude(b, g);
    }
  }

  /**
   * For an integral value `n`, `n % 2.0 == 0.0` holds exactly when `n` is even,
   * also for negative `n` (where the remainder is -1.0 or 0.0).
   */
  lemma RemTwoZeroIffEven(n: int)
    ensures RustRem(n as real, 2.0) == 0.0 <==> n % 2 == 0
  {
    var q := Trunc(n as real / 2.0);
    if n >= 0 {
      assert q == n / 2;
    } else {
      assert q == -((-n) / 2);
    }
  }

  /** An IEEE value: a finite real, one of the two infinities, or NaN. */
  datatype Ext = NegInf | Fin(v: real) | PosInf | NaN

  /** IEEE `a < b`; false whenever NaN is involved. */
  predicate ExtLess(a: Ext, b: Ext)
  {
    match (a, b)
    case (NaN, _) => false
    case (_, NaN) => false
    case (NegInf, NegInf) => false
    case (NegInf, _) => true
    case (Fin(x), Fin(y)) => x < y
    case (Fin(_), PosInf) => true
    case (_, _) => false
  }

  /** IEEE `a > b`. */
  predicate ExtGreater(a: Ext, b: Ext)
  {
    ExtLess(b, a)
  }

  /** Rust `f64::max`: ignores a NaN argument, NaN only when both are NaN. */
  function ExtMax(a: Ext, b: Ext): (r: Ext)
    ensures r == a || r == b
    ensures a != NaN && b != NaN ==> !ExtLess(r, a) && !ExtLess(r, b)
    ensures r == NaN <==> a == NaN && b == NaN
  {
    if a == NaN then b
    else if b == NaN then a
    else if ExtLess(a, b) then b
    else a
  }

  /** Rust `f64::min`: ignores a NaN argument, NaN only when both are NaN. */
  function ExtMin(a: Ext, b: Ext): (r: Ext)
    ensures r == a || r == b
    ensures a != NaN && b != NaN ==> !ExtLess(a, r) && !ExtLess(b, r)
    ensures r == NaN <==> a == NaN && b == NaN
  {
    if a == NaN then b
    else if b == NaN then a
    else if ExtLess(b, a) then b
    else a
  }

  /** A finite value multiplied by +infinity: the sign decides, and 0 * inf is NaN. */
  function TimesInfinity(a: real): (r: Ext)
    ensures a > 0.0 <==> r == PosInf
    ensures a < 0.0 <==> r == NegInf
    ensures a == 0.0 <==> r == NaN
  {
    if a > 0.0 then PosInf else if a < 0.0 then NegInf else NaN
  }
}
