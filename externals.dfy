/**
 * The operations of the ray tracer that this model does not define: square
 * roots and powers, normalisation and magnitude, matrix inversion, the
 * quadratic intersection code of spheres, cylinders, cones and smooth
 * triangles, the per-axis slab test of `BoundingBox::intersects`, the
 * transformation of a bounding box and the IEEE results of dividing by zero.
 * They are fields of one `Numerics` value that every computation depending on
 * them receives, so a statement proved here holds for EVERY choice of them.
 */
module Externals {
  import opened Floats
  import opened Tuples
  import opened Bounds

  /** A cylinder's extent along y and whether its ends are capped. */
  datatype CylinderShape = CylinderShape(minimum: real, maximum: real, closed: bool)

  /** A cone's extent along y and whether its ends are capped. */
  datatype ConeShape = ConeShape(minimum: real, maximum: real, closed: bool)

  /** A triangle with a normal at each corner, interpolated across the face. */
  datatype SmoothTriangleShape = SmoothTriangleShape(p1: Tuple, p2: Tuple, p3: Tuple, n1: Tuple, n2: Tuple, n3: Tuple)

  datatype Numerics = Numerics(
    sqrt: real -> real,
    powf: (real, real) -> real,
    normalize: Tuple -> Tuple,
    magnitude: Tuple -> real,
    inverse: Matrix -> Matrix,
    /** The IEEE value of `a / 0.0` (an infinity or NaN), read back as a real. */
    divideByZero: real -> real,
    /** A non-finite intersection distance (an infinity or NaN), read back as a real. */
    nonFinite: Ext -> real,
    /** The entry and exit of a ray along one axis of a box: origin, direction, minimum, maximum. */
    boxCheckAxis: (real, real, real, real) -> (Ext, Ext),
    /** `BoundingBox::transform`: the box of a box's image under a matrix. */
    boxTransform: (BoundingBox, Matrix) -> BoundingBox,
    /** The plane's box, infinite in x and z. */
    planeBox: BoundingBox,
    sphereIntersect: Ray -> seq<real>,
    sphereNormal: Tuple -> Tuple,
    cylinderIntersect: (CylinderShape, Ray) -> seq<real>,
    cylinderNormal: (CylinderShape, Tuple) -> Tuple,
    coneIntersect: (ConeShape, Ray) -> seq<real>,
    coneNormal: (ConeShape, Tuple) -> Tuple,
    smoothIntersect: (SmoothTriangleShape, Ray) -> seq<real>,
    smoothNormal: (SmoothTriangleShape, Tuple) -> Tuple,
    smoothBox: SmoothTriangleShape -> BoundingBox)

  /** Float division `a / b`, with the IEEE result for a zero divisor left to `divideByZero`. */
  function Divide(num: Numerics, a: real, b: real): (q: real)
    ensures b != 0.0 ==> q * b == a
  {
    if b != 0.0 then a / b else num.divideByZero(a)
  }
}
