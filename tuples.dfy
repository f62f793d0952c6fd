/**
 * Points, vectors, 4x4 matrices and rays. The tuple and matrix algebra of the
 * ray tracer is not part of this model's sources beyond its use; the exact
 * operations (sums, dot and cross products, reflection, matrix times tuple,
 * transpose) are written out here with the usual formulas, and everything that
 * needs a square root or an inverse is an external operation (module Externals).
 */
module Tuples {

  /** A homogeneous tuple: w = 1 for a point, w = 0 for a vector. */
  datatype Tuple = Tuple(x: real, y: real, z: real, w: real)

  function Point(x: real, y: real, z: real): Tuple
  {
    Tuple(x, y, z, 1.0)
  }

  function Vector(x: real, y: real, z: real): Tuple
  {
    Tuple(x, y, z, 0.0)
  }

  /** `Point::empty_point()`: the origin. */
  const EMPTY_POINT: Tuple := Point(0.0, 0.0, 0.0)

  /** `Vector::empty_vector()`: the zero vector. */
  const EMPTY_VECTOR: Tuple := Vector(0.0, 0.0, 0.0)

  function Add(a: Tuple, b: Tuple): Tuple
  {
    Tuple(a.x + b.x, a.y + b.y, a.z + b.z, a.w + b.w)
  }

  function Sub(a: Tuple, b: Tuple): Tuple
  {
    Tuple(a.x - b.x, a.y - b.y, a.z - b.z, a.w - b.w)
  }

  function Neg(a: Tuple): Tuple
  {
    Tuple(-a.x, -a.y, -a.z, -a.w)
  }

  function Scale(a: Tuple, k: real): Tuple
  {
    Tuple(a.x * k, a.y * k, a.z * k, a.w * k)
  }

  function Dot(a: Tuple, b: Tuple): real
  {
    a.x * b.x + a.y * b.y + a.z * b.z + a.w * b.w
  }

  function Cross(a: Tuple, b: Tuple): Tuple
  {
    Vector(a.y * b.z - a.z * b.y, a.z * b.x - a.x * b.z, a.x * b.y - a.y * b.x)
  }

  /** The reflection of `v` around the normal `n`. */
  function Reflect(v: Tuple, n: Tuple): Tuple
  {
    Sub(v, Scale(n, 2.0 * Dot(v, n)))
  }

  /** Negating one factor negates the dot product. */
  lemma DotNeg(a: Tuple, b: Tuple)
    ensures Dot(Neg(a), b) == -Dot(a, b)
  {
  }

  /** A 4x4 matrix, row by row. */
  datatype Matrix = Matrix(r0: Tuple, r1: Tuple, r2: Tuple, r3: Tuple)

  const IDENTITY: Matrix := Matrix(Tuple(1.0, 0.0, 0.0, 0.0), Tuple(0.0, 1.0, 0.0, 0.0),
                                   Tuple(0.0, 0.0, 1.0, 0.0), Tuple(0.0, 0.0, 0.0, 1.0))

  /** Matrix times tuple. */
  function Apply(m: Matrix, t: Tuple): Tuple
  {
    Tuple(Dot(m.r0, t), Dot(m.r1, t), Dot(m.r2, t), Dot(m.r3, t))
  }

  function Transpose(m: Matrix): Matrix
  {
    Matrix(Tuple(m.r0.x, m.r1.x, m.r2.x, m.r3.x), Tuple(m.r0.y, m.r1.y, m.r2.y, m.r3.y),
           Tuple(m.r0.z, m.r1.z, m.r2.z, m.r3.z), Tuple(m.r0.w, m.r1.w, m.r2.w, m.r3.w))
  }

  datatype Ray = Ray(origin: Tuple, direction: Tuple)

  /** The point reached after travelling t along the ray (ray.rs). */
  function Position(r: Ray, t: real): Tuple
  {
    Add(r.origin, Scale(r.direction, t))
  }

  /** The ray with both its origin and direction multiplied by `m`. */
  function Transform(r: Ray, m: Matrix): Ray
  {
    Ray(Apply(m, r.origin), Apply(m, r.direction))
  }
}
