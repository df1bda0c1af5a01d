/**
  Quaternions over the reals, as the numpy-quaternion values used by
  fractal_printer/distance_functions.py and fractal_printer/mesh/fractal_sdfs.py.

  A quaternion is w + x i + y j + z k. The lemmas about sphere and torus take
  their points on the hyperplane w = 0 (pure quaternions), where x, y, z are
  the coordinates of a point in space; the Julia-set estimator instead puts a
  point's first coordinate in w and the slice in z.
*/
module Quaternions {

  datatype Quat = Quat(w: real, x: real, y: real, z: real)

  function Add(p: Quat, q: Quat): Quat
  {
    Quat(p.w + q.w, p.x + q.x, p.y + q.y, p.z + q.z)
  }

  function Neg(q: Quat): Quat
  {
    Quat(-q.w, -q.x, -q.y, -q.z)
  }

  /** p - q, componentwise. */
  function Sub(p: Quat, q: Quat): (d: Quat)
    ensures Add(d, q) == p
  {
    Quat(p.w - q.w, p.x - q.x, p.y - q.y, p.z - q.z)
  }

  /** The Hamilton product p * q. */
  function Mul(p: Quat, q: Quat): Quat
  {
    Quat(p.w * q.w - p.x * q.x - p.y * q.y - p.z * q.z,
         p.w * q.x + p.x * q.w + p.y * q.z - p.z * q.y,
         p.w * q.y - p.x * q.z + p.y * q.w + p.z * q.x,
         p.w * q.z + p.x * q.y - p.y * q.x + p.z * q.w)
  }

  /** q * k for a real k: every component scaled. */
  function Times(q: Quat, k: real): Quat
  {
    Quat(q.w * k, q.x * k, q.y * k, q.z * k)
  }

  /** q / k for a non-zero real k. */
  function Div(q: Quat, k: real): (r: Quat)
    requires k != 0.0
    ensures Times(r, k) == q
  {
    Quat(q.w / k, q.x / k, q.y / k, q.z / k)
  }

  /** q.conj(): the vector part negated. */
  function Conj(q: Quat): (c: Quat)
    ensures Add(q, c) == Quat(2.0 * q.w, 0.0, 0.0, 0.0)
  {
    Quat(q.w, -q.x, -q.y, -q.z)
  }

  /** The squared norm w^2 + x^2 + y^2 + z^2. */
  function Norm2(q: Quat): (n: real)
    ensures n >= 0.0
  {
    Square(q.w); Square(q.x); Square(q.y); Square(q.z);
    q.w * q.w + q.x * q.x + q.y * q.y + q.z * q.z
  }

  /** A square is never negative. */
  lemma Square(a: real)
    ensures a * a >= 0.0
  {
    if a < 0.0 {
      var b := -a;
      assert b * b > 0.0;
      assert a * a == b * b;
    }
  }

  /** The dot product of the vector parts. */
  function Dot(p: Quat, q: Quat): real
  {
    p.x * q.x + p.y * q.y + p.z * q.z
  }

  /** A point of space: a quaternion with no real part. */
  predicate IsPure(q: Quat)
  {
    q.w == 0.0
  }

  /** quaternion.from_float_array on one row (w, x, y, z). */
  function FromFloatArray(a: seq<real>): (q: Quat)
    requires |a| == 4
    ensures AsFloatArray(q) == a
  {
    Quat(a[0], a[1], a[2], a[3])
  }

  /** quaternion.as_float_array on one quaternion: its components in the order w, x, y, z. */
  function AsFloatArray(q: Quat): (a: seq<real>)
    ensures |a| == 4
  {
    [q.w, q.x, q.y, q.z]
  }

  /** from_float_array and as_float_array are inverse to each other. */
  lemma FloatArrayRoundTrip(q: Quat)
    ensures FromFloatArray(AsFloatArray(q)) == q
  {
  }

  /** z * z.conj() is real, and its real part is the squared norm. */
  lemma MulConj(q: Quat)
    ensures Mul(q, Conj(q)) == Quat(Norm2(q), 0.0, 0.0, 0.0)
  {
  }

  /** The product of pure quaternions: real part minus the dot product, vector part the cross product. */
  lemma MulPure(p: Quat, q: Quat)
    requires IsPure(p) && IsPure(q)
    ensures Mul(p, q) == Quat(-Dot(p, q),
                              p.y * q.z - p.z * q.y,
                              p.z * q.x - p.x * q.z,
                              p.x * q.y - p.y * q.x)
  {
  }
}
