/**
  The signed distance functions sphere and torus of
  fractal_printer/distance_functions.py, over quaternions whose real part is
  zero (points of space).

  np.abs of a quaternion is its norm, a square root; np.sqrt is a square root
  of a real. Both are taken as parameters, and the lemmas assume of them only
  that they return the non-negative root (IsNorm, IsSqrt).
*/
module DistanceFunctions {
  import opened Quaternions

  /** abs returns the non-negative square root of the squared norm. */
  ghost predicate IsNorm(abs: Quat -> real)
  {
    forall q :: abs(q) >= 0.0 && abs(q) * abs(q) == Norm2(q)
  }

  /** sqrt returns the non-negative square root of every non-negative real. */
  ghost predicate IsSqrt(sqrt: real -> real)
  {
    forall t :: t >= 0.0 ==> sqrt(t) >= 0.0 && sqrt(t) * sqrt(t) == t
  }

  /** The default axis of torus, the quaternion i. */
  const DefaultAxis: Quat := Quat(0.0, 1.0, 0.0, 0.0)

  /** sphere (line 9-10): |z - center| - radius. */
  function Sphere(z: Quat, center: Quat, radius: real, abs: Quat -> real): (d: real)
    ensures IsNorm(abs) ==> d >= -radius
  {
    abs(Sub(z, center)) - radius
  }

  /** The component of r along axis, -(r * axis + axis * r) * axis / 2 (line 14). */
  function Parallel(r: Quat, axis: Quat): Quat
  {
    Div(Mul(Neg(Add(Mul(r, axis), Mul(axis, r))), axis), 2.0)
  }

  /** torus (lines 12-18): distance to the circle of radius major about axis, less minor. */
  function Torus(z: Quat, center: Quat, axis: Quat, major: real, minor: real,
                 abs: Quat -> real, sqrt: real -> real): (d: real)
    ensures IsSqrt(sqrt) ==> d >= -minor
  {
    var r := Sub(z, center);
    var rParallel := Parallel(r, axis);
    Tube(abs(rParallel), abs(Sub(r, rParallel)), major, minor, sqrt)
  }

  /** Line 18: sqrt(d_parallel^2 + (d_perpendicular - major)^2) - minor. */
  function Tube(dParallel: real, dPerpendicular: real, major: real, minor: real, sqrt: real -> real): (d: real)
    ensures IsSqrt(sqrt) ==> d >= -minor
  {
    sqrt(dParallel * dParallel + (dPerpendicular - major) * (dPerpendicular - major)) - minor
  }

  /** For pure r and a, r * a + a * r is the real number -2 (r . a): the cross products cancel. */
  lemma AnticommutatorOfPure(r: Quat, a: Quat)
    requires IsPure(r) && IsPure(a)
    ensures Add(Mul(r, a), Mul(a, r)) == Quat(-2.0 * Dot(r, a), 0.0, 0.0, 0.0)
  {
    MulPure(r, a);
    MulPure(a, r);
  }

  /** r_parallel is (r . a) a: pure, and a multiple of the axis. */
  lemma ParallelIsProjection(r: Quat, a: Quat)
    requires IsPure(r) && IsPure(a)
    ensures Parallel(r, a) == Times(a, Dot(r, a))
    ensures IsPure(Parallel(r, a))
  {
    AnticommutatorOfPure(r, a);
    var k := Dot(r, a);
    var s := Quat(-2.0 * k, 0.0, 0.0, 0.0);
    var m := Mul(Neg(s), a);
    assert m == Quat(2.0 * k * a.w, 2.0 * k * a.x, 2.0 * k * a.y, 2.0 * k * a.z);
  }

  /** For a unit axis, r - r_parallel is perpendicular to the axis. */
  lemma PerpendicularIsOrthogonal(r: Quat, a: Quat)
    requires IsPure(r) && IsPure(a) && Norm2(a) == 1.0
    ensures Dot(Sub(r, Parallel(r, a)), a) == 0.0
  {
    ParallelIsProjection(r, a);
    var k := Dot(r, a);
    var xx, yy, zz := a.x * a.x, a.y * a.y, a.z * a.z;
    assert xx + yy + zz == 1.0;
    calc {
      Dot(Sub(r, Times(a, k)), a);
      (r.x - a.x * k) * a.x + (r.y - a.y * k) * a.y + (r.z - a.z * k) * a.z;
      k - k * (xx + yy + zz);
      0.0;
    }
  }

  /** For a unit axis, projecting r_parallel again gives r_parallel. */
  lemma ProjectionIdempotent(r: Quat, a: Quat)
    requires IsPure(r) && IsPure(a) && Norm2(a) == 1.0
    ensures Parallel(Parallel(r, a), a) == Parallel(r, a)
  {
    ParallelIsProjection(r, a);
    var k := Dot(r, a);
    var p := Times(a, k);
    ParallelIsProjection(p, a);
    var xx, yy, zz := a.x * a.x, a.y * a.y, a.z * a.z;
    assert xx + yy + zz == 1.0;
    assert Dot(p, a) == k * (xx + yy + zz);
  }

  /** For a unit axis, |r_parallel|^2 + |r - r_parallel|^2 = |r|^2. */
  lemma Pythagoras(r: Quat, a: Quat)
    requires IsPure(r) && IsPure(a) && Norm2(a) == 1.0
    ensures Norm2(Parallel(r, a)) + Norm2(Sub(r, Parallel(r, a))) == Norm2(r)
  {
    ParallelIsProjection(r, a);
    PerpendicularIsOrthogonal(r, a);
    var k := Dot(r, a);
    var p := Times(a, k);
    var e := Sub(r, p);
    var xx, yy, zz := a.x * a.x, a.y * a.y, a.z * a.z;
    assert Norm2(p) == k * k by { ScaledNorm(a, k); }
    assert Dot(e, p) == k * Dot(e, a);
    assert Norm2(r) == Norm2(p) + 2.0 * Dot(e, p) + Norm2(e);
  }

  /** Scaling a pure quaternion by k scales its squared norm by k^2. */
  lemma ScaledNorm(a: Quat, k: real)
    requires IsPure(a)
    ensures Norm2(Times(a, k)) == k * k * Norm2(a)
  {
    var kk := k * k;
    var xx, yy, zz := a.x * a.x, a.y * a.y, a.z * a.z;
    assert (a.x * k) * (a.x * k) == kk * xx;
    assert (a.y * k) * (a.y * k) == kk * yy;
    assert (a.z * k) * (a.z * k) == kk * zz;
    assert Norm2(a) == xx + yy + zz;
  }

  /** Squaring keeps the order of non-negative reals, in both directions. */
  lemma SquareMonotone(a: real, b: real)
    requires 0.0 <= a && 0.0 <= b
    ensures a < b <==> a * a < b * b
  {
    var aa, ab, bb := a * a, a * b, b * b;
    if a < b {
      assert aa <= ab;
      assert ab < bb;
    } else {
      assert bb <= ab;
      assert ab <= aa;
    }
  }

  /** With a non-negative radius, z is strictly inside the sphere exactly when |z - center|^2 < radius^2. */
  lemma SphereInside(z: Quat, center: Quat, radius: real, abs: Quat -> real)
    requires IsNorm(abs) && radius >= 0.0
    ensures Sphere(z, center, radius, abs) < 0.0 <==> Norm2(Sub(z, center)) < radius * radius
  {
    var d := abs(Sub(z, center));
    assert d >= 0.0 && d * d == Norm2(Sub(z, center));
    SquareMonotone(d, radius);
  }

  /** The sphere is zero exactly on the surface |z - center| = radius. */
  lemma SphereSurface(z: Quat, center: Quat, radius: real, abs: Quat -> real)
    requires IsNorm(abs) && radius >= 0.0
    ensures Sphere(z, center, radius, abs) == 0.0 <==> Norm2(Sub(z, center)) == radius * radius
  {
    var d := abs(Sub(z, center));
    assert d >= 0.0 && d * d == Norm2(Sub(z, center));
    SquareMonotone(d, radius);
    SquareMonotone(radius, d);
  }

  /**
    For a pure point and centre and a pure unit axis, the two distances torus
    combines are the height |r . a| along the axis and the distance from the
    axis, which together make up |r|.
  */
  lemma TorusDecomposition(z: Quat, center: Quat, axis: Quat, abs: Quat -> real)
    requires IsNorm(abs) && IsPure(z) && IsPure(center) && IsPure(axis) && Norm2(axis) == 1.0
    ensures var r := Sub(z, center);
      abs(Parallel(r, axis)) * abs(Parallel(r, axis)) == Dot(r, axis) * Dot(r, axis)
      && abs(Parallel(r, axis)) * abs(Parallel(r, axis))
         + abs(Sub(r, Parallel(r, axis))) * abs(Sub(r, Parallel(r, axis))) == Norm2(r)
  {
    var r := Sub(z, center);
    ParallelIsProjection(r, axis);
    Pythagoras(r, axis);
    var k := Dot(r, axis);
    ScaledNorm(axis, k);
  }

  /**
    With a non-negative minor radius, a point is strictly inside the tube
    exactly when its squared distance to the core circle is below minor^2.
  */
  lemma TubeInside(dParallel: real, dPerpendicular: real, major: real, minor: real, sqrt: real -> real)
    requires IsSqrt(sqrt) && minor >= 0.0
    ensures Tube(dParallel, dPerpendicular, major, minor, sqrt) < 0.0 <==>
      dParallel * dParallel + (dPerpendicular - major) * (dPerpendicular - major) < minor * minor
  {
    var t := dParallel * dParallel + (dPerpendicular - major) * (dPerpendicular - major);
    Square(dParallel);
    Square(dPerpendicular - major);
    var root := sqrt(t);
    assert root >= 0.0 && root * root == t;
    SquareMonotone(root, minor);
  }

  /**
    torus is negative exactly inside the tube: with a non-negative minor
    radius, where d_parallel^2 + (d_perpendicular - major)^2 < minor^2.
  */
  lemma TorusInside(z: Quat, center: Quat, axis: Quat, major: real, minor: real,
                    abs: Quat -> real, sqrt: real -> real)
    requires IsNorm(abs) && IsSqrt(sqrt) && minor >= 0.0
    ensures var r := Sub(z, center);
      var dParallel := abs(Parallel(r, axis));
      var dPerpendicular := abs(Sub(r, Parallel(r, axis)));
      Torus(z, center, axis, major, minor, abs, sqrt) < 0.0 <==>
        dParallel * dParallel + (dPerpendicular - major) * (dPerpendicular - major) < minor * minor
  {
    var r := Sub(z, center);
    TubeInside(abs(Parallel(r, axis)), abs(Sub(r, Parallel(r, axis))), major, minor, sqrt);
  }

  /**
    torus is negative exactly inside the tube around its core circle. For a
    pure point and centre and a pure unit axis, height = r . a is the height
    above the plane of the circle and rho = |r - r_parallel| the distance from
    the axis, with rho^2 + height^2 = |r|^2; the squared distance to the core
    circle is height^2 + (rho - major)^2, and torus < 0 exactly when it is
    below minor^2.
  */
  lemma TorusInsideCircle(z: Quat, center: Quat, axis: Quat, major: real, minor: real,
                          abs: Quat -> real, sqrt: real -> real)
    requires IsNorm(abs) && IsSqrt(sqrt) && minor >= 0.0
    requires IsPure(z) && IsPure(center) && IsPure(axis) && Norm2(axis) == 1.0
    ensures var r := Sub(z, center);
      var height := Dot(r, axis);
      var rho := abs(Sub(r, Parallel(r, axis)));
      rho >= 0.0 && rho * rho + height * height == Norm2(r)
      && (Torus(z, center, axis, major, minor, abs, sqrt) < 0.0 <==>
          height * height + (rho - major) * (rho - major) < minor * minor)
  {
    TorusInside(z, center, axis, major, minor, abs, sqrt);
    TorusDecomposition(z, center, axis, abs);
  }

  /** The default axis is a pure unit quaternion, so the lemmas above apply to torus's defaults. */
  lemma DefaultAxisIsUnit()
    ensures IsPure(DefaultAxis) && Norm2(DefaultAxis) == 1.0
  {
  }
}
