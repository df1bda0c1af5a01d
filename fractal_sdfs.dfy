/**
  The quaternion Julia-set distance estimator quaternion_julia_sdf of
  fractal_printer/mesh/fractal_sdfs.py.

  The factory fixes the parameters and the constant c; the returned distance
  function takes a batch of points, iterates z := z ** power + c on all of
  them for a fixed number of rounds, freezing each point from the round in
  which its squared magnitude first exceeds bailout, and turns the final
  squared magnitudes of z and of its derivative into a distance estimate.

  The quaternion power z ** power and the closing estimate
  sqrt(z2 / zp2) * 0.25 * log(z2) are numerical library calls; they are
  parameters here (qpow, estimate). Orbit and After give the per-point
  meaning of the batched loop, which the method Distance is proved to follow.
*/
module FractalSdfs {
  import opened Quaternions

  /** The keyword arguments of quaternion_julia_sdf (line 21). */
  datatype JuliaParams = JuliaParams(
    cx: real, cy: real, cz: real, cw: real,
    slice: real,
    power: nat,
    iterations: int,
    bailout: real,
    offset: real,
    fudgeFactor: real)

  /** The defaults of line 21: c = 0, slice 0, power 2, 50 iterations, bailout 10000^2, offset 0, fudge factor 0.9. */
  const Defaults: JuliaParams := JuliaParams(0.0, 0.0, 0.0, 0.0, 0.0, 2, 50, 100000000.0, 0.0, 0.9)

  /**
    Called with its defaults, the estimator squares (power 2 meets the
    requirement power >= 1 of the model), runs exactly 50 rounds, iterates
    with c = 0 and starts every orbit at the point itself, with slice
    coordinate 0 and not escaped.
  */
  lemma DefaultsRunFiftyRounds(qpow: (Quat, nat) -> Quat, p: Point)
    ensures Defaults.power == 2 && Rounds(Defaults) == 50
    ensures JuliaConstant(Defaults) == Quat(0.0, 0.0, 0.0, 0.0)
    ensures After(Defaults, qpow, p, 0).z == Quat(p.x, p.y, p.z, 0.0)
    ensures !After(Defaults, qpow, p, 0).escaped
  {
  }

  /** One row of the (N, 3) array p of sample points. */
  datatype Point = Point(x: real, y: real, z: real)

  /** mag2 (lines 16-17): the real component of z * z.conj(), which is the squared norm. */
  function Mag2(z: Quat): (m: real)
    ensures m == Norm2(z)
    ensures m >= 0.0
  {
    MulConj(z);
    AsFloatArray(Mul(z, Conj(z)))[0]
  }

  /** c (line 23): from_float_array((cx, cy, cz, cw)), so cx is the real part. */
  function JuliaConstant(prm: JuliaParams): (c: Quat)
    ensures c.w == prm.cx && c.x == prm.cy && c.y == prm.cz && c.z == prm.cw
  {
    FromFloatArray([prm.cx, prm.cy, prm.cz, prm.cw])
  }

  /** The starting z of a point (lines 26-31): p's coordinates followed by slice, so p.x is the real part. */
  function Embed(p: Point, slice: real): (q: Quat)
    ensures q.w == p.x && q.x == p.y && q.y == p.z && q.z == slice
  {
    FromFloatArray([p.x, p.y, p.z] + [slice])
  }

  /** np.power(b, e) for a whole exponent e; 0^0 is 1. */
  function RealPow(b: real, e: nat): (r: real)
    ensures b >= 0.0 ==> r >= 0.0
  {
    if e == 0 then 1.0 else b * RealPow(b, e - 1)
  }

  /** Line 41 for one point: power * power * z2^(power - 1) * zp2, the squared magnitude of the next derivative. */
  function DerivativeStep(power: nat, z2: real, zp2: real): (d: real)
    requires power >= 1
    ensures z2 >= 0.0 && zp2 >= 0.0 ==> d >= 0.0
  {
    NonNegativeProduct((power * power) as real, RealPow(z2, power - 1), zp2);
    (power * power) as real * RealPow(z2, power - 1) * zp2
  }

  /** range(iterations) runs max(iterations, 0) times. */
  function Rounds(prm: JuliaParams): (k: nat)
    ensures prm.iterations >= 0 ==> k == prm.iterations
    ensures prm.iterations < 0 ==> k == 0
  {
    if prm.iterations > 0 then prm.iterations else 0
  }

  /** What the arrays z, z2, zp2 and mask hold for one point. */
  datatype Orbit = Orbit(z: Quat, z2: real, zp2: real, escaped: bool)

  /** Lines 26-36: z embedded, z2 its squared magnitude, zp2 one, not escaped. */
  function Start(prm: JuliaParams, p: Point): (o: Orbit)
    ensures o.z2 == Norm2(o.z) && o.zp2 == 1.0 && !o.escaped
  {
    var z := Embed(p, prm.slice);
    Orbit(z, Mag2(z), 1.0, false)
  }

  /**
    One round of the loop (lines 40-47) for one point. Only an active point
    (mask false) is updated: first zp2 from the z2 of the previous round, then
    z, then z2 from the new z. Then the mask takes new_mask = (z2 > bailout) & ~mask.
  */
  function Advance(prm: JuliaParams, qpow: (Quat, nat) -> Quat, o: Orbit): (o': Orbit)
    requires prm.power >= 1
    ensures o.escaped ==> o' == o
    ensures o'.escaped <==> o.escaped || o'.z2 > prm.bailout
  {
    var active := !o.escaped;
    var zp2 := if active then DerivativeStep(prm.power, o.z2, o.zp2) else o.zp2;
    var z := if active then Add(qpow(o.z, prm.power), JuliaConstant(prm)) else o.z;
    var z2 := if active then Mag2(z) else o.z2;
    var newMask := z2 > prm.bailout && !o.escaped;
    Orbit(z, z2, zp2, o.escaped || newMask)
  }

  /** The orbit of point p after k rounds. */
  function After(prm: JuliaParams, qpow: (Quat, nat) -> Quat, p: Point, k: nat): Orbit
    requires prm.power >= 1
  {
    if k == 0 then Start(prm, p) else Advance(prm, qpow, After(prm, qpow, p, k - 1))
  }

  /** The value the distance function returns for p (lines 49-50): (dist - offset) * fudge_factor. */
  function PointDistance(prm: JuliaParams, qpow: (Quat, nat) -> Quat, estimate: (real, real) -> real, p: Point): real
    requires prm.power >= 1
  {
    var o := After(prm, qpow, p, Rounds(prm));
    (estimate(o.z2, o.zp2) - prm.offset) * prm.fudgeFactor
  }

  /** The mask is monotone and escaped points are frozen: once escaped, a point's whole state stays as it is. */
  lemma {:induction false} EscapeIsFinal(prm: JuliaParams, qpow: (Quat, nat) -> Quat, p: Point, j: nat, k: nat)
    requires prm.power >= 1 && j <= k
    requires After(prm, qpow, p, j).escaped
    ensures After(prm, qpow, p, k) == After(prm, qpow, p, j)
    decreases k
  {
    if k > j {
      EscapeIsFinal(prm, qpow, p, j, k - 1);
    }
  }

  /** After k rounds the mask of p is set exactly when some round 1..k left z2 above bailout; the initial z2 is never tested. */
  lemma {:induction false} EscapedIffCrossed(prm: JuliaParams, qpow: (Quat, nat) -> Quat, p: Point, k: nat)
    requires prm.power >= 1
    ensures After(prm, qpow, p, k).escaped <==>
      exists j :: 1 <= j <= k && After(prm, qpow, p, j).z2 > prm.bailout
  {
    if k > 0 {
      EscapedIffCrossed(prm, qpow, p, k - 1);
      var o := After(prm, qpow, p, k - 1);
      if o.escaped {
        var j :| 1 <= j <= k - 1 && After(prm, qpow, p, j).z2 > prm.bailout;
        assert 1 <= j <= k;
      } else if After(prm, qpow, p, k).z2 > prm.bailout {
        assert 1 <= k <= k;
      } else {
        forall j | 1 <= j <= k
          ensures After(prm, qpow, p, j).z2 <= prm.bailout
        {
          if j < k {
            assert !(After(prm, qpow, p, j).z2 > prm.bailout);
          }
        }
      }
    }
  }

  /** z2 always holds the squared magnitude of the current z: the two are updated together. */
  lemma {:induction false} MagnitudeTracksZ(prm: JuliaParams, qpow: (Quat, nat) -> Quat, p: Point, k: nat)
    requires prm.power >= 1
    ensures After(prm, qpow, p, k).z2 == Norm2(After(prm, qpow, p, k).z)
  {
    if k > 0 {
      MagnitudeTracksZ(prm, qpow, p, k - 1);
    }
  }

  /** zp2 starts at one and never becomes negative. */
  lemma {:induction false} DerivativeNonNegative(prm: JuliaParams, qpow: (Quat, nat) -> Quat, p: Point, k: nat)
    requires prm.power >= 1
    ensures After(prm, qpow, p, k).zp2 >= 0.0
  {
    if k > 0 {
      var o := After(prm, qpow, p, k - 1);
      DerivativeNonNegative(prm, qpow, p, k - 1);
      MagnitudeTracksZ(prm, qpow, p, k - 1);
    }
  }

  lemma NonNegativeProduct(a: real, b: real, c: real)
    ensures a >= 0.0 && b >= 0.0 && c >= 0.0 ==> a * b * c >= 0.0
  {
    if a >= 0.0 && b >= 0.0 && c >= 0.0 {
      var ab := a * b;
      assert ab >= 0.0;
    }
  }

  /**
    The update order of an active round: zp2 is computed from the z2 of the
    previous round, before z moves, and z2 from the new z.
  */
  lemma ActiveRound(prm: JuliaParams, qpow: (Quat, nat) -> Quat, p: Point, k: nat)
    requires prm.power >= 1
    requires !After(prm, qpow, p, k).escaped
    ensures After(prm, qpow, p, k + 1).zp2 == DerivativeStep(prm.power, After(prm, qpow, p, k).z2, After(prm, qpow, p, k).zp2)
    ensures After(prm, qpow, p, k + 1).z == Add(qpow(After(prm, qpow, p, k).z, prm.power), JuliaConstant(prm))
    ensures After(prm, qpow, p, k + 1).z2 == Norm2(After(prm, qpow, p, k + 1).z)
  {
    var o := After(prm, qpow, p, k);
    assert After(prm, qpow, p, k + 1) == Advance(prm, qpow, o);
  }

  /**
    The inner distance(p) (lines 24-50) over a batch of points: the arrays
    z, z2, zp2, mask and new_mask are updated in place under ~mask for
    max(iterations, 0) rounds, with no early exit, and the result is
    (dist - offset) * fudge_factor for every point.
  */
  method Distance(prm: JuliaParams, qpow: (Quat, nat) -> Quat, estimate: (real, real) -> real, points: seq<Point>)
    returns (dist: array<real>)
    requires prm.power >= 1
    ensures fresh(dist) && dist.Length == |points|
    ensures forall t :: 0 <= t < |points| ==> dist[t] == PointDistance(prm, qpow, estimate, points[t])
  {
    var n := |points|;
    var z := new Quat[n](t requires 0 <= t < n => Embed(points[t], prm.slice));
    var z2 := new real[n](t requires 0 <= t < n reads z => Mag2(z[t]));
    var zp2 := new real[n](t => 1.0);
    var mask := new bool[n](t => false);
    var newMask := new bool[n](t => false);
    var rounds := Rounds(prm);
    for round := 0 to rounds
      invariant forall t :: 0 <= t < n ==>
        Orbit(z[t], z2[t], zp2[t], mask[t]) == After(prm, qpow, points[t], round)
    {
      Round(prm, qpow, z, z2, zp2, mask, newMask);
    }
    dist := new real[n];
    forall t | 0 <= t < n {
      dist[t] := (estimate(z2[t], zp2[t]) - prm.offset) * prm.fudgeFactor;
    }
  }

  /** One pass of the loop body (lines 40-47) over the whole batch: every point advances by one round. */
  method Round(prm: JuliaParams, qpow: (Quat, nat) -> Quat,
               z: array<Quat>, z2: array<real>, zp2: array<real>, mask: array<bool>, newMask: array<bool>)
    requires prm.power >= 1 && z2 != zp2 && mask != newMask
    requires z2.Length == zp2.Length == mask.Length == newMask.Length == z.Length
    modifies z, z2, zp2, mask, newMask
    ensures forall t :: 0 <= t < z.Length ==>
      Orbit(z[t], z2[t], zp2[t], mask[t]) == Advance(prm, qpow, old(Orbit(z[t], z2[t], zp2[t], mask[t])))
  {
    var n := z.Length;
    var c := JuliaConstant(prm);
    forall t | 0 <= t < n && !mask[t] {
      zp2[t] := DerivativeStep(prm.power, z2[t], zp2[t]);
    }
    forall t | 0 <= t < n && !mask[t] {
      z[t] := Add(qpow(z[t], prm.power), c);
    }
    forall t | 0 <= t < n && !mask[t] {
      z2[t] := Mag2(z[t]);
    }
    forall t | 0 <= t < n {
      newMask[t] := z2[t] > prm.bailout && !mask[t];
    }
    forall t | 0 <= t < n {
      mask[t] := mask[t] || newMask[t];
    }
  }
}
