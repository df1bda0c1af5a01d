/**
  Why the adaptive voxelizer of fractal_printer/__init__.py may skip voxels.

  iterate_voxels evaluates the distance function only at block centres and
  stamps a whole block with the sign found at its centre. When the distance
  function is a true distance bound (it changes by no more than the distance
  between the two points, i.e. it is 1-Lipschitz), the stamp test r >= span
  keeps the surface out of every stamped block. Then each stamped voxel gets
  the sign its own distance has, and the finished grid is exactly the grid an
  evaluation at every voxel would give.

  The constant Sqrt3 is slightly below sqrt(3), so the margin of the stamp
  test holds for spans below about 10^16 only; the lemmas ask for spans of
  at most a million.
*/
module VoxelSoundness {
  import opened VoxelBlocks
  import opened Voxelizer

  /** The square of a real. */
  function Sq(a: real): real
  {
    a * a
  }

  /** Squared Euclidean distance between two voxels, in voxel units. */
  function Dist2(x: int, y: int, z: int, x': int, y': int, z': int): real
  {
    Sq((x - x') as real) + Sq((y - y') as real) + Sq((z - z') as real)
  }

  /** The signed distance at voxel (x, y, z) in voxel units: dist / resolution. */
  function InVoxels(s: Setup, x: int, y: int, z: int): real
    requires s.size != 0.0
  {
    s.dist(x, y, z) / Resolution(s)
  }

  /**
    The distance function is 1-Lipschitz in world space: |dist(p) - dist(q)|
    is at most |p - q|. Voxel centres lie one resolution apart, so in voxel
    units the change between two voxels is at most their distance in voxels
    (stated on squares).
  */
  ghost predicate Lipschitz(s: Setup)
    requires s.size != 0.0
  {
    forall x, y, z, x', y', z' ::
      Sq(InVoxels(s, x, y, z) - InVoxels(s, x', y', z')) <= Dist2(x, y, z, x', y', z')
  }

  lemma LipschitzAt(s: Setup, x: int, y: int, z: int, x': int, y': int, z': int)
    requires s.size != 0.0 && Lipschitz(s)
    ensures Sq(InVoxels(s, x, y, z) - InVoxels(s, x', y', z')) <= Dist2(x, y, z, x', y', z')
  {
  }

  /** With a positive size, the distance in voxel units has the sign of the distance. */
  lemma SignInVoxels(s: Setup, x: int, y: int, z: int)
    requires s.size > 0.0
    ensures Sign(InVoxels(s, x, y, z)) == Sign(s.dist(x, y, z))
  {
  }

  lemma SquaresOrdered(a: real, b: real)
    requires 0.0 <= a <= b
    ensures Sq(a) <= Sq(b)
  {
    var aa, ab, bb := a * a, a * b, b * b;
    assert aa <= ab;
    assert ab <= bb;
  }

  lemma SquareOfAbs(a: real)
    ensures Sq(Abs(a)) == Sq(a)
  {
  }

  /** An offset e whose square is below a^2 does not change the sign of a. */
  lemma SmallChangeKeepsSign(a: real, e: real)
    requires Sq(e) < Sq(a)
    ensures Sign(a + e) == Sign(a)
  {
    SquareOfAbs(a);
    SquareOfAbs(e);
    if Abs(a) <= Abs(e) {
      SquaresOrdered(Abs(a), Abs(e));
      assert false;
    }
  }

  lemma ProductBound(a: real, b: real, p: real, q: real)
    requires 0.0 <= a <= p && 0.0 <= b <= q
    ensures a * b <= p * q
  {
    var ab, pb, pq := a * b, p * b, p * q;
    assert ab <= pb;
    assert pb <= pq;
  }

  /**
    For spans up to a million the stamp threshold (span + 1) * Sqrt3 is above
    the half-diagonal sqrt(3) * span of a block, compared on squares.
  */
  lemma ThresholdClearsDiagonal(h: real)
    requires 0.0 <= h <= 1000000.0
    ensures 3.0 * Sq(h) < Sq((h + 1.0) * Sqrt3)
  {
    var t := Sq(h + 1.0);
    var q := Sq(Sqrt3);
    assert 2.9999999999999996 <= q < 3.0;
    assert t == Sq(h) + 2.0 * h + 1.0;
    SquaresOrdered(h + 1.0, 1000001.0);
    ProductBound(t, 3.0 - q, 1000002000001.0, 0.0000000000000004);
    assert t * q == 3.0 * t - t * (3.0 - q);
    assert Sq((h + 1.0) * Sqrt3) == t * q;
  }

  /** In voxel units (d / resolution) the stamp test r >= span means |d| >= (span + 1) * Sqrt3. */
  lemma StampInVoxels(d: real, resolution: real, span: int)
    requires resolution > 0.0 && span >= 1
    requires Radius(Reach(d, resolution)) >= span
    ensures Abs(d / resolution) >= (span as real + 1.0) * Sqrt3
  {
    var x := Reach(d, resolution);
    RadiusClosedForm(x);
    assert x >= span as real + 1.0;
    assert Abs(d / resolution) == x * Sqrt3;
  }

  /** A voxel in the block of centre c lies at squared distance at most 3 * span^2 from c. */
  lemma BlockDiameter(n: nat, cx: int, cy: int, cz: int, x: int, y: int, z: int)
    requires InBlock(n, cx, x) && InBlock(n, cy, y) && InBlock(n, cz, z)
    ensures Dist2(x, y, z, cx, cy, cz) <= 3.0 * Sq(Span(n) as real)
  {
    var h := Span(n) as real;
    AxisWithin(x - cx, h);
    AxisWithin(y - cy, h);
    AxisWithin(z - cz, h);
  }

  lemma AxisWithin(e: int, h: real)
    requires -h <= e as real <= h
    ensures Sq(e as real) <= Sq(h)
  {
    SquareOfAbs(e as real);
    SquaresOrdered(Abs(e as real), h);
  }

  /**
    The arithmetic core of the soundness argument, in voxel units: a change e
    with e^2 <= d <= 3 h^2 is smaller than a centre distance w that reaches
    the stamp threshold (h + 1) * Sqrt3.
  */
  lemma ChangeBelowDistance(e: real, w: real, d: real, h: real)
    requires 0.0 <= h <= 1000000.0 && d <= 3.0 * Sq(h)
    requires Sq(e) <= d
    requires Abs(w) >= (h + 1.0) * Sqrt3
    ensures Sq(e) < Sq(w)
  {
    ThresholdClearsDiagonal(h);
    SquaresOrdered((h + 1.0) * Sqrt3, Abs(w));
    SquareOfAbs(w);
  }

  /**
    Surface safety of one stamp: for a 1-Lipschitz distance function, every
    voxel of a block stamped at a level n >= 1 has the sign of the distance at
    the block's centre, so the stamp never misclassifies a voxel.
  */
  lemma StampedBlockKeepsSign(s: Setup, n: nat, cx: int, cy: int, cz: int, x: int, y: int, z: int)
    requires 1 <= n < s.levels && s.size > 0.0 && Span(n) <= 1000000
    requires Lipschitz(s)
    requires Stamps(s, n, cx, cy, cz)
    requires InBlock(n, cx, x) && InBlock(n, cy, y) && InBlock(n, cz, z)
    ensures Sign(s.dist(x, y, z)) == Sign(s.dist(cx, cy, cz))
  {
    assert Span(n) >= 1 by { assert Pow3(n) == 3 * Pow3(n - 1); }
    StampInVoxels(s.dist(cx, cy, cz), Resolution(s), Span(n));
    BlockDiameter(n, cx, cy, cz, x, y, z);
    LipschitzAt(s, x, y, z, cx, cy, cz);
    var wc, wx := InVoxels(s, cx, cy, cz), InVoxels(s, x, y, z);
    ChangeBelowDistance(wx - wc, wc, Dist2(x, y, z, cx, cy, cz), Span(n) as real);
    SmallChangeKeepsSign(wc, wx - wc);
    assert wc + (wx - wc) == wx;
    SignInVoxels(s, x, y, z);
    SignInVoxels(s, cx, cy, cz);
  }

  /** The span of every level of a grid is below the grid's side. */
  lemma SpanBelowSide(levels: nat, n: nat)
    requires n <= levels
    ensures Span(n) < Pow3(levels)
  {
    Pow3Split(n, levels);
    MulAtLeast(Pow3(levels - n), Pow3(n));
    assert Pow3(n) * Pow3(levels - n) == Pow3(levels - n) * Pow3(n);
  }

  /** After the coarse levels n >= 1 every voxel is still 0 or already carries the sign of its own distance. */
  lemma {:induction false} CoarseCellIsExact(s: Setup, n: nat, x: int, y: int, z: int)
    requires 1 <= n <= s.levels && s.size > 0.0 && Pow3(s.levels) <= 1000000
    requires Lipschitz(s)
    ensures Cell(s, n, x, y, z) == 0 || Cell(s, n, x, y, z) == Sign(s.dist(x, y, z))
    decreases s.levels - n
  {
    if n < s.levels {
      var cx, cy, cz := Centre(n, x), Centre(n, y), Centre(n, z);
      if Stamps(s, n, cx, cy, cz) {
        SpanBelowSide(s.levels, n);
        StampedBlockKeepsSign(s, n, cx, cy, cz, x, y, z);
      } else {
        CoarseCellIsExact(s, n + 1, x, y, z);
      }
    }
  }

  /**
    The adaptive grid is exact: with a positive size, at least one level and
    a 1-Lipschitz distance function, every voxel of the finished grid is the
    sign of the distance at that voxel, as if every voxel had been evaluated.
  */
  lemma AdaptiveGridIsExact(s: Setup, x: int, y: int, z: int)
    requires 1 <= s.levels && s.size > 0.0 && Pow3(s.levels) <= 1000000
    requires Lipschitz(s)
    ensures Cell(s, 0, x, y, z) == Sign(s.dist(x, y, z))
  {
    CoarseCellIsExact(s, 1, x, y, z);
    if Cell(s, 1, x, y, z) != 0 {
      NeverOverwritten(s, 0, x, y, z);
    } else {
      BlankVoxelTakesSign(s, x, y, z);
    }
  }

  /** A voxel still 0 before level 0 is its own centre, is evaluated, and takes the sign of its distance. */
  lemma BlankVoxelTakesSign(s: Setup, x: int, y: int, z: int)
    requires 1 <= s.levels && s.size > 0.0
    requires Cell(s, 1, x, y, z) == 0
    ensures Cell(s, 0, x, y, z) == Sign(s.dist(x, y, z))
  {
    assert Pow3(0) == 1 && Span(0) == 0;
    assert Centre(0, x) == x && Centre(0, y) == y && Centre(0, z) == z;
    var reach := Reach(s.dist(x, y, z), Resolution(s));
    assert reach >= 0.0;
    RadiusClosedForm(reach);
    assert Stamps(s, 0, x, y, z);
  }
}
