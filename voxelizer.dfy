/**
  The adaptive voxelizer iterate_voxels of fractal_printer/__init__.py.

  A cubic int8 grid of side 3^levels starts all zero. Levels are visited from
  coarse to fine; at level n every block centre whose voxel is still zero is
  evaluated once, and when the distance there is large enough the whole block
  is stamped with the sign of that distance. The result is the mask
  value <= cutoff.

  The specification is the ghost function Cell: the value of a voxel once the
  levels levels-1 .. n have been processed. The methods are proved to compute
  it; the lemmas state what iterate_voxels promises about it.
*/
module Voxelizer {
  import opened VoxelBlocks

  /**
    np.sqrt(3) as the decimal literal 1.7320508075688772, the shortest decimal
    that rounds to the float64 result; as a real it is slightly below sqrt(3).
  */
  const Sqrt3: real := 1.7320508075688772

  /**
    The inputs of iterate_voxels that shape the grid. dist(i, j, k) is the
    signed distance the distance function returns at the centre of voxel
    (i, j, k); the world-space position built from center, size and
    resolution is folded into it.
  */
  datatype Setup = Setup(dist: (int, int, int) -> real, levels: nat, size: real)

  /** resolution = size / steps: the edge length of one voxel. */
  function Resolution(s: Setup): (res: real)
    requires s.size != 0.0
    ensures res * (Pow3(s.levels) as real) == s.size
    ensures res != 0.0 && (res > 0.0 <==> s.size > 0.0)
  {
    s.size / (Pow3(s.levels) as real)
  }

  function Abs(d: real): real
  {
    if d < 0.0 then -d else d
  }

  /** np.sign: -1, 0 or 1 according to the sign of d. */
  function Sign(d: real): (v: int)
    ensures -1 <= v <= 1
    ensures v == 0 <==> d == 0.0
    ensures v > 0 <==> d > 0.0
  {
    if d > 0.0 then 1 else if d < 0.0 then -1 else 0
  }

  /** Python's int() on a float: truncation toward zero. */
  function Trunc(y: real): (t: int)
    ensures y >= 0.0 ==> t as real <= y < t as real + 1.0
    ensures y < 0.0 ==> t as real - 1.0 < y <= t as real
  {
    if y >= 0.0 then y.Floor else -((-y).Floor)
  }

  /** The quantity |d| / sqrt(3) / resolution of line 20: distance in voxel diagonals. */
  function Reach(d: real, resolution: real): (x: real)
    requires resolution != 0.0
    ensures resolution > 0.0 ==> x >= 0.0
  {
    Abs(d) / Sqrt3 / resolution
  }

  /** r = int(np.floor(x) - 0.5), exactly as written at line 20. */
  function Radius(x: real): (r: int)
    ensures x >= 0.0 ==> 0 <= r && r as real <= x
  {
    Trunc(x.Floor as real - 0.5)
  }

  /** For a non-negative reach the radius is max(floor(x) - 1, 0): never negative. */
  lemma RadiusClosedForm(x: real)
    requires x >= 0.0
    ensures Radius(x) == if x.Floor >= 1 then x.Floor - 1 else 0
  {
    var f := x.Floor;
    if f >= 1 {
      assert (f as real - 0.5).Floor == f - 1;
    } else {
      assert f == 0;
      assert (0.5).Floor == 0;
    }
  }

  /** A radius of at least one needs a reach of at least two, whatever the sign of x. */
  lemma RadiusAtLeastOne(x: real)
    requires Radius(x) >= 1
    ensures x >= 2.0
  {
    if x >= 0.0 {
      RadiusClosedForm(x);
    }
  }

  /**
    The stamp test is conservative: at a level with span >= 1, r >= span
    holds only when |d| >= (span + 1) * sqrt(3) * resolution, more than the
    distance sqrt(3) * span * resolution from the centre to the farthest voxel
    of the block. VoxelSoundness.StampedBlockKeepsSign draws the consequence:
    for a true distance bound the surface cannot cross a stamped block.
  */
  lemma StampIsConservative(d: real, resolution: real, span: int)
    requires resolution > 0.0 && span >= 1
    requires Radius(Reach(d, resolution)) >= span
    ensures Abs(d) >= (span as real + 1.0) * Sqrt3 * resolution
  {
    var x := Reach(d, resolution);
    var k := Sqrt3 * resolution;
    assert Abs(d) == x * k;
    RadiusClosedForm(x);
    assert x >= span as real + 1.0;
    var e := x - (span as real + 1.0);
    assert e * k >= 0.0;
    assert x * k == (span as real + 1.0) * k + e * k;
  }

  /**
    The distance function is evaluated at centre (cx, cy, cz) of level n
    exactly when the voxel there is still zero after the coarser levels.
  */
  ghost predicate Evaluates(s: Setup, n: nat, cx: int, cy: int, cz: int)
    requires n < s.levels && s.size != 0.0
    decreases s.levels - n, 0
  {
    Cell(s, n + 1, cx, cy, cz) == 0
  }

  /** The block centred on (cx, cy, cz) is stamped at level n: evaluated, and r >= span. */
  ghost predicate Stamps(s: Setup, n: nat, cx: int, cy: int, cz: int)
    requires n < s.levels && s.size != 0.0
    decreases s.levels - n, 1
  {
    Evaluates(s, n, cx, cy, cz) && Radius(Reach(s.dist(cx, cy, cz), Resolution(s))) >= Span(n)
  }

  /**
    The value of voxel (x, y, z) after the levels levels-1 down to n have run
    (n == levels: the zero grid). At level n the voxel belongs to the block of
    Centre(n, .) on each axis; it takes the sign of the distance there if that
    block is stamped, and keeps its value otherwise.
  */
  ghost function Cell(s: Setup, n: nat, x: int, y: int, z: int): (v: int)
    requires n <= s.levels && (s.size != 0.0 || n == s.levels)
    ensures -1 <= v <= 1
    decreases s.levels - n, 2
  {
    if n == s.levels then 0
    else
      var cx, cy, cz := Centre(n, x), Centre(n, y), Centre(n, z);
      if Stamps(s, n, cx, cy, cz) then Sign(s.dist(cx, cy, cz)) else Cell(s, n + 1, x, y, z)
  }

  /** After level n the grid is constant on every level-n block. */
  lemma {:induction false} CellConstantOnBlock(s: Setup, n: nat, x: int, y: int, z: int, x': int, y': int, z': int)
    requires n <= s.levels && s.size != 0.0
    requires BlockOf(n, x) == BlockOf(n, x') && BlockOf(n, y) == BlockOf(n, y') && BlockOf(n, z) == BlockOf(n, z')
    ensures Cell(s, n, x, y, z) == Cell(s, n, x', y', z')
    decreases s.levels - n
  {
    if n < s.levels {
      CellConstantOnBlock(s, n + 1, x, y, z, x', y', z');
    }
  }

  /** Whenever the centre check passes, the whole block is still all zero. */
  lemma {:induction false} EvaluatedBlockIsBlank(s: Setup, n: nat, cx: int, cy: int, cz: int, x: int, y: int, z: int)
    requires n < s.levels && s.size != 0.0
    requires Centre(n, cx) == cx && Centre(n, cy) == cy && Centre(n, cz) == cz
    requires InBlock(n, cx, x) && InBlock(n, cy, y) && InBlock(n, cz, z)
    requires Evaluates(s, n, cx, cy, cz)
    ensures Cell(s, n + 1, x, y, z) == 0
  {
    CentreUnique(n, cx, x); CentreUnique(n, cy, y); CentreUnique(n, cz, z);
    CentreUnique(n, cx, cx); CentreUnique(n, cy, cy); CentreUnique(n, cz, cz);
    CentreNests(n, x); CentreNests(n, y); CentreNests(n, z);
    CellConstantOnBlock(s, n + 1, x, y, z, cx, cy, cz);
  }

  /** Monotonic refinement, one level: a voxel that is non-zero before level n is not rewritten by it. */
  lemma {:induction false} NeverOverwritten(s: Setup, n: nat, x: int, y: int, z: int)
    requires n < s.levels && s.size != 0.0
    requires Cell(s, n + 1, x, y, z) != 0
    ensures Cell(s, n, x, y, z) == Cell(s, n + 1, x, y, z)
  {
    var cx, cy, cz := Centre(n, x), Centre(n, y), Centre(n, z);
    CentreNests(n, x); CentreNests(n, y); CentreNests(n, z);
    CellConstantOnBlock(s, n + 1, x, y, z, cx, cy, cz);
    assert !Stamps(s, n, cx, cy, cz);
  }

  /** Monotonic refinement: a voxel resolved after level m keeps its value through every finer level. */
  lemma {:induction false} ResolvedStaysResolved(s: Setup, m: nat, n: nat, x: int, y: int, z: int)
    requires n <= m <= s.levels && s.size != 0.0
    requires Cell(s, m, x, y, z) != 0
    ensures Cell(s, n, x, y, z) == Cell(s, m, x, y, z)
    decreases m - n
  {
    if n < m {
      ResolvedStaysResolved(s, m, n + 1, x, y, z);
      NeverOverwritten(s, n, x, y, z);
    }
  }

  /** A voxel covered by a stamp of a coarser level m is never evaluated again at a finer level n. */
  lemma {:induction false} ResolvedIsNotEvaluated(s: Setup, m: nat, n: nat, x: int, y: int, z: int)
    requires n < m <= s.levels && s.size != 0.0
    requires Cell(s, m, x, y, z) != 0
    ensures !Evaluates(s, n, Centre(n, x), Centre(n, y), Centre(n, z))
  {
    ResolvedStaysResolved(s, m, n + 1, x, y, z);
    CentreNests(n, x); CentreNests(n, y); CentreNests(n, z);
    CellConstantOnBlock(s, n + 1, x, y, z, Centre(n, x), Centre(n, y), Centre(n, z));
  }

  /** At levels n >= 1 a stamp needs r >= span >= 1, so the distance is non-zero and so is the stamp. */
  lemma CoarseStampIsNonZero(s: Setup, n: nat, cx: int, cy: int, cz: int)
    requires 1 <= n < s.levels && s.size != 0.0
    requires Stamps(s, n, cx, cy, cz)
    ensures Sign(s.dist(cx, cy, cz)) != 0
  {
    var d := s.dist(cx, cy, cz);
    assert Span(n) >= 1 by { assert Pow3(n) == 3 * Pow3(n - 1); }
    RadiusAtLeastOne(Reach(d, Resolution(s)));
  }

  /** So a voxel that a coarse level changes becomes non-zero, i.e. resolved. */
  lemma CoarseChangeResolves(s: Setup, n: nat, x: int, y: int, z: int)
    requires 1 <= n < s.levels && s.size != 0.0
    requires Cell(s, n, x, y, z) != Cell(s, n + 1, x, y, z)
    ensures Cell(s, n, x, y, z) != 0
  {
    CoarseStampIsNonZero(s, n, Centre(n, x), Centre(n, y), Centre(n, z));
  }

  /**
    With a positive size and at least one level, the finished grid is zero at a
    voxel exactly when no coarser stamp covered it and its own level-0
    evaluation returned exactly 0.
  */
  lemma LevelZeroDecides(s: Setup, x: int, y: int, z: int)
    requires 1 <= s.levels && s.size > 0.0
    ensures Cell(s, 0, x, y, z) == 0 <==> Cell(s, 1, x, y, z) == 0 && s.dist(x, y, z) == 0.0
  {
    assert Pow3(0) == 1 && Span(0) == 0;
    assert Centre(0, x) == x && Centre(0, y) == y && Centre(0, z) == z;
    var d := s.dist(x, y, z);
    var reach := Reach(d, Resolution(s));
    assert reach >= 0.0;
    RadiusClosedForm(reach);
    assert Radius(reach) >= Span(0);
    if Cell(s, 1, x, y, z) != 0 {
      NeverOverwritten(s, 0, x, y, z);
    } else {
      assert Stamps(s, 0, x, y, z);
      assert Cell(s, 0, x, y, z) == Sign(d);
    }
  }

  /** Every voxel of the finished grid is -1 or +1, except where the distance is exactly 0. */
  lemma FinishedGridIsDecided(s: Setup, x: int, y: int, z: int)
    requires 1 <= s.levels && s.size > 0.0
    requires s.dist(x, y, z) != 0.0
    ensures Cell(s, 0, x, y, z) == -1 || Cell(s, 0, x, y, z) == 1
  {
    LevelZeroDecides(s, x, y, z);
  }

  /** With a negative resolution the reach is never positive, so r is negative unless d is 0. */
  lemma NegativeResolutionRadius(d: real, resolution: real)
    requires resolution < 0.0
    requires Radius(Reach(d, resolution)) >= 0
    ensures d == 0.0
  {
  }

  /**
    With a negative size every stamp has r >= span >= 0, hence d == 0 and the
    stamped value sign(d) is 0: the grid stays all zero at every level.
  */
  lemma {:induction false} NegativeSizeStaysBlank(s: Setup, n: nat, x: int, y: int, z: int)
    requires n <= s.levels && s.size < 0.0
    ensures Cell(s, n, x, y, z) == 0
    decreases s.levels - n
  {
    if n < s.levels {
      var cx, cy, cz := Centre(n, x), Centre(n, y), Centre(n, z);
      if Stamps(s, n, cx, cy, cz) {
        NegativeResolutionRadius(s.dist(cx, cy, cz), Resolution(s));
      } else {
        NegativeSizeStaysBlank(s, n + 1, x, y, z);
      }
    }
  }

  predicate InGrid<T>(a: array3<T>, x: int, y: int, z: int)
  {
    0 <= x < a.Length0 && 0 <= y < a.Length1 && 0 <= z < a.Length2
  }

  /**
    mask[x0:x1, y0:y1, z0:z1] = v (line 22): every voxel of the box takes v
    and every other voxel keeps its value.
  */
  method StampBlock(mask: array3<int>, x0: int, x1: int, y0: int, y1: int, z0: int, z1: int, v: int)
    requires 0 <= x0 <= x1 <= mask.Length0 && 0 <= y0 <= y1 <= mask.Length1 && 0 <= z0 <= z1 <= mask.Length2
    modifies mask
    ensures forall x, y, z {:trigger mask[x, y, z]} :: InGrid(mask, x, y, z) ==>
      mask[x, y, z] == if x0 <= x < x1 && y0 <= y < y1 && z0 <= z < z1 then v else old(mask[x, y, z])
  {
    forall x, y, z | x0 <= x < x1 && y0 <= y < y1 && z0 <= z < z1 {
      mask[x, y, z] := v;
    }
  }

  /** Same block of level n on all three axes. */
  predicate SameBlock(n: nat, x: int, y: int, z: int, i: int, j: int, k: int)
  {
    BlockOf(n, x) == BlockOf(n, i) && BlockOf(n, y) == BlockOf(n, j) && BlockOf(n, z) == BlockOf(n, k)
  }

  /** Inside the level-n block of a centre, the level-n value is the centre's stamp or the previous value. */
  lemma CellInBlock(s: Setup, n: nat, i: int, j: int, k: int, x: int, y: int, z: int)
    requires n < s.levels && s.size != 0.0
    requires Centre(n, i) == i && Centre(n, j) == j && Centre(n, k) == k
    requires SameBlock(n, x, y, z, i, j, k)
    ensures Cell(s, n, x, y, z) == if Stamps(s, n, i, j, k) then Sign(s.dist(i, j, k)) else Cell(s, n + 1, x, y, z)
  {
    assert Centre(n, x) == i && Centre(n, y) == j && Centre(n, z) == k;
  }

  /**
    The body of the k loop (lines 17-22) at centre (i, j, k) of level n: if the
    centre is still zero, evaluate the distance once and stamp the block when
    r >= span. The block then holds its level-n values; nothing else changes.
  */
  method VisitCentre(s: Setup, resolution: real, mask: array3<int>, n: nat, i: int, j: int, k: int) returns (evaluated: bool)
    requires n < s.levels && s.size != 0.0 && resolution == Resolution(s)
    requires mask.Length0 == mask.Length1 == mask.Length2 == Pow3(s.levels)
    requires IsCentre(s.levels, n, i) && IsCentre(s.levels, n, j) && IsCentre(s.levels, n, k)
    requires forall x, y, z {:trigger mask[x, y, z]} :: InGrid(mask, x, y, z) && SameBlock(n, x, y, z, i, j, k) ==>
      mask[x, y, z] == Cell(s, n + 1, x, y, z)
    modifies mask
    ensures forall x, y, z {:trigger mask[x, y, z]} :: InGrid(mask, x, y, z) ==>
      mask[x, y, z] == if SameBlock(n, x, y, z, i, j, k) then Cell(s, n, x, y, z) else old(mask[x, y, z])
    ensures evaluated <==> old(mask[i, j, k]) == 0
    ensures evaluated <==> Evaluates(s, n, i, j, k)
  {
    evaluated := false;
    var stride := Pow3(n);
    var span := (stride - 1) / 2;
    CentreUnique(n, i, i); CentreUnique(n, j, j); CentreUnique(n, k, k);
    ghost var stamps := Stamps(s, n, i, j, k);
    forall x, y, z | SameBlock(n, x, y, z, i, j, k)
      ensures Cell(s, n, x, y, z) == if stamps then Sign(s.dist(i, j, k)) else Cell(s, n + 1, x, y, z)
    {
      CellInBlock(s, n, i, j, k, x, y, z);
    }
    assert InGrid(mask, i, j, k) && SameBlock(n, i, j, k, i, j, k);
    assert mask[i, j, k] == Cell(s, n + 1, i, j, k);
    assert Evaluates(s, n, i, j, k) <==> mask[i, j, k] == 0;
    assert stamps <==> mask[i, j, k] == 0 && Radius(Reach(s.dist(i, j, k), resolution)) >= span;
    if mask[i, j, k] == 0 {
      evaluated := true;
      var d := s.dist(i, j, k);
      var r := Radius(Reach(d, resolution));
      if r >= span {
        assert stamps;
        forall x ensures InBlock(n, i, x) <==> BlockOf(n, x) == BlockOf(n, i) {
          InBlockIffBlockOf(n, BlockOf(n, i), x);
        }
        forall y ensures InBlock(n, j, y) <==> BlockOf(n, y) == BlockOf(n, j) {
          InBlockIffBlockOf(n, BlockOf(n, j), y);
        }
        forall z ensures InBlock(n, k, z) <==> BlockOf(n, z) == BlockOf(n, k) {
          InBlockIffBlockOf(n, BlockOf(n, k), z);
        }
        StampBlock(mask, i - span, i + span + 1, j - span, j + span + 1, k - span, k + span + 1, Sign(d));
      } else {
        assert !stamps;
      }
    } else {
      assert !stamps;
    }
  }

  /** Lexicographic order of block indices: the order in which the i, j, k loops visit blocks. */
  predicate Before(p: int, q: int, r: int, a: int, b: int, c: int)
  {
    p < a || (p == a && (q < b || (q == b && r < c)))
  }

  /** Level n has visited the blocks before (a, b, c): those hold their level-n values, the rest their level-(n+1) ones. */
  ghost predicate Swept(s: Setup, mask: array3<int>, n: nat, a: int, b: int, c: int)
    requires n < s.levels && s.size != 0.0
    reads mask
  {
    forall x, y, z {:trigger mask[x, y, z]} :: InGrid(mask, x, y, z) ==>
      mask[x, y, z] == if Before(BlockOf(n, x), BlockOf(n, y), BlockOf(n, z), a, b, c)
                       then Cell(s, n, x, y, z) else Cell(s, n + 1, x, y, z)
  }

  /** The blocks before (0, 0, 0) are none: the level-(n+1) grid is swept up to the first block. */
  lemma SweepStarts(s: Setup, mask: array3<int>, n: nat)
    requires n < s.levels && s.size != 0.0
    requires mask.Length0 == mask.Length1 == mask.Length2 == Pow3(s.levels)
    requires forall x, y, z {:trigger mask[x, y, z]} :: InGrid(mask, x, y, z) ==> mask[x, y, z] == Cell(s, n + 1, x, y, z)
    ensures Swept(s, mask, n, 0, 0, 0)
  {
    forall x, y, z | InGrid(mask, x, y, z)
      ensures !Before(BlockOf(n, x), BlockOf(n, y), BlockOf(n, z), 0, 0, 0)
    {
      BlockBound(s.levels, n, x); BlockBound(s.levels, n, y); BlockBound(s.levels, n, z);
    }
  }

  /** Once every block of the level has been visited, the grid holds its level-n values. */
  lemma SweepEnds(s: Setup, mask: array3<int>, n: nat)
    requires n < s.levels && s.size != 0.0
    requires mask.Length0 == mask.Length1 == mask.Length2 == Pow3(s.levels)
    requires Swept(s, mask, n, Pow3(s.levels - n), 0, 0)
    ensures forall x, y, z {:trigger mask[x, y, z]} :: InGrid(mask, x, y, z) ==> mask[x, y, z] == Cell(s, n, x, y, z)
  {
    forall x, y, z | InGrid(mask, x, y, z)
      ensures Before(BlockOf(n, x), BlockOf(n, y), BlockOf(n, z), Pow3(s.levels - n), 0, 0)
    {
      BlockBound(s.levels, n, x); BlockBound(s.levels, n, y); BlockBound(s.levels, n, z);
    }
  }

  /** The end of row (a, b) is the start of row (a, b + 1). */
  lemma SweepNextRow(s: Setup, mask: array3<int>, n: nat, a: int, b: int)
    requires n < s.levels && s.size != 0.0
    requires mask.Length0 == mask.Length1 == mask.Length2 == Pow3(s.levels)
    requires Swept(s, mask, n, a, b, Pow3(s.levels - n))
    ensures Swept(s, mask, n, a, b + 1, 0)
  {
    forall x, y, z | InGrid(mask, x, y, z)
      ensures Before(BlockOf(n, x), BlockOf(n, y), BlockOf(n, z), a, b, Pow3(s.levels - n))
           == Before(BlockOf(n, x), BlockOf(n, y), BlockOf(n, z), a, b + 1, 0)
    {
      BlockBound(s.levels, n, x); BlockBound(s.levels, n, y); BlockBound(s.levels, n, z);
    }
  }

  /** The end of plane a is the start of plane a + 1. */
  lemma SweepNextPlane(s: Setup, mask: array3<int>, n: nat, a: int)
    requires n < s.levels && s.size != 0.0
    requires mask.Length0 == mask.Length1 == mask.Length2 == Pow3(s.levels)
    requires Swept(s, mask, n, a, Pow3(s.levels - n), 0)
    ensures Swept(s, mask, n, a + 1, 0, 0)
  {
    forall x, y, z | InGrid(mask, x, y, z)
      ensures Before(BlockOf(n, x), BlockOf(n, y), BlockOf(n, z), a, Pow3(s.levels - n), 0)
           == Before(BlockOf(n, x), BlockOf(n, y), BlockOf(n, z), a + 1, 0, 0)
    {
      BlockBound(s.levels, n, x); BlockBound(s.levels, n, y); BlockBound(s.levels, n, z);
    }
  }

  /** The i loop of one level n (lines 11-22): it takes the grid from its level-(n+1) to its level-n values. */
  method SweepLevel(s: Setup, resolution: real, mask: array3<int>, n: nat)
    requires n < s.levels && s.size != 0.0 && resolution == Resolution(s)
    requires mask.Length0 == mask.Length1 == mask.Length2 == Pow3(s.levels)
    requires forall x, y, z {:trigger mask[x, y, z]} :: InGrid(mask, x, y, z) ==> mask[x, y, z] == Cell(s, n + 1, x, y, z)
    modifies mask
    ensures forall x, y, z {:trigger mask[x, y, z]} :: InGrid(mask, x, y, z) ==> mask[x, y, z] == Cell(s, n, x, y, z)
  {
    var steps: int := Pow3(s.levels);
    var stride: int := Pow3(n);
    var span: int := (stride - 1) / 2;
    SweepStarts(s, mask, n);
    ScaleIsProduct(n, 0);
    var i := span;
    ghost var a := 0;
    while i < steps - span
      invariant 0 <= a <= Pow3(s.levels - n) && i == Scale(n, a) + span
      invariant Swept(s, mask, n, a, 0, 0)
    {
      CentreBound(s.levels, n, a);
      SweepPlane(s, resolution, mask, n, i, a);
      ScaleStep(n, a);
      i, a := i + stride, a + 1;
    }
    CentreBound(s.levels, n, a);
    SweepEnds(s, mask, n);
  }

  /** The j loop inside the i loop, for plane a of centre i. */
  method SweepPlane(s: Setup, resolution: real, mask: array3<int>, n: nat, i: int, ghost a: int)
    requires n < s.levels && s.size != 0.0 && resolution == Resolution(s)
    requires mask.Length0 == mask.Length1 == mask.Length2 == Pow3(s.levels)
    requires 0 <= a < Pow3(s.levels - n) && i == Scale(n, a) + Span(n)
    requires Swept(s, mask, n, a, 0, 0)
    modifies mask
    ensures Swept(s, mask, n, a + 1, 0, 0)
  {
    var steps: int := Pow3(s.levels);
    var stride: int := Pow3(n);
    var span: int := (stride - 1) / 2;
    ScaleIsProduct(n, 0);
    var j := span;
    ghost var b := 0;
    while j < steps - span
      invariant 0 <= b <= Pow3(s.levels - n) && j == Scale(n, b) + span
      invariant Swept(s, mask, n, a, b, 0)
    {
      CentreBound(s.levels, n, b);
      SweepRow(s, resolution, mask, n, i, j, a, b);
      ScaleStep(n, b);
      j, b := j + stride, b + 1;
    }
    CentreBound(s.levels, n, b);
    SweepNextPlane(s, mask, n, a);
  }

  /** The k loop inside the j loop, for row (a, b) of centres (i, j). */
  method SweepRow(s: Setup, resolution: real, mask: array3<int>, n: nat, i: int, j: int, ghost a: int, ghost b: int)
    requires n < s.levels && s.size != 0.0 && resolution == Resolution(s)
    requires mask.Length0 == mask.Length1 == mask.Length2 == Pow3(s.levels)
    requires 0 <= a < Pow3(s.levels - n) && i == Scale(n, a) + Span(n)
    requires 0 <= b < Pow3(s.levels - n) && j == Scale(n, b) + Span(n)
    requires Swept(s, mask, n, a, b, 0)
    modifies mask
    ensures Swept(s, mask, n, a, b + 1, 0)
  {
    var steps: int := Pow3(s.levels);
    var stride: int := Pow3(n);
    var span: int := (stride - 1) / 2;
    ScaleIsProduct(n, 0);
    var k := span;
    ghost var c := 0;
    while k < steps - span
      invariant 0 <= c <= Pow3(s.levels - n) && k == Scale(n, c) + span
      invariant Swept(s, mask, n, a, b, c)
    {
      CentreBound(s.levels, n, c);
      SweepStep(s, resolution, mask, n, i, j, k, a, b, c);
      ScaleStep(n, c);
      k, c := k + stride, c + 1;
    }
    CentreBound(s.levels, n, c);
    SweepNextRow(s, mask, n, a, b);
  }

  /** One step of the k loop, at centre (i, j, k) of block (a, b, c): it extends Swept by that block. */
  method SweepStep(s: Setup, resolution: real, mask: array3<int>, n: nat, i: int, j: int, k: int, ghost a: int, ghost b: int, ghost c: int)
    requires n < s.levels && s.size != 0.0 && resolution == Resolution(s)
    requires mask.Length0 == mask.Length1 == mask.Length2 == Pow3(s.levels)
    requires 0 <= a < Pow3(s.levels - n) && 0 <= b < Pow3(s.levels - n) && 0 <= c < Pow3(s.levels - n)
    requires i == Scale(n, a) + Span(n) && j == Scale(n, b) + Span(n) && k == Scale(n, c) + Span(n)
    requires Swept(s, mask, n, a, b, c)
    modifies mask
    ensures Swept(s, mask, n, a, b, c + 1)
  {
    CentreOfBlock(s.levels, n, a); CentreOfBlock(s.levels, n, b); CentreOfBlock(s.levels, n, c);
    forall x, y, z | InGrid(mask, x, y, z) && SameBlock(n, x, y, z, i, j, k)
      ensures mask[x, y, z] == Cell(s, n + 1, x, y, z)
    {
      NextInOrder(BlockOf(n, x), BlockOf(n, y), BlockOf(n, z), a, b, c);
    }
    var _ := VisitCentre(s, resolution, mask, n, i, j, k);
    forall x, y, z | InGrid(mask, x, y, z)
      ensures mask[x, y, z] == if Before(BlockOf(n, x), BlockOf(n, y), BlockOf(n, z), a, b, c + 1)
                               then Cell(s, n, x, y, z) else Cell(s, n + 1, x, y, z)
    {
      NextInOrder(BlockOf(n, x), BlockOf(n, y), BlockOf(n, z), a, b, c);
    }
  }

  /** Block (a, b, c + 1) comes right after block (a, b, c) in the visiting order. */
  lemma NextInOrder(p: int, q: int, r: int, a: int, b: int, c: int)
    ensures Before(p, q, r, a, b, c + 1) == (Before(p, q, r, a, b, c) || (p == a && q == b && r == c))
    ensures p == a && q == b && r == c ==> !Before(p, q, r, a, b, c)
  {
  }

  /**
    iterate_voxels (lines 4-23): allocate the zero grid of side 3^levels, run
    the levels levels-1 down to 0, and threshold the mask against cutoff.
    With no levels the loop does not run, so a zero size is harmless there.
    Voxel (x, y, z) of the result is solid exactly when its final value
    Cell(s, 0, x, y, z) is at most cutoff.
  */
  method IterateVoxels(s: Setup, cutoff: real) returns (solid: array3<bool>)
    requires s.size != 0.0 || s.levels == 0
    ensures fresh(solid)
    ensures solid.Length0 == solid.Length1 == solid.Length2 == Pow3(s.levels)
    ensures forall x, y, z {:trigger solid[x, y, z]} :: InGrid(solid, x, y, z) ==>
      solid[x, y, z] == (Cell(s, 0, x, y, z) as real <= cutoff)
  {
    var steps := Pow3(s.levels);
    var resolution := s.size / (steps as real);
    var mask := new int[steps, steps, steps]((x, y, z) => 0);
    for n := s.levels downto 0
      invariant forall x, y, z {:trigger mask[x, y, z]} :: InGrid(mask, x, y, z) ==> mask[x, y, z] == Cell(s, n, x, y, z)
    {
      SweepLevel(s, resolution, mask, n);
    }
    solid := new bool[steps, steps, steps];
    forall x, y, z | 0 <= x < steps && 0 <= y < steps && 0 <= z < steps {
      solid[x, y, z] := mask[x, y, z] as real <= cutoff;
    }
  }
}
