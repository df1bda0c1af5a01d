/**
  Per-axis arithmetic of the adaptive voxelizer in fractal_printer/__init__.py.

  The grid has side steps = 3^levels. At level n the voxelizer works with
  blocks of side stride = 3^n, centred on the voxels span, span + stride, ...
  where span = (stride - 1) // 2. Everything here is about one axis; a block of
  the 3-D grid is the product of three such intervals.

  Block indices and block starts are defined level by level (divide by 3,
  multiply by 3), so that clients of this module reason with linear
  arithmetic only; the lemmas BlockOfIsQuotient and ScaleIsProduct connect
  them with x / 3^n and a * 3^n.
*/
module VoxelBlocks {

  /** 3^n: the stride of level n, that is the side of one of its blocks. */
  function Pow3(n: nat): (p: nat)
    ensures p >= 1 && p % 2 == 1
  {
    if n == 0 then 1 else 3 * Pow3(n - 1)
  }

  /** (3^n - 1) // 2: how far a level-n block reaches on each side of its centre. */
  function Span(n: nat): (h: nat)
    ensures 2 * h + 1 == Pow3(n)
  {
    (Pow3(n) - 1) / 2
  }

  /** Index, along one axis, of the level-n block that holds voxel x: three level-(n-1) blocks make one. */
  function BlockOf(n: nat, x: int): int
  {
    if n == 0 then x else BlockOf(n - 1, x) / 3
  }

  /** a * 3^n: the first voxel of block a of level n. */
  function Scale(n: nat, a: int): int
  {
    if n == 0 then a else 3 * Scale(n - 1, a)
  }

  /** Centre voxel of the level-n block that holds voxel x; x lies within span of it. */
  function Centre(n: nat, x: int): (c: int)
    ensures c - Span(n) <= x <= c + Span(n)
  {
    BlockBounds(n, x);
    Scale(n, BlockOf(n, x)) + Span(n)
  }

  /** c is one of the centres range(span, steps - span, stride) visits at level n of a grid of side 3^levels. */
  predicate IsCentre(levels: nat, n: nat, c: int)
  {
    Span(n) <= c < Pow3(levels) - Span(n) && Centre(n, c) == c
  }

  /** x lies in the slice c - span : c + span + 1 of the block centred on c. */
  predicate InBlock(n: nat, c: int, x: int)
  {
    c - Span(n) <= x <= c + Span(n)
  }

  lemma MulAtLeast(k: int, s: int)
    requires k >= 1 && s > 0
    ensures k * s >= s
  {
    assert k * s == (k - 1) * s + s;
    assert (k - 1) * s >= 0;
  }

  lemma MulAtMost(k: int, m: int, s: int)
    requires 0 <= k <= m && s >= 0
    ensures 0 <= k * s <= m * s
  {
    assert m * s == k * s + (m - k) * s;
    assert (m - k) * s >= 0;
  }

  /** Quotient and remainder are determined by any decomposition x = q*s + t with 0 <= t < s. */
  lemma DivUnique(x: int, s: int, q: int, t: int)
    requires s > 0 && x == q * s + t && 0 <= t < s
    ensures x / s == q && x % s == t
  {
    var q', t' := x / s, x % s;
    assert x == q' * s + t';
    if q' > q {
      assert (q' - q) * s >= s by { MulAtLeast(q' - q, s); }
      assert false;
    } else if q' < q {
      assert (q - q') * s >= s by { MulAtLeast(q - q', s); }
      assert false;
    }
  }

  /** Dividing by s and then by 3 is dividing by 3s. */
  lemma DivDiv3(x: int, s: int)
    requires s > 0
    ensures x / (3 * s) == (x / s) / 3
  {
    var b := x / s;
    var q := b / 3;
    assert x == b * s + x % s;
    assert b == q * 3 + b % 3;
    assert x == q * (3 * s) + ((b % 3) * s + x % s) by {
      assert b * s == q * (3 * s) + (b % 3) * s;
    }
    assert (b % 3) * s <= 2 * s by { MulAtMost(b % 3, 2, s); }
    DivUnique(x, 3 * s, q, (b % 3) * s + x % s);
  }

  /** The block index of level n is the quotient x / 3^n. */
  lemma {:induction false} BlockOfIsQuotient(n: nat, x: int)
    ensures BlockOf(n, x) == x / Pow3(n)
  {
    if n > 0 {
      BlockOfIsQuotient(n - 1, x);
      DivDiv3(x, Pow3(n - 1));
    }
  }

  /** Scale(n, a) is the product a * 3^n. */
  lemma {:induction false} ScaleIsProduct(n: nat, a: int)
    ensures Scale(n, a) == a * Pow3(n)
  {
    if n > 0 {
      ScaleIsProduct(n - 1, a);
    }
  }

  /** The start of the next block is one stride further on. */
  lemma ScaleStep(n: nat, a: int)
    ensures Scale(n, a + 1) == Scale(n, a) + Pow3(n)
  {
    ScaleIsProduct(n, a);
    ScaleIsProduct(n, a + 1);
  }

  /** Voxel x lies in block BlockOf(n, x), whose first voxel is Scale(n, BlockOf(n, x)). */
  lemma BlockBounds(n: nat, x: int)
    ensures Scale(n, BlockOf(n, x)) <= x < Scale(n, BlockOf(n, x)) + Pow3(n)
  {
    BlockOfIsQuotient(n, x);
    ScaleIsProduct(n, BlockOf(n, x));
    assert x == (x / Pow3(n)) * Pow3(n) + x % Pow3(n);
  }

  /** A voxel is in the block centred on the centre of block a exactly when its block index is a. */
  lemma InBlockIffBlockOf(n: nat, a: int, x: int)
    ensures InBlock(n, Scale(n, a) + Span(n), x) <==> BlockOf(n, x) == a
  {
    var s := Pow3(n);
    BlockOfIsQuotient(n, x);
    ScaleIsProduct(n, a);
    if InBlock(n, Scale(n, a) + Span(n), x) {
      DivUnique(x, s, a, x - a * s);
    }
    BlockBounds(n, x);
  }

  /** The centre of a voxel's level-n block lies in the same level n+1 block as the voxel. */
  lemma CentreNests(n: nat, x: int)
    ensures BlockOf(n + 1, Centre(n, x)) == BlockOf(n + 1, x)
  {
    InBlockIffBlockOf(n, BlockOf(n, x), Centre(n, x));
  }

  /** A voxel within span of a visited centre belongs to that centre's block. */
  lemma CentreUnique(n: nat, c: int, x: int)
    requires Centre(n, c) == c && InBlock(n, c, x)
    ensures Centre(n, x) == c
  {
    InBlockIffBlockOf(n, BlockOf(n, c), x);
  }

  /** The voxels of the grid fall into blocks 0 .. 3^(levels-n) - 1 at level n. */
  lemma BlockBound(levels: nat, n: nat, x: int)
    requires n <= levels && 0 <= x < Pow3(levels)
    ensures 0 <= BlockOf(n, x) < Pow3(levels - n)
  {
    Pow3Split(n, levels);
    BlockOfIsQuotient(n, x);
    QuotientBound(x, Pow3(n), Pow3(levels - n));
  }

  lemma QuotientBound(x: int, s: int, m: int)
    requires s > 0 && 0 <= x < m * s
    ensures 0 <= x / s < m
  {
    var b, t := x / s, x % s;
    assert x == b * s + t && 0 <= t < s;
    if b >= m {
      MulAtMost(m, b, s);
      assert false;
    }
  }

  /** The stride of a finer level divides the side of the grid. */
  lemma {:induction false} Pow3Split(n: nat, levels: nat)
    requires n <= levels
    ensures Pow3(levels) == Pow3(n) * Pow3(levels - n)
    decreases levels
  {
    if levels > n {
      Pow3Split(n, levels - 1);
      TripleFactor(Pow3(n), Pow3(levels - 1 - n));
    }
  }

  lemma TripleFactor(p: int, q: int)
    ensures 3 * (p * q) == p * (3 * q)
  {
  }

  /** The centre of block a is below steps - span, i.e. visited, exactly when a < 3^(levels-n). */
  lemma CentreBound(levels: nat, n: nat, a: int)
    requires n <= levels && 0 <= a
    ensures Scale(n, a) + Span(n) < Pow3(levels) - Span(n) <==> a < Pow3(levels - n)
  {
    var s, m, h := Pow3(n), Pow3(levels - n), Span(n);
    Pow3Split(n, levels);
    assert Pow3(levels) == s * m;
    ScaleIsProduct(n, a);
    assert Scale(n, a) == a * s;
    StrideBound(a, s, m, h);
  }

  lemma StrideBound(a: int, s: int, m: int, h: int)
    requires s == 2 * h + 1 && 0 <= h && 0 <= a && 0 <= m
    ensures a * s + h < s * m - h <==> a < m
  {
    assert s * m == m * s;
    assert (a + 1) * s == a * s + s;
    if a < m {
      MulAtMost(a + 1, m, s);
    } else {
      MulAtMost(m, a, s);
    }
  }

  /** The centre of block a of level n, for a in 0 .. 3^(levels-n) - 1, is visited and lies in block a. */
  lemma CentreOfBlock(levels: nat, n: nat, a: int)
    requires n <= levels && 0 <= a < Pow3(levels - n)
    ensures IsCentre(levels, n, Scale(n, a) + Span(n))
    ensures BlockOf(n, Scale(n, a) + Span(n)) == a
  {
    ScaleIsProduct(n, a);
    MulAtMost(0, a, Pow3(n));
    CentreBound(levels, n, a);
    InBlockIffBlockOf(n, a, Scale(n, a) + Span(n));
  }

  /**
    Tiling: at every level n < levels, the block of any voxel of the grid is
    centred on a visited centre, and on no other one.
  */
  lemma CentreIsVisited(levels: nat, n: nat, x: int)
    requires n < levels && 0 <= x < Pow3(levels)
    ensures IsCentre(levels, n, Centre(n, x))
    ensures forall c :: IsCentre(levels, n, c) && InBlock(n, c, x) ==> c == Centre(n, x)
  {
    BlockBound(levels, n, x);
    CentreOfBlock(levels, n, BlockOf(n, x));
    forall c | IsCentre(levels, n, c) && InBlock(n, c, x)
      ensures c == Centre(n, x)
    {
      CentreUnique(n, c, x);
    }
  }

  /** The blocks of one level are pairwise disjoint. */
  lemma BlocksDisjoint(levels: nat, n: nat, c1: int, c2: int, x: int)
    requires IsCentre(levels, n, c1) && IsCentre(levels, n, c2)
    requires InBlock(n, c1, x) && InBlock(n, c2, x)
    ensures c1 == c2
  {
    CentreUnique(n, c1, x);
    CentreUnique(n, c2, x);
  }

  /** IsCentre is membership of range(span, steps - span, stride). */
  lemma IsCentreIsRangeMember(levels: nat, n: nat, c: int)
    ensures IsCentre(levels, n, c) <==>
      Span(n) <= c < Pow3(levels) - Span(n) && (c - Span(n)) % Pow3(n) == 0
  {
    CentreIffAligned(n, c);
  }

  /** c is the centre of its own block exactly when c - span is a multiple of the stride. */
  lemma CentreIffAligned(n: nat, c: int)
    ensures Centre(n, c) == c <==> (c - Span(n)) % Pow3(n) == 0
  {
    if Centre(n, c) == c {
      CentreIsAligned(n, c);
    }
    if (c - Span(n)) % Pow3(n) == 0 {
      AlignedIsCentre(n, c);
    }
  }

  lemma CentreIsAligned(n: nat, c: int)
    requires Centre(n, c) == c
    ensures (c - Span(n)) % Pow3(n) == 0
  {
    var s, b := Pow3(n), BlockOf(n, c);
    ScaleIsProduct(n, b);
    DivUnique(c - Span(n), s, b, 0);
  }

  lemma AlignedIsCentre(n: nat, c: int)
    requires (c - Span(n)) % Pow3(n) == 0
    ensures Centre(n, c) == c
  {
    var s := Pow3(n);
    var a := (c - Span(n)) / s;
    MultipleOfStride(c - Span(n), s);
    ScaleIsProduct(n, a);
    InBlockIffBlockOf(n, a, c);
  }

  lemma MultipleOfStride(x: int, s: int)
    requires s > 0 && x % s == 0
    ensures x == (x / s) * s
  {
  }
}
