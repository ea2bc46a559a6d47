/**
 The arithmetic by which a matrix is cut into tiles: how many blocks cover an extent,
 which team owns an entry, and how much of a block is left at the ragged edge.
 */
module Tiling {

  function CeilDiv(n: nat, d: nat): nat
    requires d > 0
  {
    (n + d - 1) / d
  }

  lemma DivBounds(x: int, d: int, q: int)
    requires d > 0
    ensures x / d == q <==> q * d <= x < q * d + d
  {
    var r := x / d;
    assert r * d <= x < r * d + d;
    if q * d <= x < q * d + d && q != r {
      if q < r {
        MulMonotone(q + 1, r, d);
      } else {
        MulMonotone(r + 1, q, d);
      }
      assert false;
    }
  }

  lemma MulMonotone(a: int, b: int, d: int)
    requires a <= b && d >= 0
    ensures a * d <= b * d
  {
  }

  /** Blocks ranked below CeilDiv(n, d) start inside [0, n), and every index lies in one. */
  lemma BlockStart(n: nat, d: nat, q: nat)
    requires d > 0
    ensures q < CeilDiv(n, d) <==> q * d < n
  {
    var c := CeilDiv(n, d);
    DivBounds(n + d - 1, d, c);
    if q < c {
      MulMonotone(q, c - 1, d);
    } else {
      MulMonotone(c, q, d);
    }
  }

  /** At the ragged edge the write-back range extent % blockDim is exactly what
      is left of the extent after the offset. */
  lemma ClippedRange(extent: nat, block: nat, q: nat)
    requires block > 0 && q * block < extent
    ensures q * block + block > extent ==> extent % block == extent - q * block
  {
    DivBounds(extent, block, q);
  }

  /** The rank of the team that owns entry (i, j) of C. */
  function TileOf(i: nat, j: nat, blockA0: nat, blockB1: nat, numBlocks1: nat): nat
    requires blockA0 > 0 && blockB1 > 0
  {
    (i / blockA0) * numBlocks1 + j / blockB1
  }

  function RowOffset(rank: nat, numBlocks1: nat, blockA0: nat): nat
    requires numBlocks1 > 0
  {
    (rank / numBlocks1) * blockA0
  }

  function ColOffset(rank: nat, numBlocks1: nat, blockB1: nat): nat
    requires numBlocks1 > 0
  {
    (rank % numBlocks1) * blockB1
  }

  ghost predicate InTile(i: int, j: int, iOff: int, jOff: int, blockA0: int, blockB1: int) {
    iOff <= i < iOff + blockA0 && jOff <= j < jOff + blockB1
  }

  lemma RankSplit(p: nat, q: nat, n: nat, rank: nat)
    requires q < n
    ensures rank == p * n + q <==> rank / n == p && rank % n == q
  {
    DivBounds(rank, n, p);
  }

  lemma TileRankBound(p: nat, q: nat, m1: nat, n1: nat)
    requires p < m1 && q < n1
    ensures p * n1 + q < m1 * n1
  {
    MulMonotone(p + 1, m1, n1);
  }

  /** The league covers C exactly once: each entry lies in the tile of one team only,
      and that team is in the league. */
  lemma TilesPartitionC(m: nat, n: nat, blockA0: nat, blockB1: nat, i: nat, j: nat, rank: nat)
    requires blockA0 > 0 && blockB1 > 0
    requires i < m && j < n
    ensures CeilDiv(n, blockB1) > 0
    ensures 0 <= TileOf(i, j, blockA0, blockB1, CeilDiv(n, blockB1)) < CeilDiv(m, blockA0) * CeilDiv(n, blockB1)
    ensures InTile(i, j, RowOffset(rank, CeilDiv(n, blockB1), blockA0),
                   ColOffset(rank, CeilDiv(n, blockB1), blockB1), blockA0, blockB1)
            <==> rank == TileOf(i, j, blockA0, blockB1, CeilDiv(n, blockB1))
  {
    var p, q := i / blockA0, j / blockB1;
    assert p < CeilDiv(m, blockA0) by { DivBounds(i, blockA0, p); BlockStart(m, blockA0, p); }
    assert q < CeilDiv(n, blockB1) by { DivBounds(j, blockB1, q); BlockStart(n, blockB1, q); }
    TileRankBound(p, q, CeilDiv(m, blockA0), CeilDiv(n, blockB1));
    RankSplit(p, q, CeilDiv(n, blockB1), rank);
    DivBounds(i, blockA0, rank / CeilDiv(n, blockB1));
    DivBounds(j, blockB1, rank % CeilDiv(n, blockB1));
  }

  /** The column that work item b computes in column group m. */
  function SplitColumn(blockB1: nat, b: int, m: int): int {
    b + m * blockB1 / 4
  }

  ghost predicate InSplit(blockB1: nat, c: int) {
    exists b, m :: 0 <= b < blockB1 / 4 && 0 <= m < 4 && c == SplitColumn(blockB1, b, m)
  }

  /** The four-way split reaches every column of the block exactly when the block
      width is divisible by four; otherwise the last column is never computed. */
  lemma ColumnSplitCovers(blockB1: nat)
    ensures blockB1 % 4 == 0 <==> forall c :: 0 <= c < blockB1 ==> InSplit(blockB1, c)
  {
    var q := blockB1 / 4;
    if blockB1 % 4 == 0 {
      forall c | 0 <= c < blockB1
        ensures InSplit(blockB1, c)
      {
        var m := if c < q then 0 else if c < 2 * q then 1 else if c < 3 * q then 2 else 3;
        assert c == SplitColumn(blockB1, c - m * q, m);
      }
    } else {
      assert !InSplit(blockB1, blockB1 - 1);
    }
  }

  /** A team's tile starts inside C. */
  lemma TeamInLeague(rank: nat, m: nat, n: nat, blockA0: nat, blockB1: nat)
    requires blockA0 > 0 && blockB1 > 0
    requires rank < CeilDiv(m, blockA0) * CeilDiv(n, blockB1)
    ensures CeilDiv(n, blockB1) > 0
    ensures RowOffset(rank, CeilDiv(n, blockB1), blockA0) < m
    ensures ColOffset(rank, CeilDiv(n, blockB1), blockB1) < n
  {
    var m1, n1 := CeilDiv(m, blockA0), CeilDiv(n, blockB1);
    var p := rank / n1;
    DivBounds(rank, n1, p);
    if p >= m1 {
      MulMonotone(m1, p, n1);
      assert false;
    }
    BlockStart(m, blockA0, p);
    BlockStart(n, blockB1, rank % n1);
  }
}
