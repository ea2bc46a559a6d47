/**
 The tiled GEMM kernel: every team owns one blockA0 by blockB1 tile of C, stages
 zero-padded blocks of op(A) and op(B) in scratch, accumulates their product and
 writes the clipped tile back. A parallel_for is a loop that may take its
 remaining work items in any order.
 */
module TiledGemm {
  import opened Scalars
  import opened Sums
  import opened Matrices
  import opened Tiling

  // ------------------------------------------------------------------
  // impl_deep_copy_matrix_block
  // ------------------------------------------------------------------

  /** Fills a scratch block with op(a) starting at (offI, offJ), padding with zeros. */
  method DeepCopyBlock(scr: array2<Complex>, op: Op, a: Matrix, offI: nat, offJ: nat)
    modifies scr
    ensures forall i, j :: 0 <= i < scr.Length0 && 0 <= j < scr.Length1 ==>
              scr[i, j] == Padded(op, a, offI + i, offJ + j)
  {
    var todo := Pairs(scr.Length0, scr.Length1);
    if offI + scr.Length0 <= OpRows(op, a) && offJ + scr.Length1 <= OpCols(op, a) {
      while todo != {}
        invariant todo <= Pairs(scr.Length0, scr.Length1)
        invariant forall i, j :: 0 <= i < scr.Length0 && 0 <= j < scr.Length1 && (i, j) !in todo ==>
                    scr[i, j] == Padded(op, a, offI + i, offJ + j)
        decreases todo
      {
        var item :| item in todo;
        var (i, j) := item;
        scr[i, j] := OpAt(op, a, offI + i, offJ + j);
        todo := todo - {item};
      }
    } else {
      while todo != {}
        invariant todo <= Pairs(scr.Length0, scr.Length1)
        invariant forall i, j :: 0 <= i < scr.Length0 && 0 <= j < scr.Length1 && (i, j) !in todo ==>
                    scr[i, j] == Padded(op, a, offI + i, offJ + j)
        decreases todo
      {
        var item :| item in todo;
        var (i, j) := item;
        scr[i, j] := if offI + i < OpRows(op, a) && offJ + j < OpCols(op, a)
                     then OpAt(op, a, offI + i, offJ + j) else Zero;
        todo := todo - {item};
      }
    }
  }

  // ------------------------------------------------------------------
  // impl_team_gemm_block
  // ------------------------------------------------------------------

  /** The inner product of row i of one scratch block with column c of another. */
  ghost function ScratchDot(a: array2<Complex>, b: array2<Complex>, i: int, c: int, n: int): Complex
    requires 0 <= i < a.Length0 && 0 <= c < b.Length1
    requires 0 <= n <= a.Length1 && n <= b.Length0
    reads a, b
    decreases n
  {
    if n == 0 then Zero else Add(ScratchDot(a, b, i, c, n - 1), Mul(a[i, n - 1], b[n - 1, c]))
  }

  /** The four accumulators of one work item. */
  method FourDots(a: array2<Complex>, b: array2<Complex>, i: int, bj: int)
    returns (c0: Complex, c1: Complex, c2: Complex, c3: Complex)
    requires 0 <= i < a.Length0 && a.Length1 == b.Length0
    requires b.Length1 % 4 == 0 && 0 <= bj < b.Length1 / 4
    ensures c0 == ScratchDot(a, b, i, bj, a.Length1)
    ensures c1 == ScratchDot(a, b, i, bj + b.Length1 / 4, a.Length1)
    ensures c2 == ScratchDot(a, b, i, bj + 2 * b.Length1 / 4, a.Length1)
    ensures c3 == ScratchDot(a, b, i, bj + 3 * b.Length1 / 4, a.Length1)
  {
    hide Mul;
    var blockB1 := b.Length1;
    c0, c1, c2, c3 := Zero, Zero, Zero, Zero;
    for j := 0 to a.Length1
      invariant c0 == ScratchDot(a, b, i, bj, j)
      invariant c1 == ScratchDot(a, b, i, bj + blockB1 / 4, j)
      invariant c2 == ScratchDot(a, b, i, bj + 2 * blockB1 / 4, j)
      invariant c3 == ScratchDot(a, b, i, bj + 3 * blockB1 / 4, j)
    {
      var aij := a[i, j];
      c0 := Add(c0, Mul(aij, b[j, bj]));
      c1 := Add(c1, Mul(aij, b[j, bj + blockB1 / 4]));
      c2 := Add(c2, Mul(aij, b[j, bj + 2 * blockB1 / 4]));
      c3 := Add(c3, Mul(aij, b[j, bj + 3 * blockB1 / 4]));
    }
  }

  /** The work item that computes column j when each quarter is q columns wide. */
  function Lane(q: int, j: int): int {
    if j < q then j else if j < 2 * q then j - q else if j < 3 * q then j - 2 * q else j - 3 * q
  }

  ghost predicate BlocksFit(c: array2<Complex>, a: array2<Complex>, b: array2<Complex>) {
    && c != a && c != b
    && c.Length0 == a.Length0 && a.Length1 == b.Length0 && b.Length1 == c.Length1
    && b.Length1 % 4 == 0
  }

  /** Work item (i, bj): the same position in each quarter of the columns. */
  method AccumulateItem(c: array2<Complex>, a: array2<Complex>, b: array2<Complex>, i: int, bj: int)
    requires BlocksFit(c, a, b)
    requires 0 <= i < a.Length0 && 0 <= bj < b.Length1 / 4
    modifies c
    ensures forall k, j :: 0 <= k < c.Length0 && 0 <= j < c.Length1 ==>
              c[k, j] == if k == i && Lane(b.Length1 / 4, j) == bj
                         then Add(old(c[k, j]), ScratchDot(a, b, k, j, a.Length1))
                         else old(c[k, j])
  {
    hide Add, ScratchDot;
    var blockB1 := b.Length1;
    var c0, c1, c2, c3 := FourDots(a, b, i, bj);
    c[i, bj] := Add(c[i, bj], c0);
    c[i, bj + blockB1 / 4] := Add(c[i, bj + blockB1 / 4], c1);
    c[i, bj + 2 * blockB1 / 4] := Add(c[i, bj + 2 * blockB1 / 4], c2);
    c[i, bj + 3 * blockB1 / 4] := Add(c[i, bj + 3 * blockB1 / 4], c3);
  }

  /** Adds the product of the two staged blocks to the accumulator block. */
  method TeamGemmBlock(c: array2<Complex>, a: array2<Complex>, b: array2<Complex>)
    requires BlocksFit(c, a, b)
    modifies c
    ensures forall i, j :: 0 <= i < c.Length0 && 0 <= j < c.Length1 ==>
              c[i, j] == Add(old(c[i, j]), ScratchDot(a, b, i, j, a.Length1))
  {
    hide Mul;
    var todo := Pairs(a.Length0, b.Length1 / 4);
    while todo != {}
      invariant todo <= Pairs(a.Length0, b.Length1 / 4)
      invariant forall i, j :: 0 <= i < c.Length0 && 0 <= j < c.Length1 ==>
                  c[i, j] == if (i, Lane(b.Length1 / 4, j)) in todo then old(c[i, j])
                             else Add(old(c[i, j]), ScratchDot(a, b, i, j, a.Length1))
      decreases todo
    {
      var item :| item in todo;
      AccumulateItem(c, a, b, item.0, item.1);
      todo := todo - {item};
    }
  }

  // ------------------------------------------------------------------
  // impl_update_matrix_block
  // ------------------------------------------------------------------

  /** C(i, j) = beta * C(i, j) + alpha * scratch; a zero beta does not read C. */
  function WriteBack(beta: Complex, c: Complex, alpha: Complex, s: Complex): (r: Complex)
    ensures r == Update(beta, c, alpha, s)
  {
    if beta == Zero then
      MulUnits(c);
      Mul(alpha, s)
    else
      Add(Mul(beta, c), Mul(alpha, s))
  }

  /** Writes the tile at block position (p, q) back, clipped to the extents of C. */
  method UpdateBlock(beta: Complex, c: array2<Complex>, alpha: Complex, scr: array2<Complex>, offI: nat, offJ: nat,
                     ghost p: nat, ghost q: nat)
    requires c != scr && scr.Length0 > 0 && scr.Length1 > 0
    requires offI == p * scr.Length0 < c.Length0 && offJ == q * scr.Length1 < c.Length1
    modifies c
    ensures forall i, j :: 0 <= i < c.Length0 && 0 <= j < c.Length1 ==>
              c[i, j] == if InTile(i, j, offI, offJ, scr.Length0, scr.Length1)
                         then Update(beta, old(c[i, j]), alpha, scr[i - offI, j - offJ])
                         else old(c[i, j])
  {
    hide Mul;
    var rangeI, rangeJ := scr.Length0, scr.Length1;
    if !(offI + scr.Length0 <= c.Length0 && offJ + scr.Length1 <= c.Length1) {
      rangeI := if offI + scr.Length0 <= c.Length0 then scr.Length0 else c.Length0 % scr.Length0;
      rangeJ := if offJ + scr.Length1 <= c.Length1 then scr.Length1 else c.Length1 % scr.Length1;
    }
    ClippedRange(c.Length0, scr.Length0, p);
    ClippedRange(c.Length1, scr.Length1, q);
    var todo := Pairs(rangeI, rangeJ);
    while todo != {}
      invariant todo <= Pairs(rangeI, rangeJ)
      invariant forall i, j :: 0 <= i < c.Length0 && 0 <= j < c.Length1 ==>
                  c[i, j] == if InTile(i, j, offI, offJ, scr.Length0, scr.Length1) && (i - offI, j - offJ) !in todo
                             then Update(beta, old(c[i, j]), alpha, scr[i - offI, j - offJ])
                             else old(c[i, j])
      decreases todo
    {
      var item :| item in todo;
      var (i, j) := item;
      c[offI + i, offJ + j] := WriteBack(beta, c[offI + i, offJ + j], alpha, scr[i, j]);
      todo := todo - {item};
    }
  }

  // ------------------------------------------------------------------
  // GEMMImpl
  // ------------------------------------------------------------------

  /** The product of two staged blocks is the matching slice of the inner dimension. */
  lemma {:induction false} StagedDot(a: array2<Complex>, b: array2<Complex>, opA: Op, ma: Matrix, opB: Op, mb: Matrix,
                                     iOff: nat, jOff: nat, kOff: nat, i: int, j: int, n: nat)
    requires 0 <= i < a.Length0 && 0 <= j < b.Length1 && n <= a.Length1 && n <= b.Length0
    requires forall k :: 0 <= k < n ==> a[i, k] == Padded(opA, ma, iOff + i, kOff + k)
    requires forall k :: 0 <= k < n ==> b[k, j] == Padded(opB, mb, kOff + k, jOff + j)
    ensures ScratchDot(a, b, i, j, n) == Sum(Product(opA, ma, opB, mb, iOff + i, jOff + j), kOff, kOff + n)
  {
    hide Mul;
    if n > 0 {
      StagedDot(a, b, opA, ma, opB, mb, iOff, jOff, kOff, i, j, n - 1);
    }
  }

  lemma FullInnerExtent(cScr: array2<Complex>, opA: Op, a: Matrix, opB: Op, b: Matrix, iOff: nat, jOff: nat, k: int)
    requires Conformable(opA, a, opB, b) && OpCols(opA, a) <= k
    requires forall i, j :: 0 <= i < cScr.Length0 && 0 <= j < cScr.Length1 ==>
               cScr[i, j] == Sum(Product(opA, a, opB, b, iOff + i, jOff + j), 0, k)
    ensures forall i, j :: 0 <= i < cScr.Length0 && 0 <= j < cScr.Length1 ==>
              cScr[i, j] == MatMul(opA, a, opB, b, iOff + i, jOff + j)
  {
    hide Mul;
    forall i, j | 0 <= i < cScr.Length0 && 0 <= j < cScr.Length1
      ensures cScr[i, j] == MatMul(opA, a, opB, b, iOff + i, jOff + j)
    {
      PaddingAddsNothing(opA, a, opB, b, iOff + i, jOff + j, k);
    }
  }

  ghost predicate GemmShapes(opA: Op, a: Matrix, opB: Op, b: Matrix, c: array2<Complex>) {
    Conformable(opA, a, opB, b) && c.Length0 == OpRows(opA, a) && c.Length1 == OpCols(opB, b)
  }

  /** Adds one block of the inner dimension, starting at kOff, to the accumulator block. */
  method AccumulateBlock(cScr: array2<Complex>, aScr: array2<Complex>, bScr: array2<Complex>,
                         opA: Op, a: Matrix, opB: Op, b: Matrix, iOff: nat, jOff: nat, kOff: nat)
    requires BlocksFit(cScr, aScr, bScr) && aScr != bScr
    requires forall i, j :: 0 <= i < cScr.Length0 && 0 <= j < cScr.Length1 ==>
               cScr[i, j] == Sum(Product(opA, a, opB, b, iOff + i, jOff + j), 0, kOff)
    modifies cScr, aScr, bScr
    ensures forall i, j :: 0 <= i < cScr.Length0 && 0 <= j < cScr.Length1 ==>
              cScr[i, j] == Sum(Product(opA, a, opB, b, iOff + i, jOff + j), 0, kOff + aScr.Length1)
  {
    hide Sum, Add, ScratchDot, Padded;
    DeepCopyBlock(aScr, opA, a, iOff, kOff);
    DeepCopyBlock(bScr, opB, b, kOff, jOff);
    // team_barrier
    TeamGemmBlock(cScr, aScr, bScr);
    // team_barrier
    forall i, j | 0 <= i < cScr.Length0 && 0 <= j < cScr.Length1
      ensures cScr[i, j] == Sum(Product(opA, a, opB, b, iOff + i, jOff + j), 0, kOff + aScr.Length1)
    {
      StagedDot(aScr, bScr, opA, a, opB, b, iOff, jOff, kOff, i, j, aScr.Length1);
      SumSplit(Product(opA, a, opB, b, iOff + i, jOff + j), 0, kOff, kOff + aScr.Length1);
    }
  }

  method ZeroBlock(scr: array2<Complex>)
    modifies scr
    ensures forall i, j :: 0 <= i < scr.Length0 && 0 <= j < scr.Length1 ==> scr[i, j] == Zero
  {
    var todo := Pairs(scr.Length0, scr.Length1);
    while todo != {}
      invariant todo <= Pairs(scr.Length0, scr.Length1)
      invariant forall i, j :: 0 <= i < scr.Length0 && 0 <= j < scr.Length1 && (i, j) !in todo ==> scr[i, j] == Zero
      decreases todo
    {
      var item :| item in todo;
      scr[item.0, item.1] := Zero;
      todo := todo - {item};
    }
  }

  /** The loop over the inner dimension: the accumulator block ends up holding the
      product entries of the tile at (iOff, jOff). */
  method ComputeTile(cScr: array2<Complex>, opA: Op, a: Matrix, opB: Op, b: Matrix, iOff: nat, jOff: nat, blockA1: nat)
    requires blockA1 > 0 && cScr.Length1 % 4 == 0
    requires Conformable(opA, a, opB, b)
    modifies cScr
    ensures forall i, j :: 0 <= i < cScr.Length0 && 0 <= j < cScr.Length1 ==>
              cScr[i, j] == MatMul(opA, a, opB, b, iOff + i, jOff + j)
  {
    hide Mul;
    var aScr := new Complex[cScr.Length0, blockA1];
    var bScr := new Complex[blockA1, cScr.Length1];
    ZeroBlock(cScr);
    // team_barrier
    var length := OpCols(opA, a);
    var aj := 0;
    while aj < length
      invariant 0 <= aj
      invariant forall i, j :: 0 <= i < cScr.Length0 && 0 <= j < cScr.Length1 ==>
                  cScr[i, j] == Sum(Product(opA, a, opB, b, iOff + i, jOff + j), 0, aj)
      decreases length - aj
    {
      AccumulateBlock(cScr, aScr, bScr, opA, a, opB, b, iOff, jOff, aj);
      aj := aj + blockA1;
    }
    FullInnerExtent(cScr, opA, a, opB, b, iOff, jOff, aj);
  }

  /** One team: it replaces its tile of C by the GEMM result and touches nothing else. */
  method TeamKernel(rank: nat, alpha: Complex, opA: Op, a: Matrix, opB: Op, b: Matrix, beta: Complex,
                    c: array2<Complex>,
                    blockA0: nat, blockA1: nat, blockB1: nat)
    requires blockA0 > 0 && blockA1 > 0 && blockB1 > 0 && blockB1 % 4 == 0
    requires GemmShapes(opA, a, opB, b, c)
    requires rank < CeilDiv(c.Length0, blockA0) * CeilDiv(c.Length1, blockB1)
    modifies c
    ensures forall i, j :: 0 <= i < c.Length0 && 0 <= j < c.Length1 ==>
              c[i, j] == if rank == TileOf(i, j, blockA0, blockB1, CeilDiv(c.Length1, blockB1))
                         then GemmEntry(alpha, opA, a, opB, b, beta, old(c[i, j]), i, j)
                         else old(c[i, j])
  {
    hide Mul;
    var numBlocks := CeilDiv(c.Length1, blockB1);
    TeamInLeague(rank, c.Length0, c.Length1, blockA0, blockB1);
    var iOff := RowOffset(rank, numBlocks, blockA0);
    var jOff := ColOffset(rank, numBlocks, blockB1);
    var cScr := new Complex[blockA0, blockB1];
    ComputeTile(cScr, opA, a, opB, b, iOff, jOff, blockA1);
    UpdateBlock(beta, c, alpha, cScr, iOff, jOff, rank / numBlocks, rank % numBlocks);
    forall i, j | 0 <= i < c.Length0 && 0 <= j < c.Length1
      ensures InTile(i, j, iOff, jOff, blockA0, blockB1) <==> rank == TileOf(i, j, blockA0, blockB1, numBlocks)
    {
      TilesPartitionC(c.Length0, c.Length1, blockA0, blockB1, i, j, rank);
    }
  }

  /** The whole league, its teams in any order: every entry of C becomes the
      corresponding entry of beta * C + alpha * op(A) * op(B). */
  method Run(alpha: Complex, opA: Op, a: Matrix, opB: Op, b: Matrix, beta: Complex, c: array2<Complex>,
             blockA0: nat, blockA1: nat, blockB1: nat)
    requires blockA0 > 0 && blockA1 > 0 && blockB1 > 0 && blockB1 % 4 == 0
    requires GemmShapes(opA, a, opB, b, c)
    modifies c
    ensures forall i, j :: 0 <= i < c.Length0 && 0 <= j < c.Length1 ==>
              c[i, j] == GemmEntry(alpha, opA, a, opB, b, beta, old(c[i, j]), i, j)
  {
    hide Mul, TileOf, CeilDiv;
    var numBlocks0 := CeilDiv(c.Length0, blockA0);
    var numBlocks1 := CeilDiv(c.Length1, blockB1);
    var todo := Ranks(numBlocks0 * numBlocks1);
    forall i, j | 0 <= i < c.Length0 && 0 <= j < c.Length1
      ensures TileOf(i, j, blockA0, blockB1, numBlocks1) in todo
    {
      TilesPartitionC(c.Length0, c.Length1, blockA0, blockB1, i, j, 0);
    }
    while todo != {}
      invariant todo <= Ranks(numBlocks0 * numBlocks1)
      invariant forall i, j :: 0 <= i < c.Length0 && 0 <= j < c.Length1 ==>
                  c[i, j] == if TileOf(i, j, blockA0, blockB1, numBlocks1) in todo then old(c[i, j])
                             else GemmEntry(alpha, opA, a, opB, b, beta, old(c[i, j]), i, j)
      decreases todo
    {
      var rank :| rank in todo;
      TeamKernel(rank, alpha, opA, a, opB, b, beta, c, blockA0, blockA1, blockB1);
      todo := todo - {rank};
    }
  }
}
