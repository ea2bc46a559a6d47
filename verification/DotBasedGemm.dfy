/**
 GEMM as one dot product per entry of C, for C = beta * C + alpha * op(A) * B with op(A)
 the transpose or the conjugate transpose of A. Several teams share a dot product; they
 add their partial results to C atomically, in any order.
 */
module DotBasedGemm {
  import opened Scalars
  import opened Sums
  import opened Matrices
  import opened Tiling
  import opened SlicedReduction

  /** The k-th term a team accumulates for entry (row, col). */
  function DotTerm(alpha: Complex, op: Op, a: Matrix, b: Matrix, row: int, col: int): int -> Complex {
    k => Mul(Mul(alpha, Padded(op, a, row, k)), Padded(NoTrans, b, k, col))
  }

  ghost function Dot(alpha: Complex, op: Op, a: Matrix, b: Matrix, row: int, col: int): Complex {
    Sum(DotTerm(alpha, op, a, b, row, col), 0, a.rows)
  }

  lemma DotIsScaledProduct(alpha: Complex, op: Op, a: Matrix, b: Matrix, row: int, col: int)
    requires !op.NoTrans? && a.rows == b.rows
    ensures Dot(alpha, op, a, b, row, col) == Mul(alpha, MatMul(op, a, NoTrans, b, row, col))
  {
    hide Mul, Padded;
    var f, g := Product(op, a, NoTrans, b, row, col), DotTerm(alpha, op, a, b, row, col);
    forall k | 0 <= k < a.rows
      ensures g(k) == Mul(alpha, f(k))
    {
      MulAssoc(alpha, Padded(op, a, row, k), Padded(NoTrans, b, k, col));
    }
    SumScale(alpha, f, g, 0, a.rows);
  }

  /** TagZero and TagInit: C becomes beta * C before any team runs. */
  method InitC(beta: Complex, c: array2<Complex>)
    modifies c
    ensures forall i, j :: 0 <= i < c.Length0 && 0 <= j < c.Length1 ==> c[i, j] == Mul(beta, old(c[i, j]))
  {
    hide Mul;
    if beta == Zero {
      var todo := Pairs(c.Length0, c.Length1);
      while todo != {}
        invariant todo <= Pairs(c.Length0, c.Length1)
        invariant forall i, j :: 0 <= i < c.Length0 && 0 <= j < c.Length1 && (i, j) !in todo ==> c[i, j] == Zero
        decreases todo
      {
        var item :| item in todo;
        c[item.0, item.1] := Zero;
        todo := todo - {item};
      }
    } else if beta != One {
      var todo := Pairs(c.Length0, c.Length1);
      while todo != {}
        invariant todo <= Pairs(c.Length0, c.Length1)
        invariant forall i, j :: 0 <= i < c.Length0 && 0 <= j < c.Length1 ==>
                    c[i, j] == if (i, j) in todo then old(c[i, j]) else Mul(beta, old(c[i, j]))
        decreases todo
      {
        var item :| item in todo;
        c[item.0, item.1] := Mul(beta, c[item.0, item.1]);
        todo := todo - {item};
      }
    }
    forall i, j | 0 <= i < c.Length0 && 0 <= j < c.Length1
      ensures c[i, j] == Mul(beta, old(c[i, j]))
    {
      MulUnits(old(c[i, j]));
    }
  }

  /** A team's parallel_reduce over part of a dot product, along a given reduction tree. */
  method TeamReduce(t: Tree, alpha: Complex, op: Op, a: Matrix, b: Matrix, row: nat, col: nat) returns (result: Complex)
    requires !op.NoTrans? && a.rows == b.rows && row < a.cols && col < b.cols
    requires forall k :: k in Indices(t) ==> 0 <= k < a.rows
    ensures result == Reduce(DotTerm(alpha, op, a, b, row, col), t)
    decreases t
  {
    hide Mul;
    match t
    case Leaf(s) =>
      result := Zero;
      for n := 0 to |s|
        invariant result == Fold(DotTerm(alpha, op, a, b, row, col), s[..n])
      {
        var k := s[n];
        assert k in Indices(t);
        assert s[..n + 1][..n] == s[..n];
        var ak := if op.ConjTrans? then Conj(At(a, k, row)) else At(a, k, row);
        result := Add(result, Mul(Mul(alpha, ak), At(b, k, col)));
      }
      assert s[..|s|] == s;
    case Join(l, r) =>
      assert forall k :: k in Indices(l) ==> k in Indices(t);
      assert forall k :: k in Indices(r) ==> k in Indices(t);
      var x := TeamReduce(l, alpha, op, a, b, row, col);
      var y := TeamReduce(r, alpha, op, a, b, row, col);
      result := Add(x, y);
  }

  ghost predicate DotShapes(a: Matrix, b: Matrix, c: array2<Complex>) {
    a.rows == b.rows && c.Length0 == a.cols && c.Length1 == b.cols
  }

  /** TagMult and TagMultCT up to the atomic add: which entry a team works on, and its slice. */
  method TeamPartial(rank: nat, alpha: Complex, op: Op, a: Matrix, b: Matrix, numCcols: nat, numDivPerDot: nat,
                     reduction: Reduction)
    returns (rowId: nat, colId: nat, result: Complex)
    requires !op.NoTrans? && a.rows == b.rows && numCcols == b.cols && numCcols > 0 && numDivPerDot > 0
    requires rank < a.cols * numCcols * numDivPerDot && Reduces(reduction)
    ensures rowId < a.cols && colId < numCcols
    ensures rank / numDivPerDot == TeamRank(rowId, colId, numCcols)
    ensures result == Slice(DotTerm(alpha, op, a, b, rowId, colId), a.rows, numDivPerDot)(rank % numDivPerDot)
  {
    hide Mul, DotTerm, Slice, Reduce, Indices, Covers, SliceBegin, SliceEnd;
    var localRank := rank % numDivPerDot;
    var i := rank / numDivPerDot;
    RankInLeague(rank, a.cols * numCcols, numDivPerDot);
    RankInLeague(i, a.cols, numCcols);
    rowId := i / numCcols;
    colId := i % numCcols;
    SliceBounds(localRank, a.rows, numDivPerDot);
    var begin := SliceBegin(localRank, a.rows, numDivPerDot);
    var end := SliceEnd(localRank, a.rows, numDivPerDot);
    var t := reduction(rank, begin, end);
    SliceReduction(t, localRank, DotTerm(alpha, op, a, b, rowId, colId), a.rows, numDivPerDot);
    result := TeamReduce(t, alpha, op, a, b, rowId, colId);
  }

  /** C(i, j) plus the slices still pending is beta * C0 + alpha * (op(A) * B)(i, j). */
  ghost predicate Conserved(c: Complex, c0: Complex, alpha: Complex, op: Op, a: Matrix, b: Matrix, beta: Complex,
                            numDivPerDot: nat, numCcols: nat, todo: set<int>, i: int, j: int)
    requires numDivPerDot > 0
  {
    Add(c, Pending(DotTerm(alpha, op, a, b, i, j), a.rows, numDivPerDot, todo, TeamRank(i, j, numCcols)))
    == Add(Mul(beta, c0), Dot(alpha, op, a, b, i, j))
  }

  lemma ConservedInitially(c0: Complex, alpha: Complex, op: Op, a: Matrix, b: Matrix, beta: Complex,
                           numDivPerDot: nat, i: nat, j: nat)
    requires numDivPerDot > 0 && i < a.cols && j < b.cols
    ensures Conserved(Mul(beta, c0), c0, alpha, op, a, b, beta, numDivPerDot, b.cols,
                      Ranks(a.cols * b.cols * numDivPerDot), i, j)
  {
    hide Mul, DotTerm, Add;
    TileRankBound(i, j, a.cols, b.cols);
    AllPending(DotTerm(alpha, op, a, b, i, j), a.rows, numDivPerDot, a.cols * b.cols, TeamRank(i, j, b.cols));
  }

  /** An atomic add moves one slice from pending to C. */
  lemma ConservedByAdd(c: Complex, c': Complex, c0: Complex, alpha: Complex, op: Op, a: Matrix, b: Matrix,
                       beta: Complex,
                       numDivPerDot: nat, numCcols: nat, todo: set<int>, rank: nat, i: nat, j: nat)
    requires numDivPerDot > 0 && rank in todo && j < numCcols
    requires Conserved(c, c0, alpha, op, a, b, beta, numDivPerDot, numCcols, todo, i, j)
    requires c' == if rank / numDivPerDot == TeamRank(i, j, numCcols)
                   then Add(c, Slice(DotTerm(alpha, op, a, b, i, j), a.rows, numDivPerDot)(rank % numDivPerDot)) else c
    ensures Conserved(c', c0, alpha, op, a, b, beta, numDivPerDot, numCcols, todo - {rank}, i, j)
  {
    hide Mul, DotTerm, Pending, Slice, Dot;
    PendingStep(DotTerm(alpha, op, a, b, i, j), a.rows, numDivPerDot, todo, rank, TeamRank(i, j, numCcols));
  }

  lemma ConservedFinally(c: Complex, c0: Complex, alpha: Complex, op: Op, a: Matrix, b: Matrix, beta: Complex,
                         numDivPerDot: nat, numCcols: nat, i: nat, j: nat)
    requires numDivPerDot > 0 && !op.NoTrans? && a.rows == b.rows
    requires Conserved(c, c0, alpha, op, a, b, beta, numDivPerDot, numCcols, {}, i, j)
    ensures c == GemmEntry(alpha, op, a, NoTrans, b, beta, c0, i, j)
  {
    hide Mul, DotTerm, Pending, Dot;
    NonePending(DotTerm(alpha, op, a, b, i, j), a.rows, numDivPerDot, TeamRank(i, j, numCcols));
    DotIsScaledProduct(alpha, op, a, b, i, j);
  }

  lemma EntryOfDot(d: nat, rowId: nat, colId: nat, numCcols: nat, i: nat, j: nat)
    requires colId < numCcols && j < numCcols && d == TeamRank(rowId, colId, numCcols)
    ensures d == TeamRank(i, j, numCcols) <==> i == rowId && j == colId
  {
    RankSplit(i, j, numCcols, d);
    RankSplit(rowId, colId, numCcols, d);
  }

  /** One team: it adds its slice to the one entry of C it works on. */
  method TeamKernel(rank: nat, alpha: Complex, op: Op, a: Matrix, b: Matrix, c: array2<Complex>, numDivPerDot: nat,
                    reduction: Reduction)
    requires !op.NoTrans? && DotShapes(a, b, c) && numDivPerDot > 0 && Reduces(reduction)
    requires rank < c.Length0 * c.Length1 * numDivPerDot
    modifies c
    ensures forall i, j :: 0 <= i < c.Length0 && 0 <= j < c.Length1 ==>
              c[i, j] == if rank / numDivPerDot == TeamRank(i, j, c.Length1)
                         then Add(old(c[i, j]),
                                       Slice(DotTerm(alpha, op, a, b, i, j), a.rows, numDivPerDot)(rank % numDivPerDot))
                         else old(c[i, j])
  {
    hide Mul, Add, DotTerm, Slice, SliceBegin, SliceEnd, Covers, TeamRank;
    RankInLeague(rank, c.Length0 * c.Length1, numDivPerDot);
    RankInLeague(rank / numDivPerDot, c.Length0, c.Length1);
    var rowId, colId, result := TeamPartial(rank, alpha, op, a, b, c.Length1, numDivPerDot, reduction);
    // atomic_add
    c[rowId, colId] := Add(c[rowId, colId], result);
    forall i, j | 0 <= i < c.Length0 && 0 <= j < c.Length1
      ensures rank / numDivPerDot == TeamRank(i, j, c.Length1) <==> i == rowId && j == colId
    {
      EntryOfDot(rank / numDivPerDot, rowId, colId, c.Length1, i, j);
    }
  }

  /** For every order of the teams and every reduction tree, C ends as the GEMM result. */
  method Run(alpha: Complex, conjugateTranspose: bool, a: Matrix, b: Matrix, beta: Complex, c: array2<Complex>,
             numDivPerDot: nat, reduction: Reduction)
    requires numDivPerDot > 0
    requires DotShapes(a, b, c)
    requires Reduces(reduction)
    modifies c
    ensures forall i, j :: 0 <= i < c.Length0 && 0 <= j < c.Length1 ==>
              c[i, j] == GemmEntry(alpha, if conjugateTranspose then ConjTrans
                                          else Trans, a, NoTrans, b, beta, old(c[i, j]), i, j)
  {
    hide Mul, Add, Conserved, GemmEntry, DotTerm, Slice, SliceBegin, SliceEnd, Covers, TeamRank;
    var op := if conjugateTranspose then ConjTrans else Trans;
    var ndots := c.Length0 * c.Length1;
    var numTeams := ndots * numDivPerDot;
    InitC(beta, c);
    var todo := Ranks(numTeams);
    forall i, j | 0 <= i < c.Length0 && 0 <= j < c.Length1
      ensures Conserved(c[i, j], old(c[i, j]), alpha, op, a, b, beta, numDivPerDot, c.Length1, todo, i, j)
    {
      ConservedInitially(old(c[i, j]), alpha, op, a, b, beta, numDivPerDot, i, j);
    }
    while todo != {}
      invariant todo <= Ranks(numTeams)
      invariant forall i, j :: 0 <= i < c.Length0 && 0 <= j < c.Length1 ==>
                  Conserved(c[i, j], old(c[i, j]), alpha, op, a, b, beta, numDivPerDot, c.Length1, todo, i, j)
      decreases todo
    {
      var rank :| rank in todo;
      label Before:
      TeamKernel(rank, alpha, op, a, b, c, numDivPerDot, reduction);
      forall i, j | 0 <= i < c.Length0 && 0 <= j < c.Length1
        ensures Conserved(c[i, j], old(c[i, j]), alpha, op, a, b, beta, numDivPerDot, c.Length1, todo - {rank}, i, j)
      {
        ConservedByAdd(old@Before(c[i, j]), c[i, j], old(c[i, j]), alpha, op, a, b, beta, numDivPerDot,
                       c.Length1, todo, rank, i, j);
      }
      todo := todo - {rank};
    }
    forall i, j | 0 <= i < c.Length0 && 0 <= j < c.Length1
      ensures c[i, j] == GemmEntry(alpha, op, a, NoTrans, b, beta, old(c[i, j]), i, j)
    {
      ConservedFinally(c[i, j], old(c[i, j]), alpha, op, a, b, beta, numDivPerDot, c.Length1, i, j);
    }
  }
}
