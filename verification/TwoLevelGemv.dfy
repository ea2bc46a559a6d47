/**
 The device kernels of GEMV. For a LayoutLeft matrix a team owns 32 rows; its threads sum
 pieces of those rows and combine them by atomic adds into shared memory between two
 barriers. In the other cases a team reduces one entry of y.
 */
module TwoLevelGemv {
  import opened Scalars
  import opened Sums
  import opened Matrices
  import opened Tiling
  import opened SlicedReduction
  import opened GemvSpec
  import opened TransposeLetters
  import SingleLevelGemv

  // ------------------------------------------------------------------
  // Launch arithmetic
  // ------------------------------------------------------------------

  /** The team size: a multiple of 32, no larger than the columns can use. */
  function TeamSize(recommended: nat, n: nat, isSycl: bool): nat {
    var rounded := recommended - recommended % 32;
    var useful := if rounded > 32 * n then 32 * n else rounded;
    if isSycl && useful > 256 then 256 else useful
  }

  lemma TeamSizeShape(recommended: nat, n: nat, isSycl: bool)
    ensures TeamSize(recommended, n, isSycl) == 32 * (TeamSize(recommended, n, isSycl) / 32)
    ensures TeamSize(recommended, n, isSycl) / 32 <= n
    ensures TeamSize(recommended, n, isSycl) / 32 > 0 <==> recommended >= 32 && n > 0
    ensures TeamSize(recommended, n, isSycl) <= recommended && (isSycl ==> TeamSize(recommended, n, isSycl) <= 256)
    ensures forall q: nat :: 32 * q <= recommended && q <= n && (isSycl ==> 32 * q <= 256) ==>
              32 * q <= TeamSize(recommended, n, isSycl)
  {
  }

  /** The first column of a block of threads. */
  function ColStart(block: int, columnsPerThread: int): int {
    columnsPerThread * block
  }

  ghost predicate Visits(league: nat, thread: nat, columnsPerThread: nat, row: nat, col: nat) {
    league * 32 + thread % 32 == row
    && ColStart(thread / 32, columnsPerThread) <= col < ColStart(thread / 32, columnsPerThread) + columnsPerThread
  }

  lemma BlocksReachEnd(n: nat, blocks: nat)
    requires blocks > 0
    ensures ColStart(blocks, CeilDiv(n, blocks)) >= n
    ensures n > 0 ==> CeilDiv(n, blocks) > 0
  {
    DivBounds(n + blocks - 1, blocks, CeilDiv(n, blocks));
  }

  /** For every recommended team size of at least 32 the launch visits each entry of A in
      exactly one thread of one team. */
  lemma OneThreadPerEntry(m: nat, n: nat, recommended: nat, isSycl: bool, row: nat, col: nat)
    requires row < m && col < n && recommended >= 32
    ensures var teamSize := TeamSize(recommended, n, isSycl);
            && teamSize / 32 > 0
            && var perThread := CeilDiv(n, teamSize / 32);
            && perThread > 0
            && row / 32 < CeilDiv(m, 32) && col / perThread * 32 + row % 32 < teamSize
            && forall league: nat, thread: nat :: Visits(league, thread, perThread, row, col)
                 <==> league == row / 32 && thread == col / perThread * 32 + row % 32
  {
    var teamSize := TeamSize(recommended, n, isSycl);
    var blocks := teamSize / 32;
    TeamSizeShape(recommended, n, isSycl);
    var perThread := CeilDiv(n, blocks);
    BlocksReachEnd(n, blocks);
    BlockOfColumn(col, perThread, blocks);
    forall league: nat, thread: nat
      ensures Visits(league, thread, perThread, row, col)
              <==> league == row / 32 && thread == col / perThread * 32 + row % 32
    {
      DivBounds(col, perThread, thread / 32);
      assert perThread * (thread / 32) == thread / 32 * perThread;
    }
  }

  lemma BlockOfColumn(col: nat, perThread: nat, blocks: nat)
    requires perThread > 0 && col < ColStart(blocks, perThread)
    ensures col / perThread < blocks
  {
    DivBounds(col, perThread, col / perThread);
    if col / perThread >= blocks {
      MulMonotone(blocks, col / perThread, perThread);
      assert false;
    }
  }

  // ------------------------------------------------------------------
  // What the threads of a lane contribute
  // ------------------------------------------------------------------

  function Clip(col: int, n: nat): nat {
    if col < 0 then 0 else if col < n then col else n
  }

  /** The partial sum of a thread in a given block. */
  ghost function Part(f: int -> Complex, perThread: nat, n: nat): int -> Complex {
    b => if Clip(ColStart(b, perThread), n) <= Clip(ColStart(b, perThread) + perThread, n)
         then Sum(f, Clip(ColStart(b, perThread), n), Clip(ColStart(b, perThread) + perThread, n)) else Zero
  }

  lemma NextBlock(b: int, perThread: int)
    ensures ColStart(b + 1, perThread) == ColStart(b, perThread) + perThread
    ensures ColStart(0, perThread) == 0
  {
  }

  lemma {:induction false} PartsPrefix(f: int -> Complex, perThread: nat, n: nat, k: nat)
    ensures ColStart(k, perThread) >= 0
    ensures Sum(Part(f, perThread, n), 0, k) == Sum(f, 0, Clip(ColStart(k, perThread), n))
  {
    hide Add, ColStart;
    NextBlock(k - 1, perThread);
    if k > 0 {
      PartsPrefix(f, perThread, n, k - 1);
      SumSplit(f, 0, Clip(ColStart(k - 1, perThread), n), Clip(ColStart(k, perThread), n));
    }
  }

  /** The blocks partition the columns of a row. */
  lemma PartsCover(f: int -> Complex, perThread: nat, n: nat, blocks: nat)
    requires ColStart(blocks, perThread) >= n
    ensures Sum(Part(f, perThread, n), 0, blocks) == Sum(f, 0, n)
  {
    PartsPrefix(f, perThread, n, blocks);
  }

  /** Thread b * 32 + lane, if it has yet to add its part. */
  ghost function PendingPart(f: int -> Complex, perThread: nat, n: nat, todo: set<int>, lane: int): int -> Complex {
    b => if TeamRank(b, lane, 32) in todo then Part(f, perThread, n)(b) else Zero
  }

  ghost function PendingLane(f: int -> Complex, perThread: nat, n: nat, blocks: nat, todo: set<int>,
                             lane: int): Complex {
    Sum(PendingPart(f, perThread, n, todo, lane), 0, blocks)
  }

  lemma LaneStep(f: int -> Complex, perThread: nat, n: nat, blocks: nat, todo: set<int>, thread: nat, lane: nat)
    requires lane < 32 && thread in todo && thread / 32 < blocks
    ensures PendingLane(f, perThread, n, blocks, todo, lane)
            == if lane == thread % 32
               then Add(Part(f, perThread, n)(thread / 32), PendingLane(f, perThread, n, blocks, todo - {thread}, lane))
               else PendingLane(f, perThread, n, blocks, todo - {thread}, lane)
  {
    hide Part, Add, TeamRank;
    var before, after := PendingPart(f, perThread, n, todo, lane), PendingPart(f, perThread, n, todo - {thread}, lane);
    forall b | 0 <= b < blocks
      ensures TeamRank(b, lane, 32) == thread <==> b == thread / 32 && lane == thread % 32
    {
      TeamRankSplit(b, lane, 32, thread);
    }
    if lane == thread % 32 {
      SumRemoveTerm(before, after, 0, blocks, thread / 32);
    } else {
      SumCongruence(before, after, 0, blocks);
    }
  }

  lemma AllLanesPending(f: int -> Complex, perThread: nat, n: nat, blocks: nat, lane: nat)
    requires lane < 32 && ColStart(blocks, perThread) >= n
    ensures PendingLane(f, perThread, n, blocks, Ranks(32 * blocks), lane) == Sum(f, 0, n)
  {
    hide Add, ColStart;
    forall b | 0 <= b < blocks
      ensures PendingPart(f, perThread, n, Ranks(32 * blocks), lane)(b) == Part(f, perThread, n)(b)
    {
      TileRankBound(b, lane, blocks, 32);
    }
    SumCongruence(PendingPart(f, perThread, n, Ranks(32 * blocks), lane), Part(f, perThread, n), 0, blocks);
    PartsCover(f, perThread, n, blocks);
  }

  lemma NoLanePending(f: int -> Complex, perThread: nat, n: nat, blocks: nat, lane: int)
    ensures PendingLane(f, perThread, n, blocks, {}, lane) == Zero
  {
    SumOfZeros(PendingPart(f, perThread, n, {}, lane), 0, blocks);
  }

  // ------------------------------------------------------------------
  // The LayoutLeft kernel
  // ------------------------------------------------------------------

  /** The private sum of one thread over its columns of a row. */
  method ThreadSum(row: nat, block: nat, perThread: nat, a: Matrix, x: seq<Complex>) returns (localSum: Complex)
    requires row < a.rows && |x| == a.cols
    ensures localSum == Part(Term(NoTrans, a, x, row), perThread, a.cols)(block)
  {
    hide Mul, Add;
    var blockColStart := ColStart(block, perThread);
    localSum := Zero;
    var col := blockColStart;
    assert blockColStart >= 0;
    hide ColStart;
    while col < blockColStart + perThread && col < a.cols
      invariant blockColStart <= col <= blockColStart + perThread
      invariant Clip(blockColStart, a.cols) <= Clip(col, a.cols)
      invariant localSum == Sum(Term(NoTrans, a, x, row), Clip(blockColStart, a.cols), Clip(col, a.cols))
      decreases a.cols - col
    {
      localSum := Add(localSum, Mul(At(a, row, col), x[col]));
      col := col + 1;
    }
  }

  /** A shared cell plus the parts still pending in its lane is the whole entry of A * x;
      a cell without a row stays zero. */
  ghost predicate LaneConserved(cell: Complex, a: Matrix, x: seq<Complex>, perThread: nat, blocks: nat,
                                todo: set<int>, row: int, lane: int) {
    if row < a.rows
    then Add(cell, PendingLane(Term(NoTrans, a, x, row), perThread, a.cols, blocks, todo, lane))
         == MatVec(NoTrans, a, x, row)
    else cell == Zero
  }

  lemma LaneByAdd(cell: Complex, cell': Complex, a: Matrix, x: seq<Complex>, perThread: nat, blocks: nat,
                  todo: set<int>, thread: nat, row: int, lane: nat)
    requires lane < 32 && thread in todo && thread / 32 < blocks
    requires LaneConserved(cell, a, x, perThread, blocks, todo, row, lane)
    requires cell' == if row < a.rows && lane == thread % 32
                      then Add(cell, Part(Term(NoTrans, a, x, row), perThread, a.cols)(thread / 32)) else cell
    ensures LaneConserved(cell', a, x, perThread, blocks, todo - {thread}, row, lane)
  {
    hide Part, PendingLane, MatVec, Term;
    LaneStep(Term(NoTrans, a, x, row), perThread, a.cols, blocks, todo, thread, lane);
  }

  lemma LaneStarts(a: Matrix, x: seq<Complex>, perThread: nat, blocks: nat, row: int, lane: nat)
    requires lane < 32 && ColStart(blocks, perThread) >= a.cols
    ensures LaneConserved(Zero, a, x, perThread, blocks, Ranks(32 * blocks), row, lane)
  {
    hide PendingLane, Term;
    AllLanesPending(Term(NoTrans, a, x, row), perThread, a.cols, blocks, lane);
  }

  lemma LaneEnds(cell: Complex, a: Matrix, x: seq<Complex>, perThread: nat, blocks: nat, row: int, lane: nat)
    requires LaneConserved(cell, a, x, perThread, blocks, {}, row, lane) && row < a.rows
    ensures cell == MatVec(NoTrans, a, x, row)
  {
    hide PendingLane, Term, MatVec;
    NoLanePending(Term(NoTrans, a, x, row), perThread, a.cols, blocks, lane);
  }

  /** Between the barriers: the threads add their parts to shared memory in any order. */
  method AddParts(league: nat, blocks: nat, perThread: nat, a: Matrix, x: seq<Complex>, blockResult: array<Complex>)
    requires blockResult.Length == 32 && |x| == a.cols && ColStart(blocks, perThread) >= a.cols
    requires forall lane :: 0 <= lane < 32 ==> blockResult[lane] == Zero
    modifies blockResult
    ensures forall lane :: 0 <= lane < 32 && league * 32 + lane < a.rows ==>
              blockResult[lane] == MatVec(NoTrans, a, x, league * 32 + lane)
  {
    hide Add, Mul, LaneConserved, Part, Term, MatVec, ColStart;
    var todo := Ranks(32 * blocks);
    forall lane | 0 <= lane < 32
      ensures LaneConserved(blockResult[lane], a, x, perThread, blocks, todo, league * 32 + lane, lane)
    {
      LaneStarts(a, x, perThread, blocks, league * 32 + lane, lane);
    }
    while todo != {}
      invariant todo <= Ranks(32 * blocks)
      invariant forall lane :: 0 <= lane < 32 ==>
                  LaneConserved(blockResult[lane], a, x, perThread, blocks, todo, league * 32 + lane, lane)
      decreases todo
    {
      var thread :| thread in todo;
      label Before:
      var block := thread / 32;
      var row := league * 32 + thread % 32;
      if row < a.rows {
        var localSum := ThreadSum(row, block, perThread, a, x);
        // atomic_add
        blockResult[thread % 32] := Add(blockResult[thread % 32], localSum);
      }
      forall lane | 0 <= lane < 32
        ensures LaneConserved(blockResult[lane], a, x, perThread, blocks, todo - {thread}, league * 32 + lane, lane)
      {
        LaneByAdd(old@Before(blockResult[lane]), blockResult[lane], a, x, perThread, blocks,
                  todo, thread, league * 32 + lane, lane);
      }
      todo := todo - {thread};
    }
    forall lane | 0 <= lane < 32 && league * 32 + lane < a.rows
      ensures blockResult[lane] == MatVec(NoTrans, a, x, league * 32 + lane)
    {
      LaneEnds(blockResult[lane], a, x, perThread, blocks, league * 32 + lane, lane);
    }
  }

  /** The final update of one entry of y. */
  method UpdateEntry(y: array<Complex>, i: nat, alpha: Complex, beta: Complex, sum: Complex)
    requires i < y.Length
    modifies y
    ensures y[..] == old(y[..])[i := Update(beta, old(y[i]), alpha, sum)]
  {
    hide Mul, Add;
    if beta == Zero {
      ZeroPlus(y[i], Mul(alpha, sum));
      y[i] := Mul(alpha, sum);
    } else {
      y[i] := Add(Mul(beta, y[i]), Mul(alpha, sum));
    }
  }

  /** One team: zero shared memory, barrier, add parts, barrier, update its rows of y. */
  method LayoutLeftTeam(league: nat, blocks: nat, perThread: nat, alpha: Complex, a: Matrix, x: seq<Complex>,
                        beta: Complex, y: array<Complex>)
    requires Shapes(NoTrans, a, x, y) && ColStart(blocks, perThread) >= a.cols
    modifies y
    ensures forall i :: 0 <= i < y.Length ==>
              y[i] == if i / 32 == league then GemvEntry(alpha, NoTrans, a, x, beta, old(y[i]), i) else old(y[i])
  {
    hide Mul, Add, Update, MatVec, ColStart;
    var blockResult := new Complex[32];
    var zeroing := Ranks(32);
    while zeroing != {}
      invariant zeroing <= Ranks(32)
      invariant forall lane :: 0 <= lane < 32 && lane !in zeroing ==> blockResult[lane] == Zero
      invariant y[..] == old(y[..])
      decreases zeroing
    {
      var lane :| lane in zeroing;
      blockResult[lane] := Zero;
      zeroing := zeroing - {lane};
    }
    // team_barrier
    AddParts(league, blocks, perThread, a, x, blockResult);
    // team_barrier
    var todo := Ranks(32);
    while todo != {}
      invariant todo <= Ranks(32)
      invariant forall lane :: 0 <= lane < 32 && league * 32 + lane < a.rows ==>
                  blockResult[lane] == MatVec(NoTrans, a, x, league * 32 + lane)
      invariant forall i :: 0 <= i < y.Length ==>
                  y[i] == if i / 32 == league && i % 32 !in todo
                          then GemvEntry(alpha, NoTrans, a, x, beta, old(y[i]), i)
                          else old(y[i])
      decreases todo
    {
      var lane :| lane in todo;
      var yRow := league * 32 + lane;
      if yRow < a.rows {
        UpdateEntry(y, yRow, alpha, beta, blockResult[lane]);
      }
      todo := todo - {lane};
    }
  }

  /** All teams of the launch, in any order. */
  method LayoutLeft(alpha: Complex, a: Matrix, x: seq<Complex>, beta: Complex, y: array<Complex>,
                    recommended: nat, isSycl: bool) returns (ok: bool)
    requires Shapes(NoTrans, a, x, y) && a.cols > 0
    modifies y
    ensures ok <==> recommended >= 32
    ensures ok ==> AllUpdated(alpha, NoTrans, a, x, beta, old(y[..]), y[..])
    ensures !ok ==> y[..] == old(y[..])
  {
    hide GemvEntry, CeilDiv, ColStart, TeamSize;
    var numTeams := CeilDiv(a.rows, 32);
    var teamSize := TeamSize(recommended, a.cols, isSycl);
    TeamSizeShape(recommended, a.cols, isSycl);
    var numBlocks := teamSize / 32;
    if numBlocks == 0 {
      return false;
    }
    var columnsPerThread := CeilDiv(a.cols, numBlocks);
    BlocksReachEnd(a.cols, numBlocks);
    forall i | 0 <= i < a.rows
      ensures i / 32 < numTeams
    {
      BlockStart(a.rows, 32, i / 32);
    }
    var todo := Ranks(numTeams);
    while todo != {}
      invariant todo <= Ranks(numTeams)
      invariant forall i :: 0 <= i < y.Length ==>
                  y[i] == if i / 32 in todo then old(y[i]) else GemvEntry(alpha, NoTrans, a, x, beta, old(y[i]), i)
      decreases todo
    {
      var league :| league in todo;
      LayoutLeftTeam(league, numBlocks, columnsPerThread, alpha, a, x, beta, y);
      todo := todo - {league};
    }
    return true;
  }

  // ------------------------------------------------------------------
  // One team per entry of y: LayoutRight and the transposed cases
  // ------------------------------------------------------------------

  method TeamReduce(t: Tree, op: Op, a: Matrix, x: seq<Complex>, i: nat) returns (val: Complex)
    requires |x| == OpCols(op, a) && i < OpRows(op, a)
    requires forall k :: k in Indices(t) ==> 0 <= k < |x|
    ensures val == Reduce(Term(op, a, x, i), t)
    decreases t
  {
    hide Mul, Add;
    match t
    case Leaf(s) =>
      val := Zero;
      for n := 0 to |s|
        invariant val == Fold(Term(op, a, x, i), s[..n])
      {
        var k := s[n];
        assert k in Indices(t);
        assert s[..n + 1][..n] == s[..n];
        var entry := if op.NoTrans? then At(a, i, k) else if op.ConjTrans? then Conj(At(a, k, i)) else At(a, k, i);
        val := Add(val, Mul(entry, x[k]));
      }
      assert s[..|s|] == s;
    case Join(l, r) =>
      assert forall k :: k in Indices(l) ==> k in Indices(t);
      assert forall k :: k in Indices(r) ==> k in Indices(t);
      var u := TeamReduce(l, op, a, x, i);
      var v := TeamReduce(r, op, a, x, i);
      val := Add(u, v);
  }

  method EntryTeams(op: Op, alpha: Complex, a: Matrix, x: seq<Complex>, beta: Complex, y: array<Complex>,
                    reduction: Reduction)
    requires Shapes(op, a, x, y) && Reduces(reduction)
    modifies y
    ensures AllUpdated(alpha, op, a, x, beta, old(y[..]), y[..])
  {
    hide Mul, Add, Update, Term, Reduce, Indices, Covers;
    var todo := Ranks(y.Length);
    while todo != {}
      invariant todo <= Ranks(y.Length)
      invariant forall i :: 0 <= i < y.Length ==>
                  y[i] == if i in todo then old(y[i]) else GemvEntry(alpha, op, a, x, beta, old(y[i]), i)
      decreases todo
    {
      var i :| i in todo;
      var t := reduction(i, 0, |x|);
      TreeOfEntry(t, op, a, x, i);
      var val := TeamReduce(t, op, a, x, i);
      UpdateEntry(y, i, alpha, beta, val);
      todo := todo - {i};
    }
  }

  lemma TreeOfEntry(t: Tree, op: Op, a: Matrix, x: seq<Complex>, i: int)
    requires |x| == OpCols(op, a) && Covers(t, 0, |x|)
    ensures forall k :: k in Indices(t) ==> 0 <= k < |x|
    ensures Reduce(Term(op, a, x, i), t) == MatVec(op, a, x, i)
  {
    RangeMembers(0, |x|);
    ReduceIsSum(Term(op, a, x, i), t, 0, |x|);
  }

  // ------------------------------------------------------------------
  // twoLevelGemv
  // ------------------------------------------------------------------

  datatype Target = Target(layoutLeft: bool, recommended: nat, isSycl: bool, reduction: Reduction)

  /** The launch divides by zero exactly for a non-empty LayoutLeft product with a
      recommended team size below 32. */
  predicate Launches(tr: char, m: nat, n: nat, target: Target) {
    !IsN(tr) || m == 0 || n == 0 || !target.layoutLeft || target.recommended >= 32
  }

  method Run(tr: char, alpha: Complex, a: Matrix, x: seq<Complex>, beta: Complex, y: array<Complex>, target: Target)
    returns (ok: bool)
    requires ValidLetter(tr) && Shapes(OpOf(tr), a, x, y) && Reduces(target.reduction)
    modifies y
    ensures ok <==> Launches(tr, a.rows, a.cols, target)
    ensures ok ==> AllUpdated(alpha, OpOf(tr), a, x, beta, old(y[..]), y[..])
    ensures !ok ==> y[..] == old(y[..])
  {
    hide Mul, GemvEntry;
    ok := true;
    if y.Length == 0 {
      return;
    } else if |x| == 0 {
      if beta == Zero {
        FillZero(y);
        BetaUnits(beta, old(y[..]), y[..]);
      } else if beta != One {
        SingleLevelGemv.FakeScal(y.Length, alpha, a, x, beta, y);
      } else {
        BetaUnits(beta, old(y[..]), y[..]);
      }
      OnlyBeta(alpha, OpOf(tr), a, x, beta, old(y[..]), y[..]);
      return;
    }
    if IsN(tr) {
      if target.layoutLeft {
        ok := LayoutLeft(alpha, a, x, beta, y, target.recommended, target.isSycl);
      } else {
        EntryTeams(NoTrans, alpha, a, x, beta, y, target.reduction);
      }
    } else if alpha == Zero && beta == Zero {
      FillZero(y);
      BetaUnits(beta, old(y[..]), y[..]);
      OnlyBeta(alpha, OpOf(tr), a, x, beta, old(y[..]), y[..]);
    } else if alpha == Zero && beta == One {
      BetaUnits(beta, old(y[..]), y[..]);
      OnlyBeta(alpha, OpOf(tr), a, x, beta, old(y[..]), y[..]);
    } else if IsT(tr) {
      EntryTeams(Trans, alpha, a, x, beta, y, target.reduction);
    } else {
      EntryTeams(ConjTrans, alpha, a, x, beta, y, target.reduction);
    }
  }
}
