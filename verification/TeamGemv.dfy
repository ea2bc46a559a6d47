/**
 Team GEMV over flat memory: the threads of a team scale the rows of y, meet at a barrier
 unless there was nothing to scale, and add the products of rows or of chunks of rows.

 What may run concurrently between two barriers is a set of work items, drained in any
 order; here an item is one step. That its single loads and stores may be interleaved with
 those of the others is shown in TeamGemvSchedules.
 */
module TeamGemv {
  import opened Scalars
  import opened Sums
  import opened Matrices
  import opened Tiling
  import opened StridedMemory
  import SerialGemv

  // ------------------------------------------------------------------
  // Chunks of rows
  // ------------------------------------------------------------------

  /** The rows per chunk for m rows, a team of tsize threads and the algorithm's block size. */
  function ChunkRows(m: nat, tsize: nat, mbAlgo: nat): nat
    requires tsize > 0
  {
    var perThread := m / tsize + (if m % tsize > 0 then 1 else 0);
    if perThread < mbAlgo then perThread else mbAlgo
  }

  function NumChunks(m: nat, mb: nat): nat
    requires mb > 0
  {
    m / mb + (if m % mb > 0 then 1 else 0)
  }

  function ChunkBegin(chunk: int, mb: int): int { chunk * mb }

  /** The row count passed to the inner kernel for a chunk. */
  function ChunkSize(chunk: int, mb: int, m: int): int {
    if ChunkBegin(chunk, mb) + mb > m then m - ChunkBegin(chunk, mb) else mb
  }

  /** Row r is one of the rows of a chunk. */
  ghost predicate InChunk(r: int, chunk: int, mb: int, m: int) {
    ChunkBegin(chunk, mb) <= r < ChunkBegin(chunk, mb) + ChunkSize(chunk, mb, m)
  }

  lemma ChunkRowsBounds(m: nat, tsize: nat, mbAlgo: nat)
    requires m > 0 && tsize > 0 && mbAlgo > 0
    ensures 1 <= ChunkRows(m, tsize, mbAlgo) <= mbAlgo
    ensures ChunkRows(m, tsize, mbAlgo) < mbAlgo ==> NumChunks(m, ChunkRows(m, tsize, mbAlgo)) <= tsize
    ensures (ChunkRows(m, tsize, mbAlgo) - 1) * tsize < m
  {
    var q := m / tsize;
    DivBounds(m, tsize, q);
    ModOf(m, tsize, q);
    MulMonotone(ChunkRows(m, tsize, mbAlgo) - 1, if m % tsize > 0 then q else q - 1, tsize);
    var mb := ChunkRows(m, tsize, mbAlgo);
    if mb < mbAlgo {
      EnoughThreads(m, tsize, mb);
    }
  }

  lemma EnoughThreads(m: nat, tsize: nat, mb: nat)
    requires tsize > 0 && mb > 0 && m <= tsize * mb
    ensures NumChunks(m, mb) <= tsize
  {
    var q := m / mb;
    DivBounds(m, mb, q);
    ModOf(m, mb, q);
    if q > tsize {
      MulMonotone(tsize + 1, q, mb);
      assert false;
    }
  }

  lemma ModOf(m: nat, mb: nat, q: nat)
    requires mb > 0 && q == m / mb
    ensures m % mb == m - q * mb
  {
  }

  /** The chunks partition [0, m): row r lies in chunk r / mb and in no other, and every
      chunk in range is a non-empty part of it with at most mb rows. */
  lemma ChunksPartition(m: nat, mb: nat)
    requires mb > 0
    ensures forall r :: 0 <= r < m ==> 0 <= r / mb < NumChunks(m, mb)
    ensures forall r, c :: 0 <= r < m && 0 <= c < NumChunks(m, mb) ==>
              (InChunk(r, c, mb, m) <==> c == r / mb)
    ensures forall c :: 0 <= c < NumChunks(m, mb) ==>
              0 <= ChunkBegin(c, mb) && 0 < ChunkSize(c, mb, m) <= mb && ChunkBegin(c, mb) + ChunkSize(c, mb, m) <= m
  {
    forall r | 0 <= r < m
      ensures 0 <= r / mb < NumChunks(m, mb)
    {
      RowInChunks(r, m, mb);
    }
    forall c | 0 <= c < NumChunks(m, mb)
      ensures 0 <= ChunkBegin(c, mb) && 0 < ChunkSize(c, mb, m) <= mb && ChunkBegin(c, mb) + ChunkSize(c, mb, m) <= m
    {
      ChunkInRows(c, m, mb);
    }
    forall r, c | 0 <= r < m && 0 <= c < NumChunks(m, mb)
      ensures InChunk(r, c, mb, m) <==> c == r / mb
    {
      DivBounds(r, mb, c);
    }
  }

  lemma RowInChunks(r: nat, m: nat, mb: nat)
    requires mb > 0 && r < m
    ensures r / mb < NumChunks(m, mb)
  {
    var q := m / mb;
    DivBounds(m, mb, q);
    ModOf(m, mb, q);
    DivBounds(r, mb, r / mb);
    if r / mb > q {
      MulMonotone(q + 1, r / mb, mb);
      assert false;
    }
  }

  lemma ChunkInRows(c: nat, m: nat, mb: nat)
    requires mb > 0 && c < NumChunks(m, mb)
    ensures 0 <= ChunkBegin(c, mb) < m
  {
    var q := m / mb;
    DivBounds(m, mb, q);
    ModOf(m, mb, q);
    if c < q {
      MulMonotone(c + 1, q, mb);
    }
    MulMonotone(0, c, mb);
  }

  // ------------------------------------------------------------------
  // Work items
  // ------------------------------------------------------------------

  /** One call of the body of a parallel loop: scaling a row, or adding to a chunk of rows. */
  datatype Work = ScaleRow(i: int) | AddRows(chunk: int)

  function ScaleWork(m: int): (work: set<Work>)
    ensures forall i :: ScaleRow(i) in work <==> 0 <= i < m
    ensures forall c :: AddRows(c) !in work
  {
    set i | i in RowRange(0, m) :: ScaleRow(i)
  }

  function AddWork(chunks: nat): (work: set<Work>)
    ensures forall c :: AddRows(c) in work <==> 0 <= c < chunks
    ensures forall i :: ScaleRow(i) !in work
  {
    set c | c in RowRange(0, chunks) :: AddRows(c)
  }

  function ChunkOf(i: int, mb: nat): int
    requires mb > 0
  {
    i / mb
  }

  ghost predicate KnownWork(work: set<Work>, m: nat, mb: nat)
    requires mb > 0
  {
    && (forall i :: ScaleRow(i) in work ==> 0 <= i < m)
    && (forall c :: AddRows(c) in work ==> 0 <= c < NumChunks(m, mb))
  }

  /** No row is both scaled and added to. */
  ghost predicate Apart(work: set<Work>, m: nat, mb: nat)
    requires mb > 0
  {
    forall i :: 0 <= i < m && ScaleRow(i) in work ==> AddRows(ChunkOf(i, mb)) !in work
  }

  /** Exactly the given items have had their effect on y. */
  ghost predicate Drained(before: seq<Complex>, after: seq<Complex>, op: OpA, alpha: Complex, beta: Complex,
                          g: Geometry, mb: nat, done: set<Work>)
    requires Valid(g, |before|) && mb > 0
  {
    && SameOffY(g, before, after)
    && forall i :: 0 <= i < g.m ==>
         after[YAddr(g, i)] == if ScaleRow(i) in done then Mul(beta, before[YAddr(g, i)])
                               else if AddRows(ChunkOf(i, mb)) in done
                               then Add(before[YAddr(g, i)], Mul(alpha, RowSum(before, op, g, i)))
                               else before[YAddr(g, i)]
  }

  lemma NothingDrained(before: seq<Complex>, op: OpA, alpha: Complex, beta: Complex, g: Geometry, mb: nat)
    requires Valid(g, |before|) && mb > 0
    ensures Drained(before, before, op, alpha, beta, g, mb, {})
  {
    hide AAddr, XAddr, YAddr, Mul, Add, RowSum;
  }

  lemma OnlyNothing(before: seq<Complex>, after: seq<Complex>, op: OpA, alpha: Complex, beta: Complex, g: Geometry,
                    mb: nat)
    requires Valid(g, |before|) && mb > 0 && Drained(before, after, op, alpha, beta, g, mb, {})
    ensures after == before
  {
    hide AAddr, XAddr, YAddr, Mul, Add, RowSum;
    forall p | 0 <= p < |before|
      ensures after[p] == before[p]
    {
      if IsYCell(g, p) {
        var i :| 0 <= i < g.m && p == YAddr(g, i);
      }
    }
  }

  lemma AllScaled(before: seq<Complex>, after: seq<Complex>, op: OpA, alpha: Complex, beta: Complex, g: Geometry,
                  mb: nat)
    requires Valid(g, |before|) && mb > 0 && Drained(before, after, op, alpha, beta, g, mb, ScaleWork(g.m))
    ensures Scaled(before, after, beta, g)
  {
    hide AAddr, XAddr, YAddr, Mul, Add, RowSum;
  }

  lemma AllAdded(before: seq<Complex>, after: seq<Complex>, op: OpA, alpha: Complex, beta: Complex, g: Geometry,
                 mb: nat)
    requires Valid(g, |before|) && mb > 0 && g.m >= 0
    requires Drained(before, after, op, alpha, beta, g, mb, AddWork(NumChunks(g.m, mb)))
    ensures RowsAdded(before, after, op, alpha, g, RowRange(0, g.m))
  {
    hide AAddr, XAddr, YAddr, Mul, Add, RowSum, ChunkOf, NumChunks;
    forall i | 0 <= i < g.m
      ensures AddRows(ChunkOf(i, mb)) in AddWork(NumChunks(g.m, mb))
    {
      ChunkOfRow(i, g.m, mb);
    }
  }

  lemma ChunkOfRow(i: nat, m: nat, mb: nat)
    requires mb > 0 && i < m
    ensures 0 <= ChunkOf(i, mb) < NumChunks(m, mb)
    ensures forall c :: 0 <= c < NumChunks(m, mb) ==> (InChunk(i, c, mb, m) <==> c == ChunkOf(i, mb))
  {
    ChunksPartition(m, mb);
    hide NumChunks, InChunk;
  }

  lemma ScaleStep(before: seq<Complex>, cur: seq<Complex>, op: OpA, alpha: Complex, beta: Complex, g: Geometry,
                  mb: nat, done: set<Work>, i: int)
    requires Valid(g, |before|) && mb > 0 && Drained(before, cur, op, alpha, beta, g, mb, done)
    requires 0 <= i < g.m && ScaleRow(i) !in done && AddRows(ChunkOf(i, mb)) !in done
    ensures |cur| == |before| && 0 <= YAddr(g, i) < |cur|
    ensures Drained(before, cur[YAddr(g, i) := Mul(beta, cur[YAddr(g, i)])], op, alpha, beta, g, mb,
                    done + {ScaleRow(i)})
  {
    hide AAddr, XAddr, YAddr, Mul, Add, RowSum, ChunkOf;
  }

  lemma AddStep(before: seq<Complex>, cur: seq<Complex>, next: seq<Complex>, op: OpA, alpha: Complex, beta: Complex,
                g: Geometry, mb: nat, done: set<Work>, c: int)
    requires Valid(g, |before|) && mb > 0 && g.m >= 0 && Drained(before, cur, op, alpha, beta, g, mb, done)
    requires 0 <= c < NumChunks(g.m, mb) && AddRows(c) !in done
    requires forall i :: 0 <= i < g.m && ChunkOf(i, mb) == c ==> ScaleRow(i) !in done
    requires RowsAdded(cur, next, op, alpha, g, RowRange(ChunkBegin(c, mb), ChunkBegin(c, mb) + ChunkSize(c, mb, g.m)))
    ensures Drained(before, next, op, alpha, beta, g, mb, done + {AddRows(c)})
  {
    hide AAddr, XAddr, YAddr, Mul, Add, RowSum, ChunkOf, NumChunks, ChunkBegin, ChunkSize;
    assert SameOffY(g, before, next);
    YCellsInBounds(g, |before|);
    forall i | 0 <= i < g.m
      ensures next[YAddr(g, i)] == if ScaleRow(i) in done then Mul(beta, before[YAddr(g, i)])
                                   else if AddRows(ChunkOf(i, mb)) in done + {AddRows(c)}
                                   then Add(before[YAddr(g, i)], Mul(alpha, RowSum(before, op, g, i)))
                                   else before[YAddr(g, i)]
    {
      hide Valid, SameOffY;
      ChunkOfRow(i, g.m, mb);
      assert InChunk(i, c, mb, g.m) <==> c == ChunkOf(i, mb);
      RowFrame(before, cur, op, g, i);
    }
  }

  // ------------------------------------------------------------------
  // Vector lanes
  // ------------------------------------------------------------------

  /** The reduction of one row over the vector lanes of a thread, along any tree. */
  method RowReduce(t: Tree, mem: array<Complex>, op: OpA, g: Geometry, i: int) returns (sum: Complex)
    requires Valid(g, mem.Length) && 0 <= i < g.m
    requires forall j :: j in Indices(t) ==> 0 <= j < g.n
    ensures sum == Reduce(RowTerm(mem[..], op, g, i), t)
    decreases t
  {
    hide AAddr, XAddr, YAddr, Mul, Add, RowTerm, Valid;
    match t
    case Leaf(s) =>
      sum := Zero;
      for n := 0 to |s|
        invariant sum == Fold(RowTerm(mem[..], op, g, i), s[..n])
      {
        var j := s[n];
        assert j in Indices(t);
        assert s[..n + 1][..n] == s[..n];
        TermAt(mem[..], op, g, i, j);
        sum := Add(sum, Mul(ApplyOp(op, mem[AAddr(g, i, j)]), mem[XAddr(g, j)]));
      }
      assert s[..|s|] == s;
    case Join(l, r) =>
      assert forall j :: j in Indices(l) ==> j in Indices(t);
      assert forall j :: j in Indices(r) ==> j in Indices(t);
      var u := RowReduce(l, mem, op, g, i);
      var v := RowReduce(r, mem, op, g, i);
      sum := Add(u, v);
  }

  lemma TermAt(mem: seq<Complex>, op: OpA, g: Geometry, i: int, j: int)
    requires Valid(g, |mem|) && 0 <= i < g.m && 0 <= j < g.n
    ensures 0 <= AAddr(g, i, j) < |mem| && 0 <= XAddr(g, j) < |mem|
    ensures RowTerm(mem, op, g, i)(j) == Mul(ApplyOp(op, mem[AAddr(g, i, j)]), mem[XAddr(g, j)])
  {
    hide AAddr, XAddr, YAddr, Mul;
  }

  lemma TreeOfRow(t: Tree, mem: seq<Complex>, op: OpA, g: Geometry, i: int)
    requires g.n >= 0 && Covers(t, 0, g.n)
    ensures forall j :: j in Indices(t) ==> 0 <= j < g.n
    ensures Reduce(RowTerm(mem, op, g, i), t) == RowSum(mem, op, g, i)
  {
    hide RowTerm;
    RangeMembers(0, g.n);
    ReduceIsSum(RowTerm(mem, op, g, i), t, 0, g.n);
  }

  datatype Algo = UnblockedAlgo | BlockedAlgo(mb: nat) | VectorAlgo(reduction: Reduction)

  ghost predicate ValidAlgo(algo: Algo) {
    match algo
    case UnblockedAlgo => true
    case BlockedAlgo(mb) => 1 <= mb <= 5
    case VectorAlgo(reduction) => Reduces(reduction)
  }

  // ------------------------------------------------------------------
  // Draining the work between two barriers
  // ------------------------------------------------------------------

  /** The rows that one item of the second loop adds to. */
  function RowsPerItem(algo: Algo, m: nat, tsize: nat): (mb: nat)
    requires m > 0 && tsize > 0 && ValidAlgo(algo)
    ensures mb > 0
  {
    match algo
    case BlockedAlgo(mb) =>
      ChunkRowsBounds(m, tsize, mb);
      ChunkRows(m, tsize, mb)
    case _ => 1
  }

  lemma ItemRows(algo: Algo, m: nat, tsize: nat)
    requires m > 0 && tsize > 0 && ValidAlgo(algo)
    ensures var mb := RowsPerItem(algo, m, tsize); if algo.BlockedAlgo? then 0 < mb <= algo.mb else mb == 1
  {
    if algo.BlockedAlgo? {
      ChunkRowsBounds(m, tsize, algo.mb);
    }
  }

  lemma ScaledCell(beta: Complex, v: Complex)
    ensures Mul(v, beta) == Mul(beta, v) && Mul(Zero, v) == Zero
  {
    MulComm(v, beta);
    MulUnits(v);
  }

  /** TeamSetInternal or TeamScaleInternal, for one row. */
  method ScaleItem(mem: array<Complex>, g: Geometry, beta: Complex, i: int)
    requires 0 <= YAddr(g, i) < mem.Length
    modifies mem
    ensures mem[..] == old(mem[..])[YAddr(g, i) := Mul(beta, old(mem[YAddr(g, i)]))]
  {
    hide YAddr, Mul;
    ScaledCell(beta, mem[YAddr(g, i)]);
    mem[YAddr(g, i)] := if beta == Zero then Zero else Mul(mem[YAddr(g, i)], beta);
  }

  /** TeamSetInternal and TeamScaleInternal on their own: the rows in any order. */
  method BetaPhase(mem: array<Complex>, g: Geometry, beta: Complex)
    requires Valid(g, mem.Length)
    modifies mem
    ensures Scaled(old(mem[..]), mem[..], beta, g)
  {
    hide AAddr, XAddr, YAddr, Mul;
    YCellsInBounds(g, mem.Length);
    if beta != One {
      var todo := RowRange(0, g.m);
      while todo != {}
        invariant todo <= RowRange(0, g.m)
        invariant SameOffY(g, old(mem[..]), mem[..])
        invariant forall k :: 0 <= k < g.m ==>
                    mem[YAddr(g, k)] == if k in todo then old(mem[YAddr(g, k)]) else Mul(beta, old(mem[YAddr(g, k)]))
        decreases todo
      {
        var i :| i in todo;
        ScaleItem(mem, g, beta, i);
        todo := todo - {i};
      }
    } else {
      SerialGemv.UnitScale(old(mem[..]), mem[..], beta, g);
    }
  }

  /** y[i] += alpha * t for the row sum t, alone. */
  method AddOneRow(mem: array<Complex>, op: OpA, alpha: Complex, g: Geometry, i: int, t: Complex)
    requires Valid(g, mem.Length) && 0 <= i < g.m && t == RowSum(mem[..], op, g, i)
    modifies mem
    ensures RowsAdded(old(mem[..]), mem[..], op, alpha, g, RowRange(i, i + 1))
  {
    hide AAddr, XAddr, YAddr, Mul, Add, RowSum, RowsAdded, Valid;
    NothingAdded(mem[..], op, alpha, g);
    SerialGemv.AddScaledRow(mem, mem[..], op, alpha, g, {}, i, t);
    assert {} + {i} == RowRange(i, i + 1);
  }

  /** One item of the second loop: a dot product, a blocked kernel, or a lane reduction. */
  method AddItem(algo: Algo, mem: array<Complex>, op: OpA, alpha: Complex, g: Geometry, i: int, c: int)
    requires ValidAlgo(algo) && Valid(g, mem.Length) && 0 <= i && i + c <= g.m && g.n >= 0
    requires if algo.BlockedAlgo? then 0 <= c <= algo.mb else c == 1
    modifies mem
    ensures RowsAdded(old(mem[..]), mem[..], op, alpha, g, RowRange(i, i + c))
  {
    hide AAddr, XAddr, YAddr, Mul, Add, RowSum, RowsAdded, Valid, Covers, Reduce, Indices, RowTerm;
    match algo {
      case UnblockedAlgo =>
        var t := SerialGemv.RowDot(mem, op, g, i);
        AddOneRow(mem, op, alpha, g, i, t);
      case BlockedAlgo(mb) =>
        NothingAdded(mem[..], op, alpha, g);
        SerialGemv.Chunk(mb, mem, mem[..], op, alpha, g, {}, i, c);
        assert {} + RowRange(i, i + c) == RowRange(i, i + c);
      case VectorAlgo(reduction) =>
        var tree := reduction(i, 0, g.n);
        TreeOfRow(tree, mem[..], op, g, i);
        var t := RowReduce(tree, mem, op, g, i);
        AddOneRow(mem, op, alpha, g, i, t);
    }
  }

  /** What a team does between two barriers: the pending items in any order. No row may be
      both scaled and added to, as nothing says which would come first. */
  method Drain(pending: set<Work>, algo: Algo, mb: nat, mem: array<Complex>, op: OpA, alpha: Complex, beta: Complex,
               g: Geometry)
    requires ValidAlgo(algo) && Valid(g, mem.Length) && g.m > 0 && g.n >= 0
    requires if algo.BlockedAlgo? then 0 < mb <= algo.mb else mb == 1
    requires KnownWork(pending, g.m, mb) && Apart(pending, g.m, mb)
    modifies mem
    ensures Drained(old(mem[..]), mem[..], op, alpha, beta, g, mb, pending)
  {
    hide AAddr, XAddr, YAddr, Mul, Add, RowSum, Valid, Drained, ChunkOf, NumChunks, ChunkBegin, ChunkSize;
    ghost var base := mem[..];
    NothingDrained(base, op, alpha, beta, g, mb);
    var todo := pending;
    assert pending - todo == {};
    while todo != {}
      invariant todo <= pending
      invariant mem.Length == |base| && Drained(base, mem[..], op, alpha, beta, g, mb, pending - todo)
      decreases todo
    {
      var item :| item in todo;
      assert pending - (todo - {item}) == pending - todo + {item};
      match item {
        case ScaleRow(i) =>
          ScaleStep(base, mem[..], op, alpha, beta, g, mb, pending - todo, i);
          ScaleItem(mem, g, beta, i);
        case AddRows(c) =>
          ghost var cur := mem[..];
          ChunksPartition(g.m, mb);
          forall i | 0 <= i < g.m && ChunkOf(i, mb) == c
            ensures ScaleRow(i) !in pending
          {
            assert AddRows(ChunkOf(i, mb)) in pending;
          }
          AddItem(algo, mem, op, alpha, g, ChunkBegin(c, mb), ChunkSize(c, mb, g.m));
          AddStep(base, cur, mem[..], op, alpha, beta, g, mb, pending - todo, c);
      }
      todo := todo - {item};
    }
    assert pending - todo == pending;
  }

  // ------------------------------------------------------------------
  // The three kernels
  // ------------------------------------------------------------------

  /** The common course of the kernels. Without the barrier the second call of Drain would be
      given scaling and adding items at once whenever beta is not one. */
  method Run(algo: Algo, tsize: nat, mem: array<Complex>, op: OpA, alpha: Complex, beta: Complex, g: Geometry)
    requires tsize > 0 && ValidAlgo(algo) && Valid(g, mem.Length)
    modifies mem
    ensures GemvDone(old(mem[..]), mem[..], op, alpha, beta, g)
  {
    hide AAddr, XAddr, YAddr, Mul, Add, GemvDone, Scaled, RowsAdded, RowSum, Valid, Drained, NumChunks, RowsPerItem;
    if alpha == Zero || g.m <= 0 || g.n <= 0 {
      BetaPhase(mem, g, beta);
      ScaledIsAll(old(mem[..]), mem[..], op, alpha, beta, g);
      return;
    }
    var mb := RowsPerItem(algo, g.m, tsize);
    ItemRows(algo, g.m, tsize);
    var pending := if beta == One then {} else ScaleWork(g.m);
    if beta != One {
      Drain(pending, algo, mb, mem, op, alpha, beta, g);
      AllScaled(old(mem[..]), mem[..], op, alpha, beta, g, mb);
      pending := {}; // team_barrier
    } else {
      SerialGemv.UnitScale(mem[..], mem[..], beta, g);
    }
    ghost var base := mem[..];
    pending := pending + AddWork(NumChunks(g.m, mb));
    assert pending == AddWork(NumChunks(g.m, mb));
    Drain(pending, algo, mb, mem, op, alpha, beta, g);
    AllAdded(base, mem[..], op, alpha, beta, g, mb);
    ScaledThenAdded(old(mem[..]), base, mem[..], op, alpha, beta, g);
    // Blocked: team_barrier
  }

  method Unblocked(mem: array<Complex>, op: OpA, alpha: Complex, beta: Complex, g: Geometry)
    requires Valid(g, mem.Length)
    modifies mem
    ensures GemvDone(old(mem[..]), mem[..], op, alpha, beta, g)
  {
    hide GemvDone;
    Run(UnblockedAlgo, 1, mem, op, alpha, beta, g);
  }

  method Blocked(tsize: nat, mbAlgo: nat, mem: array<Complex>, op: OpA, alpha: Complex, beta: Complex, g: Geometry)
    requires tsize > 0 && 1 <= mbAlgo <= 5 && Valid(g, mem.Length)
    modifies mem
    ensures GemvDone(old(mem[..]), mem[..], op, alpha, beta, g)
  {
    hide GemvDone;
    Run(BlockedAlgo(mbAlgo), tsize, mem, op, alpha, beta, g);
  }

  /** TeamVectorGemvInternal: as Unblocked, each row reduced over the vector lanes. */
  method VectorUnblocked(mem: array<Complex>, op: OpA, alpha: Complex, beta: Complex, g: Geometry, reduction: Reduction)
    requires Valid(g, mem.Length) && Reduces(reduction)
    modifies mem
    ensures GemvDone(old(mem[..]), mem[..], op, alpha, beta, g)
  {
    hide GemvDone;
    Run(VectorAlgo(reduction), 1, mem, op, alpha, beta, g);
  }

  // ------------------------------------------------------------------
  // TeamGemv on views
  // ------------------------------------------------------------------

  /** Every algorithm, team size and transpose argument meets the specification of GEMV, and
      leaves every cell outside y alone. */
  method Invoke(mem: array<Complex>, tsize: nat, algo: Algo, trans: Op, alpha: Complex, a: SerialGemv.MatrixView,
                x: SerialGemv.VectorView, beta: Complex, y: SerialGemv.VectorView)
    requires SerialGemv.ViewsValid(trans, a, x, y, mem.Length) && ValidAlgo(algo) && tsize > 0
    modifies mem
    ensures SerialGemv.ViewsDone(old(mem[..]), mem[..], trans, alpha, a, x, beta, y)
  {
    hide GemvDone, SerialGemv.ViewsDone, SerialGemv.GeometryOf;
    var g := SerialGemv.GeometryOf(trans, a, x, y);
    match algo {
      case UnblockedAlgo =>
        Unblocked(mem, SerialGemv.OpAOf(trans), alpha, beta, g);
      case BlockedAlgo(mb) =>
        Blocked(tsize, mb, mem, SerialGemv.OpAOf(trans), alpha, beta, g);
      case VectorAlgo(reduction) =>
        VectorUnblocked(mem, SerialGemv.OpAOf(trans), alpha, beta, g, reduction);
    }
    SerialGemv.ViewsOfGeometry(old(mem[..]), mem[..], trans, alpha, a, x, beta, y);
  }
}
