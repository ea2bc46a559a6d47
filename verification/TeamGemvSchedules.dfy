/**
 Team GEMV on the barrier machine: the single loads and stores of the scaling loop and of
 the adding loop, in every interleaving. The barrier between the loops, which the kernels
 leave out when beta is one, is needed exactly when there is something to scale.
 */
module TeamGemvSchedules {
  import opened Scalars
  import opened Sums
  import opened StridedMemory
  import opened TeamGemv
  import opened BarrierMachine

  /** The arguments of a kernel, with the rows per item of its second loop: one for Unblocked,
      the chunk size for Blocked. */
  datatype Job = Job(op: OpA, alpha: Complex, beta: Complex, g: Geometry, mb: nat)

  ghost predicate ValidJob(job: Job, size: nat) { job.mb > 0 && Valid(job.g, size) }

  predicate Scales(job: Job) { job.beta != One }

  predicate Adds(job: Job) { job.alpha != Zero && job.g.m > 0 && job.g.n > 0 }

  // ------------------------------------------------------------------
  // The kernel
  // ------------------------------------------------------------------

  /** The items of a phase. */
  function WorkOf(job: Job, barrier: bool, p: int): set<Work>
    requires job.mb > 0
  {
    (if Scales(job) && p == 0 then ScaleWork(job.g.m) else {})
    + (if Adds(job) && p == (if barrier then 1 else 0) then AddWork(NumChunks(job.g.m, job.mb)) else {})
  }

  function ScaleProg(beta: Complex, y: int): seq<Instr<int>> {
    if beta == Zero then [Store(y, log => Zero)]
    else [Load(y), Store(y, log => Mul(LogAt(log, 0), beta))]
  }

  /** How many values a thread has loaded after j rounds of the loop over the columns, each
      of which loads one entry of x and the entry of A in each of c rows. */
  function Pos(c: nat, j: int): nat
    decreases j
  {
    if j <= 0 then 0 else Pos(c, j - 1) + 1 + c
  }

  function RowCell(g: Geometry, row: int, j: int, r: int): int { AAddr(g, row + r, j) }

  function Round(g: Geometry, row: int, c: nat, j: int): seq<Instr<int>> {
    [Load(XAddr(g, j))] + seq(c, (r: nat) => Load(RowCell(g, row, j, r)))
  }

  function Rounds(g: Geometry, row: int, c: nat, n: nat): seq<Instr<int>> {
    if n == 0 then [] else Rounds(g, row, c, n - 1) + Round(g, row, c, n - 1)
  }

  /** The products of row r of the chunk, from the loaded values. */
  ghost function LogTerm(log: seq<Complex>, op: OpA, c: nat, r: int): int -> Complex {
    j => Mul(ApplyOp(op, LogAt(log, Pos(c, j) + 1 + r)), LogAt(log, Pos(c, j)))
  }

  /** y[r] += alpha * t, once the old y[r] has been loaded. */
  ghost function AddStore(op: OpA, alpha: Complex, c: nat, n: nat, r: int): seq<Complex> -> Complex {
    log => Add(LogAt(log, Pos(c, n) + r), Mul(alpha, Sum(LogTerm(log, op, c, r), 0, n)))
  }

  ghost function Updates(op: OpA, alpha: Complex, g: Geometry, row: int, c: nat, n: nat, k: nat): seq<Instr<int>> {
    if k == 0 then []
    else Updates(op, alpha, g, row, c, n, k - 1)
         + [Load(YAddr(g, row + (k - 1))), Store(YAddr(g, row + (k - 1)), AddStore(op, alpha, c, n, k - 1))]
  }

  ghost function AddProg(op: OpA, alpha: Complex, g: Geometry, row: int, c: nat): seq<Instr<int>> {
    Rounds(g, row, c, Count(g.n)) + Updates(op, alpha, g, row, c, Count(g.n), c)
  }

  ghost function Prog(job: Job, w: Work): seq<Instr<int>>
    requires job.mb > 0
  {
    match w
    case ScaleRow(i) => ScaleProg(job.beta, YAddr(job.g, i))
    case AddRows(c) =>
      AddProg(job.op, job.alpha, job.g, ChunkBegin(c, job.mb), Count(ChunkSize(c, job.mb, job.g.m)))
  }

  ghost function GemvKernel(job: Job, barrier: bool): Kernel<Work, int>
    requires job.mb > 0
  {
    Kernel(1, if barrier then 2 else 1, (t, p, w) => t == 0 && w in WorkOf(job, barrier, p), (t, p, w) => Prog(job, w))
  }

  // ------------------------------------------------------------------
  // Footprints
  // ------------------------------------------------------------------

  ghost predicate InputCell(g: Geometry, l: int) {
    || (exists j :: 0 <= j < g.n && l == XAddr(g, j))
    || (exists i, j :: 0 <= i < g.m && 0 <= j < g.n && l == AAddr(g, i, j))
  }

  ghost predicate OutputCell(g: Geometry, row: int, c: int, l: int) {
    exists i :: row <= i < row + c && l == YAddr(g, i)
  }

  lemma {:induction false} RoundsTouch(g: Geometry, row: int, c: nat, n: nat, k: nat)
    requires k < |Rounds(g, row, c, n)| && n <= Count(g.n) && 0 <= row && row + c <= g.m
    ensures Rounds(g, row, c, n)[k].Load? && InputCell(g, Cell(Rounds(g, row, c, n)[k]))
  {
    hide AAddr, XAddr;
    if n > 0 {
      var before := |Rounds(g, row, c, n - 1)|;
      if k < before {
        RoundsTouch(g, row, c, n - 1, k);
      } else if k > before {
        assert Rounds(g, row, c, n)[k] == Load(RowCell(g, row, n - 1, k - before - 1));
      }
    }
  }

  lemma {:induction false} UpdatesTouch(op: OpA, alpha: Complex, g: Geometry, row: int, c: nat, n: nat, k: nat, h: nat)
    requires k <= c
    ensures |Updates(op, alpha, g, row, c, n, k)| == 2 * k
    ensures h < 2 * k ==> OutputCell(g, row, c, Cell(Updates(op, alpha, g, row, c, n, k)[h]))
  {
    hide YAddr, AddStore;
    if k > 0 {
      UpdatesTouch(op, alpha, g, row, c, n, k - 1, h);
    }
  }

  /** Row r of the chunk is loaded and then stored. */
  lemma {:induction false} UpdateAt(op: OpA, alpha: Complex, g: Geometry, row: int, c: nat, n: nat, k: nat, r: nat)
    requires r < k <= c
    ensures |Updates(op, alpha, g, row, c, n, k)| == 2 * k
    ensures Updates(op, alpha, g, row, c, n, k)[2 * r] == Load(YAddr(g, row + r))
    ensures Updates(op, alpha, g, row, c, n, k)[2 * r + 1] == Store(YAddr(g, row + r), AddStore(op, alpha, c, n, r))
  {
    hide YAddr, AddStore;
    UpdatesTouch(op, alpha, g, row, c, n, k - 1, 0);
    if r < k - 1 {
      UpdateAt(op, alpha, g, row, c, n, k - 1, r);
    }
  }

  lemma AddStores(op: OpA, alpha: Complex, g: Geometry, row: int, c: nat, r: nat)
    requires r < c
    ensures Stores(AddProg(op, alpha, g, row, c), YAddr(g, row + r))
  {
    hide YAddr, AddStore, Rounds;
    var prog := AddProg(op, alpha, g, row, c);
    var k := |Rounds(g, row, c, Count(g.n))| + 2 * r + 1;
    UpdateAt(op, alpha, g, row, c, Count(g.n), c, r);
    assert Cell(prog[k]) == YAddr(g, row + r);
  }

  lemma AddFootprint(op: OpA, alpha: Complex, g: Geometry, row: int, c: nat, l: int)
    requires 0 <= row && row + c <= g.m
    ensures Stores(AddProg(op, alpha, g, row, c), l) ==> OutputCell(g, row, c, l)
    ensures Touches(AddProg(op, alpha, g, row, c), l) ==> InputCell(g, l) || OutputCell(g, row, c, l)
  {
    hide YAddr, InputCell, OutputCell;
    var n := Count(g.n);
    var loads := |Rounds(g, row, c, n)|;
    UpdatesTouch(op, alpha, g, row, c, n, c, 0);
    var prog := AddProg(op, alpha, g, row, c);
    forall k | 0 <= k < |prog|
      ensures k < loads ==> prog[k].Load? && InputCell(g, Cell(prog[k]))
      ensures k >= loads ==> OutputCell(g, row, c, Cell(prog[k]))
    {
      if k < loads {
        RoundsTouch(g, row, c, n, k);
      } else {
        UpdatesTouch(op, alpha, g, row, c, n, c, k - loads);
      }
    }
  }

  lemma InputsApart(g: Geometry, size: nat, i: int)
    requires Valid(g, size) && 0 <= i < g.m
    ensures !InputCell(g, YAddr(g, i))
  {
    hide AAddr, XAddr, YAddr;
  }

  /** The rows of y an item works on. */
  ghost predicate OwnRow(job: Job, w: Work, i: int)
    requires job.mb > 0
  {
    0 <= i < job.g.m && match w case ScaleRow(k) => k == i case AddRows(c) => c == ChunkOf(i, job.mb)
  }

  ghost predicate OwnCell(job: Job, w: Work, l: int)
    requires job.mb > 0
  {
    exists i :: OwnRow(job, w, i) && l == YAddr(job.g, i)
  }

  lemma Footprint(job: Job, barrier: bool, p: int, w: Work, l: int)
    requires job.mb > 0 && w in WorkOf(job, barrier, p)
    ensures Stores(Prog(job, w), l) ==> OwnCell(job, w, l)
    ensures Touches(Prog(job, w), l) ==> OwnCell(job, w, l) || InputCell(job.g, l)
  {
    hide AAddr, XAddr, YAddr, AddProg, InputCell, ChunkOf, NumChunks, ChunkBegin, ChunkSize;
    match w
    case ScaleRow(i) =>
      assert OwnRow(job, w, i);
    case AddRows(c) =>
      ChunksPartition(job.g.m, job.mb);
      var row, size := ChunkBegin(c, job.mb), ChunkSize(c, job.mb, job.g.m);
      AddFootprint(job.op, job.alpha, job.g, row, size, l);
      if OutputCell(job.g, row, size, l) {
        var i :| row <= i < row + size && l == YAddr(job.g, i);
        ChunkOfRow(i, job.g.m, job.mb);
        assert InChunk(i, c, job.mb, job.g.m);
        assert OwnRow(job, w, i);
      }
  }

  // ------------------------------------------------------------------
  // Race freedom
  // ------------------------------------------------------------------

  /** Two items of a phase work on different rows. */
  lemma ItemsApart(job: Job, size: nat, barrier: bool, p: int, v: Work, w: Work, l: int)
    requires ValidJob(job, size) && (barrier || !Scales(job) || !Adds(job))
    requires v in WorkOf(job, barrier, p) && w in WorkOf(job, barrier, p) && v != w && OwnCell(job, v, l)
    ensures !OwnCell(job, w, l) && !InputCell(job.g, l)
  {
    hide AAddr, XAddr, YAddr, InputCell, ChunkOf, NumChunks, OwnRow;
    var i :| OwnRow(job, v, i) && l == YAddr(job.g, i);
    RowInRange(job, v, i);
    InputsApart(job.g, size, i);
    if OwnCell(job, w, l) {
      var k :| OwnRow(job, w, k) && l == YAddr(job.g, k);
      RowInRange(job, w, k);
      assert i == k;
      SameItem(job, v, w, i);
      assert false;
    }
  }

  lemma RowInRange(job: Job, w: Work, i: int)
    requires job.mb > 0 && OwnRow(job, w, i)
    ensures 0 <= i < job.g.m
  {
  }

  lemma SameItem(job: Job, v: Work, w: Work, i: int)
    requires job.mb > 0 && OwnRow(job, v, i) && OwnRow(job, w, i) && v.ScaleRow? == w.ScaleRow?
    ensures v == w
  {
  }

  /** Without the barrier the scaling of row 0 and the first item that adds to it clash. */
  lemma MissingBarrierRaces(job: Job, size: nat)
    requires ValidJob(job, size) && Scales(job) && Adds(job)
    ensures !RaceFree(GemvKernel(job, false))
  {
    hide AAddr, XAddr, YAddr, ChunkOf, NumChunks, ChunkSize, Rounds, ScaleWork, AddWork;
    var k := GemvKernel(job, false);
    var v, w, l := ScaleRow(0), AddRows(0), YAddr(job.g, 0);
    FirstChunk(job.g.m, job.mb);
    assert v in ScaleWork(job.g.m) && w in AddWork(NumChunks(job.g.m, job.mb));
    assert k.active(0, 0, v) && k.active(0, 0, w);
    ScaleStores(job.beta, l);
    AddStores(job.op, job.alpha, job.g, 0, Count(ChunkSize(0, job.mb, job.g.m)), 0);
    StoresTouches(k.prog(0, 0, w), l);
  }

  lemma FirstChunk(m: nat, mb: nat)
    requires m > 0 && mb > 0
    ensures 0 < NumChunks(m, mb) && ChunkBegin(0, mb) == 0 && ChunkSize(0, mb, m) > 0
  {
    ChunkOfRow(0, m, mb);
    ChunksPartition(m, mb);
    hide NumChunks, ChunkSize, ChunkOf;
  }

  lemma ScaleStores(beta: Complex, y: int)
    ensures Stores(ScaleProg(beta, y), y)
  {
    var prog := ScaleProg(beta, y);
    assert Cell(prog[|prog| - 1]) == y;
  }

  /** The kernel is race free exactly with the barrier, or when one of the loops has nothing to
      do. The kernels have the barrier, when something is added, exactly if beta is not one. */
  lemma BarrierIffScaled(job: Job, size: nat, barrier: bool)
    requires ValidJob(job, size)
    ensures RaceFree(GemvKernel(job, barrier)) <==> barrier || !Scales(job) || !Adds(job)
  {
    hide Prog, OwnCell, InputCell, WorkOf;
    if barrier || !Scales(job) || !Adds(job) {
      var k := GemvKernel(job, barrier);
      forall t, p, v, w, l | k.active(t, p, v) && k.active(t, p, w) && v != w && Stores(k.prog(t, p, v), l)
        ensures !Touches(k.prog(t, p, w), l)
      {
        Footprint(job, barrier, p, v, l);
        Footprint(job, barrier, p, w, l);
        ItemsApart(job, size, barrier, p, v, w, l);
      }
    } else {
      MissingBarrierRaces(job, size);
    }
  }
}
