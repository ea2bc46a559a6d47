/**
 What a complete schedule of team GEMV leaves in memory: with the barrier where beta is not
 one, the update of the specification; without it, not.
 */
module TeamGemvScheduleResult {
  import opened ComplexAlgebra
  import opened Scalars
  import opened Sums
  import opened StridedMemory
  import opened TeamGemv
  import opened TeamGemvSchedules
  import opened BarrierMachine
  import opened ScheduleCompletion
  import SerialGemv

  /** The memory of the machine as the kernels see it. */
  ghost function Contents(m: Memory<int>, size: nat): (s: seq<Complex>)
    ensures |s| == size
    ensures forall p :: 0 <= p < size ==> s[p] == Get(m, p)
  {
    seq(size, p => Get(m, p))
  }

  // ------------------------------------------------------------------
  // The effect of single items
  // ------------------------------------------------------------------

  lemma ScaleEffect(beta: Complex, y: int, m: Memory<int>)
    ensures Get(Solo(ScaleProg(beta, y), m, |ScaleProg(beta, y)|).mem, y) == Mul(beta, Get(m, y))
  {
    hide Mul;
    var prog := ScaleProg(beta, y);
    assert Solo(prog, m, 0) == Local([], m);
    ScaledCell(beta, Get(m, y));
    if beta != Zero {
      assert Solo(prog, m, 1) == Local([Get(m, y)], m);
    }
  }

  /** The loads of one round are where the later sums look for them. */
  ghost predicate RoundAt(prog: seq<Instr<int>>, g: Geometry, row: int, c: nat, j: int) {
    && Pos(c, j) + c < |prog|
    && prog[Pos(c, j)] == Load(XAddr(g, j))
    && forall r :: 0 <= r < c ==> prog[Pos(c, j) + 1 + r] == Load(RowCell(g, row, j, r))
  }

  lemma {:induction false} RoundsShape(g: Geometry, row: int, c: nat, n: nat, j: nat)
    ensures |Rounds(g, row, c, n)| == Pos(c, n)
    ensures j < n ==> Pos(c, j) + c < Pos(c, n) && RoundAt(Rounds(g, row, c, n), g, row, c, j)
  {
    hide AAddr, XAddr, RowCell;
    if n > 0 {
      RoundsShape(g, row, c, n - 1, j);
      var before := Rounds(g, row, c, n - 1);
      var round := Round(g, row, c, n - 1);
      assert Rounds(g, row, c, n) == before + round && |round| == 1 + c;
      if j == n - 1 {
        forall r | 0 <= r < c
          ensures (before + round)[Pos(c, j) + 1 + r] == Load(RowCell(g, row, j, r))
        {
          assert round[1 + r] == Load(RowCell(g, row, j, r));
        }
      } else if j < n - 1 {
        forall r | 0 <= r < c
          ensures (before + round)[Pos(c, j) + 1 + r] == Load(RowCell(g, row, j, r))
        {
        }
      }
    }
  }

  /** The values a thread has loaded when the rounds are over. */
  ghost predicate Loaded(g: Geometry, row: int, c: nat, n: nat, m: Memory<int>, log: seq<Complex>) {
    |log| >= Pos(c, n) && forall k :: 0 <= k < Pos(c, n) && k < |Rounds(g, row, c, n)| ==>
      log[k] == Get(m, Cell(Rounds(g, row, c, n)[k]))
  }

  lemma LoadedAt(g: Geometry, row: int, c: nat, n: nat, m: Memory<int>, log: seq<Complex>, j: nat, r: nat)
    requires Loaded(g, row, c, n, m, log) && j < n && r < c
    ensures LogAt(log, Pos(c, j)) == Get(m, XAddr(g, j))
    ensures LogAt(log, Pos(c, j) + 1 + r) == Get(m, RowCell(g, row, j, r))
  {
    hide AAddr, XAddr, RowCell, Rounds, Pos;
    RoundsShape(g, row, c, n, j);
    var rounds := Rounds(g, row, c, n);
    assert rounds[Pos(c, j)] == Load(XAddr(g, j));
    assert rounds[Pos(c, j) + 1 + r] == Load(RowCell(g, row, j, r));
  }

  lemma SumFromLog(op: OpA, g: Geometry, row: int, c: nat, m: Memory<int>, size: nat, log: seq<Complex>, r: nat)
    requires Valid(g, size) && Loaded(g, row, c, Count(g.n), m, log) && r < c && 0 <= row && row + c <= g.m
    ensures Sum(LogTerm(log, op, c, r), 0, Count(g.n)) == RowSum(Contents(m, size), op, g, row + r)
  {
    hide Mul, AAddr, XAddr, YAddr, Loaded, Pos, Contents;
    var n := Count(g.n);
    forall j | 0 <= j < n
      ensures LogTerm(log, op, c, r)(j) == RowTerm(Contents(m, size), op, g, row + r)(j)
    {
      LoadedAt(g, row, c, n, m, log, j, r);
      assert RowCell(g, row, j, r) == AAddr(g, row + r, j);
    }
    SumCongruence(LogTerm(log, op, c, r), RowTerm(Contents(m, size), op, g, row + r), 0, n);
  }

  ghost function RowResult(op: OpA, alpha: Complex, g: Geometry, m: Memory<int>, size: nat, i: int): Complex {
    Add(Get(m, YAddr(g, i)), Mul(alpha, RowSum(Contents(m, size), op, g, i)))
  }

  /** State of an adding item after its rounds and k of its updates. */
  ghost predicate AddProgress(op: OpA, alpha: Complex, g: Geometry, row: int, c: nat, m: Memory<int>, size: nat,
                              k: nat, l: Local<int>) {
    && |l.log| == Pos(c, Count(g.n)) + k
    && Loaded(g, row, c, Count(g.n), m, l.log)
    && (forall i :: row <= i < row + k ==> Get(l.mem, YAddr(g, i)) == RowResult(op, alpha, g, m, size, i))
    && (forall i :: row + k <= i < row + c ==> Get(l.mem, YAddr(g, i)) == Get(m, YAddr(g, i)))
  }

  lemma AddStep(op: OpA, alpha: Complex, g: Geometry, row: int, c: nat, m: Memory<int>, size: nat, k: nat,
                l: Local<int>)
    requires Valid(g, size) && 0 <= row && row + c <= g.m && k < c
    requires AddProgress(op, alpha, g, row, c, m, size, k, l)
    ensures var y := YAddr(g, row + k);
            var log := l.log + [Get(l.mem, y)];
            AddProgress(op, alpha, g, row, c, m, size, k + 1,
                        Local(log, l.mem[y := AddStore(op, alpha, c, Count(g.n), k)(log)]))
  {
    hide Mul, Add, AAddr, XAddr, YAddr, Rounds, Sum, RowSum, LogTerm, Pos;
    var y := YAddr(g, row + k);
    var log := l.log + [Get(l.mem, y)];
    SumFromLog(op, g, row, c, m, size, log, k);
    assert LogAt(log, Pos(c, Count(g.n)) + k) == Get(m, y);
    assert AddStore(op, alpha, c, Count(g.n), k)(log) == RowResult(op, alpha, g, m, size, row + k);
  }

  lemma {:induction false} AddUpdates(op: OpA, alpha: Complex, g: Geometry, row: int, c: nat, m: Memory<int>,
                                      size: nat, k: nat)
    requires Valid(g, size) && 0 <= row && row + c <= g.m && k <= c
    ensures |AddProg(op, alpha, g, row, c)| == Pos(c, Count(g.n)) + 2 * c
    ensures AddProgress(op, alpha, g, row, c, m, size, k,
                        Solo(AddProg(op, alpha, g, row, c), m, Pos(c, Count(g.n)) + 2 * k))
  {
    hide AAddr, XAddr, YAddr, AddStore, Pos, AddProgress, Valid, AddProg;
    var n := Count(g.n);
    var prog := AddProg(op, alpha, g, row, c);
    AddProgLength(op, alpha, g, row, c);
    if k == 0 {
      AddLoads(op, alpha, g, row, c, m, size);
    } else {
      AddUpdates(op, alpha, g, row, c, m, size, k - 1);
      AddProgAt(op, alpha, g, row, c, k - 1);
      var y := YAddr(g, row + (k - 1));
      var at := Pos(c, n) + 2 * (k - 1);
      var l := Solo(prog, m, at);
      assert Solo(prog, m, at + 1) == Local(l.log + [Get(l.mem, y)], l.mem);
      AddStep(op, alpha, g, row, c, m, size, k - 1, l);
    }
  }

  lemma AddProgLength(op: OpA, alpha: Complex, g: Geometry, row: int, c: nat)
    ensures |AddProg(op, alpha, g, row, c)| == Pos(c, Count(g.n)) + 2 * c
  {
    hide Rounds, Updates, Pos;
    RoundsShape(g, row, c, Count(g.n), 0);
    UpdatesTouch(op, alpha, g, row, c, Count(g.n), c, 0);
  }

  lemma AddProgAt(op: OpA, alpha: Complex, g: Geometry, row: int, c: nat, r: nat)
    requires r < c
    ensures var prog, at := AddProg(op, alpha, g, row, c), Pos(c, Count(g.n)) + 2 * r;
            && at + 1 < |prog| && prog[at] == Load(YAddr(g, row + r))
            && prog[at + 1] == Store(YAddr(g, row + r), AddStore(op, alpha, c, Count(g.n), r))
  {
    hide Rounds, Updates, Pos, YAddr, AddStore;
    RoundsShape(g, row, c, Count(g.n), 0);
    UpdateAt(op, alpha, g, row, c, Count(g.n), c, r);
  }

  lemma AddLoads(op: OpA, alpha: Complex, g: Geometry, row: int, c: nat, m: Memory<int>, size: nat)
    requires 0 <= row && row + c <= g.m
    ensures Pos(c, Count(g.n)) <= |AddProg(op, alpha, g, row, c)|
    ensures AddProgress(op, alpha, g, row, c, m, size, 0, Solo(AddProg(op, alpha, g, row, c), m, Pos(c, Count(g.n))))
  {
    hide AAddr, XAddr, YAddr, Updates, Rounds, Pos, InputCell;
    var n := Count(g.n);
    var prog := AddProg(op, alpha, g, row, c);
    RoundsShape(g, row, c, n, 0);
    forall k | 0 <= k < Pos(c, n)
      ensures prog[k].Load?
    {
      RoundsTouch(g, row, c, n, k);
    }
    LoadsOnly(prog, m, Pos(c, n));
  }

  /** Running alone, an item of the second loop adds to each of its rows its row sum. */
  lemma AddEffect(op: OpA, alpha: Complex, g: Geometry, row: int, c: nat, m: Memory<int>, size: nat, i: int)
    requires Valid(g, size) && 0 <= row && row + c <= g.m && row <= i < row + c
    ensures Get(Solo(AddProg(op, alpha, g, row, c), m, |AddProg(op, alpha, g, row, c)|).mem, YAddr(g, i))
            == RowResult(op, alpha, g, m, size, i)
  {
    hide AddProg, Pos, Loaded, RowResult, Valid;
    AddUpdates(op, alpha, g, row, c, m, size, c);
  }

  // ------------------------------------------------------------------
  // The effect of a phase
  // ------------------------------------------------------------------

  /** The value the items of a phase leave in row i. */
  lemma RowAfterPhase(job: Job, size: nat, barrier: bool, p: int, m: Memory<int>, m': Memory<int>, i: int)
    requires ValidJob(job, size) && PhaseResult(GemvKernel(job, barrier), 0, p, m, m') && 0 <= i < job.g.m
    ensures ScaleRow(i) in WorkOf(job, barrier, p) ==>
              Get(m', YAddr(job.g, i)) == Mul(job.beta, Get(m, YAddr(job.g, i)))
    ensures AddRows(ChunkOf(i, job.mb)) in WorkOf(job, barrier, p) ==>
              Get(m', YAddr(job.g, i)) == RowResult(job.op, job.alpha, job.g, m, size, i)
  {
    hide AAddr, XAddr, YAddr, AddProg, ScaleProg, ChunkOf, NumChunks, ChunkBegin, ChunkSize;
    hide WorkOf, Valid, RowResult, Mul;
    var k := GemvKernel(job, barrier);
    if ScaleRow(i) in WorkOf(job, barrier, p) {
      assert k.active(0, p, ScaleRow(i));
      ScaleStores(job.beta, YAddr(job.g, i));
      ScaleEffect(job.beta, YAddr(job.g, i), m);
    }
    var c := ChunkOf(i, job.mb);
    if AddRows(c) in WorkOf(job, barrier, p) {
      assert k.active(0, p, AddRows(c));
      ChunkOfRow(i, job.g.m, job.mb);
      ChunksPartition(job.g.m, job.mb);
      assert InChunk(i, c, job.mb, job.g.m);
      var row, rows := ChunkBegin(c, job.mb), ChunkSize(c, job.mb, job.g.m);
      AddStores(job.op, job.alpha, job.g, row, rows, i - row);
      AddEffect(job.op, job.alpha, job.g, row, rows, m, size, i);
    }
  }

  /** A cell no item of the phase owns is as before. */
  lemma CellAfterPhase(job: Job, barrier: bool, p: int, m: Memory<int>, m': Memory<int>, l: int)
    requires job.mb > 0 && PhaseResult(GemvKernel(job, barrier), 0, p, m, m')
    requires forall w :: w in WorkOf(job, barrier, p) ==> !OwnCell(job, w, l)
    ensures Get(m', l) == Get(m, l)
  {
    hide OwnCell, WorkOf, Prog, InputCell;
    var k := GemvKernel(job, barrier);
    forall w | k.active(0, p, w)
      ensures !Stores(k.prog(0, p, w), l)
    {
      Footprint(job, barrier, p, w, l);
    }
    assert NotForeign(k, 0, l) && Quiet(k, 0, p, l);
  }

  /** A phase drains its items, in the sense in which the sequential form drains them. */
  lemma PhaseDrains(job: Job, size: nat, barrier: bool, p: int, m: Memory<int>, m': Memory<int>)
    requires ValidJob(job, size) && PhaseResult(GemvKernel(job, barrier), 0, p, m, m')
    ensures Drained(Contents(m, size), Contents(m', size), job.op, job.alpha, job.beta, job.g, job.mb,
                    WorkOf(job, barrier, p))
  {
    hide AAddr, XAddr, YAddr, ChunkOf, NumChunks, WorkOf, RowSum, Mul, Add, PhaseResult;
    YCellsInBounds(job.g, size);
    forall l | 0 <= l < size && !IsYCell(job.g, l)
      ensures Get(m', l) == Get(m, l)
    {
      CellAfterPhase(job, barrier, p, m, m', l);
    }
    forall i | 0 <= i < job.g.m && ScaleRow(i) !in WorkOf(job, barrier, p)
                                && AddRows(ChunkOf(i, job.mb)) !in WorkOf(job, barrier, p)
      ensures Get(m', YAddr(job.g, i)) == Get(m, YAddr(job.g, i))
    {
      CellAfterPhase(job, barrier, p, m, m', YAddr(job.g, i));
    }
    forall i | 0 <= i < job.g.m
      ensures ScaleRow(i) in WorkOf(job, barrier, p) ==>
                Get(m', YAddr(job.g, i)) == Mul(job.beta, Get(m, YAddr(job.g, i)))
      ensures AddRows(ChunkOf(i, job.mb)) in WorkOf(job, barrier, p) ==>
                Get(m', YAddr(job.g, i)) == RowResult(job.op, job.alpha, job.g, m, size, i)
    {
      RowAfterPhase(job, size, barrier, p, m, m', i);
    }
  }

  // ------------------------------------------------------------------
  // Every schedule
  // ------------------------------------------------------------------

  /** Whether the kernels meet at a barrier between their loops. */
  predicate HasBarrier(job: Job) { Adds(job) && job.beta != One }

  ghost function TeamKernel(job: Job): Kernel<Work, int>
    requires job.mb > 0
  {
    GemvKernel(job, HasBarrier(job))
  }

  /** The barrier is there exactly when the kernel would otherwise have a race. */
  lemma BarrierExactlyWhenNeeded(job: Job, size: nat)
    requires ValidJob(job, size)
    ensures RaceFree(TeamKernel(job))
    ensures HasBarrier(job) <==> !RaceFree(GemvKernel(job, false))
  {
    hide RaceFree;
    BarrierIffScaled(job, size, HasBarrier(job));
    BarrierIffScaled(job, size, false);
  }

  lemma AccessesInBounds(job: Job, size: nat, t: int, p: int, w: Work, l: int)
    requires ValidJob(job, size) && TeamKernel(job).active(t, p, w) && Touches(TeamKernel(job).prog(t, p, w), l)
    ensures 0 <= l < size
  {
    hide AAddr, XAddr, YAddr, Prog, WorkOf;
    Footprint(job, HasBarrier(job), p, w, l);
    YCellsInBounds(job.g, size);
  }

  /** When every team is through, memory is what the last phase left. */
  lemma FinalMemory(job: Job, size: nat, barrier: bool, s: State<Work, int>)
    requires job.mb > 0 && Inv(GemvKernel(job, barrier), s) && Finished(GemvKernel(job, barrier), s)
    ensures |s.teams| == 1 && s.teams[0].phase == GemvKernel(job, barrier).phases
    ensures Contents(s.mem, size) == Contents(s.teams[0].start, size)
  {
    hide Prog, ScaleWork, AddWork, NumChunks;
    var k := GemvKernel(job, barrier);
    forall l: int
      ensures Get(s.mem, l) == Get(s.teams[0].start, l)
    {
      assert NotForeign(k, 0, l) && Quiet(k, 0, k.phases, l);
      assert TeamView(k, 0, s.teams[0], s.mem);
    }
  }

  /** The phases of a kernel have drained the work of both loops, in order. */
  lemma PhasesCompute(job: Job, size: nat, m0: Memory<int>, m1: Memory<int>, m2: Memory<int>)
    requires ValidJob(job, size)
    requires if HasBarrier(job)
             then PhaseResult(TeamKernel(job), 0, 0, m0, m1) && PhaseResult(TeamKernel(job), 0, 1, m1, m2)
             else m1 == m0 && PhaseResult(TeamKernel(job), 0, 0, m0, m2)
    ensures GemvDone(Contents(m0, size), Contents(m2, size), job.op, job.alpha, job.beta, job.g)
  {
    hide PhaseResult, GemvKernel, Drained, Scaled, RowsAdded, GemvDone, NumChunks, Valid, SameOffY;
    var before, mid, after := Contents(m0, size), Contents(m1, size), Contents(m2, size);
    if HasBarrier(job) {
      PhaseDrains(job, size, true, 0, m0, m1);
      assert WorkOf(job, true, 0) == ScaleWork(job.g.m);
      AllScaled(before, mid, job.op, job.alpha, job.beta, job.g, job.mb);
      PhaseDrains(job, size, true, 1, m1, m2);
      assert WorkOf(job, true, 1) == AddWork(NumChunks(job.g.m, job.mb));
      AllAdded(mid, after, job.op, job.alpha, job.beta, job.g, job.mb);
      ScaledThenAdded(before, mid, after, job.op, job.alpha, job.beta, job.g);
    } else {
      PhaseDrains(job, size, false, 0, m0, m2);
      OnePhase(job, before, after);
    }
  }

  lemma OnePhase(job: Job, before: seq<Complex>, after: seq<Complex>)
    requires ValidJob(job, |before|) && !HasBarrier(job)
    requires Drained(before, after, job.op, job.alpha, job.beta, job.g, job.mb, WorkOf(job, false, 0))
    ensures GemvDone(before, after, job.op, job.alpha, job.beta, job.g)
  {
    hide Drained, Scaled, RowsAdded, GemvDone, NumChunks, Valid;
    if Adds(job) {
      assert WorkOf(job, false, 0) == AddWork(NumChunks(job.g.m, job.mb));
      AllAdded(before, after, job.op, job.alpha, job.beta, job.g, job.mb);
      SerialGemv.UnitScale(before, before, job.beta, job.g);
      ScaledThenAdded(before, before, after, job.op, job.alpha, job.beta, job.g);
    } else {
      if Scales(job) {
        assert WorkOf(job, false, 0) == ScaleWork(job.g.m);
        AllScaled(before, after, job.op, job.alpha, job.beta, job.g, job.mb);
      } else {
        assert WorkOf(job, false, 0) == {};
        OnlyNothing(before, after, job.op, job.alpha, job.beta, job.g, job.mb);
        SerialGemv.UnitScale(before, after, job.beta, job.g);
      }
      ScaledIsAll(before, after, job.op, job.alpha, job.beta, job.g);
    }
  }

  /** Every schedule of the single loads and stores that respects the barrier, for rows as
      for chunks of rows, leaves the update of the specification in memory and nothing else. */
  lemma EveryScheduleComputesGemv(job: Job, size: nat, mem: Memory<int>, events: seq<Event<Work>>,
                                  s: State<Work, int>)
    requires ValidJob(job, size)
    requires Reaches(TeamKernel(job), mem, events, s) && Finished(TeamKernel(job), s)
    ensures GemvDone(Contents(mem, size), Contents(s.mem, size), job.op, job.alpha, job.beta, job.g)
  {
    var k := TeamKernel(job);
    BarrierExactlyWhenNeeded(job, size);
    hide RaceFree, Reaches, GemvDone, Inv, TeamView, PhaseResult, Valid, Contents;
    ReachableInv(k, mem, events, s);
    ReachableSnapshots(k, mem, events, s);
    FinalMemory(job, size, HasBarrier(job), s);
    var start := s.teams[0].start;
    assert Snapshot(k, mem, 0, k.phases, start);
    var m1 :| Precedes(k, 0, k.phases, m1, start) && Snapshot(k, mem, 0, k.phases - 1, m1);
    if HasBarrier(job) {
      var m0 :| Precedes(k, 0, 1, m0, m1) && Snapshot(k, mem, 0, 0, m0);
      PhasesCompute(job, size, m0, m1, start);
    } else {
      PhasesCompute(job, size, m1, m1, start);
    }
  }

  /** Every partial schedule extends to a complete one. */
  lemma GemvRunsComplete(job: Job, size: nat, mem: Memory<int>, events: seq<Event<Work>>, s: State<Work, int>)
    returns (events': seq<Event<Work>>, s': State<Work, int>)
    requires ValidJob(job, size) && Reaches(TeamKernel(job), mem, events, s)
    ensures events <= events' && Reaches(TeamKernel(job), mem, events', s') && Finished(TeamKernel(job), s')
  {
    BarrierExactlyWhenNeeded(job, size);
    hide RaceFree, Reaches, Finished, WorkOf;
    events', s' := RunsComplete(TeamKernel(job), mem, (t, p) => WorkOf(job, HasBarrier(job), p), events, s);
  }

  // ------------------------------------------------------------------
  // Without the barrier
  // ------------------------------------------------------------------

  /** For one row, a schedule of the kernel without the barrier that scales last. */
  lemma AddsThenScales(job: Job, size: nat, mem: Memory<int>) returns (events: seq<Event<Work>>, s: State<Work, int>)
    requires ValidJob(job, size) && job.g.m == 1 && Scales(job) && Adds(job)
    ensures Reaches(GemvKernel(job, false), mem, events, s) && Finished(GemvKernel(job, false), s)
    ensures Get(s.mem, YAddr(job.g, 0))
            == Mul(job.beta, RowResult(job.op, job.alpha, job.g, mem, size, 0))
  {
    hide AAddr, XAddr, YAddr, ScaleProg, AddProg, NumChunks, ChunkBegin, ChunkSize;
    hide RowResult, Mul, Reaches, Solo, ChunkOf, WorkOf, Finished;
    FirstChunk(1, job.mb);
    ChunksPartition(1, job.mb);
    OnlyChunk(job);
    var k := GemvKernel(job, false);
    events, s := RunBoth(k, mem, AddRows(0), ScaleRow(0));
    AddEffect(job.op, job.alpha, job.g, 0, ChunkSize(0, job.mb, 1), mem, size, 0);
    ScaleEffect(job.beta, YAddr(job.g, 0), MemoryAfter(k, AddRows(0), mem));
  }

  lemma OnlyChunk(job: Job)
    requires job.mb > 0 && job.g.m == 1 && Scales(job) && Adds(job)
    ensures WorkOf(job, false, 0) == {ScaleRow(0), AddRows(0)}
  {
    ChunkOfRow(0, 1, job.mb);
  }

  lemma DifferenceOfOrders(beta: Complex, y: Complex, s: Complex)
    ensures Add(Mul(beta, Add(y, s)), Neg(Add(Mul(beta, y), s))) == Mul(Add(beta, Complex(-1.0, 0.0)), s)
  {
  }

  /** A row whose product is added before it is scaled ends right exactly when beta is one or
      the product is zero. */
  lemma OrderMatters(beta: Complex, y: Complex, s: Complex)
    ensures Mul(beta, Add(y, s)) == Add(Mul(beta, y), s) <==> beta == One || s == Zero
  {
    DifferenceOfOrders(beta, y, s);
    NoZeroDivisors(Add(beta, Complex(-1.0, 0.0)), s);
    hide Mul;
  }

  /** Without the barrier some complete schedule misses the specification: for every y, A, x
      and strides of one row, every beta but one, and every alpha, unless the row adds zero. */
  lemma MissingBarrierFails(job: Job, size: nat, mem: Memory<int>)
    returns (events: seq<Event<Work>>, s: State<Work, int>)
    requires ValidJob(job, size) && job.g.m == 1 && Scales(job) && Adds(job)
    requires Mul(job.alpha, RowSum(Contents(mem, size), job.op, job.g, 0)) != Zero
    ensures Reaches(GemvKernel(job, false), mem, events, s) && Finished(GemvKernel(job, false), s)
    ensures !GemvDone(Contents(mem, size), Contents(s.mem, size), job.op, job.alpha, job.beta, job.g)
  {
    hide AAddr, XAddr, YAddr, GemvKernel, Mul, Add, RowSum, Reaches, Finished;
    events, s := AddsThenScales(job, size, mem);
    YCellsInBounds(job.g, size);
    OrderMatters(job.beta, Get(mem, YAddr(job.g, 0)), Mul(job.alpha, RowSum(Contents(mem, size), job.op, job.g, 0)));
  }
}
