/**
 The team kernels of SYR2 on the barrier machine. A team runs two parallel loops over the
 cells of its row or column with no barrier between them, and each update of a cell is a
 plain load and store. What keeps the two updates of a cell apart is that both loops deal
 the index of the cell to the same thread.
 */
module Syr2Schedules {
  import opened ComplexAlgebra
  import opened Scalars
  import opened Matrices
  import opened Syr2
  import opened BarrierMachine
  import opened ScheduleCompletion

  datatype Job =
    Job(byColumn: bool, justTranspose: bool, justUp: bool, alpha: Complex, x: seq<Complex>, y: seq<Complex>)

  type ValidJob = job: Job | |job.x| == |job.y| witness Job(false, false, false, Zero, [], [])

  /** Which of its threads a team gives an index to, in the first and in the second loop. */
  datatype Deal = Deal(threads: nat, first: (int, int) -> int, second: (int, int) -> int)

  ghost predicate ValidDeal(d: Deal) {
    forall t, k :: 0 <= d.first(t, k) < d.threads && 0 <= d.second(t, k) < d.threads
  }

  /** Kokkos deals out two ranges of one length over one team alike. */
  ghost predicate SameThread(d: Deal) {
    forall t, k :: d.first(t, k) == d.second(t, k)
  }

  function Size(job: ValidJob): nat { |job.x| }

  /** The cell with index k of team t. */
  function CellAt(job: ValidJob, t: int, k: int): (int, int) {
    if job.byColumn then (k, t) else (t, k)
  }

  predicate InLine(job: ValidJob, t: int, k: int) { 0 <= t < Size(job) && 0 <= k < Size(job) }

  /** Whether team t runs its first and its second loop. */
  predicate RunsLoop(job: ValidJob, t: int, isFirst: bool)
    requires 0 <= t < Size(job)
  {
    && job.alpha != Zero && !(job.x[t] == Zero && job.y[t] == Zero)
    && if isFirst == job.byColumn then job.y[t] != Zero else job.x[t] != Zero
  }

  predicate Included(job: ValidJob, t: int, k: int) {
    var (i, j) := CellAt(job, t, k);
    InTriangle(job.justUp, i, j)
  }

  function Term(job: ValidJob, t: int, k: int, isFirst: bool): Complex
    requires InLine(job, t, k)
  {
    var (i, j) := CellAt(job, t, k);
    if isFirst then FirstTerm(job.justTranspose, job.alpha, job.x[i], job.y[j])
    else SecondTerm(job.justTranspose, job.alpha, job.y[i], job.x[j])
  }

  function Dealt(d: Deal, t: int, k: int, isFirst: bool): int {
    if isFirst then d.first(t, k) else d.second(t, k)
  }

  /** Thread th adds to the cell with index k in the given loop. */
  predicate AddsTo(job: ValidJob, d: Deal, t: int, th: int, k: int, isFirst: bool)
    requires InLine(job, t, k)
  {
    RunsLoop(job, t, isFirst) && Included(job, t, k) && Dealt(d, t, k, isFirst) == th
  }

  // ------------------------------------------------------------------
  // The kernel
  // ------------------------------------------------------------------

  /** A(i, j) += v. */
  function Increase(l: (int, int), v: Complex): seq<Instr<(int, int)>> {
    [Load(l), Store(l, log => Add(LogAt(log, |log| - 1), v))]
  }

  /** Iteration h of a thread, the second loop following the first. */
  function Iteration(job: ValidJob, d: Deal, t: int, th: int, h: int): seq<Instr<(int, int)>>
    requires 0 <= t < Size(job) && 0 <= h < 2 * Size(job)
  {
    var isFirst := h < Size(job);
    var k := if isFirst then h else h - Size(job);
    if AddsTo(job, d, t, th, k, isFirst) then Increase(CellAt(job, t, k), Term(job, t, k, isFirst)) else []
  }

  function Iterations(job: ValidJob, d: Deal, t: int, th: int, h: nat): seq<Instr<(int, int)>>
    requires 0 <= t < Size(job) && h <= 2 * Size(job)
  {
    if h == 0 then [] else Iterations(job, d, t, th, h - 1) + Iteration(job, d, t, th, h - 1)
  }

  function Prog(job: ValidJob, d: Deal, t: int, th: int): seq<Instr<(int, int)>> {
    if 0 <= t < Size(job) then Iterations(job, d, t, th, 2 * Size(job)) else []
  }

  ghost function Syr2Kernel(job: ValidJob, d: Deal): Kernel<int, (int, int)> {
    Kernel(Size(job), 1, (t, p, th) => p == 0 && 0 <= t < Size(job) && 0 <= th < d.threads,
           (t, p, th) => Prog(job, d, t, th))
  }

  // ------------------------------------------------------------------
  // Footprints
  // ------------------------------------------------------------------

  /** Thread th of team t updates cell l in one of its loops. */
  ghost predicate Updates(job: ValidJob, d: Deal, t: int, th: int, l: (int, int)) {
    exists k, isFirst :: InLine(job, t, k) && AddsTo(job, d, t, th, k, isFirst) && l == CellAt(job, t, k)
  }

  lemma {:induction false} IterationsPrefix(job: ValidJob, d: Deal, t: int, th: int, h: nat, h': nat)
    requires 0 <= t < Size(job) && h <= h' <= 2 * Size(job)
    ensures Iterations(job, d, t, th, h) <= Iterations(job, d, t, th, h')
  {
    hide Iteration;
    if h < h' {
      IterationsPrefix(job, d, t, th, h, h' - 1);
    }
  }

  lemma {:induction false} IterationsTouch(job: ValidJob, d: Deal, t: int, th: int, h: nat, n: nat)
    requires 0 <= t < Size(job) && h <= 2 * Size(job) && n < |Iterations(job, d, t, th, h)|
    ensures Updates(job, d, t, th, Cell(Iterations(job, d, t, th, h)[n]))
  {
    hide AddsTo, CellAt, Term;
    if h > 0 {
      var before := |Iterations(job, d, t, th, h - 1)|;
      if n < before {
        IterationsTouch(job, d, t, th, h - 1, n);
      }
    }
  }

  /** Iteration h follows the iterations before it. */
  lemma IterationAt(job: ValidJob, d: Deal, t: int, th: int, h: nat)
    requires 0 <= t < Size(job) && h < 2 * Size(job)
    ensures Iterations(job, d, t, th, h) + Iteration(job, d, t, th, h) <= Prog(job, d, t, th)
  {
    hide Iterations, Iteration;
    IterationsPrefix(job, d, t, th, h + 1, 2 * Size(job));
    NextIteration(job, d, t, th, h);
  }

  lemma NextIteration(job: ValidJob, d: Deal, t: int, th: int, h: nat)
    requires 0 <= t < Size(job) && h < 2 * Size(job)
    ensures Iterations(job, d, t, th, h + 1) == Iterations(job, d, t, th, h) + Iteration(job, d, t, th, h)
  {
    hide Iteration;
  }

  lemma PrefixAt<T>(a: seq<T>, b: seq<T>, c: seq<T>)
    requires a + b <= c
    ensures |a| + |b| <= |c| && forall n :: 0 <= n < |b| ==> c[|a| + n] == b[n]
  {
    forall n | 0 <= n < |b|
      ensures c[|a| + n] == b[n]
    {
      assert (a + b)[|a| + n] == b[n];
    }
  }

  lemma UpdateIsStored(job: ValidJob, d: Deal, t: int, th: int, k: int, isFirst: bool)
    requires InLine(job, t, k) && AddsTo(job, d, t, th, k, isFirst)
    ensures Stores(Prog(job, d, t, th), CellAt(job, t, k))
  {
    hide AddsTo, CellAt, Term, Iterations, Prog;
    var h := if isFirst then k else k + Size(job);
    IterationAt(job, d, t, th, h);
    PrefixAt(Iterations(job, d, t, th, h), Iteration(job, d, t, th, h), Prog(job, d, t, th));
    var n := |Iterations(job, d, t, th, h)| + 1;
    assert Prog(job, d, t, th)[n] == Increase(CellAt(job, t, k), Term(job, t, k, isFirst))[1];
    assert Cell(Prog(job, d, t, th)[n]) == CellAt(job, t, k);
  }

  /** A thread touches and writes exactly the cells it updates. */
  lemma Footprint(job: ValidJob, d: Deal, t: int, th: int, l: (int, int))
    ensures Touches(Prog(job, d, t, th), l) ==> Updates(job, d, t, th, l)
    ensures Updates(job, d, t, th, l) ==> Stores(Prog(job, d, t, th), l)
  {
    hide AddsTo, CellAt, Iterations, Stores;
    var prog := Prog(job, d, t, th);
    forall n | 0 <= n < |prog|
      ensures Updates(job, d, t, th, Cell(prog[n]))
    {
      IterationsTouch(job, d, t, th, 2 * Size(job), n);
    }
    if Updates(job, d, t, th, l) {
      var k, isFirst :| InLine(job, t, k) && AddsTo(job, d, t, th, k, isFirst) && l == CellAt(job, t, k);
      UpdateIsStored(job, d, t, th, k, isFirst);
    }
  }

  // ------------------------------------------------------------------
  // Race freedom
  // ------------------------------------------------------------------

  /** No cell is updated by two threads: its index goes to one thread in both loops, or at
      most one of the loops adds to it. */
  ghost predicate OneThreadPerCell(job: ValidJob, d: Deal) {
    forall t, k :: InLine(job, t, k) && Included(job, t, k) && RunsLoop(job, t, true) && RunsLoop(job, t, false) ==>
      d.first(t, k) == d.second(t, k)
  }

  lemma LinesApart(job: ValidJob, d: Deal, t: int, th: int, t': int, th': int, l: (int, int))
    requires Updates(job, d, t, th, l) && Updates(job, d, t', th', l)
    ensures t == t'
    ensures OneThreadPerCell(job, d) ==> th == th'
  {
    hide Included, RunsLoop;
    var k, f :| InLine(job, t, k) && AddsTo(job, d, t, th, k, f) && l == CellAt(job, t, k);
    var k', f' :| InLine(job, t', k') && AddsTo(job, d, t', th', k', f') && l == CellAt(job, t', k');
    assert t == t' && k == k';
  }

  /** The team kernels are race free exactly when no cell is left to two threads. */
  lemma RaceFreeIffOneThreadPerCell(job: ValidJob, d: Deal)
    requires ValidDeal(d)
    ensures RaceFree(Syr2Kernel(job, d)) <==> OneThreadPerCell(job, d)
  {
    hide Prog, Updates, Included, RunsLoop, CellAt, AddsTo;
    var kernel := Syr2Kernel(job, d);
    if OneThreadPerCell(job, d) {
      hide OneThreadPerCell;
      forall t, p, i, t', p', i', l | kernel.active(t, p, i) && kernel.active(t', p', i') && (t != t' || i != i')
                                      && Stores(kernel.prog(t, p, i), l)
        ensures !Touches(kernel.prog(t', p', i'), l)
      {
        StoresTouches(kernel.prog(t, p, i), l);
        Footprint(job, d, t, i, l);
        Footprint(job, d, t', i', l);
        if Touches(kernel.prog(t', p', i'), l) {
          LinesApart(job, d, t, i, t', i', l);
          assert false;
        }
      }
    } else {
      var t, k :| InLine(job, t, k) && Included(job, t, k) && RunsLoop(job, t, true) && RunsLoop(job, t, false)
                  && d.first(t, k) != d.second(t, k);
      var l := CellAt(job, t, k);
      UpdatesAt(job, d, t, d.first(t, k), k, true);
      UpdatesAt(job, d, t, d.second(t, k), k, false);
      Footprint(job, d, t, d.first(t, k), l);
      Footprint(job, d, t, d.second(t, k), l);
      StoresTouches(kernel.prog(t, 0, d.second(t, k)), l);
      assert kernel.active(t, 0, d.first(t, k)) && kernel.active(t, 0, d.second(t, k));
    }
  }

  /** So both loops dealing alike is enough, whatever the scalars, vectors and triangle. */
  lemma SameThreadIsEnough(job: ValidJob, d: Deal)
    requires ValidDeal(d) && SameThread(d)
    ensures RaceFree(Syr2Kernel(job, d))
  {
    hide RaceFree;
    RaceFreeIffOneThreadPerCell(job, d);
  }

  lemma UpdatesAt(job: ValidJob, d: Deal, t: int, th: int, k: int, isFirst: bool)
    requires InLine(job, t, k) && Included(job, t, k) && RunsLoop(job, t, isFirst) && Dealt(d, t, k, isFirst) == th
    ensures Updates(job, d, t, th, CellAt(job, t, k))
  {
    assert AddsTo(job, d, t, th, k, isFirst);
  }

  // ------------------------------------------------------------------
  // The effect of a thread
  // ------------------------------------------------------------------

  /** The cell with index k after h iterations of thread th, if it held v. */
  function CellAfter(job: ValidJob, d: Deal, t: int, th: int, k: int, h: int, v: Complex): Complex
    requires InLine(job, t, k)
  {
    var (i, j) := CellAt(job, t, k);
    Partial(job.justTranspose, job.justUp, job.alpha, job.x, job.y, v, i, j,
            k < h && AddsTo(job, d, t, th, k, true), k + Size(job) < h && AddsTo(job, d, t, th, k, false))
  }

  /** One update of a cell: what it held, plus the term. */
  lemma IncreaseStep(prog: seq<Instr<(int, int)>>, m: Memory<(int, int)>, n: nat, l: (int, int), v: Complex)
    requires n + 2 <= |prog| && prog[n] == Increase(l, v)[0] && prog[n + 1] == Increase(l, v)[1]
    ensures Solo(prog, m, n + 2).mem == Solo(prog, m, n).mem[l := Add(Get(Solo(prog, m, n).mem, l), v)]
  {
    hide Add;
    var r := Solo(prog, m, n);
    assert Solo(prog, m, n + 1) == Local(r.log + [Get(r.mem, l)], r.mem);
  }

  /** Iteration h changes the value of its own index only, and by its term. */
  lemma CellStep(job: ValidJob, d: Deal, t: int, th: int, k: int, h: nat, v: Complex)
    requires InLine(job, t, k) && h < 2 * Size(job)
    ensures var isFirst := h < Size(job);
            var own := if isFirst then h else h - Size(job);
            CellAfter(job, d, t, th, k, h + 1, v)
            == if own == k && AddsTo(job, d, t, th, k, isFirst)
               then Add(CellAfter(job, d, t, th, k, h, v), Term(job, t, k, isFirst))
               else CellAfter(job, d, t, th, k, h, v)
  {
    hide FirstTerm, SecondTerm, RunsLoop, Dealt;
  }

  ghost predicate LineAfter(job: ValidJob, d: Deal, t: int, th: int, h: int, m: Memory<(int, int)>,
                            m': Memory<(int, int)>)
    requires 0 <= t < Size(job)
  {
    forall k :: InLine(job, t, k) ==>
      Get(m', CellAt(job, t, k)) == CellAfter(job, d, t, th, k, h, Get(m, CellAt(job, t, k)))
  }

  lemma {:induction false} ThreadEffect(job: ValidJob, d: Deal, t: int, th: int, m: Memory<(int, int)>, h: nat)
    requires 0 <= t < Size(job) && h <= 2 * Size(job)
    ensures |Iterations(job, d, t, th, h)| <= |Prog(job, d, t, th)|
    ensures LineAfter(job, d, t, th, h, m, Solo(Prog(job, d, t, th), m, |Iterations(job, d, t, th, h)|).mem)
  {
    hide LineAfter, Prog, Iteration, Iterations, Solo;
    if h == 0 {
      NothingDone(job, d, t, th, m);
    } else {
      ThreadEffect(job, d, t, th, m, h - 1);
      ThreadStep(job, d, t, th, m, h - 1);
    }
  }

  lemma ThreadStep(job: ValidJob, d: Deal, t: int, th: int, m: Memory<(int, int)>, h: nat)
    requires 0 <= t < Size(job) && h < 2 * Size(job) && |Iterations(job, d, t, th, h)| <= |Prog(job, d, t, th)|
    requires LineAfter(job, d, t, th, h, m, Solo(Prog(job, d, t, th), m, |Iterations(job, d, t, th, h)|).mem)
    ensures |Iterations(job, d, t, th, h + 1)| <= |Prog(job, d, t, th)|
    ensures LineAfter(job, d, t, th, h + 1, m, Solo(Prog(job, d, t, th), m, |Iterations(job, d, t, th, h + 1)|).mem)
  {
    hide LineAfter, AddsTo, CellAt, Prog, Term, Solo, Add, Iterations;
    var n := |Iterations(job, d, t, th, h)|;
    var it := Iteration(job, d, t, th, h);
    NextIteration(job, d, t, th, h);
    IterationAt(job, d, t, th, h);
    PrefixAt(Iterations(job, d, t, th, h), it, Prog(job, d, t, th));
    LineStep(job, d, t, th, h, m, Solo(Prog(job, d, t, th), m, n).mem);
    var isFirst := h < Size(job);
    var k := if isFirst then h else h - Size(job);
    if AddsTo(job, d, t, th, k, isFirst) {
      assert Prog(job, d, t, th)[n + 0] == it[0] && Prog(job, d, t, th)[n + 1] == it[1];
      IncreaseStep(Prog(job, d, t, th), m, n, CellAt(job, t, k), Term(job, t, k, isFirst));
    }
  }

  lemma NothingDone(job: ValidJob, d: Deal, t: int, th: int, m: Memory<(int, int)>)
    requires 0 <= t < Size(job)
    ensures |Iterations(job, d, t, th, 0)| == 0
    ensures LineAfter(job, d, t, th, 0, m, Solo(Prog(job, d, t, th), m, 0).mem)
  {
    hide AddsTo, Partial, Prog;
    forall k | InLine(job, t, k)
      ensures Get(m, CellAt(job, t, k)) == CellAfter(job, d, t, th, k, 0, Get(m, CellAt(job, t, k)))
    {
      var (i, j) := CellAt(job, t, k);
      PartialStarts(job.justTranspose, job.justUp, job.alpha, job.x, job.y, Get(m, (i, j)), i, j);
    }
  }

  lemma LineStep(job: ValidJob, d: Deal, t: int, th: int, h: nat, m: Memory<(int, int)>, r: Memory<(int, int)>)
    requires 0 <= t < Size(job) && h < 2 * Size(job) && LineAfter(job, d, t, th, h, m, r)
    ensures var isFirst := h < Size(job);
            var k := if isFirst then h else h - Size(job);
            var l := CellAt(job, t, k);
            var r' := if AddsTo(job, d, t, th, k, isFirst) then r[l := Add(Get(r, l), Term(job, t, k, isFirst))] else r;
            LineAfter(job, d, t, th, h + 1, m, r')
  {
    hide AddsTo, CellAfter, Add, Term;
    forall k | InLine(job, t, k) {
      CellStep(job, d, t, th, k, h, Get(m, CellAt(job, t, k)));
    }
  }

  // ------------------------------------------------------------------
  // Every schedule
  // ------------------------------------------------------------------

  function Result(job: ValidJob, t: int, k: int, v: Complex): Complex
    requires InLine(job, t, k)
  {
    var (i, j) := CellAt(job, t, k);
    Entry(job.justTranspose, job.justUp, job.alpha, job.x, job.y, v, i, j)
  }

  /** A cell that no other thread updates is finished when its thread is. */
  lemma WholeThread(job: ValidJob, d: Deal, t: int, th: int, k: int, v: Complex)
    requires InLine(job, t, k)
    requires RunsLoop(job, t, true) && Included(job, t, k) ==> Dealt(d, t, k, true) == th
    requires RunsLoop(job, t, false) && Included(job, t, k) ==> Dealt(d, t, k, false) == th
    ensures CellAfter(job, d, t, th, k, 2 * Size(job), v) == Result(job, t, k, v)
  {
    hide FirstTerm, SecondTerm, Dealt;
    var (i, j) := CellAt(job, t, k);
    if Included(job, t, k) {
      PartialIsEntry(job.justTranspose, job.justUp, job.alpha, job.x, job.y, v, i, j,
                     RunsLoop(job, t, true), RunsLoop(job, t, false));
    }
  }

  lemma PhaseComputes(job: ValidJob, d: Deal, t: int, m: Memory<(int, int)>, m': Memory<(int, int)>, k: int)
    requires ValidDeal(d) && OneThreadPerCell(job, d) && InLine(job, t, k)
    requires PhaseResult(Syr2Kernel(job, d), t, 0, m, m') && NotForeign(Syr2Kernel(job, d), t, CellAt(job, t, k))
    ensures Get(m', CellAt(job, t, k)) == Result(job, t, k, Get(m, CellAt(job, t, k)))
  {
    hide Prog, RunsLoop, Included, CellAfter, Result, NotForeign, CellAt, Stores;
    var kernel, l := Syr2Kernel(job, d), CellAt(job, t, k);
    var th := if RunsLoop(job, t, true) then d.first(t, k) else d.second(t, k);
    assert kernel.active(t, 0, th);
    WholeThread(job, d, t, th, k, Get(m, l));
    ThreadEffect(job, d, t, th, m, 2 * Size(job));
    ProgIsWhole(job, d, t, th);
    if Stores(Prog(job, d, t, th), l) {
      assert Get(m', l) == Get(Solo(Prog(job, d, t, th), m, |Prog(job, d, t, th)|).mem, l);
    } else {
      SoloFrame(Prog(job, d, t, th), m, |Prog(job, d, t, th)|, l);
      forall u | kernel.active(t, 0, u)
        ensures !Stores(Prog(job, d, t, u), l)
      {
        if Stores(Prog(job, d, t, u), l) { OnlyThread(job, d, t, k, th, u); }
      }
      assert Quiet(kernel, t, 0, l);
    }
  }

  lemma ProgIsWhole(job: ValidJob, d: Deal, t: int, th: int)
    requires 0 <= t < Size(job)
    ensures Prog(job, d, t, th) == Iterations(job, d, t, th, 2 * Size(job))
  {
  }

  /** No thread but the one in charge writes a cell. */
  lemma OnlyThread(job: ValidJob, d: Deal, t: int, k: int, th: int, u: int)
    requires OneThreadPerCell(job, d) && InLine(job, t, k)
    requires th == (if RunsLoop(job, t, true) then d.first(t, k) else d.second(t, k))
    requires Stores(Prog(job, d, t, u), CellAt(job, t, k))
    ensures u == th
  {
    hide Prog, RunsLoop, Included, Stores;
    var l := CellAt(job, t, k);
    StoresTouches(Prog(job, d, t, u), l);
    Footprint(job, d, t, u, l);
    var k', isFirst :| InLine(job, t, k') && AddsTo(job, d, t, u, k', isFirst) && l == CellAt(job, t, k');
    assert k' == k;
  }

  lemma LineNotForeign(job: ValidJob, d: Deal, t: int, k: int)
    requires InLine(job, t, k)
    ensures NotForeign(Syr2Kernel(job, d), t, CellAt(job, t, k))
  {
    hide Prog, AddsTo;
    var l := CellAt(job, t, k);
    forall u, th | u != t && Stores(Prog(job, d, u, th), l)
      ensures false
    {
      StoresTouches(Prog(job, d, u, th), l);
      Footprint(job, d, u, th, l);
    }
  }

  /** Every schedule of the single loads and stores leaves the specified matrix, as long as no
      cell is left to two threads. */
  lemma EveryScheduleComputesSyr2(job: ValidJob, d: Deal, mem: Memory<(int, int)>, events: seq<Event<int>>,
                                  s: State<int, (int, int)>, t: int, k: int)
    requires ValidDeal(d) && OneThreadPerCell(job, d) && InLine(job, t, k)
    requires Reaches(Syr2Kernel(job, d), mem, events, s) && Finished(Syr2Kernel(job, d), s)
    ensures Get(s.mem, CellAt(job, t, k)) == Result(job, t, k, Get(mem, CellAt(job, t, k)))
  {
    var kernel, l := Syr2Kernel(job, d), CellAt(job, t, k);
    RaceFreeIffOneThreadPerCell(job, d);
    hide RaceFree, OneThreadPerCell, Reaches, PhaseResult, CellAt, Result, Prog;
    ReachableInv(kernel, mem, events, s);
    ReachableSnapshots(kernel, mem, events, s);
    LineNotForeign(job, d, t, k);
    var start := s.teams[t].start;
    assert Snapshot(kernel, mem, t, 1, start);
    var b :| Precedes(kernel, t, 1, b, start) && Snapshot(kernel, mem, t, 0, b);
    PhaseComputes(job, d, t, mem, start, k);
    assert Quiet(kernel, t, 1, l) && TeamView(kernel, t, s.teams[t], s.mem);
  }

  lemma Syr2RunsComplete(job: ValidJob, d: Deal, mem: Memory<(int, int)>, events: seq<Event<int>>,
                         s: State<int, (int, int)>)
    returns (events': seq<Event<int>>, s': State<int, (int, int)>)
    requires ValidDeal(d) && OneThreadPerCell(job, d) && Reaches(Syr2Kernel(job, d), mem, events, s)
    ensures events <= events' && Reaches(Syr2Kernel(job, d), mem, events', s') && Finished(Syr2Kernel(job, d), s')
  {
    RaceFreeIffOneThreadPerCell(job, d);
    hide RaceFree, Reaches, Finished, Prog;
    events', s' := RunsComplete(Syr2Kernel(job, d), mem, (t, p) => Ranks(d.threads), events, s);
  }

  // ------------------------------------------------------------------
  // An index dealt to two threads
  // ------------------------------------------------------------------

  ghost predicate Split(d: Deal) {
    && d.threads == 2
    && (forall t, k :: d.first(t, k) == 0) && (forall t, k :: d.second(t, k) == 1)
  }

  lemma OneIteration(job: ValidJob, d: Deal)
    requires Size(job) == 1 && Split(d) && RunsLoop(job, 0, true) && RunsLoop(job, 0, false)
    ensures Prog(job, d, 0, 0) == Increase((0, 0), Term(job, 0, 0, true))
    ensures Prog(job, d, 0, 1) == Increase((0, 0), Term(job, 0, 0, false))
  {
    hide RunsLoop, Term, Increase;
    assert Iterations(job, d, 0, 0, 1) == Iteration(job, d, 0, 0, 0);
    assert Iterations(job, d, 0, 1, 1) == Iteration(job, d, 0, 1, 0);
  }

  /** Thread 0 has loaded the cell, and thread 1 has finished. */
  ghost predicate Overtaken(mem: Memory<(int, int)>, s: State<int, (int, int)>) {
    && |s.teams| == 1 && s.teams[0].phase == 0
    && ThreadOf(s.teams[0], 0) == Thread(1, [Get(mem, (0, 0))]) && ThreadOf(s.teams[0], 1).pc == 2
  }

  lemma LoadLoadStore(job: ValidJob, d: Deal, mem: Memory<(int, int)>)
    returns (events: seq<Event<int>>, s: State<int, (int, int)>)
    requires Size(job) == 1 && Split(d) && RunsLoop(job, 0, true) && RunsLoop(job, 0, false)
    ensures Reaches(Syr2Kernel(job, d), mem, events, s) && Overtaken(mem, s)
  {
    hide RunsLoop, Term, Add, Prog;
    var k := Syr2Kernel(job, d);
    OneIteration(job, d);
    assert Reaches(k, mem, [], Initial(k, mem));
    hide Reaches;
    events, s := RunAlone(k, mem, [], Initial(k, mem), 0, 0, 1);
    assert Solo(Prog(job, d, 0, 0), mem, 1) == Local([Get(mem, (0, 0))], mem);
    hide Solo;
    events, s := RunAlone(k, mem, events, s, 0, 1, 2);
  }

  lemma LastStore(job: ValidJob, d: Deal, mem: Memory<(int, int)>, s: State<int, (int, int)>)
    requires Size(job) == 1 && Split(d) && RunsLoop(job, 0, true) && RunsLoop(job, 0, false)
    requires Overtaken(mem, s)
    ensures Enabled(Syr2Kernel(job, d), s, Access(0, 0))
    ensures var s' := Next(Syr2Kernel(job, d), s, Access(0, 0));
            && Get(s'.mem, (0, 0)) == Add(Get(mem, (0, 0)), Term(job, 0, 0, true))
            && Enabled(Syr2Kernel(job, d), s', Barrier(0))
  {
    hide RunsLoop, Term, Add, Prog;
    OneIteration(job, d);
  }

  /** Both threads load, then both store. */
  lemma LoadLoadStoreStore(job: ValidJob, d: Deal, mem: Memory<(int, int)>)
    returns (events: seq<Event<int>>, s: State<int, (int, int)>)
    requires Size(job) == 1 && Split(d) && RunsLoop(job, 0, true) && RunsLoop(job, 0, false)
    ensures Reaches(Syr2Kernel(job, d), mem, events, s) && Finished(Syr2Kernel(job, d), s)
    ensures Get(s.mem, (0, 0)) == Add(Get(mem, (0, 0)), Term(job, 0, 0, true))
  {
    hide RunsLoop, Term, Add, Prog, Reaches, Enabled;
    var k := Syr2Kernel(job, d);
    events, s := LoadLoadStore(job, d, mem);
    LastStore(job, d, mem, s);
    OneMore(k, mem, events, s, Access(0, 0));
    events, s := events + [Access(0, 0)], Next(k, s, Access(0, 0));
    OneMore(k, mem, events, s, Barrier(0));
    events, s := events + [Barrier(0)], Next(k, s, Barrier(0));
  }

  /** With its index dealt to two threads a cell may lose an update: in a 1 by 1 matrix, for
      any non-zero alpha, x and y, some complete schedule misses the second term. */
  lemma LostUpdate(job: ValidJob, d: Deal, mem: Memory<(int, int)>)
    returns (events: seq<Event<int>>, s: State<int, (int, int)>)
    requires Size(job) == 1 && Split(d) && job.alpha != Zero && job.x[0] != Zero && job.y[0] != Zero
    ensures Reaches(Syr2Kernel(job, d), mem, events, s) && Finished(Syr2Kernel(job, d), s)
    ensures Get(s.mem, (0, 0)) == Add(Get(mem, (0, 0)), Term(job, 0, 0, true))
    ensures Get(s.mem, (0, 0)) != Result(job, 0, 0, Get(mem, (0, 0)))
  {
    hide Syr2Kernel, Reaches, Finished, Mul;
    events, s := LoadLoadStoreStore(job, d, mem);
    var alpha := ConjUnless(job.justTranspose, job.alpha);
    ConjZero(job.justTranspose, job.alpha);
    ConjZero(job.justTranspose, job.x[0]);
    NoZeroDivisors(alpha, job.y[0]);
    NoZeroDivisors(Mul(alpha, job.y[0]), ConjUnless(job.justTranspose, job.x[0]));
  }
}
