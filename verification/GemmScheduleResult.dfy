/**
 What a complete schedule of the tiled GEMM leaves in C: the result of the specification,
 whatever the interleaving.
 */
module GemmScheduleResult {
  import opened Scalars
  import opened Sums
  import opened Matrices
  import opened Tiling
  import opened BarrierMachine
  import opened GemmSchedules

  // ------------------------------------------------------------------
  // The effect of single items
  // ------------------------------------------------------------------

  lemma CopyEffect(op: Op, x: Matrix, cell: (int, int) -> Address, dst: Address, i: int, j: int, m: Memory<Address>)
    requires 0 <= i && 0 <= j
    requires forall r, c :: 0 <= r < x.rows && 0 <= c < x.cols ==> Get(m, cell(r, c)) == At(x, r, c)
    ensures Get(Solo(CopyProg(op, x, cell, dst, i, j), m, |CopyProg(op, x, cell, dst, i, j)|).mem, dst)
            == Padded(op, x, i, j)
  {
    var prog := CopyProg(op, x, cell, dst, i, j);
    assert Solo(prog, m, 0) == Local([], m);
    if |prog| == 2 {
      assert Solo(prog, m, 1) == Local([Get(m, OpCell(op, cell, i, j))], m);
    }
  }

  lemma WriteEffect(alpha: Complex, beta: Complex, scr: Address, dst: Address, m: Memory<Address>)
    requires scr != dst
    ensures Get(Solo(WriteProg(alpha, beta, scr, dst), m, |WriteProg(alpha, beta, scr, dst)|).mem, dst)
            == Update(beta, Get(m, dst), alpha, Get(m, scr))
  {
    hide Mul;
    var prog := WriteProg(alpha, beta, scr, dst);
    assert Solo(prog, m, 0) == Local([], m);
    if beta == Zero {
      assert Solo(prog, m, 1) == Local([Get(m, scr)], m);
      MulUnits(Get(m, dst));
    } else {
      assert Solo(prog, m, 1) == Local([Get(m, dst)], m);
      assert Solo(prog, m, 2) == Local([Get(m, dst), Get(m, scr)], m);
    }
  }

  /** The products of row i of the staged A block with column c of the staged B block. */
  ghost function ScrProduct(m: Memory<Address>, t: int, i: int, c: int): int -> Complex {
    j => Mul(Get(m, AScr(t, i, j)), Get(m, BScr(t, j, c)))
  }

  ghost function LoadedCell(t: int, i: int, b: int, blockB1: nat, n: nat): Address {
    Cell(DotLoad(t, i, b, blockB1, n))
  }

  ghost function DotResult(m: Memory<Address>, t: int, i: int, c: int, blockA1: nat): Complex {
    Add(Get(m, CScr(t, i, c)), Sum(ScrProduct(m, t, i, c), 0, blockA1))
  }

  /** State of a Dot item after its loading rounds and g of its four updates. */
  ghost predicate DotProgress(t: int, i: int, b: int, blockA1: nat, blockB1: nat, m: Memory<Address>, g: nat,
                              r: Local<Address>) {
    && |r.log| == 5 * blockA1 + g
    && (forall k: nat :: k < 5 * blockA1 ==> r.log[k] == Get(m, LoadedCell(t, i, b, blockB1, k)))
    && (forall h :: 0 <= h < g ==>
          Get(r.mem, CScr(t, i, SplitColumn(blockB1, b, h)))
          == DotResult(m, t, i, SplitColumn(blockB1, b, h), blockA1))
    && (forall h :: g <= h < 4 ==>
          Get(r.mem, CScr(t, i, SplitColumn(blockB1, b, h))) == Get(m, CScr(t, i, SplitColumn(blockB1, b, h))))
  }

  lemma DotSumFromLog(t: int, i: int, b: int, blockA1: nat, blockB1: nat, m: Memory<Address>, g: nat, log: seq<Complex>)
    requires g < 4 && |log| >= 5 * blockA1
    requires forall k: nat :: k < 5 * blockA1 ==> log[k] == Get(m, LoadedCell(t, i, b, blockB1, k))
    ensures Sum(DotTerm(log, g), 0, blockA1) == Sum(ScrProduct(m, t, i, SplitColumn(blockB1, b, g)), 0, blockA1)
  {
    hide Mul, SplitColumn;
    forall j | 0 <= j < blockA1
      ensures DotTerm(log, g)(j) == ScrProduct(m, t, i, SplitColumn(blockB1, b, g))(j)
    {
      var ka: nat, kb: nat := 5 * j, 5 * j + 1 + g;
      assert ka / 5 == j && ka % 5 == 0 && kb / 5 == j && kb % 5 == 1 + g;
      assert LoadedCell(t, i, b, blockB1, ka) == AScr(t, i, j);
      assert LoadedCell(t, i, b, blockB1, kb) == BScr(t, j, SplitColumn(blockB1, b, g));
    }
    SumCongruence(DotTerm(log, g), ScrProduct(m, t, i, SplitColumn(blockB1, b, g)), 0, blockA1);
  }

  /** One column group: load the accumulator cell, store it back with the sum added. */
  lemma DotUpdateStep(t: int, i: int, b: int, blockA1: nat, blockB1: nat, m: Memory<Address>, g: nat, r: Local<Address>)
    requires blockB1 % 4 == 0 && 0 <= b < blockB1 / 4 && g < 4
    requires DotProgress(t, i, b, blockA1, blockB1, m, g, r)
    ensures var c := CScr(t, i, SplitColumn(blockB1, b, g));
            var log := r.log + [Get(r.mem, c)];
            DotProgress(t, i, b, blockA1, blockB1, m, g + 1, Local(log, r.mem[c := DotStore(blockA1, g)(log)]))
  {
    hide Sum, Add;
    var col := SplitColumn(blockB1, b, g);
    var c := CScr(t, i, col);
    var log := r.log + [Get(r.mem, c)];
    DotSumFromLog(t, i, b, blockA1, blockB1, m, g, log);
    assert LogAt(log, 5 * blockA1 + g) == Get(m, c);
    assert DotStore(blockA1, g)(log) == DotResult(m, t, i, col, blockA1);
    forall h | 0 <= h < 4 && h != g
      ensures SplitColumn(blockB1, b, h) != col
    {
      if SplitColumn(blockB1, b, h) == col { SplitInjective(blockB1, b, h, b, g); }
    }
  }

  lemma {:induction false} DotUpdates(t: int, i: int, b: int, blockA1: nat, blockB1: nat, m: Memory<Address>, g: nat)
    requires blockB1 % 4 == 0 && 0 <= b < blockB1 / 4 && g <= 4
    ensures DotProgress(t, i, b, blockA1, blockB1, m, g,
                        Solo(DotProg(t, i, b, blockA1, blockB1), m, 5 * blockA1 + 2 * g))
  {
    hide DotProgress, DotStore;
    var prog := DotProg(t, i, b, blockA1, blockB1);
    var n := 5 * blockA1;
    if g == 0 {
      DotLoadsProgress(t, i, b, blockA1, blockB1, m);
    } else {
      DotUpdates(t, i, b, blockA1, blockB1, m, g - 1);
      var r := Solo(prog, m, n + 2 * (g - 1));
      var c := CScr(t, i, SplitColumn(blockB1, b, g - 1));
      assert prog[n + 2 * (g - 1)] == Load(c);
      assert prog[n + 2 * g - 1] == Store(c, DotStore(blockA1, g - 1));
      assert Solo(prog, m, n + 2 * g - 1) == Local(r.log + [Get(r.mem, c)], r.mem);
      DotUpdateStep(t, i, b, blockA1, blockB1, m, g - 1, r);
    }
  }

  lemma DotLoadAt(t: int, i: int, b: int, blockA1: nat, blockB1: nat, k: nat)
    requires k < 5 * blockA1
    ensures |DotProg(t, i, b, blockA1, blockB1)| == 5 * blockA1 + 8
    ensures DotProg(t, i, b, blockA1, blockB1)[k] == DotLoad(t, i, b, blockB1, k)
  {
    hide SplitColumn, DotLoad, DotUpdate;
    DotLength(t, i, b, blockA1, blockB1);
  }

  lemma DotLength(t: int, i: int, b: int, blockA1: nat, blockB1: nat)
    ensures |DotProg(t, i, b, blockA1, blockB1)| == 5 * blockA1 + 8
  {
    hide SplitColumn, DotLoad, DotStore;
  }

  lemma DotLoadsProgress(t: int, i: int, b: int, blockA1: nat, blockB1: nat, m: Memory<Address>)
    ensures DotProgress(t, i, b, blockA1, blockB1, m, 0, Solo(DotProg(t, i, b, blockA1, blockB1), m, 5 * blockA1))
  {
    hide SplitColumn, DotProg, Solo;
    var prog := DotProg(t, i, b, blockA1, blockB1);
    DotLength(t, i, b, blockA1, blockB1);
    forall k: nat | k < 5 * blockA1
      ensures prog[k].Load? && Cell(prog[k]) == LoadedCell(t, i, b, blockB1, k)
    {
      DotLoadAt(t, i, b, blockA1, blockB1, k);
    }
    LoadsOnly(prog, m, 5 * blockA1);
  }

  /** Running alone, a Dot item adds to each of its four cells the inner product of its column. */
  lemma DotEffect(t: int, i: int, b: int, blockA1: nat, blockB1: nat, m: Memory<Address>, g: nat)
    requires blockB1 % 4 == 0 && 0 <= b < blockB1 / 4 && g < 4
    ensures Get(Solo(DotProg(t, i, b, blockA1, blockB1), m, |DotProg(t, i, b, blockA1, blockB1)|).mem,
                CScr(t, i, SplitColumn(blockB1, b, g)))
            == DotResult(m, t, i, SplitColumn(blockB1, b, g), blockA1)
  {
    hide DotStore, DotResult;
    DotUpdates(t, i, b, blockA1, blockB1, m, 4);
    assert |DotProg(t, i, b, blockA1, blockB1)| == 5 * blockA1 + 8;
  }

  // ------------------------------------------------------------------
  // Which cells a phase leaves alone
  // ------------------------------------------------------------------

  /** The cells team t may rely on: inputs, its scratch, its tile of C. */
  ghost predicate Own(pb: ValidProblem, t: int, l: Address)
    requires InLeague(pb, t)
  {
    match l
    case ACell(_, _) => true
    case BCell(_, _) => true
    case CCell(i, j) =>
      0 <= i < M(pb) && 0 <= j < N(pb) && InTile(i, j, OffI(pb, t), OffJ(pb, t), pb.blockA0, pb.blockB1)
    case AScr(u, _, _) => u == t
    case BScr(u, _, _) => u == t
    case CScr(u, _, _) => u == t
  }

  /** Phase p writes no cell of the kind of l. */
  ghost predicate KindQuiet(pb: ValidProblem, p: int, l: Address) {
    match l
    case ACell(_, _) => true
    case BCell(_, _) => true
    case CCell(_, _) => p != 2 * Steps(pb) + 1
    case AScr(_, _, _) => !LoadPhase(pb, p)
    case BScr(_, _, _) => !LoadPhase(pb, p)
    case CScr(_, _, _) => p != 0 && !DotPhase(pb, p)
  }

  lemma OwnNotForeign(pb: ValidProblem, t: int, l: Address)
    requires InLeague(pb, t) && Own(pb, t, l)
    ensures NotForeign(GemmKernel(pb), t, l)
  {
    hide OffI, OffJ, Prog, Clip, Teams, Phases;
    forall u, p, i | u != t && Active(pb, u, p, i)
      ensures !Stores(Prog(pb, u, p, i), l)
    {
      Footprint(pb, u, p, i, l);
      if i.Write? && Writes(pb, u, i, l) {
        WriteRange(pb, u, i.i, i.j);
        TilesApart(pb, t, u, l.i, l.j);
      }
    }
  }

  lemma KindQuietIsQuiet(pb: ValidProblem, t: int, p: int, l: Address)
    requires InLeague(pb, t) && KindQuiet(pb, p, l)
    ensures Quiet(GemmKernel(pb), t, p, l)
  {
    hide OffI, OffJ, Prog, Clip, Teams, Phases, Steps;
    forall i | Active(pb, t, p, i)
      ensures !Stores(Prog(pb, t, p, i), l)
    {
      Footprint(pb, t, p, i, l);
    }
  }

  lemma Kept(pb: ValidProblem, t: int, p: int, m: Memory<Address>, m': Memory<Address>, l: Address)
    requires InLeague(pb, t) && PhaseResult(GemmKernel(pb), t, p, m, m')
    requires Own(pb, t, l) && KindQuiet(pb, p, l)
    ensures Get(m', l) == Get(m, l)
  {
    hide Own, KindQuiet, GemmKernel;
    OwnNotForeign(pb, t, l);
    KindQuietIsQuiet(pb, t, p, l);
  }

  /** A cell stored by an active item ends as that item leaves it. */
  lemma Stored(pb: ValidProblem, t: int, p: int, m: Memory<Address>, m': Memory<Address>, item: Item, n: nat)
    requires PhaseResult(GemmKernel(pb), t, p, m, m') && Active(pb, t, p, item)
    requires n < |Prog(pb, t, p, item)| && Prog(pb, t, p, item)[n].Store?
    ensures Get(m', Cell(Prog(pb, t, p, item)[n]))
            == Get(Solo(Prog(pb, t, p, item), m, |Prog(pb, t, p, item)|).mem, Cell(Prog(pb, t, p, item)[n]))
  {
    hide Active, Prog, Phases, Teams;
    var l := Cell(Prog(pb, t, p, item)[n]);
    assert Stores(Prog(pb, t, p, item), l);
    assert GemmKernel(pb).active(t, p, item);
  }

  // ------------------------------------------------------------------
  // The state of a team's cells at the start of each phase
  // ------------------------------------------------------------------

  ghost predicate InputsHeld(pb: ValidProblem, m: Memory<Address>) {
    && (forall i, j :: 0 <= i < pb.a.rows && 0 <= j < pb.a.cols ==> Get(m, ACell(i, j)) == At(pb.a, i, j))
    && (forall i, j :: 0 <= i < pb.b.rows && 0 <= j < pb.b.cols ==> Get(m, BCell(i, j)) == At(pb.b, i, j))
  }

  /** The result the specification asks for in C(i, j), from the initial memory. */
  ghost function Result(pb: ValidProblem, mem: Memory<Address>, i: int, j: int): Complex {
    GemmEntry(pb.alpha, pb.opA, pb.a, pb.opB, pb.b, pb.beta, Get(mem, CCell(i, j)), i, j)
  }

  ghost predicate TileHeld(pb: ValidProblem, mem: Memory<Address>, t: int, p: int, m: Memory<Address>)
    requires InLeague(pb, t)
  {
    forall i, j :: Own(pb, t, CCell(i, j)) ==>
      Get(m, CCell(i, j)) == if p <= 2 * Steps(pb) + 1 then Get(mem, CCell(i, j)) else Result(pb, mem, i, j)
  }

  /** The accumulator block holds the product over the inner blocks done so far. */
  ghost predicate Accumulated(pb: ValidProblem, t: int, p: int, m: Memory<Address>)
    requires InLeague(pb, t)
  {
    forall i, j :: 0 <= i < pb.blockA0 && 0 <= j < pb.blockB1 ==>
      Get(m, CScr(t, i, j))
      == Sum(Product(pb.opA, pb.a, pb.opB, pb.b, OffI(pb, t) + i, OffJ(pb, t) + j), 0, InnerOffset(pb, p))
  }

  /** The staged blocks hold the padded slices of op(A) and op(B). */
  ghost predicate Staged(pb: ValidProblem, t: int, p: int, m: Memory<Address>)
    requires InLeague(pb, t)
  {
    && (forall i, k :: 0 <= i < pb.blockA0 && 0 <= k < pb.blockA1 ==>
          Get(m, AScr(t, i, k)) == Padded(pb.opA, pb.a, OffI(pb, t) + i, InnerOffset(pb, p) + k))
    && (forall k, j :: 0 <= k < pb.blockA1 && 0 <= j < pb.blockB1 ==>
          Get(m, BScr(t, k, j)) == Padded(pb.opB, pb.b, InnerOffset(pb, p) + k, OffJ(pb, t) + j))
  }

  ghost predicate Facts(pb: ValidProblem, mem: Memory<Address>, t: int, p: int, m: Memory<Address>)
    requires InLeague(pb, t)
  {
    && InputsHeld(pb, m)
    && TileHeld(pb, mem, t, p, m)
    && (1 <= p <= 2 * Steps(pb) + 1 ==> Accumulated(pb, t, p, m))
    && (DotPhase(pb, p) ==> Staged(pb, t, p, m))
  }

  lemma InputsKept(pb: ValidProblem, t: int, p: int, m: Memory<Address>, m': Memory<Address>)
    requires InLeague(pb, t) && PhaseResult(GemmKernel(pb), t, p, m, m') && InputsHeld(pb, m)
    ensures InputsHeld(pb, m')
  {
    hide GemmKernel, PhaseResult, Teams;
    forall i, j | 0 <= i < pb.a.rows && 0 <= j < pb.a.cols
      ensures Get(m', ACell(i, j)) == At(pb.a, i, j)
    {
      Kept(pb, t, p, m, m', ACell(i, j));
    }
    forall i, j | 0 <= i < pb.b.rows && 0 <= j < pb.b.cols
      ensures Get(m', BCell(i, j)) == At(pb.b, i, j)
    {
      Kept(pb, t, p, m, m', BCell(i, j));
    }
  }

  lemma AfterClear(pb: ValidProblem, t: int, m: Memory<Address>, m': Memory<Address>)
    requires InLeague(pb, t) && PhaseResult(GemmKernel(pb), t, 0, m, m')
    ensures Accumulated(pb, t, 1, m')
  {
    hide GemmKernel, PhaseResult, OffI, OffJ, Teams, Padded;
    forall i, j | 0 <= i < pb.blockA0 && 0 <= j < pb.blockB1
      ensures Get(m', CScr(t, i, j)) == Zero
    {
      var prog := Prog(pb, t, 0, ClearC(i, j));
      assert Active(pb, t, 0, ClearC(i, j));
      Stored(pb, t, 0, m, m', ClearC(i, j), 0);
      assert Solo(prog, m, 1).mem == m[CScr(t, i, j) := Zero];
    }
    assert InnerOffset(pb, 1) == 0;
  }

  lemma AfterLoad(pb: ValidProblem, t: int, p: int, m: Memory<Address>, m': Memory<Address>)
    requires InLeague(pb, t) && PhaseResult(GemmKernel(pb), t, p, m, m') && LoadPhase(pb, p) && InputsHeld(pb, m)
    ensures Staged(pb, t, p, m')
  {
    hide GemmKernel, PhaseResult, OffI, OffJ, Teams, Padded, InnerOffset, Steps;
    forall i, k | 0 <= i < pb.blockA0 && 0 <= k < pb.blockA1
      ensures Get(m', AScr(t, i, k)) == Padded(pb.opA, pb.a, OffI(pb, t) + i, InnerOffset(pb, p) + k)
    {
      var prog := Prog(pb, t, p, CopyA(i, k));
      CopyEffect(pb.opA, pb.a, (i, j) => ACell(i, j), AScr(t, i, k), OffI(pb, t) + i, InnerOffset(pb, p) + k, m);
      Stored(pb, t, p, m, m', CopyA(i, k), |prog| - 1);
    }
    forall k, j | 0 <= k < pb.blockA1 && 0 <= j < pb.blockB1
      ensures Get(m', BScr(t, k, j)) == Padded(pb.opB, pb.b, InnerOffset(pb, p) + k, OffJ(pb, t) + j)
    {
      var prog := Prog(pb, t, p, CopyB(k, j));
      CopyEffect(pb.opB, pb.b, (i, j) => BCell(i, j), BScr(t, k, j), InnerOffset(pb, p) + k, OffJ(pb, t) + j, m);
      Stored(pb, t, p, m, m', CopyB(k, j), |prog| - 1);
    }
  }

  lemma InnerOffsetSteps(pb: ValidProblem, p: int)
    requires p >= 1
    ensures p % 2 == 1 ==> InnerOffset(pb, p + 1) == InnerOffset(pb, p)
    ensures p % 2 == 0 ==> InnerOffset(pb, p + 1) == InnerOffset(pb, p) + pb.blockA1
  {
    if p % 2 == 1 {
      assert (p + 1 - 1) / 2 == (p - 1) / 2;
    } else {
      assert (p + 1 - 1) / 2 == (p - 1) / 2 + 1;
    }
  }

  /** The staged product is the next slice of the inner dimension. */
  lemma StagedSlice(pb: ValidProblem, t: int, p: int, m: Memory<Address>, i: int, j: int)
    requires InLeague(pb, t) && Staged(pb, t, p, m) && 0 <= i < pb.blockA0 && 0 <= j < pb.blockB1
    ensures Sum(ScrProduct(m, t, i, j), 0, pb.blockA1)
            == Sum(Product(pb.opA, pb.a, pb.opB, pb.b, OffI(pb, t) + i, OffJ(pb, t) + j),
                   InnerOffset(pb, p), InnerOffset(pb, p) + pb.blockA1)
  {
    hide OffI, OffJ, Padded, InnerOffset, Mul, Sum, Teams;
    var f := Product(pb.opA, pb.a, pb.opB, pb.b, OffI(pb, t) + i, OffJ(pb, t) + j);
    var g := ScrProduct(m, t, i, j);
    forall k | 0 <= k < pb.blockA1
      ensures g(k) == f(k + InnerOffset(pb, p))
    {
    }
    SumShift(g, f, 0, pb.blockA1, InnerOffset(pb, p));
  }

  lemma AfterDotCell(pb: ValidProblem, t: int, p: int, m: Memory<Address>, m': Memory<Address>, i: int, j: int)
    requires InLeague(pb, t) && PhaseResult(GemmKernel(pb), t, p, m, m') && DotPhase(pb, p)
    requires 0 <= i < pb.blockA0 && 0 <= j < pb.blockB1
    ensures Get(m', CScr(t, i, j)) == DotResult(m, t, i, j, pb.blockA1)
  {
    hide GemmKernel, PhaseResult, OffI, OffJ, Teams, DotStore, DotResult, Steps;
    var q := pb.blockB1 / 4;
    var g: nat := if j < q then 0 else if j < 2 * q then 1 else if j < 3 * q then 2 else 3;
    var b := j - g * q;
    assert SplitColumn(pb.blockB1, b, g) == j;
    var prog := Prog(pb, t, p, Dot(i, b));
    var n := 5 * pb.blockA1 + 2 * g + 1;
    assert prog == DotProg(t, i, b, pb.blockA1, pb.blockB1);
    assert prog[n] == Store(CScr(t, i, j), DotStore(pb.blockA1, g));
    Stored(pb, t, p, m, m', Dot(i, b), n);
    DotEffect(t, i, b, pb.blockA1, pb.blockB1, m, g);
  }

  lemma AfterDot(pb: ValidProblem, t: int, p: int, m: Memory<Address>, m': Memory<Address>)
    requires InLeague(pb, t) && PhaseResult(GemmKernel(pb), t, p, m, m') && DotPhase(pb, p)
    requires Accumulated(pb, t, p, m) && Staged(pb, t, p, m)
    ensures Accumulated(pb, t, p + 1, m')
  {
    hide GemmKernel, PhaseResult, OffI, OffJ, Teams, InnerOffset, Staged, Sum, Steps, Product, Add;
    InnerOffsetSteps(pb, p);
    forall i, j | 0 <= i < pb.blockA0 && 0 <= j < pb.blockB1
      ensures Get(m', CScr(t, i, j))
              == Sum(Product(pb.opA, pb.a, pb.opB, pb.b, OffI(pb, t) + i, OffJ(pb, t) + j), 0, InnerOffset(pb, p + 1))
    {
      AfterDotCell(pb, t, p, m, m', i, j);
      StagedSlice(pb, t, p, m, i, j);
      SumSplit(Product(pb.opA, pb.a, pb.opB, pb.b, OffI(pb, t) + i, OffJ(pb, t) + j),
               0, InnerOffset(pb, p), InnerOffset(pb, p + 1));
    }
  }

  lemma AccumulatedKept(pb: ValidProblem, t: int, p: int, m: Memory<Address>, m': Memory<Address>)
    requires InLeague(pb, t) && PhaseResult(GemmKernel(pb), t, p, m, m') && LoadPhase(pb, p)
    requires Accumulated(pb, t, p, m)
    ensures Accumulated(pb, t, p + 1, m')
  {
    hide GemmKernel, PhaseResult, OffI, OffJ, Teams, InnerOffset, Sum, Steps, Product;
    InnerOffsetSteps(pb, p);
    forall i, j | 0 <= i < pb.blockA0 && 0 <= j < pb.blockB1
      ensures Get(m', CScr(t, i, j)) == Get(m, CScr(t, i, j))
    {
      Kept(pb, t, p, m, m', CScr(t, i, j));
    }
  }

  lemma StagedAt(pb: ValidProblem, t: int, p: int, m: Memory<Address>)
    requires InLeague(pb, t) && p >= 1 && p % 2 == 1 && Staged(pb, t, p, m)
    ensures Staged(pb, t, p + 1, m)
  {
    InnerOffsetSteps(pb, p);
  }

  /** The accumulator block is complete when the inner loop ends. */
  lemma FullInnerExtent(pb: ValidProblem, i: int, j: int)
    ensures Sum(Product(pb.opA, pb.a, pb.opB, pb.b, i, j), 0, InnerOffset(pb, 2 * Steps(pb) + 1))
            == MatMul(pb.opA, pb.a, pb.opB, pb.b, i, j)
  {
    hide Sum, Product, MatMul;
    var k := Steps(pb);
    assert (2 * k + 1 - 1) / 2 == k;
    assert Inner(pb) <= k * pb.blockA1 by { BlockStart(Inner(pb), pb.blockA1, k); }
    PaddingAddsNothing(pb.opA, pb.a, pb.opB, pb.b, i, j, k * pb.blockA1);
  }

  lemma TileKept(pb: ValidProblem, mem: Memory<Address>, t: int, p: int, m: Memory<Address>, m': Memory<Address>)
    requires InLeague(pb, t) && PhaseResult(GemmKernel(pb), t, p, m, m') && p < 2 * Steps(pb) + 1
    requires TileHeld(pb, mem, t, p, m)
    ensures TileHeld(pb, mem, t, p + 1, m')
  {
    hide GemmKernel, PhaseResult, Own, Teams, Result, Steps;
    forall i, j | Own(pb, t, CCell(i, j))
      ensures Get(m', CCell(i, j)) == Get(m, CCell(i, j))
    {
      Kept(pb, t, p, m, m', CCell(i, j));
    }
  }

  lemma AfterWrite(pb: ValidProblem, mem: Memory<Address>, t: int, m: Memory<Address>, m': Memory<Address>)
    requires InLeague(pb, t) && PhaseResult(GemmKernel(pb), t, 2 * Steps(pb) + 1, m, m')
    requires TileHeld(pb, mem, t, 2 * Steps(pb) + 1, m) && Accumulated(pb, t, 2 * Steps(pb) + 1, m)
    ensures TileHeld(pb, mem, t, 2 * Steps(pb) + 2, m')
  {
    hide GemmKernel, PhaseResult, OffI, OffJ, Teams, Clip, Sum, Product, MatMul, InnerOffset, Update, Steps, WriteProg;
    var p := 2 * Steps(pb) + 1;
    forall i, j | Own(pb, t, CCell(i, j))
      ensures Get(m', CCell(i, j)) == Result(pb, mem, i, j)
    {
      var x, y := i - OffI(pb, t), j - OffJ(pb, t);
      WriteRange(pb, t, x, y);
      assert Active(pb, t, p, Write(x, y));
      var prog := Prog(pb, t, p, Write(x, y));
      assert prog == WriteProg(pb.alpha, pb.beta, CScr(t, x, y), CCell(i, j));
      WriteProgStore(pb.alpha, pb.beta, CScr(t, x, y), CCell(i, j));
      Stored(pb, t, p, m, m', Write(x, y), |prog| - 1);
      WriteEffect(pb.alpha, pb.beta, CScr(t, x, y), CCell(i, j), m);
      FullInnerExtent(pb, i, j);
    }
  }

  lemma WriteProgStore(alpha: Complex, beta: Complex, scr: Address, dst: Address)
    ensures |WriteProg(alpha, beta, scr, dst)| > 0
    ensures WriteProg(alpha, beta, scr, dst)[|WriteProg(alpha, beta, scr, dst)| - 1].Store?
    ensures Cell(WriteProg(alpha, beta, scr, dst)[|WriteProg(alpha, beta, scr, dst)| - 1]) == dst
  {
  }

  /** Each phase takes the facts of its start to the facts of the next one. */
  lemma PhaseKeepsFacts(pb: ValidProblem, mem: Memory<Address>, t: int, p: nat, m: Memory<Address>, m': Memory<Address>)
    requires InLeague(pb, t) && p < Phases(pb)
    requires PhaseResult(GemmKernel(pb), t, p, m, m') && Facts(pb, mem, t, p, m)
    ensures Facts(pb, mem, t, p + 1, m')
  {
    hide GemmKernel, PhaseResult, InputsHeld, TileHeld, Accumulated, Staged, Teams, Steps;
    InputsKept(pb, t, p, m, m');
    if p == 2 * Steps(pb) + 1 {
      AfterWrite(pb, mem, t, m, m');
    } else {
      TileKept(pb, mem, t, p, m, m');
      if p == 0 {
        AfterClear(pb, t, m, m');
      } else if p % 2 == 1 {
        AfterLoad(pb, t, p, m, m');
        StagedAt(pb, t, p, m');
        AccumulatedKept(pb, t, p, m, m');
      } else {
        AfterDot(pb, t, p, m, m');
      }
    }
  }

  // ------------------------------------------------------------------
  // Every schedule
  // ------------------------------------------------------------------

  ghost predicate AllFacts(pb: ValidProblem, mem: Memory<Address>, s: State<Item, Address>) {
    |s.teams| == Teams(pb) && forall t :: 0 <= t < |s.teams| ==> Facts(pb, mem, t, s.teams[t].phase, s.teams[t].start)
  }

  lemma StepKeepsFacts(pb: ValidProblem, mem: Memory<Address>, s: State<Item, Address>, e: Event<Item>)
    requires Inv(GemmKernel(pb), s) && Enabled(GemmKernel(pb), s, e) && AllFacts(pb, mem, s)
    ensures AllFacts(pb, mem, Next(GemmKernel(pb), s, e))
  {
    hide Facts, Inv, Teams, PhaseResult;
    if e.Barrier? {
      var t := e.team;
      BarrierSeesPhaseResult(GemmKernel(pb), s, t);
      PhaseKeepsFacts(pb, mem, t, s.teams[t].phase, s.teams[t].start, s.mem);
    }
  }

  lemma {:induction false} ReachableFacts(pb: ValidProblem, mem: Memory<Address>, events: seq<Event<Item>>,
                                          s: State<Item, Address>)
    requires InputsHeld(pb, mem) && Reaches(GemmKernel(pb), mem, events, s)
    ensures AllFacts(pb, mem, s)
    decreases |events|
  {
    if events == [] {
    } else {
      hide Inv, AllFacts, GemmKernel, RaceFree, InputsHeld;
      var n := |events| - 1;
      var b :| Reaches(GemmKernel(pb), mem, events[..n], b)
               && Enabled(GemmKernel(pb), b, events[n]) && s == Next(GemmKernel(pb), b, events[n]);
      GemmIsRaceFree(pb);
      ReachableInv(GemmKernel(pb), mem, events[..n], b);
      ReachableFacts(pb, mem, events[..n], b);
      StepKeepsFacts(pb, mem, b, events[n]);
    }
  }

  /** Every schedule that respects the barriers, at the granularity of single loads and
      stores, leaves beta * C + alpha * op(A) * op(B) in every entry of C. */
  lemma EveryScheduleComputesGemm(pb: ValidProblem, mem: Memory<Address>, events: seq<Event<Item>>,
                                  s: State<Item, Address>, i: int, j: int)
    requires InputsHeld(pb, mem)
    requires Reaches(GemmKernel(pb), mem, events, s) && Finished(GemmKernel(pb), s)
    requires 0 <= i < M(pb) && 0 <= j < N(pb)
    ensures Get(s.mem, CCell(i, j)) == Result(pb, mem, i, j)
  {
    hide Inv, TeamView, Facts, RaceFree, Result, TileOf, CeilDiv, Reaches, Own;
    var t := OwnerOf(pb, i, j);
    GemmIsRaceFree(pb);
    ReachableInv(GemmKernel(pb), mem, events, s);
    ReachableFacts(pb, mem, events, s);
    FinalCell(pb, mem, s, t, i, j);
  }

  lemma OwnerOf(pb: ValidProblem, i: int, j: int) returns (t: int)
    requires 0 <= i < M(pb) && 0 <= j < N(pb)
    ensures InLeague(pb, t) && Own(pb, t, CCell(i, j))
  {
    hide OffI, OffJ;
    t := TileOf(i, j, pb.blockA0, pb.blockB1, CeilDiv(N(pb), pb.blockB1));
    TilesPartitionC(M(pb), N(pb), pb.blockA0, pb.blockB1, i, j, t);
    OffUnfold(pb, t);
  }

  lemma OffUnfold(pb: ValidProblem, t: int)
    requires InLeague(pb, t)
    ensures OffI(pb, t) == RowOffset(t, CeilDiv(N(pb), pb.blockB1), pb.blockA0)
    ensures OffJ(pb, t) == ColOffset(t, CeilDiv(N(pb), pb.blockB1), pb.blockB1)
  {
  }

  lemma FinalCell(pb: ValidProblem, mem: Memory<Address>, s: State<Item, Address>, t: int, i: int, j: int)
    requires Inv(GemmKernel(pb), s) && AllFacts(pb, mem, s) && Finished(GemmKernel(pb), s)
    requires InLeague(pb, t) && Own(pb, t, CCell(i, j))
    ensures 0 <= i < M(pb) && 0 <= j < N(pb)
    ensures Get(s.mem, CCell(i, j)) == Result(pb, mem, i, j)
  {
    hide Own, Result, Teams, Steps, InputsHeld;
    OwnInC(pb, t, i, j);
    OwnNotForeign(pb, t, CCell(i, j));
    KindQuietIsQuiet(pb, t, Phases(pb), CCell(i, j));
    assert s.teams[t].phase == Phases(pb) == 2 * Steps(pb) + 2;
    assert TeamView(GemmKernel(pb), t, s.teams[t], s.mem);
    assert Get(s.mem, CCell(i, j)) == Get(s.teams[t].start, CCell(i, j));
    assert TileHeld(pb, mem, t, 2 * Steps(pb) + 2, s.teams[t].start);
  }

  lemma OwnInC(pb: ValidProblem, t: int, i: int, j: int)
    requires InLeague(pb, t) && Own(pb, t, CCell(i, j))
    ensures 0 <= i < M(pb) && 0 <= j < N(pb)
  {
  }
}
