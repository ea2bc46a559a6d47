/**
 The tiled GEMM kernel on the barrier machine: every load and store of every team,
 in every interleaving that respects the barriers.
 */
module GemmSchedules {
  import opened Scalars
  import opened Sums
  import opened Matrices
  import opened Tiling
  import opened BarrierMachine

  datatype Problem = Problem(alpha: Complex, opA: Op, a: Matrix, opB: Op, b: Matrix, beta: Complex,
                             blockA0: nat, blockA1: nat, blockB1: nat)

  ghost predicate Valid(pb: Problem) {
    && Conformable(pb.opA, pb.a, pb.opB, pb.b)
    && pb.blockA0 > 0 && pb.blockA1 > 0 && pb.blockB1 > 0 && pb.blockB1 % 4 == 0
  }

  type ValidProblem = pb: Problem | Valid(pb)
    ghost witness Problem(Zero, NoTrans, MatrixData(0, 0, []), NoTrans, MatrixData(0, 0, []), Zero, 1, 1, 4)

  ghost function M(pb: ValidProblem): nat { OpRows(pb.opA, pb.a) }

  ghost function N(pb: ValidProblem): nat { OpCols(pb.opB, pb.b) }

  ghost function Inner(pb: ValidProblem): nat { OpCols(pb.opA, pb.a) }

  /** Number of blocks of the inner dimension. */
  ghost function Steps(pb: ValidProblem): nat { CeilDiv(Inner(pb), pb.blockA1) }

  ghost function Teams(pb: ValidProblem): nat { CeilDiv(M(pb), pb.blockA0) * CeilDiv(N(pb), pb.blockB1) }

  /** Clearing, then loading and multiplying for each inner block, then writing back. */
  ghost function Phases(pb: ValidProblem): nat { 2 * Steps(pb) + 2 }

  ghost predicate InLeague(pb: ValidProblem, t: int) { 0 <= t < Teams(pb) }

  ghost function OffI(pb: ValidProblem, t: int): nat
    requires InLeague(pb, t)
  {
    TeamInLeague(t, M(pb), N(pb), pb.blockA0, pb.blockB1);
    RowOffset(t, CeilDiv(N(pb), pb.blockB1), pb.blockA0)
  }

  ghost function OffJ(pb: ValidProblem, t: int): nat
    requires InLeague(pb, t)
  {
    TeamInLeague(t, M(pb), N(pb), pb.blockA0, pb.blockB1);
    ColOffset(t, CeilDiv(N(pb), pb.blockB1), pb.blockB1)
  }

  /** The write-back range: the whole block, or extent % block at the edge. */
  ghost function Clip(off: nat, block: nat, extent: nat): nat
    requires block > 0
  {
    if off + block <= extent then block else extent % block
  }

  datatype Address =
    | ACell(i: int, j: int)
    | BCell(i: int, j: int)
    | CCell(i: int, j: int)
    | AScr(team: int, i: int, j: int)
    | BScr(team: int, i: int, j: int)
    | CScr(team: int, i: int, j: int)

  datatype Item =
    ClearC(i: int, j: int) | CopyA(i: int, j: int) | CopyB(i: int, j: int) | Dot(i: int, b: int) | Write(i: int, j: int)

  ghost predicate LoadPhase(pb: ValidProblem, p: int) { 1 <= p <= 2 * Steps(pb) && p % 2 == 1 }

  ghost predicate DotPhase(pb: ValidProblem, p: int) { 1 <= p <= 2 * Steps(pb) && p % 2 == 0 }

  ghost predicate Active(pb: ValidProblem, t: int, p: int, item: Item) {
    InLeague(pb, t) &&
    match item
    case ClearC(i, j) => p == 0 && 0 <= i < pb.blockA0 && 0 <= j < pb.blockB1
    case CopyA(i, j) => LoadPhase(pb, p) && 0 <= i < pb.blockA0 && 0 <= j < pb.blockA1
    case CopyB(i, j) => LoadPhase(pb, p) && 0 <= i < pb.blockA1 && 0 <= j < pb.blockB1
    case Dot(i, b) => DotPhase(pb, p) && 0 <= i < pb.blockA0 && 0 <= b < pb.blockB1 / 4
    case Write(i, j) =>
      && p == 2 * Steps(pb) + 1
      && 0 <= i < Clip(OffI(pb, t), pb.blockA0, M(pb))
      && 0 <= j < Clip(OffJ(pb, t), pb.blockB1, N(pb))
  }

  // ------------------------------------------------------------------
  // What each work item executes
  // ------------------------------------------------------------------

  /** Where entry (i, j) of op(x) is stored, given the cells of x. */
  function OpCell(op: Op, cell: (int, int) -> Address, i: int, j: int): Address {
    if op.NoTrans? then cell(i, j) else cell(j, i)
  }

  ghost function CopyProg(op: Op, x: Matrix, cell: (int, int) -> Address, dst: Address,
                          i: int, j: int): seq<Instr<Address>> {
    if i < OpRows(op, x) && j < OpCols(op, x) then
      [Load(OpCell(op, cell, i, j)), Store(dst, log => if op.ConjTrans? then Conj(LogAt(log, 0)) else LogAt(log, 0))]
    else
      [Store(dst, log => Zero)]
  }

  /** One round of the inner loop loads A(i, j) and one B entry per column group. */
  function DotLoad(t: int, i: int, b: int, blockB1: nat, n: nat): Instr<Address> {
    if n % 5 == 0 then Load(AScr(t, i, n / 5)) else Load(BScr(t, n / 5, SplitColumn(blockB1, b, n % 5 - 1)))
  }

  /** The accumulator of column group m after blockA1 rounds, from the loaded values. */
  ghost function DotTerm(log: seq<Complex>, m: int): int -> Complex {
    j => Mul(LogAt(log, 5 * j), LogAt(log, 5 * j + 1 + m))
  }

  ghost function DotStore(blockA1: nat, m: int): seq<Complex> -> Complex {
    log => Add(LogAt(log, 5 * blockA1 + m), Sum(DotTerm(log, m), 0, blockA1))
  }

  ghost function DotUpdate(t: int, i: int, b: int, blockA1: nat, blockB1: nat, m: int): seq<Instr<Address>> {
    [Load(CScr(t, i, SplitColumn(blockB1, b, m))), Store(CScr(t, i, SplitColumn(blockB1, b, m)), DotStore(blockA1, m))]
  }

  ghost function DotProg(t: int, i: int, b: int, blockA1: nat, blockB1: nat): seq<Instr<Address>> {
    seq(5 * blockA1, (n: nat) => DotLoad(t, i, b, blockB1, n))
    + (DotUpdate(t, i, b, blockA1, blockB1, 0) + DotUpdate(t, i, b, blockA1, blockB1, 1)
       + DotUpdate(t, i, b, blockA1, blockB1, 2) + DotUpdate(t, i, b, blockA1, blockB1, 3))
  }

  ghost function WriteProg(alpha: Complex, beta: Complex, scr: Address, dst: Address): seq<Instr<Address>> {
    if beta == Zero then
      [Load(scr), Store(dst, log => Mul(alpha, LogAt(log, 0)))]
    else
      [Load(dst), Load(scr), Store(dst, log => Add(Mul(beta, LogAt(log, 0)), Mul(alpha, LogAt(log, 1))))]
  }

  /** Where the inner block of phase p starts. */
  ghost function InnerOffset(pb: ValidProblem, p: int): nat {
    if p < 1 then 0 else (p - 1) / 2 * pb.blockA1
  }

  ghost function Prog(pb: ValidProblem, t: int, p: int, item: Item): seq<Instr<Address>> {
    if !InLeague(pb, t) then [] else
    match item
    case ClearC(i, j) => [Store(CScr(t, i, j), log => Zero)]
    case CopyA(i, j) =>
      CopyProg(pb.opA, pb.a, (i, j) => ACell(i, j), AScr(t, i, j), OffI(pb, t) + i, InnerOffset(pb, p) + j)
    case CopyB(i, j) =>
      CopyProg(pb.opB, pb.b, (i, j) => BCell(i, j), BScr(t, i, j), InnerOffset(pb, p) + i, OffJ(pb, t) + j)
    case Dot(i, b) => DotProg(t, i, b, pb.blockA1, pb.blockB1)
    case Write(i, j) => WriteProg(pb.alpha, pb.beta, CScr(t, i, j), CCell(OffI(pb, t) + i, OffJ(pb, t) + j))
  }

  ghost function GemmKernel(pb: ValidProblem): Kernel<Item, Address> {
    Kernel(Teams(pb), Phases(pb), (t, p, i) => Active(pb, t, p, i), (t, p, i) => Prog(pb, t, p, i))
  }

  // ------------------------------------------------------------------
  // Footprints
  // ------------------------------------------------------------------

  /** The cells an item writes. */
  ghost predicate Writes(pb: ValidProblem, t: int, item: Item, l: Address)
    requires InLeague(pb, t)
  {
    match item
    case ClearC(i, j) => l == CScr(t, i, j)
    case CopyA(i, j) => l == AScr(t, i, j)
    case CopyB(i, j) => l == BScr(t, i, j)
    case Dot(i, b) => exists m :: 0 <= m < 4 && l == CScr(t, i, SplitColumn(pb.blockB1, b, m))
    case Write(i, j) => l == CCell(OffI(pb, t) + i, OffJ(pb, t) + j)
  }

  /** The cells an item only reads. */
  ghost predicate Reads(pb: ValidProblem, t: int, item: Item, l: Address) {
    match item
    case ClearC(i, j) => false
    case CopyA(i, j) => l.ACell? && 0 <= l.i < pb.a.rows && 0 <= l.j < pb.a.cols
    case CopyB(i, j) => l.BCell? && 0 <= l.i < pb.b.rows && 0 <= l.j < pb.b.cols
    case Dot(i, b) => (l.AScr? || l.BScr?) && l.team == t
    case Write(i, j) => l == CScr(t, i, j)
  }

  lemma CopyFootprint(op: Op, x: Matrix, cell: (int, int) -> Address, dst: Address, i: int, j: int, l: Address)
    requires 0 <= i && 0 <= j
    ensures Stores(CopyProg(op, x, cell, dst, i, j), l) ==> l == dst
    ensures Touches(CopyProg(op, x, cell, dst, i, j), l) ==>
              l == dst || exists r, c :: 0 <= r < x.rows && 0 <= c < x.cols && l == cell(r, c)
  {
    var prog := CopyProg(op, x, cell, dst, i, j);
    if Touches(prog, l) && l != dst {
      assert l == Cell(prog[0]) == OpCell(op, cell, i, j);
    }
  }

  lemma DotFootprint(t: int, i: int, b: int, blockA1: nat, blockB1: nat, l: Address)
    ensures Stores(DotProg(t, i, b, blockA1, blockB1), l) ==>
              exists m :: 0 <= m < 4 && l == CScr(t, i, SplitColumn(blockB1, b, m))
    ensures Touches(DotProg(t, i, b, blockA1, blockB1), l) ==>
              ((l.AScr? || l.BScr?) && l.team == t)
              || exists m :: 0 <= m < 4 && l == CScr(t, i, SplitColumn(blockB1, b, m))
  {
    var prog := DotProg(t, i, b, blockA1, blockB1);
    forall n | 0 <= n < |prog|
      ensures n < 5 * blockA1 ==>
                prog[n].Load? && (Cell(prog[n]).AScr? || Cell(prog[n]).BScr?) && Cell(prog[n]).team == t
      ensures n >= 5 * blockA1 ==> exists m :: 0 <= m < 4 && Cell(prog[n]) == CScr(t, i, SplitColumn(blockB1, b, m))
    {
      if n >= 5 * blockA1 {
        assert Cell(prog[n]) == CScr(t, i, SplitColumn(blockB1, b, (n - 5 * blockA1) / 2));
      } else {
        assert prog[n] == DotLoad(t, i, b, blockB1, n);
      }
    }
  }

  lemma WriteFootprint(alpha: Complex, beta: Complex, scr: Address, dst: Address, l: Address)
    ensures Stores(WriteProg(alpha, beta, scr, dst), l) ==> l == dst
    ensures Touches(WriteProg(alpha, beta, scr, dst), l) ==> l == dst || l == scr
  {
  }

  ghost predicate FootprintOk(pb: ValidProblem, t: int, p: int, item: Item, l: Address)
    requires InLeague(pb, t)
  {
    && (Stores(Prog(pb, t, p, item), l) ==> Writes(pb, t, item, l))
    && (Touches(Prog(pb, t, p, item), l) ==> Writes(pb, t, item, l) || Reads(pb, t, item, l))
  }

  lemma FootprintCopyA(pb: ValidProblem, t: int, p: int, i: int, j: int, l: Address)
    requires Active(pb, t, p, CopyA(i, j))
    ensures FootprintOk(pb, t, p, CopyA(i, j), l)
  {
    hide OffI, InnerOffset, CopyProg;
    CopyFootprint(pb.opA, pb.a, (i, j) => ACell(i, j), AScr(t, i, j), OffI(pb, t) + i, InnerOffset(pb, p) + j, l);
  }

  lemma FootprintCopyB(pb: ValidProblem, t: int, p: int, i: int, j: int, l: Address)
    requires Active(pb, t, p, CopyB(i, j))
    ensures FootprintOk(pb, t, p, CopyB(i, j), l)
  {
    hide OffJ, InnerOffset, CopyProg;
    CopyFootprint(pb.opB, pb.b, (i, j) => BCell(i, j), BScr(t, i, j), InnerOffset(pb, p) + i, OffJ(pb, t) + j, l);
  }

  lemma FootprintRest(pb: ValidProblem, t: int, p: int, item: Item, l: Address)
    requires Active(pb, t, p, item) && !item.CopyA? && !item.CopyB?
    ensures FootprintOk(pb, t, p, item, l)
  {
    hide OffI, OffJ, DotProg, WriteProg;
    match item
    case ClearC(i, j) =>
    case Dot(i, b) => DotFootprint(t, i, b, pb.blockA1, pb.blockB1, l);
    case Write(i, j) => WriteFootprint(pb.alpha, pb.beta, CScr(t, i, j), CCell(OffI(pb, t) + i, OffJ(pb, t) + j), l);
  }

  lemma Footprint(pb: ValidProblem, t: int, p: int, item: Item, l: Address)
    requires Active(pb, t, p, item)
    ensures FootprintOk(pb, t, p, item, l)
  {
    hide FootprintOk;
    match item
    case CopyA(i, j) => FootprintCopyA(pb, t, p, i, j, l);
    case CopyB(i, j) => FootprintCopyB(pb, t, p, i, j, l);
    case _ => FootprintRest(pb, t, p, item, l);
  }

  // ------------------------------------------------------------------
  // Race freedom
  // ------------------------------------------------------------------

  lemma SplitInjective(blockB1: nat, b: int, m: int, b': int, m': int)
    requires blockB1 % 4 == 0 && 0 <= b < blockB1 / 4 && 0 <= b' < blockB1 / 4
    requires 0 <= m < 4 && 0 <= m' < 4
    requires SplitColumn(blockB1, b, m) == SplitColumn(blockB1, b', m')
    ensures b == b' && m == m'
  {
  }

  lemma ClipInExtent(off: nat, block: nat, extent: nat, q: nat, i: int)
    requires block > 0 && off == q * block && off < extent
    ensures 0 <= i < Clip(off, block, extent) <==> 0 <= i < block && off + i < extent
  {
    ClippedRange(extent, block, q);
  }

  /** A write-back item is active exactly for the part of the block inside C. */
  lemma WriteRange(pb: ValidProblem, t: int, i: int, j: int)
    requires InLeague(pb, t)
    ensures OffI(pb, t) < M(pb) && OffJ(pb, t) < N(pb)
    ensures 0 <= i < Clip(OffI(pb, t), pb.blockA0, M(pb)) <==> 0 <= i < pb.blockA0 && OffI(pb, t) + i < M(pb)
    ensures 0 <= j < Clip(OffJ(pb, t), pb.blockB1, N(pb)) <==> 0 <= j < pb.blockB1 && OffJ(pb, t) + j < N(pb)
  {
    hide Clip;
    var n1 := CeilDiv(N(pb), pb.blockB1);
    TeamInLeague(t, M(pb), N(pb), pb.blockA0, pb.blockB1);
    ClipInExtent(OffI(pb, t), pb.blockA0, M(pb), t / n1, i);
    ClipInExtent(OffJ(pb, t), pb.blockB1, N(pb), t % n1, j);
  }

  /** The tiles of different teams do not meet. */
  lemma TilesApart(pb: ValidProblem, t: int, t': int, i: int, j: int)
    requires InLeague(pb, t) && InLeague(pb, t')
    requires 0 <= i < M(pb) && 0 <= j < N(pb)
    requires InTile(i, j, OffI(pb, t), OffJ(pb, t), pb.blockA0, pb.blockB1)
    requires InTile(i, j, OffI(pb, t'), OffJ(pb, t'), pb.blockA0, pb.blockB1)
    ensures t == t'
  {
    TilesPartitionC(M(pb), N(pb), pb.blockA0, pb.blockB1, i, j, t);
    TilesPartitionC(M(pb), N(pb), pb.blockA0, pb.blockB1, i, j, t');
  }

  /** Two concurrent items of one team: what one writes the other does not touch. */
  lemma ItemsApart(pb: ValidProblem, t: int, p: int, x: Item, y: Item, l: Address)
    requires Active(pb, t, p, x) && Active(pb, t, p, y) && x != y
    requires Writes(pb, t, x, l)
    ensures !Writes(pb, t, y, l) && !Reads(pb, t, y, l)
  {
    hide OffI, OffJ, SplitColumn;
    if x.Dot? && Writes(pb, t, y, l) {
      var m :| 0 <= m < 4 && l == CScr(t, x.i, SplitColumn(pb.blockB1, x.b, m));
      var m' :| 0 <= m' < 4 && l == CScr(t, y.i, SplitColumn(pb.blockB1, y.b, m'));
      SplitInjective(pb.blockB1, x.b, m, y.b, m');
    }
  }

  /** Items of different teams: what one writes the other does not touch. */
  lemma TeamsApart(pb: ValidProblem, t: int, p: int, x: Item, t': int, p': int, y: Item, l: Address)
    requires t != t' && Active(pb, t, p, x) && Active(pb, t', p', y)
    requires Writes(pb, t, x, l)
    ensures !Writes(pb, t', y, l) && !Reads(pb, t', y, l)
  {
    hide OffI, OffJ, SplitColumn, Clip, Teams;
    if x.Write? && y.Write? && Writes(pb, t', y, l) {
      WriteRange(pb, t, x.i, x.j);
      WriteRange(pb, t', y.i, y.j);
      TilesApart(pb, t, t', l.i, l.j);
    }
  }

  /** In no phase does an item of the tiled GEMM touch a cell of scratch or of C that
      a concurrent item, of the same or another team, writes. */
  lemma GemmIsRaceFree(pb: ValidProblem)
    ensures RaceFree(GemmKernel(pb))
  {
    hide Active, Prog, Writes, Reads;
    var k := GemmKernel(pb);
    forall t, p, i, j, l | k.active(t, p, i) && k.active(t, p, j) && i != j && Stores(k.prog(t, p, i), l)
      ensures !Touches(k.prog(t, p, j), l)
    {
      assert InLeague(pb, t) by { ActiveInLeague(pb, t, p, i); }
      Footprint(pb, t, p, i, l);
      Footprint(pb, t, p, j, l);
      ItemsApart(pb, t, p, i, j, l);
    }
    forall t, p, i, t', p', i', l | t != t' && k.active(t, p, i) && k.active(t', p', i') && Stores(k.prog(t, p, i), l)
      ensures !Touches(k.prog(t', p', i'), l)
    {
      ActiveInLeague(pb, t, p, i);
      ActiveInLeague(pb, t', p', i');
      Footprint(pb, t, p, i, l);
      Footprint(pb, t', p', i', l);
      TeamsApart(pb, t, p, i, t', p', i', l);
    }
  }

  lemma ActiveInLeague(pb: ValidProblem, t: int, p: int, item: Item)
    requires Active(pb, t, p, item)
    ensures InLeague(pb, t)
  {
  }

  /** Every access to A, B and C is inside the extents of the view. */
  lemma AccessesInBounds(pb: ValidProblem, t: int, p: int, item: Item, l: Address)
    requires Active(pb, t, p, item) && Touches(Prog(pb, t, p, item), l)
    ensures l.ACell? ==> 0 <= l.i < pb.a.rows && 0 <= l.j < pb.a.cols
    ensures l.BCell? ==> 0 <= l.i < pb.b.rows && 0 <= l.j < pb.b.cols
    ensures l.CCell? ==> 0 <= l.i < M(pb) && 0 <= l.j < N(pb)
  {
    hide OffI, OffJ, Prog, Clip, Teams;
    Footprint(pb, t, p, item, l);
    if item.Write? {
      WriteRange(pb, t, item.i, item.j);
    }
  }
}
