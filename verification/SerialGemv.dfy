/**
 Serial GEMV over flat memory: the plain loop, and the blocked form built from unrolled
 dot products of up to five rows at a time. Both meet the same specification.
 */
module SerialGemv {
  import opened Scalars
  import opened Sums
  import opened Matrices
  import opened StridedMemory
  import GemvSpec

  // ------------------------------------------------------------------
  // Scaling y
  // ------------------------------------------------------------------

  method Set(mem: array<Complex>, g: Geometry, value: Complex)
    requires Valid(g, mem.Length)
    modifies mem
    ensures SameOffY(g, old(mem[..]), mem[..])
    ensures forall i :: 0 <= i < g.m ==> mem[YAddr(g, i)] == value
  {
    hide AAddr, XAddr, YAddr;
    var i := 0;
    while i < g.m
      invariant 0 <= i
      invariant SameOffY(g, old(mem[..]), mem[..])
      invariant forall k :: 0 <= k < i && k < g.m ==> mem[YAddr(g, k)] == value
    {
      mem[YAddr(g, i)] := value;
      i := i + 1;
    }
  }

  method Scale(mem: array<Complex>, g: Geometry, beta: Complex)
    requires Valid(g, mem.Length)
    modifies mem
    ensures Scaled(old(mem[..]), mem[..], beta, g)
  {
    hide AAddr, XAddr, YAddr, Mul;
    var i := 0;
    while i < g.m
      invariant 0 <= i
      invariant SameOffY(g, old(mem[..]), mem[..])
      invariant forall k :: 0 <= k < g.m ==>
                  mem[YAddr(g, k)] == if k < i then Mul(beta, old(mem[YAddr(g, k)])) else old(mem[YAddr(g, k)])
    {
      MulComm(mem[YAddr(g, i)], beta);
      mem[YAddr(g, i)] := Mul(mem[YAddr(g, i)], beta);
      i := i + 1;
    }
  }

  /** The beta phase: set, scale or leave alone. */
  method BetaPhase(mem: array<Complex>, g: Geometry, beta: Complex)
    requires Valid(g, mem.Length)
    modifies mem
    ensures Scaled(old(mem[..]), mem[..], beta, g)
  {
    hide AAddr, XAddr, YAddr, Mul;
    if beta == Zero {
      Set(mem, g, Zero);
    } else if beta != One {
      Scale(mem, g, beta);
    }
    UnitScale(old(mem[..]), mem[..], beta, g);
  }

  lemma UnitScale(before: seq<Complex>, after: seq<Complex>, beta: Complex, g: Geometry)
    requires Valid(g, |before|) && SameOffY(g, before, after)
    requires || (beta == Zero && forall i :: 0 <= i < g.m ==> after[YAddr(g, i)] == Zero)
             || (beta == One && after == before)
             || Scaled(before, after, beta, g)
    ensures Scaled(before, after, beta, g)
  {
    hide AAddr, XAddr, YAddr, Mul;
    if beta == Zero || beta == One {
      forall i | 0 <= i < g.m
        ensures after[YAddr(g, i)] == Mul(beta, before[YAddr(g, i)])
      {
        MulUnits(before[YAddr(g, i)]);
      }
    }
  }

  // ------------------------------------------------------------------
  // Dot products of one row and of several rows
  // ------------------------------------------------------------------

  /** One more product of a row: what the loops over j add to their accumulators. */
  lemma NextTerm(mem: seq<Complex>, op: OpA, g: Geometry, i: int, j: int)
    requires Valid(g, |mem|) && 0 <= i < g.m && 0 <= j < g.n
    ensures 0 <= AAddr(g, i, j) < |mem| && 0 <= XAddr(g, j) < |mem|
    ensures Sum(RowTerm(mem, op, g, i), 0, j + 1)
            == Add(Sum(RowTerm(mem, op, g, i), 0, j), Mul(ApplyOp(op, mem[AAddr(g, i, j)]), mem[XAddr(g, j)]))
  {
    hide AAddr, XAddr, YAddr, Mul, Add;
  }

  /** y[i] += v. */
  method AddTo(mem: array<Complex>, g: Geometry, i: int, v: Complex)
    requires 0 <= YAddr(g, i) < mem.Length
    modifies mem
    ensures mem[..] == old(mem[..])[YAddr(g, i) := Add(old(mem[YAddr(g, i)]), v)]
  {
    hide YAddr, Add;
    mem[YAddr(g, i)] := Add(mem[YAddr(g, i)], v);
  }

  /** y[i] += alpha * t for the row sum t. */
  method AddScaledRow(mem: array<Complex>, ghost base: seq<Complex>, op: OpA, alpha: Complex, g: Geometry,
                      ghost rows: set<int>, i: int, t: Complex)
    requires Valid(g, |base|) && RowsAdded(base, mem[..], op, alpha, g, rows)
    requires 0 <= i < g.m && i !in rows && t == RowSum(base, op, g, i)
    modifies mem
    ensures RowsAdded(base, mem[..], op, alpha, g, rows + {i})
  {
    hide AAddr, XAddr, YAddr, Mul, Add, RowSum, RowsAdded, Valid;
    AddRow(base, mem[..], op, alpha, g, rows, i, Mul(alpha, t));
    AddTo(mem, g, i, Mul(alpha, t));
  }

  method RowDot(mem: array<Complex>, op: OpA, g: Geometry, i: int) returns (t: Complex)
    requires Valid(g, mem.Length) && 0 <= i < g.m
    ensures t == RowSum(mem[..], op, g, i)
  {
    hide AAddr, XAddr, YAddr, Mul, Add, RowSum, RowTerm, Valid;
    t := Zero;
    var j := 0;
    while j < g.n
      invariant 0 <= j <= Count(g.n)
      invariant t == Sum(RowTerm(mem[..], op, g, i), 0, j)
    {
      NextTerm(mem[..], op, g, i, j);
      t := Add(t, Mul(ApplyOp(op, mem[AAddr(g, i, j)]), mem[XAddr(g, j)]));
      j := j + 1;
    }
    EmptyOrWhole(mem[..], op, g, i);
  }

  lemma EmptyOrWhole(mem: seq<Complex>, op: OpA, g: Geometry, i: int)
    ensures Sum(RowTerm(mem, op, g, i), 0, Count(g.n)) == RowSum(mem, op, g, i)
  {
    hide RowTerm;
  }

  // ------------------------------------------------------------------
  // Unblocked
  // ------------------------------------------------------------------

  method Unblocked(mem: array<Complex>, op: OpA, alpha: Complex, beta: Complex, g: Geometry)
    requires Valid(g, mem.Length)
    modifies mem
    ensures GemvDone(old(mem[..]), mem[..], op, alpha, beta, g)
  {
    hide AAddr, XAddr, YAddr, Mul, Add, GemvDone, Scaled, RowsAdded, RowSum, Valid;
    BetaPhase(mem, g, beta);
    ghost var base := mem[..];
    if alpha == Zero || g.m <= 0 || g.n <= 0 {
      ScaledIsAll(old(mem[..]), base, op, alpha, beta, g);
      return;
    }
    NothingAdded(base, op, alpha, g);
    for i := 0 to g.m
      invariant RowsAdded(base, mem[..], op, alpha, g, RowRange(0, i))
    {
      var t := RowDot(mem, op, g, i);
      SumsUnchanged(base, mem[..], op, alpha, g, RowRange(0, i), i);
      AddScaledRow(mem, base, op, alpha, g, RowRange(0, i), i, t);
    }
    ScaledThenAdded(old(mem[..]), base, mem[..], op, alpha, beta, g);
  }

  lemma SumsUnchanged(base: seq<Complex>, cur: seq<Complex>, op: OpA, alpha: Complex, g: Geometry, rows: set<int>,
                      i: int)
    requires Valid(g, |base|) && RowsAdded(base, cur, op, alpha, g, rows) && 0 <= i < g.m
    ensures RowSum(cur, op, g, i) == RowSum(base, op, g, i)
  {
    hide RowSum, Valid, AAddr, XAddr, YAddr;
    RowFrame(base, cur, op, g, i);
  }

  // ------------------------------------------------------------------
  // InnerMultipleDotProduct
  // ------------------------------------------------------------------

  /** InnerMultipleDotProduct<5>: five rows at once. */
  method FiveRows(mem: array<Complex>, op: OpA, alpha: Complex, g: Geometry)
    requires g.m == 5 && Valid(g, mem.Length)
    modifies mem
    ensures RowsAdded(old(mem[..]), mem[..], op, alpha, g, RowRange(0, 5))
  {
    hide AAddr, XAddr, YAddr, Mul, Add, RowSum, RowTerm, RowsAdded, Valid;
    ghost var base := mem[..];
    if g.n <= 0 {
      NoColumns(base, op, alpha, g);
      return;
    }
    var y0, y1, y2, y3, y4 := Zero, Zero, Zero, Zero, Zero;
    var j := 0;
    while j < g.n
      modifies {}
      invariant 0 <= j <= Count(g.n)
      invariant y0 == Sum(RowTerm(base, op, g, 0), 0, j)
      invariant y1 == Sum(RowTerm(base, op, g, 1), 0, j)
      invariant y2 == Sum(RowTerm(base, op, g, 2), 0, j)
      invariant y3 == Sum(RowTerm(base, op, g, 3), 0, j)
      invariant y4 == Sum(RowTerm(base, op, g, 4), 0, j)
    {
      NextTerm(base, op, g, 0, j);
      NextTerm(base, op, g, 1, j);
      NextTerm(base, op, g, 2, j);
      NextTerm(base, op, g, 3, j);
      NextTerm(base, op, g, 4, j);
      var xj := mem[XAddr(g, j)];
      y0 := Add(y0, Mul(ApplyOp(op, mem[AAddr(g, 0, j)]), xj));
      y1 := Add(y1, Mul(ApplyOp(op, mem[AAddr(g, 1, j)]), xj));
      y2 := Add(y2, Mul(ApplyOp(op, mem[AAddr(g, 2, j)]), xj));
      y3 := Add(y3, Mul(ApplyOp(op, mem[AAddr(g, 3, j)]), xj));
      y4 := Add(y4, Mul(ApplyOp(op, mem[AAddr(g, 4, j)]), xj));
      j := j + 1;
    }
    assert mem[..] == base;
    NothingAdded(base, op, alpha, g);
    EmptyOrWhole(base, op, g, 0);
    EmptyOrWhole(base, op, g, 1);
    EmptyOrWhole(base, op, g, 2);
    EmptyOrWhole(base, op, g, 3);
    EmptyOrWhole(base, op, g, 4);
    AddScaledRow(mem, base, op, alpha, g, RowRange(0, 0), 0, y0);
    AddScaledRow(mem, base, op, alpha, g, RowRange(0, 1), 1, y1);
    AddScaledRow(mem, base, op, alpha, g, RowRange(0, 2), 2, y2);
    AddScaledRow(mem, base, op, alpha, g, RowRange(0, 3), 3, y3);
    AddScaledRow(mem, base, op, alpha, g, RowRange(0, 4), 4, y4);
  }

  /** InnerMultipleDotProduct<4>: four rows at once. */
  method FourRows(mem: array<Complex>, op: OpA, alpha: Complex, g: Geometry)
    requires g.m == 4 && Valid(g, mem.Length)
    modifies mem
    ensures RowsAdded(old(mem[..]), mem[..], op, alpha, g, RowRange(0, 4))
  {
    hide AAddr, XAddr, YAddr, Mul, Add, RowSum, RowTerm, RowsAdded, Valid;
    ghost var base := mem[..];
    if g.n == 0 {
      NoColumns(base, op, alpha, g);
      return;
    }
    var y0, y1, y2, y3 := Zero, Zero, Zero, Zero;
    var j := 0;
    while j < g.n
      modifies {}
      invariant 0 <= j <= Count(g.n)
      invariant y0 == Sum(RowTerm(base, op, g, 0), 0, j)
      invariant y1 == Sum(RowTerm(base, op, g, 1), 0, j)
      invariant y2 == Sum(RowTerm(base, op, g, 2), 0, j)
      invariant y3 == Sum(RowTerm(base, op, g, 3), 0, j)
    {
      NextTerm(base, op, g, 0, j);
      NextTerm(base, op, g, 1, j);
      NextTerm(base, op, g, 2, j);
      NextTerm(base, op, g, 3, j);
      var xj := mem[XAddr(g, j)];
      y0 := Add(y0, Mul(ApplyOp(op, mem[AAddr(g, 0, j)]), xj));
      y1 := Add(y1, Mul(ApplyOp(op, mem[AAddr(g, 1, j)]), xj));
      y2 := Add(y2, Mul(ApplyOp(op, mem[AAddr(g, 2, j)]), xj));
      y3 := Add(y3, Mul(ApplyOp(op, mem[AAddr(g, 3, j)]), xj));
      j := j + 1;
    }
    assert mem[..] == base;
    NothingAdded(base, op, alpha, g);
    EmptyOrWhole(base, op, g, 0);
    EmptyOrWhole(base, op, g, 1);
    EmptyOrWhole(base, op, g, 2);
    EmptyOrWhole(base, op, g, 3);
    AddScaledRow(mem, base, op, alpha, g, RowRange(0, 0), 0, y0);
    AddScaledRow(mem, base, op, alpha, g, RowRange(0, 1), 1, y1);
    AddScaledRow(mem, base, op, alpha, g, RowRange(0, 2), 2, y2);
    AddScaledRow(mem, base, op, alpha, g, RowRange(0, 3), 3, y3);
  }

  /** InnerMultipleDotProduct<3>: three rows at once. */
  method ThreeRows(mem: array<Complex>, op: OpA, alpha: Complex, g: Geometry)
    requires g.m == 3 && Valid(g, mem.Length)
    modifies mem
    ensures RowsAdded(old(mem[..]), mem[..], op, alpha, g, RowRange(0, 3))
  {
    hide AAddr, XAddr, YAddr, Mul, Add, RowSum, RowTerm, RowsAdded, Valid;
    ghost var base := mem[..];
    if g.n <= 0 {
      NoColumns(base, op, alpha, g);
      return;
    }
    var y0, y1, y2 := Zero, Zero, Zero;
    var j := 0;
    while j < g.n
      modifies {}
      invariant 0 <= j <= Count(g.n)
      invariant y0 == Sum(RowTerm(base, op, g, 0), 0, j)
      invariant y1 == Sum(RowTerm(base, op, g, 1), 0, j)
      invariant y2 == Sum(RowTerm(base, op, g, 2), 0, j)
    {
      NextTerm(base, op, g, 0, j);
      NextTerm(base, op, g, 1, j);
      NextTerm(base, op, g, 2, j);
      var xj := mem[XAddr(g, j)];
      y0 := Add(y0, Mul(ApplyOp(op, mem[AAddr(g, 0, j)]), xj));
      y1 := Add(y1, Mul(ApplyOp(op, mem[AAddr(g, 1, j)]), xj));
      y2 := Add(y2, Mul(ApplyOp(op, mem[AAddr(g, 2, j)]), xj));
      j := j + 1;
    }
    assert mem[..] == base;
    NothingAdded(base, op, alpha, g);
    EmptyOrWhole(base, op, g, 0);
    EmptyOrWhole(base, op, g, 1);
    EmptyOrWhole(base, op, g, 2);
    AddScaledRow(mem, base, op, alpha, g, RowRange(0, 0), 0, y0);
    AddScaledRow(mem, base, op, alpha, g, RowRange(0, 1), 1, y1);
    AddScaledRow(mem, base, op, alpha, g, RowRange(0, 2), 2, y2);
  }

  /** InnerMultipleDotProduct<2>: two rows at once. */
  method TwoRows(mem: array<Complex>, op: OpA, alpha: Complex, g: Geometry)
    requires g.m == 2 && Valid(g, mem.Length)
    modifies mem
    ensures RowsAdded(old(mem[..]), mem[..], op, alpha, g, RowRange(0, 2))
  {
    hide AAddr, XAddr, YAddr, Mul, Add, RowSum, RowTerm, RowsAdded, Valid;
    ghost var base := mem[..];
    if g.n <= 0 {
      NoColumns(base, op, alpha, g);
      return;
    }
    var y0, y1 := Zero, Zero;
    var j := 0;
    while j < g.n
      modifies {}
      invariant 0 <= j <= Count(g.n)
      invariant y0 == Sum(RowTerm(base, op, g, 0), 0, j)
      invariant y1 == Sum(RowTerm(base, op, g, 1), 0, j)
    {
      NextTerm(base, op, g, 0, j);
      NextTerm(base, op, g, 1, j);
      var xj := mem[XAddr(g, j)];
      y0 := Add(y0, Mul(ApplyOp(op, mem[AAddr(g, 0, j)]), xj));
      y1 := Add(y1, Mul(ApplyOp(op, mem[AAddr(g, 1, j)]), xj));
      j := j + 1;
    }
    assert mem[..] == base;
    NothingAdded(base, op, alpha, g);
    EmptyOrWhole(base, op, g, 0);
    EmptyOrWhole(base, op, g, 1);
    AddScaledRow(mem, base, op, alpha, g, RowRange(0, 0), 0, y0);
    AddScaledRow(mem, base, op, alpha, g, RowRange(0, 1), 1, y1);
  }

  /** InnerMultipleDotProduct<1>: one row. */
  method OneRow(mem: array<Complex>, op: OpA, alpha: Complex, g: Geometry)
    requires g.m == 1 && Valid(g, mem.Length)
    modifies mem
    ensures RowsAdded(old(mem[..]), mem[..], op, alpha, g, RowRange(0, 1))
  {
    hide AAddr, XAddr, YAddr, Mul, Add, RowSum, RowTerm, RowsAdded, Valid;
    ghost var base := mem[..];
    if g.n <= 0 {
      NoColumns(base, op, alpha, g);
      return;
    }
    var y0 := Zero;
    var j := 0;
    while j < g.n
      modifies {}
      invariant 0 <= j <= Count(g.n)
      invariant y0 == Sum(RowTerm(base, op, g, 0), 0, j)
    {
      NextTerm(base, op, g, 0, j);
      var xj := mem[XAddr(g, j)];
      y0 := Add(y0, Mul(ApplyOp(op, mem[AAddr(g, 0, j)]), xj));
      j := j + 1;
    }
    assert mem[..] == base;
    NothingAdded(base, op, alpha, g);
    EmptyOrWhole(base, op, g, 0);
    AddScaledRow(mem, base, op, alpha, g, RowRange(0, 0), 0, y0);
  }

  /** Rows without columns have nothing to add. */
  lemma NoColumns(base: seq<Complex>, op: OpA, alpha: Complex, g: Geometry)
    requires Valid(g, |base|) && g.n <= 0
    ensures RowsAdded(base, base, op, alpha, g, RowRange(0, g.m))
  {
    hide AAddr, XAddr, YAddr, Mul, Valid;
    MulUnits(alpha);
    YCellsInBounds(g, |base|);
  }

  /** serial_invoke with a row count: the switch reaches a case for every count up to mb. */
  method SerialInvoke(mb: int, mem: array<Complex>, op: OpA, alpha: Complex, g: Geometry)
    requires 1 <= mb <= 5 && g.m <= mb && Valid(g, mem.Length)
    modifies mem
    ensures RowsAdded(old(mem[..]), mem[..], op, alpha, g, RowRange(0, g.m))
  {
    hide AAddr, XAddr, YAddr, Mul, Add, RowSum, RowTerm, RowsAdded, Valid;
    if g.m <= 0 || g.n <= 0 {
      NoRowsOrColumns(mem[..], op, alpha, g);
      return;
    }
    if mb >= 5 && g.m == 5 {
      FiveRows(mem, op, alpha, g);
    } else if mb >= 4 && g.m == 4 {
      FourRows(mem, op, alpha, g);
    } else if mb >= 3 && g.m == 3 {
      ThreeRows(mem, op, alpha, g);
    } else if mb >= 2 && g.m == 2 {
      TwoRows(mem, op, alpha, g);
    } else {
      OneRow(mem, op, alpha, g);
    }
  }

  lemma NoRowsOrColumns(base: seq<Complex>, op: OpA, alpha: Complex, g: Geometry)
    requires Valid(g, |base|) && (g.m <= 0 || g.n <= 0)
    ensures RowsAdded(base, base, op, alpha, g, RowRange(0, g.m))
  {
    hide AAddr, XAddr, YAddr, Mul, Valid, RowSum, RowTerm;
    YCellsInBounds(g, |base|);
    if g.n <= 0 {
      NoColumns(base, op, alpha, g);
    }
  }

  // ------------------------------------------------------------------
  // Blocked
  // ------------------------------------------------------------------

  /** One call of the inner kernel, on rows i, ..., i + c - 1. */
  method Chunk(mb: int, mem: array<Complex>, ghost base: seq<Complex>, op: OpA, alpha: Complex, g: Geometry,
               ghost rows: set<int>, i: int, c: int)
    requires 1 <= mb <= 5 && 0 <= i && 0 <= c <= mb && i + c <= g.m
    requires Valid(g, |base|) && RowsAdded(base, mem[..], op, alpha, g, rows) && rows !! RowRange(i, i + c)
    modifies mem
    ensures RowsAdded(base, mem[..], op, alpha, g, rows + RowRange(i, i + c))
  {
    hide AAddr, XAddr, YAddr, Mul, Add, RowSum, RowTerm, Valid, Shifted, SameOffY;
    ghost var cur := mem[..];
    assert |cur| == |base|;
    ShiftedValid(g, mem.Length, i, c);
    ShiftedExtents(g, i, c);
    hide RowsAdded;
    SerialInvoke(mb, mem, op, alpha, Shifted(g, i, c));
    AddChunk(base, cur, mem[..], op, alpha, g, rows, i, c);
  }

  method Blocked(mbAlgo: int, mem: array<Complex>, op: OpA, alpha: Complex, beta: Complex, g: Geometry)
    requires 1 <= mbAlgo <= 5 && Valid(g, mem.Length)
    modifies mem
    ensures GemvDone(old(mem[..]), mem[..], op, alpha, beta, g)
  {
    hide AAddr, XAddr, YAddr, Mul, Add, GemvDone, Scaled, RowsAdded, RowSum, Valid;
    BetaPhase(mem, g, beta);
    ghost var base := mem[..];
    if alpha == Zero || g.m <= 0 || g.n <= 0 {
      ScaledIsAll(old(mem[..]), base, op, alpha, beta, g);
      return;
    }
    NothingAdded(base, op, alpha, g);
    var mb := mbAlgo;
    var i := 0;
    while i < g.m
      invariant 0 <= i
      invariant RowsAdded(base, mem[..], op, alpha, g, RowRange(0, if i < g.m then i else g.m))
    {
      var c := if i + mb > g.m then g.m - i else mb;
      Chunk(mb, mem, base, op, alpha, g, RowRange(0, i), i, c);
      assert RowRange(0, i) + RowRange(i, i + c) == RowRange(0, i + c);
      i := i + mb;
    }
    ScaledThenAdded(old(mem[..]), base, mem[..], op, alpha, beta, g);
  }

  // ------------------------------------------------------------------
  // SerialGemv on views
  // ------------------------------------------------------------------

  /** A strided rank-2 view and a strided rank-1 view of the memory. */
  datatype MatrixView = MatrixView(data: int, extent0: nat, extent1: nat, stride0: int, stride1: int)

  datatype VectorView = VectorView(data: int, extent: nat, stride: int)

  datatype Algo = UnblockedAlgo | BlockedAlgo(mb: int)

  function EntryAddr(v: MatrixView, i: int, j: int): int { v.data + i * v.stride0 + j * v.stride1 }

  function ElementAddr(v: VectorView, i: int): int { v.data + i * v.stride }

  /** The arguments SerialGemv passes on: a transpose swaps extents and strides. */
  function GeometryOf(trans: Op, a: MatrixView, x: VectorView, y: VectorView): Geometry {
    match trans
    case NoTrans => Geometry(a.extent0, a.extent1, a.data, a.stride0, a.stride1, x.data, x.stride, y.data, y.stride)
    case _ => Geometry(a.extent1, a.extent0, a.data, a.stride1, a.stride0, x.data, x.stride, y.data, y.stride)
  }

  function OpAOf(trans: Op): OpA {
    if trans.ConjTrans? then OpConj else OpID
  }

  ghost predicate ViewsValid(trans: Op, a: MatrixView, x: VectorView, y: VectorView, size: nat) {
    && x.extent == (if trans.NoTrans? then a.extent1 else a.extent0)
    && y.extent == (if trans.NoTrans? then a.extent0 else a.extent1)
    && Valid(GeometryOf(trans, a, x, y), size)
  }

  function CellOf(mem: seq<Complex>, p: int): Complex {
    if 0 <= p < |mem| then mem[p] else Zero
  }

  /** The contents a view shows. */
  function MatrixOf(mem: seq<Complex>, v: MatrixView): Matrix {
    MatrixData(v.extent0, v.extent1, seq(v.extent0, i => seq(v.extent1, j => CellOf(mem, EntryAddr(v, i, j)))))
  }

  function VectorOf(mem: seq<Complex>, v: VectorView): seq<Complex> {
    seq(v.extent, i => CellOf(mem, ElementAddr(v, i)))
  }

  /** Swapping extents and strides, and conjugating on the way, reads op(A). */
  lemma AddressesOfViews(trans: Op, a: MatrixView, x: VectorView, y: VectorView, i: int, j: int)
    ensures var g := GeometryOf(trans, a, x, y);
            && AAddr(g, i, j) == (if trans.NoTrans? then EntryAddr(a, i, j) else EntryAddr(a, j, i))
            && XAddr(g, j) == ElementAddr(x, j) && YAddr(g, i) == ElementAddr(y, i)
  {
  }

  lemma RowSumOfViews(mem: seq<Complex>, trans: Op, a: MatrixView, x: VectorView, y: VectorView, i: int)
    requires ViewsValid(trans, a, x, y, |mem|) && 0 <= i < y.extent
    ensures RowSum(mem, OpAOf(trans), GeometryOf(trans, a, x, y), i)
            == GemvSpec.MatVec(trans, MatrixOf(mem, a), VectorOf(mem, x), i)
  {
    hide Mul, AAddr, XAddr, YAddr, EntryAddr, ElementAddr;
    var g := GeometryOf(trans, a, x, y);
    var f := RowTerm(mem, OpAOf(trans), g, i);
    var h := GemvSpec.Term(trans, MatrixOf(mem, a), VectorOf(mem, x), i);
    forall j | 0 <= j < x.extent
      ensures f(j) == h(j)
    {
      AddressesOfViews(trans, a, x, y, i, j);
    }
    SumCongruence(f, h, 0, x.extent);
  }

  /** y is updated as the one-line specification of GEMV says, and nothing else changes. */
  ghost predicate ViewsDone(before: seq<Complex>, after: seq<Complex>, trans: Op, alpha: Complex, a: MatrixView,
                            x: VectorView, beta: Complex, y: VectorView) {
    && |after| == |before|
    && (forall i :: 0 <= i < y.extent ==>
          CellOf(after, ElementAddr(y, i))
          == GemvSpec.GemvEntry(alpha, trans, MatrixOf(before, a), VectorOf(before, x), beta,
                                CellOf(before, ElementAddr(y, i)), i))
    && (forall p :: 0 <= p < |before| && (forall i :: 0 <= i < y.extent ==> ElementAddr(y, i) != p) ==>
          after[p] == before[p])
  }

  /** The result written out on memory: f lists the products of row i of op(A) with x, read at
      base addresses and strides. */
  lemma ViewsWrittenOut(before: seq<Complex>, after: seq<Complex>, trans: Op, alpha: Complex, a: MatrixView,
                        x: VectorView, beta: Complex, y: VectorView, i: nat, f: int -> Complex)
    requires ViewsValid(trans, a, x, y, |before|) && ViewsDone(before, after, trans, alpha, a, x, beta, y)
    requires i < y.extent
    requires forall j :: 0 <= j < x.extent ==>
               f(j) == Mul(match trans
                           case NoTrans => CellOf(before, a.data + i * a.stride0 + j * a.stride1)
                           case Trans => CellOf(before, a.data + j * a.stride0 + i * a.stride1)
                           case ConjTrans => Conj(CellOf(before, a.data + j * a.stride0 + i * a.stride1)),
                           CellOf(before, x.data + j * x.stride))
    ensures CellOf(after, y.data + i * y.stride)
            == Add(Mul(beta, CellOf(before, y.data + i * y.stride)), Mul(alpha, Sum(f, 0, x.extent)))
  {
    hide Mul, Add, Conj, CellOf, GemvSpec.GemvEntry;
    var m, v := MatrixOf(before, a), VectorOf(before, x);
    forall j | 0 <= j < |v|
      ensures f(j) == Mul(match trans
                          case NoTrans => m.data[i][j]
                          case Trans => m.data[j][i]
                          case ConjTrans => Conj(m.data[j][i]), v[j])
    {
    }
    GemvSpec.GemvWrittenOut(alpha, trans, m, v, beta, CellOf(before, ElementAddr(y, i)), i, f);
  }

  lemma ViewsOfGeometry(before: seq<Complex>, after: seq<Complex>, trans: Op, alpha: Complex, a: MatrixView,
                        x: VectorView, beta: Complex, y: VectorView)
    requires ViewsValid(trans, a, x, y, |before|)
    requires GemvDone(before, after, OpAOf(trans), alpha, beta, GeometryOf(trans, a, x, y))
    ensures ViewsDone(before, after, trans, alpha, a, x, beta, y)
  {
    hide Mul, Add, AAddr, XAddr, YAddr, EntryAddr, ElementAddr, RowSum, GemvSpec.MatVec, MatrixOf, VectorOf;
    var g := GeometryOf(trans, a, x, y);
    forall i | 0 <= i < y.extent
      ensures CellOf(after, ElementAddr(y, i))
              == GemvSpec.GemvEntry(alpha, trans, MatrixOf(before, a), VectorOf(before, x), beta,
                                    CellOf(before, ElementAddr(y, i)), i)
    {
      RowSumOfViews(before, trans, a, x, y, i);
      AddressesOfViews(trans, a, x, y, i, 0);
    }
    forall p | 0 <= p < |before| && (forall i :: 0 <= i < y.extent ==> ElementAddr(y, i) != p)
      ensures after[p] == before[p]
    {
      forall i | 0 <= i < g.m
        ensures p != YAddr(g, i)
      {
        AddressesOfViews(trans, a, x, y, i, 0);
      }
      assert !IsYCell(g, p);
    }
  }

  /** SerialGemv for every transpose argument and both algorithms. */
  method Invoke(mem: array<Complex>, algo: Algo, trans: Op, alpha: Complex, a: MatrixView, x: VectorView,
                beta: Complex, y: VectorView)
    requires ViewsValid(trans, a, x, y, mem.Length) && (algo.BlockedAlgo? ==> 1 <= algo.mb <= 5)
    modifies mem
    ensures ViewsDone(old(mem[..]), mem[..], trans, alpha, a, x, beta, y)
  {
    hide GemvDone, ViewsDone, GeometryOf;
    match algo
    case UnblockedAlgo =>
      Unblocked(mem, OpAOf(trans), alpha, beta, GeometryOf(trans, a, x, y));
      ViewsOfGeometry(old(mem[..]), mem[..], trans, alpha, a, x, beta, y);
    case BlockedAlgo(mb) =>
      Blocked(mb, mem, OpAOf(trans), alpha, beta, GeometryOf(trans, a, x, y));
      ViewsOfGeometry(old(mem[..]), mem[..], trans, alpha, a, x, beta, y);
  }
}
