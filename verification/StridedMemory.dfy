/**
 Matrix-vector operands in flat memory: base addresses and strides into one array, and
 what the row-wise kernels do to it.
 */
module StridedMemory {
  import opened Scalars
  import opened Sums
  import opened Matrices

  /** The arguments m, n, A, as0, as1, x, xs0, y and ys0 of a kernel. */
  datatype Geometry = Geometry(m: int, n: int, a: int, as0: int, as1: int, x: int, xs0: int, y: int, ys0: int)

  function AAddr(g: Geometry, i: int, j: int): int { g.a + i * g.as0 + j * g.as1 }

  function XAddr(g: Geometry, j: int): int { g.x + j * g.xs0 }

  function YAddr(g: Geometry, i: int): int { g.y + i * g.ys0 }

  /** The addresses are in bounds, no two rows share a cell of y, and y overlaps neither
      A nor x. */
  ghost predicate Valid(g: Geometry, size: nat) {
    && (forall i, j :: 0 <= i < g.m && 0 <= j < g.n ==> 0 <= AAddr(g, i, j) < size)
    && (forall j :: 0 <= j < g.n ==> 0 <= XAddr(g, j) < size)
    && (forall i :: 0 <= i < g.m ==> 0 <= YAddr(g, i) < size)
    && (forall i, k :: 0 <= i < g.m && 0 <= k < g.m && i != k ==> YAddr(g, i) != YAddr(g, k))
    && (forall i, j, k :: 0 <= i < g.m && 0 <= j < g.n && 0 <= k < g.m ==> YAddr(g, k) != AAddr(g, i, j))
    && (forall j, k :: 0 <= j < g.n && 0 <= k < g.m ==> YAddr(g, k) != XAddr(g, j))
  }

  ghost predicate IsYCell(g: Geometry, p: int) {
    exists i :: 0 <= i < g.m && p == YAddr(g, i)
  }

  /** Nothing outside y differs. */
  ghost predicate SameOffY(g: Geometry, before: seq<Complex>, after: seq<Complex>) {
    |after| == |before| && forall p :: 0 <= p < |before| && !IsYCell(g, p) ==> after[p] == before[p]
  }

  /** What is applied to the entries of A. */
  datatype OpA = OpID | OpConj

  function ApplyOp(op: OpA, v: Complex): Complex {
    if op.OpConj? then Conj(v) else v
  }

  function RowTerm(mem: seq<Complex>, op: OpA, g: Geometry, i: int): int -> Complex {
    j => if 0 <= AAddr(g, i, j) < |mem| && 0 <= XAddr(g, j) < |mem|
         then Mul(ApplyOp(op, mem[AAddr(g, i, j)]), mem[XAddr(g, j)]) else Zero
  }

  function Count(n: int): nat { if n < 0 then 0 else n }

  ghost function RowSum(mem: seq<Complex>, op: OpA, g: Geometry, i: int): Complex {
    Sum(RowTerm(mem, op, g, i), 0, Count(g.n))
  }

  /** The specification of every kernel on flat memory: y = beta * y + alpha * op(A) * x,
      and no other cell changes. */
  ghost predicate GemvDone(before: seq<Complex>, after: seq<Complex>, op: OpA, alpha: Complex, beta: Complex,
                           g: Geometry)
    requires Valid(g, |before|)
  {
    && SameOffY(g, before, after)
    && forall i :: 0 <= i < g.m ==>
         after[YAddr(g, i)] == Update(beta, before[YAddr(g, i)], alpha, RowSum(before, op, g, i))
  }

  ghost predicate Scaled(before: seq<Complex>, after: seq<Complex>, beta: Complex, g: Geometry)
    requires Valid(g, |before|)
  {
    SameOffY(g, before, after) && forall i :: 0 <= i < g.m ==> after[YAddr(g, i)] == Mul(beta, before[YAddr(g, i)])
  }

  function RowRange(lo: int, hi: int): (rows: set<int>)
    ensures forall i :: i in rows <==> lo <= i < hi
    decreases hi - lo
  {
    if hi <= lo then {} else RowRange(lo, hi - 1) + {hi - 1}
  }

  /** alpha * op(A) * x has been added to the given rows of y, and to no others. */
  ghost predicate RowsAdded(before: seq<Complex>, after: seq<Complex>, op: OpA, alpha: Complex, g: Geometry,
                            rows: set<int>)
    requires Valid(g, |before|)
  {
    && |after| == |before| && SameOffY(g, before, after)
    && forall i :: 0 <= i < g.m ==>
         after[YAddr(g, i)] == if i in rows then Add(before[YAddr(g, i)], Mul(alpha, RowSum(before, op, g, i)))
                               else before[YAddr(g, i)]
  }

  /** Changes to y do not reach the row sums. */
  lemma RowFrame(before: seq<Complex>, after: seq<Complex>, op: OpA, g: Geometry, i: int)
    requires Valid(g, |before|) && SameOffY(g, before, after) && 0 <= i < g.m
    ensures RowSum(after, op, g, i) == RowSum(before, op, g, i)
  {
    hide AAddr, XAddr, YAddr, Mul;
    forall j | 0 <= j < Count(g.n)
      ensures RowTerm(after, op, g, i)(j) == RowTerm(before, op, g, i)(j)
    {
      assert !IsYCell(g, AAddr(g, i, j)) && !IsYCell(g, XAddr(g, j));
    }
    SumCongruence(RowTerm(after, op, g, i), RowTerm(before, op, g, i), 0, Count(g.n));
  }

  lemma NothingAdded(before: seq<Complex>, op: OpA, alpha: Complex, g: Geometry)
    requires Valid(g, |before|)
    ensures RowsAdded(before, before, op, alpha, g, {})
  {
  }

  /** One more row. */
  lemma AddRow(base: seq<Complex>, cur: seq<Complex>, op: OpA, alpha: Complex, g: Geometry, rows: set<int>, i: int,
               v: Complex)
    requires Valid(g, |base|) && RowsAdded(base, cur, op, alpha, g, rows)
    requires 0 <= i < g.m && i !in rows && v == Mul(alpha, RowSum(base, op, g, i))
    ensures |cur| == |base| && 0 <= YAddr(g, i) < |cur|
    ensures RowsAdded(base, cur[YAddr(g, i) := Add(cur[YAddr(g, i)], v)], op, alpha, g, rows + {i})
  {
    hide AAddr, XAddr, YAddr, Mul, Add, RowSum;
  }

  /** Rows i, ..., i + c - 1 of a kernel's arguments. */
  function Shifted(g: Geometry, i: int, c: int): Geometry {
    g.(m := c, a := g.a + i * g.as0, y := g.y + i * g.ys0)
  }

  lemma ShiftedAddresses(g: Geometry, i: int, c: int)
    ensures forall k, j :: AAddr(Shifted(g, i, c), k, j) == AAddr(g, i + k, j)
    ensures forall j :: XAddr(Shifted(g, i, c), j) == XAddr(g, j)
    ensures forall k :: YAddr(Shifted(g, i, c), k) == YAddr(g, i + k)
  {
  }

  lemma ShiftedValid(g: Geometry, size: nat, i: int, c: int)
    requires Valid(g, size) && 0 <= i && i + c <= g.m
    ensures Valid(Shifted(g, i, c), size)
  {
    ShiftedAddresses(g, i, c);
    ShiftedExtents(g, i, c);
    hide AAddr, XAddr, YAddr, Shifted;
  }

  lemma ShiftedExtents(g: Geometry, i: int, c: int)
    ensures Shifted(g, i, c).m == c && Shifted(g, i, c).n == g.n
  {
  }

  lemma ShiftedSum(mem: seq<Complex>, op: OpA, g: Geometry, i: int, c: int, k: int)
    ensures RowSum(mem, op, Shifted(g, i, c), k) == RowSum(mem, op, g, i + k)
  {
    ShiftedAddresses(g, i, c);
    ShiftedExtents(g, i, c);
    hide AAddr, XAddr, Shifted, Mul;
    SumCongruence(RowTerm(mem, op, Shifted(g, i, c), k), RowTerm(mem, op, g, i + k), 0, Count(g.n));
  }

  /** A whole chunk of rows, added by a kernel that was given the shifted arguments. */
  lemma AddChunk(base: seq<Complex>, cur: seq<Complex>, next: seq<Complex>, op: OpA, alpha: Complex, g: Geometry,
                 rows: set<int>, i: int, c: int)
    requires Valid(g, |base|) && RowsAdded(base, cur, op, alpha, g, rows)
    requires 0 <= i && 0 <= c && i + c <= g.m && rows !! RowRange(i, i + c)
    requires Valid(Shifted(g, i, c), |cur|) && RowsAdded(cur, next, op, alpha, Shifted(g, i, c), RowRange(0, c))
    ensures RowsAdded(base, next, op, alpha, g, rows + RowRange(i, i + c))
  {
    hide AAddr, XAddr, YAddr, Mul, Add, RowSum, Shifted, Valid, SameOffY;
    ChunkOffY(base, cur, next, g, i, c);
    var range := RowRange(i, i + c);
    YCellsInBounds(g, |base|);
    forall k | 0 <= k < g.m
      ensures next[YAddr(g, k)] == if k in rows + range then Add(base[YAddr(g, k)], Mul(alpha, RowSum(base, op, g, k)))
                                   else base[YAddr(g, k)]
    {
      if i <= k < i + c {
        InsideChunk(base, cur, next, op, alpha, g, rows, i, c, k);
      } else {
        OutsideChunk(g, cur, next, i, c, k);
      }
    }
  }

  lemma YCellsInBounds(g: Geometry, size: nat)
    requires Valid(g, size)
    ensures forall i :: 0 <= i < g.m ==> 0 <= YAddr(g, i) < size
  {
    hide AAddr, XAddr, YAddr;
  }

  lemma InsideChunk(base: seq<Complex>, cur: seq<Complex>, next: seq<Complex>, op: OpA, alpha: Complex, g: Geometry,
                    rows: set<int>, i: int, c: int, k: int)
    requires Valid(g, |base|) && RowsAdded(base, cur, op, alpha, g, rows) && 0 <= i && i + c <= g.m
    requires Valid(Shifted(g, i, c), |cur|) && RowsAdded(cur, next, op, alpha, Shifted(g, i, c), RowRange(0, c))
    requires i <= k < i + c && k !in rows
    ensures 0 <= YAddr(g, k) < |base| && next[YAddr(g, k)] == Add(base[YAddr(g, k)], Mul(alpha, RowSum(base, op, g, k)))
  {
    hide AAddr, XAddr, YAddr, Mul, Add, RowSum, Shifted, Valid, SameOffY;
    YCellsInBounds(g, |base|);
    ShiftedRow(g, i, c, k - i);
    ShiftedExtents(g, i, c);
    ShiftedSum(cur, op, g, i, c, k - i);
    RowFrame(base, cur, op, g, k);
  }

  lemma ShiftedRow(g: Geometry, i: int, c: int, k: int)
    ensures YAddr(Shifted(g, i, c), k) == YAddr(g, i + k)
  {
    ShiftedAddresses(g, i, c);
  }

  lemma OutsideChunk(g: Geometry, cur: seq<Complex>, next: seq<Complex>, i: int, c: int, k: int)
    requires Valid(g, |cur|) && 0 <= i && i + c <= g.m && 0 <= k < g.m && !(i <= k < i + c)
    requires SameOffY(Shifted(g, i, c), cur, next)
    ensures 0 <= YAddr(g, k) < |cur| && |next| == |cur| && next[YAddr(g, k)] == cur[YAddr(g, k)]
  {
    ShiftedAddresses(g, i, c);
    ShiftedExtents(g, i, c);
    hide AAddr, XAddr, YAddr, Shifted;
    forall r | 0 <= r < c
      ensures YAddr(Shifted(g, i, c), r) != YAddr(g, k)
    {
      assert YAddr(Shifted(g, i, c), r) == YAddr(g, i + r);
    }
    assert !IsYCell(Shifted(g, i, c), YAddr(g, k));
  }

  lemma ChunkOffY(base: seq<Complex>, cur: seq<Complex>, next: seq<Complex>, g: Geometry, i: int, c: int)
    requires SameOffY(g, base, cur) && SameOffY(Shifted(g, i, c), cur, next) && 0 <= i && i + c <= g.m
    ensures SameOffY(g, base, next)
  {
    ShiftedAddresses(g, i, c);
    ShiftedExtents(g, i, c);
    hide AAddr, XAddr, YAddr, Shifted;
    forall p | 0 <= p < |base| && !IsYCell(g, p)
      ensures !IsYCell(Shifted(g, i, c), p)
    {
      forall r | 0 <= r < c
        ensures p != YAddr(Shifted(g, i, c), r)
      {
        assert YAddr(Shifted(g, i, c), r) == YAddr(g, i + r);
      }
    }
  }

  /** Scaling and then adding every row is the whole update. */
  lemma ScaledThenAdded(before: seq<Complex>, base: seq<Complex>, after: seq<Complex>, op: OpA, alpha: Complex,
                        beta: Complex, g: Geometry)
    requires Valid(g, |before|) && Scaled(before, base, beta, g)
    requires RowsAdded(base, after, op, alpha, g, RowRange(0, g.m))
    ensures GemvDone(before, after, op, alpha, beta, g)
  {
    hide AAddr, XAddr, YAddr, Mul, Add, RowSum;
    forall i | 0 <= i < g.m
      ensures after[YAddr(g, i)] == Update(beta, before[YAddr(g, i)], alpha, RowSum(before, op, g, i))
    {
      RowFrame(before, base, op, g, i);
    }
  }

  /** Without alpha, without columns or without rows, scaling is the whole update. */
  lemma ScaledIsAll(before: seq<Complex>, after: seq<Complex>, op: OpA, alpha: Complex, beta: Complex, g: Geometry)
    requires Valid(g, |before|) && Scaled(before, after, beta, g) && (alpha == Zero || g.n <= 0 || g.m <= 0)
    ensures GemvDone(before, after, op, alpha, beta, g)
  {
    hide AAddr, XAddr, YAddr, Mul;
    MulUnits(alpha);
    forall i | 0 <= i < g.m
      ensures after[YAddr(g, i)] == Update(beta, before[YAddr(g, i)], alpha, RowSum(before, op, g, i))
    {
      MulUnits(RowSum(before, op, g, i));
    }
  }
}
