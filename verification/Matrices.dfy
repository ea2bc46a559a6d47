/**
 Read-only matrix views and the three ways a BLAS routine may read one:
 as it is, transposed, or conjugate-transposed.
 */
module Matrices {
  import opened Scalars
  import opened Sums

  /** The contents of a const rank-2 view. */
  datatype MatrixData = MatrixData(rows: nat, cols: nat, data: seq<seq<Complex>>)

  predicate WellFormed(m: MatrixData) {
    |m.data| == m.rows && forall i :: 0 <= i < m.rows ==> |m.data[i]| == m.cols
  }

  type Matrix = m: MatrixData | WellFormed(m) witness MatrixData(0, 0, [])

  function At(m: Matrix, i: int, j: int): Complex
    requires 0 <= i < m.rows && 0 <= j < m.cols
  {
    m.data[i][j]
  }

  datatype Op = NoTrans | Trans | ConjTrans

  function OpRows(op: Op, m: Matrix): nat {
    if op.NoTrans? then m.rows else m.cols
  }

  function OpCols(op: Op, m: Matrix): nat {
    if op.NoTrans? then m.cols else m.rows
  }

  /** Entry (i, j) of op(m). */
  function OpAt(op: Op, m: Matrix, i: int, j: int): Complex
    requires 0 <= i < OpRows(op, m) && 0 <= j < OpCols(op, m)
  {
    match op
    case NoTrans => At(m, i, j)
    case Trans => At(m, j, i)
    case ConjTrans => Conj(At(m, j, i))
  }

  /** Entry (i, j) of op(m) extended by zeros outside its extents. */
  function Padded(op: Op, m: Matrix, i: int, j: int): Complex {
    if 0 <= i < OpRows(op, m) && 0 <= j < OpCols(op, m) then OpAt(op, m, i, j) else Zero
  }

  /** The k-th product in entry (i, j) of op(a) * op(b). */
  function Product(opA: Op, a: Matrix, opB: Op, b: Matrix, i: int, j: int): int -> Complex {
    k => Mul(Padded(opA, a, i, k), Padded(opB, b, k, j))
  }

  ghost predicate Conformable(opA: Op, a: Matrix, opB: Op, b: Matrix) {
    OpCols(opA, a) == OpRows(opB, b)
  }

  /** Entry (i, j) of op(a) * op(b). */
  ghost function MatMul(opA: Op, a: Matrix, opB: Op, b: Matrix, i: int, j: int): Complex
    requires Conformable(opA, a, opB, b)
  {
    Sum(Product(opA, a, opB, b, i, j), 0, OpCols(opA, a))
  }

  /** beta * c + alpha * s, the update every BLAS kernel here ends in. */
  function Update(beta: Complex, c: Complex, alpha: Complex, s: Complex): Complex {
    Add(Mul(beta, c), Mul(alpha, s))
  }

  /** The one-line specification of GEMM: entry (i, j) of
      beta * C + alpha * op(A) * op(B), where c is the old C(i, j). */
  ghost function GemmEntry(alpha: Complex, opA: Op, a: Matrix, opB: Op, b: Matrix, beta: Complex, c: Complex, i: int,
                           j: int): Complex
    requires Conformable(opA, a, opB, b)
  {
    Update(beta, c, alpha, MatMul(opA, a, opB, b, i, j))
  }

  /** The specification of GEMM written out on the data of A and B: f lists the products of
      row i of op(A) with column j of op(B). */
  lemma GemmWrittenOut(alpha: Complex, opA: Op, a: Matrix, opB: Op, b: Matrix, beta: Complex, c: Complex, i: nat,
                       j: nat, inner: nat, f: int -> Complex)
    requires Conformable(opA, a, opB, b) && i < OpRows(opA, a) && j < OpCols(opB, b)
    requires inner == if opA.NoTrans? then a.cols else a.rows
    requires forall k :: 0 <= k < inner ==>
               f(k) == Mul(match opA
                           case NoTrans => a.data[i][k]
                           case Trans => a.data[k][i]
                           case ConjTrans => Conj(a.data[k][i]),
                           match opB
                           case NoTrans => b.data[k][j]
                           case Trans => b.data[j][k]
                           case ConjTrans => Conj(b.data[j][k]))
    ensures GemmEntry(alpha, opA, a, opB, b, beta, c, i, j) == Add(Mul(beta, c), Mul(alpha, Sum(f, 0, inner)))
  {
    hide Mul, Add, Conj;
    SumCongruence(Product(opA, a, opB, b, i, j), f, 0, inner);
  }

  /** Index pairs of an m by n iteration space. */
  function Pairs(m: nat, n: nat): set<(int, int)> {
    set i: int, j: int | 0 <= i < m && 0 <= j < n :: (i, j)
  }

  /** The league ranks 0, ..., n - 1. */
  function Ranks(n: nat): (s: set<int>)
    ensures forall r :: r in s <==> 0 <= r < n
  {
    if n == 0 then {} else Ranks(n - 1) + {n - 1}
  }

  /** Zero padding beyond the inner extent adds nothing. */
  lemma PaddingAddsNothing(opA: Op, a: Matrix, opB: Op, b: Matrix, i: int, j: int, k: int)
    requires Conformable(opA, a, opB, b) && OpCols(opA, a) <= k
    ensures Sum(Product(opA, a, opB, b, i, j), 0, k) == MatMul(opA, a, opB, b, i, j)
  {
    hide Mul;
    var f := Product(opA, a, opB, b, i, j);
    forall m | OpCols(opA, a) <= m < k
      ensures f(m) == Zero
    {
      MulUnits(Padded(opB, b, m, j));
    }
    SumSplit(f, 0, OpCols(opA, a), k);
    SumOfZeros(f, OpCols(opA, a), k);
  }
}
