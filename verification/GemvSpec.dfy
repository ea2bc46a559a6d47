/**
 What every matrix-vector kernel computes: y(i) = beta * y(i) + alpha * (op(A) * x)(i).
 */
module GemvSpec {
  import opened Scalars
  import opened Sums
  import opened Matrices
  import opened TransposeLetters

  function VecAt(x: seq<Complex>, k: int): Complex {
    if 0 <= k < |x| then x[k] else Zero
  }

  /** The k-th product in entry i of op(a) * x. */
  function Term(op: Op, a: Matrix, x: seq<Complex>, i: int): int -> Complex {
    k => Mul(Padded(op, a, i, k), VecAt(x, k))
  }

  ghost function MatVec(op: Op, a: Matrix, x: seq<Complex>, i: int): Complex {
    Sum(Term(op, a, x, i), 0, OpCols(op, a))
  }

  ghost function GemvEntry(alpha: Complex, op: Op, a: Matrix, x: seq<Complex>, beta: Complex, y: Complex,
                           i: int): Complex {
    Update(beta, y, alpha, MatVec(op, a, x, i))
  }

  /** The specification of GEMV written out on the data of A and x: f lists the products of
      row i of op(A) with x. */
  lemma GemvWrittenOut(alpha: Complex, op: Op, a: Matrix, x: seq<Complex>, beta: Complex, y: Complex, i: nat,
                       f: int -> Complex)
    requires |x| == OpCols(op, a) && i < OpRows(op, a)
    requires forall k :: 0 <= k < |x| ==>
               f(k) == Mul(match op
                           case NoTrans => a.data[i][k]
                           case Trans => a.data[k][i]
                           case ConjTrans => Conj(a.data[k][i]), x[k])
    ensures GemvEntry(alpha, op, a, x, beta, y, i) == Add(Mul(beta, y), Mul(alpha, Sum(f, 0, |x|)))
  {
    hide Mul, Add, Conj;
    SumCongruence(Term(op, a, x, i), f, 0, |x|);
  }

  ghost predicate Shapes(op: Op, a: Matrix, x: seq<Complex>, y: array<Complex>) {
    |x| == OpCols(op, a) && y.Length == OpRows(op, a)
  }

  /** GEMV takes H for C. */
  predicate IsConj(tr: char) { IsC(tr) || IsH(tr) }

  predicate ValidLetter(tr: char): (valid: bool)
    ensures valid <==> tr in {'N', 'n', 'T', 't', 'C', 'c', 'H', 'h'}
  {
    IsN(tr) || IsT(tr) || IsConj(tr)
  }

  function OpOf(tr: char): (op: Op)
    ensures tr in {'N', 'n'} ==> op == NoTrans
    ensures tr in {'T', 't'} ==> op == Trans
    ensures tr in {'C', 'c', 'H', 'h'} ==> op == ConjTrans
  {
    if IsT(tr) then Trans else if IsConj(tr) then ConjTrans else NoTrans
  }

  function TransOp(conj: bool): Op {
    if conj then ConjTrans else Trans
  }

  /** y becomes zero everywhere. */
  method FillZero(y: array<Complex>)
    modifies y
    ensures forall i :: 0 <= i < y.Length ==> y[i] == Zero
  {
    for i := 0 to y.Length
      invariant forall k :: 0 <= k < i ==> y[k] == Zero
    {
      y[i] := Zero;
    }
  }

  lemma ZeroAlpha(op: Op, a: Matrix, x: seq<Complex>, beta: Complex, y: Complex, i: int)
    ensures GemvEntry(Zero, op, a, x, beta, y, i) == Mul(beta, y)
  {
    hide Mul;
    MulUnits(MatVec(op, a, x, i));
  }

  lemma EmptyInner(alpha: Complex, op: Op, a: Matrix, x: seq<Complex>, beta: Complex, y: Complex, i: int)
    requires OpCols(op, a) == 0
    ensures GemvEntry(alpha, op, a, x, beta, y, i) == Mul(beta, y)
  {
    hide Mul;
    MulUnits(alpha);
  }

  ghost predicate AllUpdated(alpha: Complex, op: Op, a: Matrix, x: seq<Complex>, beta: Complex, y0: seq<Complex>,
                             y: seq<Complex>) {
    |y| == |y0| && forall i :: 0 <= i < |y| ==> y[i] == GemvEntry(alpha, op, a, x, beta, y0[i], i)
  }

  /** Where A contributes nothing, y = beta * y is the whole update. */
  lemma OnlyBeta(alpha: Complex, op: Op, a: Matrix, x: seq<Complex>, beta: Complex, y0: seq<Complex>, y: seq<Complex>)
    requires alpha == Zero || OpCols(op, a) == 0
    requires |y| == |y0| && forall i :: 0 <= i < |y| ==> y[i] == Mul(beta, y0[i])
    ensures AllUpdated(alpha, op, a, x, beta, y0, y)
  {
    hide Mul, GemvEntry;
    forall i | 0 <= i < |y|
      ensures y[i] == GemvEntry(alpha, op, a, x, beta, y0[i], i)
    {
      if alpha == Zero {
        ZeroAlpha(op, a, x, beta, y0[i], i);
      } else {
        EmptyInner(alpha, op, a, x, beta, y0[i], i);
      }
    }
  }

  lemma BetaUnits(beta: Complex, y0: seq<Complex>, y: seq<Complex>)
    requires |y| == |y0|
    requires (beta == Zero && forall i :: 0 <= i < |y| ==> y[i] == Zero) || (beta == One && y == y0)
    ensures forall i :: 0 <= i < |y| ==> y[i] == Mul(beta, y0[i])
  {
    hide Mul;
    forall i | 0 <= i < |y|
      ensures y[i] == Mul(beta, y0[i])
    {
      MulUnits(y0[i]);
    }
  }

  lemma ZeroPlus(y: Complex, s: Complex)
    ensures Add(Mul(Zero, y), s) == s
  {
    MulUnits(y);
    hide Mul;
  }
}
