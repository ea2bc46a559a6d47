/**
 The host kernels of GEMV: one row per work item, or for the transposed cases one
 parallel reduction whose value is a whole vector.
 */
module SingleLevelGemv {
  import opened Scalars
  import opened Sums
  import opened Matrices
  import opened GemvSpec
  import opened TransposeLetters

  /** What a preset template argument makes of a coefficient: 0 and 1 stand for themselves. */
  function Preset(preset: int, v: Complex): Complex {
    if preset == 0 then Zero else if preset == 1 then One else v
  }

  ghost function RowResult(alphaPreset: int, betaPreset: int, alpha: Complex, a: Matrix, x: seq<Complex>,
                           beta: Complex, y: Complex, i: int): Complex {
    Update(Preset(betaPreset, beta), y, Preset(alphaPreset, alpha), MatVec(NoTrans, a, x, i))
  }

  lemma ScaledStep(c: Complex, alpha: Complex, s: Complex, aij: Complex, xj: Complex)
    ensures Add(Add(c, Mul(alpha, s)), Mul(Mul(alpha, aij), xj)) == Add(c, Mul(alpha, Add(s, Mul(aij, xj))))
  {
    MulAssoc(alpha, aij, xj);
    MulDistributes(alpha, s, Mul(aij, xj));
    hide Mul;
  }

  lemma PresetUnits(y: Complex, s: Complex)
    ensures Mul(Zero, y) == Zero && Mul(One, y) == y && Add(y, Mul(Zero, s)) == y && Mul(One, s) == s
  {
    MulUnits(y);
    MulUnits(s);
    hide Mul;
  }

  lemma ScaledNothing(alpha: Complex)
    ensures Mul(alpha, Zero) == Zero
  {
    MulUnits(alpha);
  }

  /** One row of the non-transposed kernel. With alpha preset to zero neither A nor x is read. */
  method NontransposeRow(i: nat, alphaPreset: int, betaPreset: int, alpha: Complex, a: Matrix, x: seq<Complex>,
                         beta: Complex, y: array<Complex>)
    requires i < y.Length && (alphaPreset != 0 ==> i < a.rows && |x| == a.cols)
    modifies y
    ensures y[..] == old(y[..])[i := RowResult(alphaPreset, betaPreset, alpha, a, x, beta, old(y[i]), i)]
  {
    hide Mul;
    PresetUnits(y[i], MatVec(NoTrans, a, x, i));
    var yi;
    if betaPreset == 0 {
      yi := Zero;
    } else if betaPreset == 1 {
      yi := y[i];
    } else {
      yi := Mul(beta, y[i]);
    }
    ghost var start := yi;
    PresetUnits(start, MatVec(NoTrans, a, x, i));
    if alphaPreset == 0 {
    } else if alphaPreset == 1 {
      for j := 0 to a.cols
        modifies {}
        invariant yi == Add(start, Sum(Term(NoTrans, a, x, i), 0, j))
      {
        yi := Add(yi, Mul(At(a, i, j), x[j]));
      }
    } else {
      ScaledNothing(alpha);
      for j := 0 to a.cols
        modifies {}
        invariant yi == Add(start, Mul(alpha, Sum(Term(NoTrans, a, x, i), 0, j)))
      {
        ScaledStep(start, alpha, Sum(Term(NoTrans, a, x, i), 0, j), At(a, i, j), x[j]);
        yi := Add(yi, Mul(Mul(alpha, At(a, i, j)), x[j]));
      }
    }
    y[i] := yi;
  }

  /** The rows 0, ..., n - 1 in any order. */
  method Nontranspose(n: nat, alphaPreset: int, betaPreset: int, alpha: Complex, a: Matrix, x: seq<Complex>,
                      beta: Complex, y: array<Complex>)
    requires n <= y.Length && (alphaPreset != 0 ==> n <= a.rows && |x| == a.cols)
    modifies y
    ensures forall i :: 0 <= i < n ==> y[i] == RowResult(alphaPreset, betaPreset, alpha, a, x, beta, old(y[i]), i)
    ensures forall i :: n <= i < y.Length ==> y[i] == old(y[i])
  {
    hide RowResult;
    var todo := Ranks(n);
    while todo != {}
      invariant todo <= Ranks(n)
      invariant forall i :: 0 <= i < n ==>
                  y[i] == if i in todo then old(y[i])
                          else RowResult(alphaPreset, betaPreset, alpha, a, x, beta, old(y[i]), i)
      invariant forall i :: n <= i < y.Length ==> y[i] == old(y[i])
      decreases todo
    {
      var i :| i in todo;
      NontransposeRow(i, alphaPreset, betaPreset, alpha, a, x, beta, y);
      todo := todo - {i};
    }
  }

  // ------------------------------------------------------------------
  // The transposed kernel
  // ------------------------------------------------------------------

  method Init(yCur: array<Complex>)
    modifies yCur
    ensures forall j :: 0 <= j < yCur.Length ==> yCur[j] == Zero
  {
    FillZero(yCur);
  }

  method JoinInto(dst: array<Complex>, src: array<Complex>)
    requires dst != src && dst.Length == src.Length
    modifies dst
    ensures forall j :: 0 <= j < dst.Length ==> dst[j] == Add(old(dst[j]), src[j])
  {
    hide Add;
    for j := 0 to dst.Length
      invariant forall k :: 0 <= k < dst.Length ==> dst[k] == if k < j then Add(old(dst[k]), src[k]) else old(dst[k])
    {
      dst[j] := Add(dst[j], src[j]);
    }
  }

  /** operator(): row i of A enters every entry of the accumulator. */
  method AccumulateRow(i: nat, yCur: array<Complex>, conj: bool, a: Matrix, x: seq<Complex>)
    requires i < a.rows == |x| && yCur.Length == a.cols
    modifies yCur
    ensures forall j :: 0 <= j < yCur.Length ==> yCur[j] == Add(old(yCur[j]), Term(TransOp(conj), a, x, j)(i))
  {
    hide Add, Mul;
    var xi := x[i];
    for j := 0 to yCur.Length
      invariant forall k :: 0 <= k < yCur.Length ==>
                  yCur[k] == if k < j then Add(old(yCur[k]), Term(TransOp(conj), a, x, k)(i)) else old(yCur[k])
    {
      var aij := if conj then Conj(At(a, i, j)) else At(a, i, j);
      yCur[j] := Add(yCur[j], Mul(aij, xi));
    }
  }

  /** The reduction along any tree: leaves start from init, inner nodes join. */
  method ReduceTree(t: Tree, conj: bool, a: Matrix, x: seq<Complex>) returns (yCur: array<Complex>)
    requires a.rows == |x| && forall k :: k in Indices(t) ==> 0 <= k < a.rows
    ensures fresh(yCur) && yCur.Length == a.cols
    ensures forall j :: 0 <= j < yCur.Length ==> yCur[j] == Reduce(Term(TransOp(conj), a, x, j), t)
    decreases t
  {
    hide Mul, Add, Term;
    match t
    case Leaf(s) =>
      yCur := new Complex[a.cols];
      Init(yCur);
      for n := 0 to |s|
        invariant forall j :: 0 <= j < yCur.Length ==> yCur[j] == Fold(Term(TransOp(conj), a, x, j), s[..n])
      {
        assert s[n] in Indices(t);
        assert s[..n + 1][..n] == s[..n];
        AccumulateRow(s[n], yCur, conj, a, x);
      }
      assert s[..|s|] == s;
    case Join(l, r) =>
      assert forall k :: k in Indices(l) ==> k in Indices(t);
      assert forall k :: k in Indices(r) ==> k in Indices(t);
      yCur := ReduceTree(l, conj, a, x);
      var src := ReduceTree(r, conj, a, x);
      JoinInto(yCur, src);
  }

  method Final(yResult: array<Complex>, alpha: Complex, betaPreset: int, beta: Complex, y: array<Complex>)
    requires yResult != y && yResult.Length == y.Length
    requires betaPreset == 0 ==> beta == Zero
    modifies y
    ensures forall j :: 0 <= j < y.Length ==> y[j] == Update(beta, old(y[j]), alpha, yResult[j])
  {
    hide Mul, Add;
    for j := 0 to y.Length
      invariant forall k :: 0 <= k < y.Length ==>
                  y[k] == if k < j then Update(beta, old(y[k]), alpha, yResult[k]) else old(y[k])
    {
      if betaPreset == 0 {
        ZeroPlus(y[j], Mul(alpha, yResult[j]));
        y[j] := Mul(alpha, yResult[j]);
      } else {
        y[j] := Add(Mul(beta, y[j]), Mul(alpha, yResult[j]));
      }
    }
  }

  /** parallel_reduce over the rows of A, along any tree that covers them. */
  method Transpose(conj: bool, betaPreset: int, alpha: Complex, a: Matrix, x: seq<Complex>, beta: Complex,
                   y: array<Complex>, t: Tree)
    requires Shapes(TransOp(conj), a, x, y) && Covers(t, 0, a.rows)
    requires betaPreset == 0 ==> beta == Zero
    modifies y
    ensures forall j :: 0 <= j < y.Length ==> y[j] == GemvEntry(alpha, TransOp(conj), a, x, beta, old(y[j]), j)
  {
    hide Mul, Add, Term, Reduce;
    RangeMembers(0, a.rows);
    var yResult := ReduceTree(t, conj, a, x);
    forall j | 0 <= j < y.Length
      ensures yResult[j] == MatVec(TransOp(conj), a, x, j)
    {
      ReduceIsSum(Term(TransOp(conj), a, x, j), t, 0, a.rows);
    }
    Final(yResult, alpha, betaPreset, beta, y);
  }

  // ------------------------------------------------------------------
  // singleLevelGemv
  // ------------------------------------------------------------------

  function PresetOf(v: Complex): (preset: int)
    ensures Preset(preset, v) == v
  {
    if v == Zero then 0 else if v == One then 1 else -1
  }

  /** y = beta * y by way of the non-transposed kernel with alpha preset to zero. */
  method FakeScal(n: nat, alpha: Complex, a: Matrix, x: seq<Complex>, beta: Complex, y: array<Complex>)
    requires n == y.Length && beta != Zero && beta != One
    modifies y
    ensures forall i :: 0 <= i < y.Length ==> y[i] == Mul(beta, old(y[i]))
  {
    hide Mul;
    Nontranspose(n, 0, -1, alpha, a, x, beta, y);
    forall i | 0 <= i < y.Length
      ensures y[i] == Mul(beta, old(y[i]))
    {
      PresetUnits(Mul(beta, old(y[i])), MatVec(NoTrans, a, x, i));
    }
  }

  method Run(tr: char, alpha: Complex, a: Matrix, x: seq<Complex>, beta: Complex, y: array<Complex>, t: Tree)
    requires ValidLetter(tr) && Shapes(OpOf(tr), a, x, y) && Covers(t, 0, a.rows)
    modifies y
    ensures AllUpdated(alpha, OpOf(tr), a, x, beta, old(y[..]), y[..])
  {
    hide Mul, GemvEntry, MatVec, Covers;
    var alphaPreset, betaPreset := PresetOf(alpha), PresetOf(beta);
    if a.rows == 0 && tr != 'N' && tr != 'n' {
      if beta == Zero {
        FillZero(y);
        BetaUnits(beta, old(y[..]), y[..]);
      } else if beta != One {
        FakeScal(a.cols, alpha, a, x, beta, y);
      } else {
        BetaUnits(beta, old(y[..]), y[..]);
      }
      OnlyBeta(alpha, OpOf(tr), a, x, beta, old(y[..]), y[..]);
      return;
    }
    if alpha == Zero && beta == Zero {
      FillZero(y);
      BetaUnits(beta, old(y[..]), y[..]);
      OnlyBeta(alpha, OpOf(tr), a, x, beta, old(y[..]), y[..]);
    } else if alpha == Zero && beta == One {
      BetaUnits(beta, old(y[..]), y[..]);
      OnlyBeta(alpha, OpOf(tr), a, x, beta, old(y[..]), y[..]);
    } else if IsN(tr) {
      Nontranspose(a.rows, alphaPreset, betaPreset, alpha, a, x, beta, y);
      PresetsExact(alphaPreset, betaPreset, alpha, a, x, beta, old(y[..]), y[..]);
    } else {
      Transpose(IsConj(tr), betaPreset, alpha, a, x, beta, y, t);
    }
  }

  lemma PresetsExact(alphaPreset: int, betaPreset: int, alpha: Complex, a: Matrix, x: seq<Complex>, beta: Complex,
                     y0: seq<Complex>, y: seq<Complex>)
    requires Preset(alphaPreset, alpha) == alpha && Preset(betaPreset, beta) == beta && |y| == |y0|
    requires forall i :: 0 <= i < |y| ==> y[i] == RowResult(alphaPreset, betaPreset, alpha, a, x, beta, y0[i], i)
    ensures AllUpdated(alpha, NoTrans, a, x, beta, y0, y)
  {
    hide Update, MatVec;
  }
}
