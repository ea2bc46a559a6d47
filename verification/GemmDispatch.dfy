/**
 The host side of GEMM: degenerate shapes, the choice between the dot-based and the
 tiled kernel, and the dispatch on the transpose letters.
 */
module GemmDispatch {
  import opened Scalars
  import opened Sums
  import opened Matrices
  import opened SlicedReduction
  import opened TransposeLetters
  import DotBasedGemm
  import Gemv
  import GemvSpec
  import TiledGemm
  import TwoLevelGemv

  /** A 32-bit signed integer, as M, N and M * N are. */
  function Int32(x: int): int {
    (x + 0x8000_0000) % 0x1_0000_0000 - 0x8000_0000
  }

  predicate ValidLetter(c: char): (valid: bool)
    ensures valid <==> c in {'N', 'n', 'T', 't', 'C', 'c'}
  {
    IsN(c) || IsT(c) || IsC(c)
  }

  function OpOf(c: char): (op: Op)
    ensures c in {'N', 'n'} ==> op == NoTrans
    ensures c in {'T', 't'} ==> op == Trans
    ensures c in {'C', 'c'} ==> op == ConjTrans
  {
    if IsT(c) then Trans else if IsC(c) then ConjTrans else NoTrans
  }

  const LayoutLeftThreshold := 1600
  const LayoutRightThreshold := 100
  const BlockA0 := 24
  const BlockB1 := 64

  /** The three blocks of a team, 24 by w, w by 64 and 24 by 64, take less than 24000 bytes. */
  predicate FitsScratch(sizeA: nat, sizeB: nat, sizeC: nat, w: nat) {
    sizeA * (24 * w) + sizeB * (w * 64) + sizeC * (24 * 64) < 24000
  }

  /** The inner block size, from the sizes of the scalar types in bytes: the largest of three
      that fits, or else the largest. */
  function InnerBlock(sizeA: nat, sizeB: nat, sizeC: nat): (blockA1: nat)
    ensures blockA1 in {4, 8, 16}
    ensures forall w :: w in {4, 8, 16} && FitsScratch(sizeA, sizeB, sizeC, w) ==>
              w <= blockA1 && FitsScratch(sizeA, sizeB, sizeC, blockA1)
    ensures !FitsScratch(sizeA, sizeB, sizeC, 4) ==> blockA1 == 16
  {
    if sizeA * BlockA0 * 16 + sizeB * 16 * BlockB1 + sizeC * BlockA0 * BlockB1 < 24000 then 16
    else if sizeA * BlockA0 * 8 + sizeB * 8 * BlockB1 + sizeC * BlockA0 * BlockB1 < 24000 then 8
    else if sizeA * BlockA0 * 4 + sizeB * 4 * BlockB1 + sizeC * BlockA0 * BlockB1 < 24000 then 4
    else 16
  }

  /** Whether the dot-based kernel is chosen. */
  predicate UseDotBased(transA: char, transB: char, m: nat, n: nat, aIsLayoutRight: bool, isDevice: bool) {
    var aIsTr := IsT(transA) || IsC(transA);
    var bIsTr := IsT(transB) || IsC(transB);
    var mn := Int32(Int32(m) * Int32(n));
    && ((!aIsLayoutRight && aIsTr && !bIsTr && mn < LayoutLeftThreshold)
        || (aIsLayoutRight && aIsTr && !bIsTr && mn < LayoutRightThreshold))
    && isDevice
  }

  /** The choice written out, for products of the extents below 2^31: on a device, for a transposed
      or conjugated A and an untransposed B, below a threshold that depends on the layout of A. */
  lemma DotBasedWrittenOut(transA: char, transB: char, m: nat, n: nat, aIsLayoutRight: bool, isDevice: bool)
    requires m < 0x8000_0000 && n < 0x8000_0000 && m * n < 0x8000_0000
    ensures UseDotBased(transA, transB, m, n, aIsLayoutRight, isDevice) <==>
              isDevice && transA in {'T', 't', 'C', 'c'} && transB !in {'T', 't', 'C', 'c'}
              && m * n < if aIsLayoutRight then 100 else 1600
  {
    ProductFits(m, n);
    hide Int32;
  }

  lemma ProductFits(m: nat, n: nat)
    requires m < 0x8000_0000 && n < 0x8000_0000 && m * n < 0x8000_0000
    ensures Int32(Int32(m) * Int32(n)) == m * n
  {
    hide Int32;
    FitsInt32(m);
    FitsInt32(n);
    SameProduct(Int32(m), Int32(n), m, n);
    FitsInt32(m * n);
  }

  lemma SameProduct(a: int, b: int, m: int, n: int)
    requires a == m && b == n
    ensures a * b == m * n
  {
  }

  lemma FitsInt32(x: nat)
    requires x < 0x8000_0000
    ensures Int32(x) == x
  {
  }

  ghost predicate ShapesMatch(transA: char, transB: char, a: Matrix, b: Matrix, c: array2<Complex>) {
    TiledGemm.GemmShapes(OpOf(transA), a, OpOf(transB), b, c)
  }

  datatype Layout = LayoutLeft | LayoutRight | LayoutStride

  /** Everything about the target and the schedule that only decides how the result is computed, or
      whether it can be: recommended is the team size that Kokkos recommends for a GEMV kernel. */
  datatype Target = Target(layoutA: Layout, stridedBOrC: bool, isDevice: bool, isSycl: bool, recommended: nat,
                           sizeA: nat, sizeB: nat, sizeC: nat, reduction: Reduction)

  /** GEMM::gemm for a non-empty C. For valid letters exactly one kernel runs, and which
      one makes no difference to C. */
  method Dispatch(transA: char, transB: char, alpha: Complex, a: Matrix, b: Matrix, beta: Complex,
                  c: array2<Complex>, target: Target)
    returns (kernels: nat)
    requires c.Length0 > 0 && c.Length1 > 0
    requires ShapesMatch(transA, transB, a, b, c) && Reduces(target.reduction)
    modifies c
    ensures ValidLetter(transA) && ValidLetter(transB) ==> kernels == 1
    ensures kernels == 1 ==> forall i, j :: 0 <= i < c.Length0 && 0 <= j < c.Length1 ==>
              c[i, j] == GemmEntry(alpha, OpOf(transA), a, OpOf(transB), b, beta, old(c[i, j]), i, j)
    ensures kernels != 1 ==> kernels == 0 && !(ValidLetter(transA) && ValidLetter(transB))
                             && forall i, j :: 0 <= i < c.Length0 && 0 <= j < c.Length1 ==> c[i, j] == old(c[i, j])
  {
    hide GemmEntry;
    kernels := 0;
    if UseDotBased(transA, transB, c.Length0, c.Length1, target.layoutA.LayoutRight?, target.isDevice) {
      var isConj := IsC(transA);
      DotsPositive(c.Length0, c.Length1);
      WorkDistributionBounds(a.rows, c.Length0 * c.Length1);
      var numDivPerDot := WorkDistribution(a.rows, c.Length0 * c.Length1).value;
      DotBasedGemm.Run(alpha, isConj, a, b, beta, c, numDivPerDot, target.reduction);
      kernels := 1;
    } else {
      var blockA1 := InnerBlock(target.sizeA, target.sizeB, target.sizeC);
      if IsN(transA) && IsN(transB) {
        TiledGemm.Run(alpha, NoTrans, a, NoTrans, b, beta, c, BlockA0, blockA1, BlockB1);
        kernels := kernels + 1;
      }
      if IsT(transA) && IsN(transB) {
        TiledGemm.Run(alpha, Trans, a, NoTrans, b, beta, c, BlockA0, blockA1, BlockB1);
        kernels := kernels + 1;
      }
      if IsC(transA) && IsN(transB) {
        TiledGemm.Run(alpha, ConjTrans, a, NoTrans, b, beta, c, BlockA0, blockA1, BlockB1);
        kernels := kernels + 1;
      }
      if IsN(transA) && IsT(transB) {
        TiledGemm.Run(alpha, NoTrans, a, Trans, b, beta, c, BlockA0, blockA1, BlockB1);
        kernels := kernels + 1;
      }
      if IsT(transA) && IsT(transB) {
        TiledGemm.Run(alpha, Trans, a, Trans, b, beta, c, BlockA0, blockA1, BlockB1);
        kernels := kernels + 1;
      }
      if IsC(transA) && IsT(transB) {
        TiledGemm.Run(alpha, ConjTrans, a, Trans, b, beta, c, BlockA0, blockA1, BlockB1);
        kernels := kernels + 1;
      }
      if IsN(transA) && IsC(transB) {
        TiledGemm.Run(alpha, NoTrans, a, ConjTrans, b, beta, c, BlockA0, blockA1, BlockB1);
        kernels := kernels + 1;
      }
      if IsT(transA) && IsC(transB) {
        TiledGemm.Run(alpha, Trans, a, ConjTrans, b, beta, c, BlockA0, blockA1, BlockB1);
        kernels := kernels + 1;
      }
      if IsC(transA) && IsC(transB) {
        TiledGemm.Run(alpha, ConjTrans, a, ConjTrans, b, beta, c, BlockA0, blockA1, BlockB1);
        kernels := kernels + 1;
      }
    }
  }

  lemma DotsPositive(m: nat, n: nat)
    requires m > 0 && n > 0
    ensures m * n > 0
  {
  }

  /** C = beta * C, for an inner dimension of zero. */
  method Scale(beta: Complex, c: array2<Complex>)
    modifies c
    ensures forall i, j :: 0 <= i < c.Length0 && 0 <= j < c.Length1 ==> c[i, j] == Mul(beta, old(c[i, j]))
  {
    hide Mul;
    var todo := Pairs(c.Length0, c.Length1);
    while todo != {}
      invariant todo <= Pairs(c.Length0, c.Length1)
      invariant forall i, j :: 0 <= i < c.Length0 && 0 <= j < c.Length1 ==>
                  c[i, j] == if (i, j) in todo then old(c[i, j]) else Mul(beta, old(c[i, j]))
      decreases todo
    {
      var item :| item in todo;
      c[item.0, item.1] := Mul(beta, c[item.0, item.1]);
      todo := todo - {item};
    }
  }

  lemma EmptyInnerExtent(alpha: Complex, opA: Op, a: Matrix, opB: Op, b: Matrix, beta: Complex, c: Complex, i: int,
                         j: int)
    requires Conformable(opA, a, opB, b) && OpCols(opA, a) == 0
    ensures GemmEntry(alpha, opA, a, opB, b, beta, c, i, j) == Mul(beta, c)
  {
    hide Mul;
    MulUnits(alpha);
  }

  /** The only column of b, as the vector the matrix-vector shortcut takes it for. */
  function OnlyColumn(b: Matrix): seq<Complex>
    requires b.cols == 1
  {
    seq(b.rows, k requires 0 <= k < b.rows => At(b, k, 0))
  }

  /** For a single column of B the shortcut through GEMV computes the same entries of C. */
  lemma GemvShortcut(alpha: Complex, a: Matrix, b: Matrix, beta: Complex, c: Complex, i: nat)
    requires a.cols == b.rows && b.cols == 1 && i < a.rows
    ensures GemmEntry(alpha, NoTrans, a, NoTrans, b, beta, c, i, 0)
            == GemvSpec.GemvEntry(alpha, NoTrans, a, OnlyColumn(b), beta, c, i)
  {
    hide Mul, Add;
    var f, g := Product(NoTrans, a, NoTrans, b, i, 0), GemvSpec.Term(NoTrans, a, OnlyColumn(b), i);
    forall k | 0 <= k < a.cols
      ensures f(k) == g(k)
    {
      assert Padded(NoTrans, b, k, 0) == OnlyColumn(b)[k];
    }
    SumCongruence(f, g, 0, a.cols);
  }

  // ------------------------------------------------------------------
  // The shortcut through GEMV
  // ------------------------------------------------------------------

  /** gemv_based_gemm: nothing is transposed, B is one column, and B and C are not strided. */
  predicate TakesShortcut(transA: char, transB: char, b: Matrix, target: Target) {
    IsN(transA) && IsN(transB) && b.cols == 1 && !target.stridedBOrC
  }

  function GemvTarget(target: Target): TwoLevelGemv.Target {
    TwoLevelGemv.Target(target.layoutA.LayoutLeft?, target.recommended, target.isSycl, target.reduction)
  }

  /** The rank-1 view over the only column of C, as a copy that is written back. */
  method ReadColumn(c: array2<Complex>) returns (y: array<Complex>)
    requires c.Length1 == 1
    ensures fresh(y) && y.Length == c.Length0
    ensures forall i :: 0 <= i < y.Length ==> y[i] == c[i, 0]
  {
    y := new Complex[c.Length0](_ => Zero);
    for i := 0 to c.Length0
      invariant forall k :: 0 <= k < i ==> y[k] == c[k, 0]
    {
      y[i] := c[i, 0];
    }
  }

  method WriteColumn(c: array2<Complex>, y: array<Complex>)
    requires c.Length1 == 1 && y.Length == c.Length0
    modifies c
    ensures forall i :: 0 <= i < y.Length ==> c[i, 0] == y[i]
  {
    for i := 0 to c.Length0
      invariant forall k :: 0 <= k < i ==> c[k, 0] == y[k]
    {
      c[i, 0] := y[i];
    }
  }

  /** gemv_based_gemm, once it applies. */
  method Shortcut(alpha: Complex, a: Matrix, b: Matrix, beta: Complex, c: array2<Complex>, target: Target)
    returns (ok: bool)
    requires b.cols == 1 && ShapesMatch('N', 'N', a, b, c) && Reduces(target.reduction)
    modifies c
    ensures ok <==> !(a.rows > 0 && a.cols > 0 && target.isDevice && target.layoutA == LayoutLeft
                      && target.recommended < 32)
    ensures ok ==> forall i :: 0 <= i < c.Length0 ==>
              c[i, 0] == GemmEntry(alpha, NoTrans, a, NoTrans, b, beta, old(c[i, 0]), i, 0)
    ensures !ok ==> forall i :: 0 <= i < c.Length0 ==> c[i, 0] == old(c[i, 0])
  {
    hide GemmEntry, GemvSpec.GemvEntry;
    var y := ReadColumn(c);
    var outcome := Gemv.Invoke('N', alpha, a, OnlyColumn(b), beta, y, target.isDevice, GemvTarget(target));
    ok := outcome == Gemv.Done;
    if ok {
      forall i | 0 <= i < c.Length0
        ensures y[i] == GemmEntry(alpha, NoTrans, a, NoTrans, b, beta, c[i, 0], i, 0)
      {
        GemvShortcut(alpha, a, b, beta, c[i, 0], i);
      }
      WriteColumn(c, y);
    }
  }

  /** gemm for every size, empty ones included: it fails exactly when it takes the shortcut to a
      GEMV that cannot be launched, and C is then as before; in every other case, whatever the
      target, C becomes beta * C + alpha * op(A) * op(B). */
  method Gemm(transA: char, transB: char, alpha: Complex, a: Matrix, b: Matrix, beta: Complex, c: array2<Complex>,
              target: Target)
    returns (ok: bool)
    requires transA in {'N', 'n', 'T', 't', 'C', 'c'} && transB in {'N', 'n', 'T', 't', 'C', 'c'}
    requires ShapesMatch(transA, transB, a, b, c) && Reduces(target.reduction)
    modifies c
    ensures ok <==> !(a.rows > 0 && a.cols > 0 && transA in {'N', 'n'} && transB in {'N', 'n'} && b.cols == 1
                      && !target.stridedBOrC && target.isDevice && target.layoutA == LayoutLeft
                      && target.recommended < 32)
    ensures ok ==> forall i, j :: 0 <= i < c.Length0 && 0 <= j < c.Length1 ==>
              c[i, j] == GemmEntry(alpha,
                                   if transA in {'N', 'n'} then NoTrans else if transA in {'T', 't'} then Trans
                                   else ConjTrans, a,
                                   if transB in {'N', 'n'} then NoTrans else if transB in {'T', 't'} then Trans
                                   else ConjTrans, b, beta, old(c[i, j]), i, j)
    ensures !ok ==> forall i, j :: 0 <= i < c.Length0 && 0 <= j < c.Length1 ==> c[i, j] == old(c[i, j])
  {
    hide GemmEntry, Mul;
    ok := true;
    if c.Length0 == 0 || c.Length1 == 0 {
      return;
    }
    if a.cols == 0 {
      Scale(beta, c);
      forall i, j | 0 <= i < c.Length0 && 0 <= j < c.Length1
        ensures c[i, j] == GemmEntry(alpha, OpOf(transA), a, OpOf(transB), b, beta, old(c[i, j]), i, j)
      {
        EmptyInnerExtent(alpha, OpOf(transA), a, OpOf(transB), b, beta, old(c[i, j]), i, j);
      }
      return;
    }
    if TakesShortcut(transA, transB, b, target) {
      ok := Shortcut(alpha, a, b, beta, c, target);
      return;
    }
    var kernels := Dispatch(transA, transB, alpha, a, b, beta, c, target);
  }

  datatype Outcome = Done | BadLetter | BadShape | DivisionByZero

  /** gemm with the run-time checks of a debug build: other letters and shapes that do not fit are
      rejected with C untouched. */
  method CheckedGemm(transA: char, transB: char, alpha: Complex, a: Matrix, b: Matrix, beta: Complex,
                     c: array2<Complex>, target: Target)
    returns (outcome: Outcome)
    requires Reduces(target.reduction)
    modifies c
    ensures outcome == BadLetter <==>
              !(transA in {'N', 'n', 'T', 't', 'C', 'c'} && transB in {'N', 'n', 'T', 't', 'C', 'c'})
    ensures outcome == BadShape <==>
              outcome != BadLetter
              && !(&& c.Length0 == (if transA in {'N', 'n'} then a.rows else a.cols)
                   && c.Length1 == (if transB in {'N', 'n'} then b.cols else b.rows)
                   && (if transA in {'N', 'n'} then a.cols else a.rows)
                      == (if transB in {'N', 'n'} then b.rows else b.cols))
    ensures outcome == DivisionByZero <==>
              outcome !in {BadLetter, BadShape}
              && a.rows > 0 && a.cols > 0 && transA in {'N', 'n'} && transB in {'N', 'n'} && b.cols == 1
              && !target.stridedBOrC && target.isDevice && target.layoutA == LayoutLeft && target.recommended < 32
    ensures outcome == Done ==>
              ShapesMatch(transA, transB, a, b, c)
              && forall i, j :: 0 <= i < c.Length0 && 0 <= j < c.Length1 ==>
                   c[i, j] == GemmEntry(alpha, OpOf(transA), a, OpOf(transB), b, beta, old(c[i, j]), i, j)
    ensures outcome != Done ==> forall i, j :: 0 <= i < c.Length0 && 0 <= j < c.Length1 ==> c[i, j] == old(c[i, j])
  {
    hide GemmEntry;
    if !(ValidLetter(transA) && ValidLetter(transB)) {
      return BadLetter;
    }
    var aT, bT := !IsN(transA), !IsN(transB);
    if || (if aT then a.cols else a.rows) != c.Length0
       || (if bT then b.rows else b.cols) != c.Length1
       || (if aT then a.rows else a.cols) != (if bT then b.cols else b.rows)
    {
      return BadShape;
    }
    var ok := Gemm(transA, transB, alpha, a, b, beta, c, target);
    return if ok then Done else DivisionByZero;
  }
}
