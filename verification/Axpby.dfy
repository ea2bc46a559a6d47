/**
 Y = a X + b Y on multivectors, where each coefficient is a scalar, one value for all
 columns, or one value per column. For LayoutLeft the columns are strip-mined by 8, by 4
 and singly, and the kernels slice per-column coefficients at the strip's first column.
 */
module Axpby {
  import opened Scalars
  import opened Matrices

  datatype Coeff = Scalar(v: Complex) | Vector(s: seq<Complex>)

  /** A coefficient view has no entries, one entry, or one entry per column. */
  predicate ValidCoeff(c: Coeff, cols: nat) {
    c.Vector? ==> |c.s| == 0 || |c.s| == 1 || |c.s| == cols
  }

  /** The coefficient of column j: an empty view counts as zero. */
  function CoeffAt(c: Coeff, j: nat): Complex {
    match c
    case Scalar(v) => v
    case Vector(s) => if |s| == 0 then Zero else if |s| == 1 then s[0] else if j < |s| then s[j] else Zero
  }

  /** Entry (i, j) of the update. */
  function Entry(a: Coeff, x: Complex, b: Coeff, y: Complex, j: nat): Complex {
    Add(Mul(CoeffAt(a, j), x), Mul(CoeffAt(b, j), y))
  }

  const MinusOne := Complex(-1.0, 0.0)

  /** scalar_x and scalar_y: 0, -1 and 1 are literal, 2 means to use the coefficient. */
  function FlagOf(c: Coeff): int {
    match c
    case Scalar(v) => if v == Zero then 0 else if v == MinusOne then -1 else if v == One then 1 else 2
    case Vector(s) => if |s| == 0 then 0 else 2
  }

  function VarExtent(c: Coeff): nat {
    match c
    case Scalar(_) => 0
    case Vector(s) => |s|
  }

  /** The functor's own copy of a coefficient, sliced at the starting column. */
  function Reslice(c: Coeff, startingColumn: nat): Coeff
    requires VarExtent(c) > 1 ==> startingColumn <= VarExtent(c)
  {
    if startingColumn != 0 && VarExtent(c) > 1 then Vector(c.s[startingColumn..]) else c
  }

  /** After slicing a coefficient has extent one exactly when it had before or only the
      last column of a per-column view is left. */
  lemma RetestExact(c: Coeff, startingColumn: nat)
    requires VarExtent(c) > 1 ==> startingColumn <= VarExtent(c)
    ensures VarExtent(Reslice(c, startingColumn)) == 1
            <==> VarExtent(c) == 1 || (startingColumn > 0 && startingColumn == VarExtent(c) - 1)
  {
  }

  /** The value the unrolled kernels use in column k of a strip. */
  function Picked(c: Coeff, k: nat): Complex {
    match c
    case Scalar(v) => v
    case Vector(s) => if |s| == 1 then s[0] else if k < |s| then s[k] else Zero
  }

  /** In a strip of at least two columns the re-test of the extent never takes a per-column
      view for a single value. */
  lemma StripCoefficient(c: Coeff, startingColumn: nat, unroll: nat, cols: nat, k: nat)
    requires ValidCoeff(c, cols) && unroll >= 2 && startingColumn + unroll <= cols && k < unroll && FlagOf(c) != 0
    ensures Picked(Reslice(c, startingColumn), k) == CoeffAt(c, startingColumn + k)
    ensures c.Vector? && VarExtent(Reslice(c, startingColumn)) != 1 ==> k < VarExtent(Reslice(c, startingColumn))
  {
    RetestExact(c, startingColumn);
  }

  // ------------------------------------------------------------------
  // One entry
  // ------------------------------------------------------------------

  lemma LiteralFlags(c: Coeff, z: Complex, j: nat)
    ensures FlagOf(c) == 0 ==> Mul(CoeffAt(c, j), z) == Zero
    ensures FlagOf(c) == -1 ==> Mul(CoeffAt(c, j), z) == Neg(z)
    ensures FlagOf(c) == 1 ==> Mul(CoeffAt(c, j), z) == z
    ensures CoeffAt(c, j) == Zero ==> Mul(CoeffAt(c, j), z) == Zero
  {
    hide Mul;
    MulUnits(z);
  }

  /** What a flag makes of an entry z and a coefficient value. */
  function Part(flag: int, ck: Complex, z: Complex): Complex {
    if flag == 0 then Zero else if flag == -1 then Neg(z) else if flag == 1 then z else Mul(ck, z)
  }

  /** The functors' branches on the two flags, given the coefficient values ak and bk of the
      column and whether the kernel tests b for zero. */
  method Combine(flagX: int, flagY: int, ak: Complex, bk: Complex, testsZero: bool, x: Complex, y: Complex)
    returns (r: Complex)
    requires flagX in {-1, 0, 1, 2} && flagY in {-1, 0, 1, 2}
    ensures r == Add(Part(flagX, ak, x), Part(flagY, bk, y))
  {
    hide Mul;
    MulUnits(y);
    if flagX == 0 {
      if flagY == 0 {
        r := Zero;
      } else if flagY == -1 {
        r := Neg(y);
      } else if flagY == 1 {
        r := y;
      } else if testsZero && bk == Zero {
        r := Zero;
      } else {
        r := Mul(bk, y);
      }
    } else {
      var ax := if flagX == -1 then Neg(x) else if flagX == 1 then x else Mul(ak, x);
      if flagY == 0 {
        r := ax;
      } else if flagY == -1 {
        r := Add(ax, Neg(y));
      } else if flagY == 1 {
        r := Add(ax, y);
      } else if testsZero && bk == Zero {
        r := ax;
      } else {
        r := Add(ax, Mul(bk, y));
      }
    }
  }

  lemma PartIsProduct(c: Coeff, ck: Complex, z: Complex, j: nat)
    requires FlagOf(c) == 2 ==> ck == CoeffAt(c, j)
    ensures Part(FlagOf(c), ck, z) == Mul(CoeffAt(c, j), z)
  {
    hide Mul, CoeffAt, FlagOf;
    FlagRange(c);
    LiteralFlags(c, z, j);
  }

  lemma CombinedIsEntry(a: Coeff, x: Complex, b: Coeff, y: Complex, j: nat, ak: Complex, bk: Complex)
    requires FlagOf(a) == 2 ==> ak == CoeffAt(a, j)
    requires FlagOf(b) == 2 ==> bk == CoeffAt(b, j)
    ensures Add(Part(FlagOf(a), ak, x), Part(FlagOf(b), bk, y)) == Entry(a, x, b, y, j)
  {
    hide Mul, CoeffAt, FlagOf, Part, Add;
    PartIsProduct(a, ak, x, j);
    PartIsProduct(b, bk, y, j);
  }

  // ------------------------------------------------------------------
  // The kernels
  // ------------------------------------------------------------------

  ghost predicate Shapes(a: Coeff, x: Matrix, b: Coeff, y: array2<Complex>) {
    x.rows == y.Length0 && x.cols == y.Length1 && ValidCoeff(a, x.cols) && ValidCoeff(b, x.cols)
  }

  /** operator() of the multivector functors on one row of columns start, ..., start + width - 1. */
  method StripRow(i: nat, start: nat, width: nat, a: Coeff, ma: Coeff, x: Matrix, b: Coeff, mb: Coeff,
                  y: array2<Complex>)
    requires Shapes(a, x, b, y) && i < x.rows && start + width <= x.cols
    requires forall k: nat :: k < width && FlagOf(a) != 0 ==> Picked(ma, k) == CoeffAt(a, start + k)
    requires forall k: nat :: k < width && FlagOf(b) != 0 ==> Picked(mb, k) == CoeffAt(b, start + k)
    modifies y
    ensures forall r, j :: 0 <= r < x.rows && 0 <= j < x.cols ==>
              y[r, j] == if r == i && start <= j < start + width then Entry(a, At(x, r, j), b, old(y[r, j]), j)
                         else old(y[r, j])
  {
    hide Entry, Picked, CoeffAt, FlagOf, Part, Add;
    FlagRange(a);
    FlagRange(b);
    for k := 0 to width
      invariant forall r, j :: 0 <= r < x.rows && 0 <= j < x.cols ==>
                  y[r, j] == if r == i && start <= j < start + k then Entry(a, At(x, r, j), b, old(y[r, j]), j)
                             else old(y[r, j])
    {
      var v := Combine(FlagOf(a), FlagOf(b), Picked(ma, k), Picked(mb, k), VarExtent(mb) == 1,
                       At(x, i, start + k), y[i, start + k]);
      CombinedIsEntry(a, At(x, i, start + k), b, y[i, start + k], start + k, Picked(ma, k), Picked(mb, k));
      y[i, start + k] := v;
    }
  }

  lemma FlagRange(c: Coeff)
    ensures FlagOf(c) in {-1, 0, 1, 2}
  {
  }

  /** Every row of a strip, in any order. */
  method StripRows(start: nat, width: nat, a: Coeff, ma: Coeff, x: Matrix, b: Coeff, mb: Coeff, y: array2<Complex>)
    requires Shapes(a, x, b, y) && start + width <= x.cols
    requires forall k: nat :: k < width && FlagOf(a) != 0 ==> Picked(ma, k) == CoeffAt(a, start + k)
    requires forall k: nat :: k < width && FlagOf(b) != 0 ==> Picked(mb, k) == CoeffAt(b, start + k)
    modifies y
    ensures forall r, j :: 0 <= r < x.rows && 0 <= j < x.cols ==>
              y[r, j] == if start <= j < start + width then Entry(a, At(x, r, j), b, old(y[r, j]), j) else old(y[r, j])
  {
    hide Entry, Picked, CoeffAt, FlagOf;
    var todo := Ranks(x.rows);
    while todo != {}
      invariant todo <= Ranks(x.rows)
      invariant forall r, j :: 0 <= r < x.rows && 0 <= j < x.cols ==>
                  y[r, j] == if start <= j < start + width && r !in todo then Entry(a, At(x, r, j), b, old(y[r, j]), j)
                             else old(y[r, j])
      decreases todo
    {
      var i :| i in todo;
      StripRow(i, start, width, a, ma, x, b, mb, y);
      todo := todo - {i};
    }
  }

  /** Axpby_MV_Unrolled: a strip of a fixed number of columns, coefficients sliced. */
  method Unrolled(unroll: nat, startingColumn: nat, a: Coeff, x: Matrix, b: Coeff, y: array2<Complex>)
    requires Shapes(a, x, b, y) && unroll >= 2 && startingColumn + unroll <= x.cols
    modifies y
    ensures forall r, j :: 0 <= r < x.rows && 0 <= j < x.cols ==>
              y[r, j] == if startingColumn <= j < startingColumn + unroll then Entry(a, At(x, r, j), b, old(y[r, j]), j)
                         else old(y[r, j])
  {
    hide Entry, Picked, CoeffAt, FlagOf;
    var ma, mb := Reslice(a, startingColumn), Reslice(b, startingColumn);
    forall k: nat | k < unroll && FlagOf(a) != 0
      ensures Picked(ma, k) == CoeffAt(a, startingColumn + k)
    {
      StripCoefficient(a, startingColumn, unroll, x.cols, k);
    }
    forall k: nat | k < unroll && FlagOf(b) != 0
      ensures Picked(mb, k) == CoeffAt(b, startingColumn + k)
    {
      StripCoefficient(b, startingColumn, unroll, x.cols, k);
    }
    StripRows(startingColumn, unroll, a, ma, x, b, mb, y);
  }

  /** The first entry of a coefficient, which is all the single-column kernel reads. */
  function First(c: Coeff): Complex {
    match c
    case Scalar(v) => v
    case Vector(s) => if |s| > 0 then s[0] else Zero
  }

  lemma ColumnCoefficient(c: Coeff, startingColumn: nat, cols: nat)
    requires ValidCoeff(c, cols) && startingColumn < cols && FlagOf(c) != 0
    ensures First(Reslice(c, startingColumn)) == CoeffAt(c, startingColumn)
  {
  }

  /** Axpby_Generic: one column. */
  method Generic(startingColumn: nat, a: Coeff, x: Matrix, b: Coeff, y: array2<Complex>)
    requires Shapes(a, x, b, y) && startingColumn < x.cols
    modifies y
    ensures forall r, j :: 0 <= r < x.rows && 0 <= j < x.cols ==>
              y[r, j] == if j == startingColumn then Entry(a, At(x, r, j), b, old(y[r, j]), j) else old(y[r, j])
  {
    hide Entry, First, CoeffAt, FlagOf, Part, Add;
    var ma, mb := Reslice(a, startingColumn), Reslice(b, startingColumn);
    if FlagOf(a) != 0 {
      ColumnCoefficient(a, startingColumn, x.cols);
    }
    if FlagOf(b) != 0 {
      ColumnCoefficient(b, startingColumn, x.cols);
    }
    FlagRange(a);
    FlagRange(b);
    var todo := Ranks(x.rows);
    while todo != {}
      invariant todo <= Ranks(x.rows)
      invariant forall r, j :: 0 <= r < x.rows && 0 <= j < x.cols ==>
                  y[r, j] == if j == startingColumn && r !in todo then Entry(a, At(x, r, j), b, old(y[r, j]), j)
                             else old(y[r, j])
      decreases todo
    {
      var i :| i in todo;
      var v := Combine(FlagOf(a), FlagOf(b), First(ma), First(mb), mb.Vector?,
                       At(x, i, startingColumn), y[i, startingColumn]);
      CombinedIsEntry(a, At(x, i, startingColumn), b, y[i, startingColumn], startingColumn, First(ma), First(mb));
      y[i, startingColumn] := v;
      todo := todo - {i};
    }
  }

  /** Axpby_MV_Generic: all columns at once, coefficients unsliced. */
  method MultiVectorGeneric(a: Coeff, x: Matrix, b: Coeff, y: array2<Complex>)
    requires Shapes(a, x, b, y) && x.cols != 1
    modifies y
    ensures forall r, j :: 0 <= r < x.rows && 0 <= j < x.cols ==> y[r, j] == Entry(a, At(x, r, j), b, old(y[r, j]), j)
  {
    hide Entry;
    StripRows(0, x.cols, a, a, x, b, b, y);
  }

  // ------------------------------------------------------------------
  // The two layouts
  // ------------------------------------------------------------------

  /** Strips of 8 columns, then of 4, then single columns. */
  method InvokeLeft(a: Coeff, x: Matrix, b: Coeff, y: array2<Complex>)
    requires Shapes(a, x, b, y)
    modifies y
    ensures forall r, j :: 0 <= r < x.rows && 0 <= j < x.cols ==> y[r, j] == Entry(a, At(x, r, j), b, old(y[r, j]), j)
  {
    hide Entry;
    var numCols := x.cols;
    var j := 0;
    while j + 8 <= numCols
      invariant 0 <= j <= numCols
      invariant forall r, k :: 0 <= r < x.rows && 0 <= k < numCols ==>
                  y[r, k] == if k < j then Entry(a, At(x, r, k), b, old(y[r, k]), k) else old(y[r, k])
    {
      Unrolled(8, j, a, x, b, y);
      j := j + 8;
    }
    while j + 4 <= numCols
      invariant 0 <= j <= numCols
      invariant forall r, k :: 0 <= r < x.rows && 0 <= k < numCols ==>
                  y[r, k] == if k < j then Entry(a, At(x, r, k), b, old(y[r, k]), k) else old(y[r, k])
    {
      Unrolled(4, j, a, x, b, y);
      j := j + 4;
    }
    while j < numCols
      invariant 0 <= j <= numCols
      invariant forall r, k :: 0 <= r < x.rows && 0 <= k < numCols ==>
                  y[r, k] == if k < j then Entry(a, At(x, r, k), b, old(y[r, k]), k) else old(y[r, k])
    {
      Generic(j, a, x, b, y);
      j := j + 1;
    }
  }

  method InvokeRight(a: Coeff, x: Matrix, b: Coeff, y: array2<Complex>)
    requires Shapes(a, x, b, y)
    modifies y
    ensures forall r, j :: 0 <= r < x.rows && 0 <= j < x.cols ==> y[r, j] == Entry(a, At(x, r, j), b, old(y[r, j]), j)
  {
    hide Entry;
    if x.cols == 1 {
      Generic(0, a, x, b, y);
    } else {
      MultiVectorGeneric(a, x, b, y);
    }
  }

  /** Axpby::axpby: the layouts agree. */
  method Run(isLayoutLeft: bool, a: Coeff, x: Matrix, b: Coeff, y: array2<Complex>)
    requires Shapes(a, x, b, y)
    modifies y
    ensures forall r, j :: 0 <= r < x.rows && 0 <= j < x.cols ==> y[r, j] == Entry(a, At(x, r, j), b, old(y[r, j]), j)
  {
    hide Entry;
    if isLayoutLeft {
      InvokeLeft(a, x, b, y);
    } else {
      InvokeRight(a, x, b, y);
    }
  }

  /** The rank-1 case: the single-column kernel at column zero. */
  method RunVector(a: Coeff, x: seq<Complex>, b: Coeff, y: array<Complex>)
    requires |x| == y.Length && ValidCoeff(a, 1) && ValidCoeff(b, 1)
    modifies y
    ensures forall i :: 0 <= i < y.Length ==> y[i] == Entry(a, x[i], b, old(y[i]), 0)
  {
    hide Entry, First, CoeffAt, FlagOf, Part, Add;
    if FlagOf(a) != 0 {
      ColumnCoefficient(a, 0, 1);
    }
    if FlagOf(b) != 0 {
      ColumnCoefficient(b, 0, 1);
    }
    FlagRange(a);
    FlagRange(b);
    var todo := Ranks(|x|);
    while todo != {}
      invariant todo <= Ranks(|x|)
      invariant forall i :: 0 <= i < |x| ==> y[i] == if i in todo then old(y[i]) else Entry(a, x[i], b, old(y[i]), 0)
      decreases todo
    {
      var i :| i in todo;
      var v := Combine(FlagOf(a), FlagOf(b), First(a), First(b), b.Vector?, x[i], y[i]);
      CombinedIsEntry(a, x[i], b, y[i], 0, First(a), First(b));
      y[i] := v;
      todo := todo - {i};
    }
  }

  // ------------------------------------------------------------------
  // axpby: checks and unification of the coefficients
  // ------------------------------------------------------------------

  /** A coefficient as the caller passes it: a number, or a view of rank 0 or 1. */
  datatype Argument = Number(v: Complex) | Rank0(v: Complex) | Rank1(s: seq<Complex>)

  /** What the run-time checks accept: a rank-1 view must have one entry or, for multivectors,
      one per column. */
  predicate Accepted(c: Argument, isVector: bool, cols: nat) {
    c.Rank1? ==> |c.s| == 1 || (!isVector && |c.s| == cols)
  }

  /** What the caller means by a coefficient in column j. */
  function ValueAt(c: Argument, j: nat): Complex {
    match c
    case Number(v) => v
    case Rank0(v) => v
    case Rank1(s) => if |s| == 1 then s[0] else if j < |s| then s[j] else Zero
  }

  function Updated(a: Argument, x: Complex, b: Argument, y: Complex, j: nat): Complex {
    Add(Mul(ValueAt(a, j), x), Mul(ValueAt(b, j), y))
  }

  /** The update written out: a number and a view of one entry mean that value in every column, a
      longer view one value per column. */
  lemma UpdateWrittenOut(a: Argument, v: Complex, s: seq<Complex>, x: Complex, w: Complex, y: Complex, j: nat)
    ensures a in {Number(v), Rank0(v), Rank1([v])} ==> Updated(a, x, Number(w), y, j) == Add(Mul(v, x), Mul(w, y))
    ensures a in {Number(v), Rank0(v), Rank1([v])} ==> Updated(Number(w), x, a, y, j) == Add(Mul(w, x), Mul(v, y))
    ensures j < |s| && a == Rank1(s) && |s| > 1 ==> Updated(a, x, Number(w), y, j) == Add(Mul(s[j], x), Mul(w, y))
    ensures j < |s| && a == Rank1(s) && |s| > 1 ==> Updated(Number(w), x, a, y, j) == Add(Mul(w, x), Mul(s[j], y))
  {
    hide Mul, Add;
  }

  /** A view of one entry can be replaced by the number it holds, in either place. */
  lemma OneEntryIsNumber(v: Complex, c: Argument, x: Complex, y: Complex, j: nat)
    ensures Updated(Rank1([v]), x, c, y, j) == Updated(Number(v), x, c, y, j)
    ensures Updated(c, x, Rank1([v]), y, j) == Updated(c, x, Number(v), y, j)
  {
    hide Mul, Add;
  }

  /** Whether both internal coefficients are scalars: on a device if both arguments are numbers,
      on the host unless one is a rank-1 view for multivectors. Otherwise both are views. */
  predicate BothScalars(isDevice: bool, isVector: bool, a: Argument, b: Argument) {
    if isDevice then a.Number? && b.Number? else isVector || (!a.Rank1? && !b.Rank1?)
  }

  function Unified(c: Argument, scalars: bool): Coeff
    requires c.Rank1? && scalars ==> |c.s| > 0
  {
    match c
    case Number(v) => if scalars then Scalar(v) else Vector([v])
    case Rank0(v) => if scalars then Scalar(v) else Vector([v])
    case Rank1(s) => if scalars then Scalar(s[0]) else Vector(s)
  }

  /** Unification changes the form of a coefficient and not what it means. */
  lemma UnificationKeepsValues(isDevice: bool, isVector: bool, a: Argument, b: Argument, cols: nat, j: nat)
    requires Accepted(a, isVector, cols) && Accepted(b, isVector, cols)
    ensures var scalars := BothScalars(isDevice, isVector, a, b);
            && (a.Rank1? && scalars ==> |a.s| > 0) && (b.Rank1? && scalars ==> |b.s| > 0)
            && CoeffAt(Unified(a, scalars), j) == ValueAt(a, j) && CoeffAt(Unified(b, scalars), j) == ValueAt(b, j)
            && ValidCoeff(Unified(a, scalars), cols) && ValidCoeff(Unified(b, scalars), cols)
            && (isVector ==> ValidCoeff(Unified(a, scalars), 1) && ValidCoeff(Unified(b, scalars), 1))
  {
  }

  /** axpby on multivectors. */
  method Invoke(isDevice: bool, isLayoutLeft: bool, a: Argument, x: Matrix, b: Argument, y: array2<Complex>)
    returns (ok: bool)
    modifies y
    ensures ok <==>
              x.rows == y.Length0 && x.cols == y.Length1
              && (a.Rank1? ==> |a.s| == 1 || |a.s| == y.Length1) && (b.Rank1? ==> |b.s| == 1 || |b.s| == y.Length1)
    ensures ok ==> forall r, j :: 0 <= r < x.rows && 0 <= j < x.cols ==>
              y[r, j] == Updated(a, At(x, r, j), b, old(y[r, j]), j)
    ensures !ok ==> forall r, j :: 0 <= r < y.Length0 && 0 <= j < y.Length1 ==> y[r, j] == old(y[r, j])
  {
    if x.rows != y.Length0 || x.cols != y.Length1 {
      return false;
    }
    if !Accepted(a, false, y.Length1) || !Accepted(b, false, y.Length1) {
      return false;
    }
    hide CoeffAt, ValueAt, Unified, Mul, Add, ValidCoeff, BothScalars;
    var scalars := BothScalars(isDevice, false, a, b);
    UnificationKeepsValues(isDevice, false, a, b, x.cols, 0);
    Run(isLayoutLeft, Unified(a, scalars), x, Unified(b, scalars), y);
    forall r, j | 0 <= r < x.rows && 0 <= j < x.cols
      ensures y[r, j] == Updated(a, At(x, r, j), b, old(y[r, j]), j)
    {
      UnificationKeepsValues(isDevice, false, a, b, x.cols, j);
    }
    return true;
  }

  /** axpby on vectors. */
  method InvokeVector(isDevice: bool, a: Argument, x: seq<Complex>, b: Argument, y: array<Complex>) returns (ok: bool)
    modifies y
    ensures ok <==> |x| == y.Length && (a.Rank1? ==> |a.s| == 1) && (b.Rank1? ==> |b.s| == 1)
    ensures ok ==> forall i :: 0 <= i < y.Length ==> y[i] == Updated(a, x[i], b, old(y[i]), 0)
    ensures !ok ==> y[..] == old(y[..])
  {
    if |x| != y.Length {
      return false;
    }
    if !Accepted(a, true, 1) || !Accepted(b, true, 1) {
      return false;
    }
    hide CoeffAt, ValueAt, Unified, Mul, Add, ValidCoeff, BothScalars;
    var scalars := BothScalars(isDevice, true, a, b);
    UnificationKeepsValues(isDevice, true, a, b, 1, 0);
    RunVector(Unified(a, scalars), x, Unified(b, scalars), y);
    return true;
  }
}
