/**
 The multivector dot product: r(i) = x(:, i)^H y(:, i), where either operand may be a
 single column used for every i. Teams add slices of a dot product to r(i) atomically.
 */
module DotMultiVector {
  import opened Scalars
  import opened Sums
  import opened Matrices
  import opened SlicedReduction

  datatype Outcome = Done | LengthMismatch | ColumnMismatch | WrongResultLength | DivisionByZero

  /** The column of an operand that dot product i uses. */
  function ColumnOf(x: Matrix, i: int): int {
    if x.cols == 1 then 0 else i
  }

  function ConjProduct(x: Matrix, y: Matrix, i: int): int -> Complex {
    k => Mul(Conj(Padded(NoTrans, x, k, ColumnOf(x, i))), Padded(NoTrans, y, k, ColumnOf(y, i)))
  }

  /** The whole dot product of column pair i. */
  ghost function Dot(x: Matrix, y: Matrix, i: int): Complex {
    Sum(ConjProduct(x, y, i), 0, x.rows)
  }

  function Max(a: nat, b: nat): nat { if a < b then b else a }

  predicate ColumnsAgree(x: Matrix, y: Matrix) {
    (x.cols == 1 || x.cols == Max(x.cols, y.cols)) && (y.cols == 1 || y.cols == Max(x.cols, y.cols))
  }

  method TeamReduce(t: Tree, x: Matrix, y: Matrix, i: nat) returns (result: Complex)
    requires x.rows == y.rows && ColumnsAgree(x, y) && i < Max(x.cols, y.cols)
    requires forall k :: k in Indices(t) ==> 0 <= k < x.rows
    ensures result == Reduce(ConjProduct(x, y, i), t)
    decreases t
  {
    hide Mul;
    match t
    case Leaf(s) =>
      result := Zero;
      for n := 0 to |s|
        invariant result == Fold(ConjProduct(x, y, i), s[..n])
      {
        var k := s[n];
        assert k in Indices(t);
        assert s[..n + 1][..n] == s[..n];
        result := Add(result, Mul(Conj(At(x, k, ColumnOf(x, i))), At(y, k, ColumnOf(y, i))));
      }
      assert s[..|s|] == s;
    case Join(l, r) =>
      assert forall k :: k in Indices(l) ==> k in Indices(t);
      assert forall k :: k in Indices(r) ==> k in Indices(t);
      var a := TeamReduce(l, x, y, i);
      var b := TeamReduce(r, x, y, i);
      result := Add(a, b);
  }

  /** One team: it adds its slice to the one result it works on. */
  method TeamKernel(rank: nat, r: array<Complex>, x: Matrix, y: Matrix, teamsPerDot: nat, reduction: Reduction)
    requires x.rows == y.rows && ColumnsAgree(x, y) && r.Length == Max(x.cols, y.cols)
    requires teamsPerDot > 0 && rank < r.Length * teamsPerDot && Reduces(reduction)
    modifies r
    ensures forall i :: 0 <= i < r.Length ==>
              r[i] == if rank / teamsPerDot == i
                      then Add(old(r[i]), Slice(ConjProduct(x, y, i), x.rows, teamsPerDot)(rank % teamsPerDot))
                      else old(r[i])
  {
    hide Mul, Add, ConjProduct, Slice, SliceBegin, SliceEnd, Reduce, Indices, Covers;
    var localRank := rank % teamsPerDot;
    var i := rank / teamsPerDot;
    RankInLeague(rank, r.Length, teamsPerDot);
    SliceBounds(localRank, x.rows, teamsPerDot);
    var begin, end := SliceBegin(localRank, x.rows, teamsPerDot), SliceEnd(localRank, x.rows, teamsPerDot);
    var t := reduction(rank, begin, end);
    SliceReduction(t, localRank, ConjProduct(x, y, i), x.rows, teamsPerDot);
    var result := TeamReduce(t, x, y, i);
    // atomic_add
    r[i] := Add(r[i], result);
  }

  /** r(i) plus the slices still pending is the whole dot product. */
  ghost predicate Conserved(ri: Complex, x: Matrix, y: Matrix, teamsPerDot: nat, todo: set<int>, i: int)
    requires teamsPerDot > 0
  {
    Add(ri, Pending(ConjProduct(x, y, i), x.rows, teamsPerDot, todo, i)) == Dot(x, y, i)
  }

  lemma ConservedByAdd(ri: Complex, ri': Complex, x: Matrix, y: Matrix, teamsPerDot: nat, todo: set<int>, rank: nat,
                       i: nat)
    requires teamsPerDot > 0 && rank in todo && Conserved(ri, x, y, teamsPerDot, todo, i)
    requires ri' == if rank / teamsPerDot == i
                    then Add(ri, Slice(ConjProduct(x, y, i), x.rows, teamsPerDot)(rank % teamsPerDot)) else ri
    ensures Conserved(ri', x, y, teamsPerDot, todo - {rank}, i)
  {
    hide ConjProduct, Pending, Slice, Dot;
    PendingStep(ConjProduct(x, y, i), x.rows, teamsPerDot, todo, rank, i);
  }

  /** All teams in any order: every r(i) ends as the full dot product of column pair i. */
  method Teams(r: array<Complex>, x: Matrix, y: Matrix, teamsPerDot: nat, reduction: Reduction)
    requires x.rows == y.rows && ColumnsAgree(x, y) && r.Length == Max(x.cols, y.cols)
    requires teamsPerDot > 0 && Reduces(reduction)
    requires forall i :: 0 <= i < r.Length ==> r[i] == Zero
    modifies r
    ensures forall i :: 0 <= i < r.Length ==> r[i] == Dot(x, y, i)
  {
    hide Mul, Conserved, ConjProduct, Slice;
    var todo := Ranks(r.Length * teamsPerDot);
    forall i | 0 <= i < r.Length
      ensures Conserved(r[i], x, y, teamsPerDot, todo, i)
    {
      AllPending(ConjProduct(x, y, i), x.rows, teamsPerDot, r.Length, i);
      StartsConserved(x, y, teamsPerDot, todo, i);
    }
    while todo != {}
      invariant todo <= Ranks(r.Length * teamsPerDot)
      invariant forall i :: 0 <= i < r.Length ==> Conserved(r[i], x, y, teamsPerDot, todo, i)
      decreases todo
    {
      var rank :| rank in todo;
      label Before:
      TeamKernel(rank, r, x, y, teamsPerDot, reduction);
      forall i | 0 <= i < r.Length
        ensures Conserved(r[i], x, y, teamsPerDot, todo - {rank}, i)
      {
        ConservedByAdd(old@Before(r[i]), r[i], x, y, teamsPerDot, todo, rank, i);
      }
      todo := todo - {rank};
    }
    forall i | 0 <= i < r.Length
      ensures r[i] == Dot(x, y, i)
    {
      EndsConserved(r[i], x, y, teamsPerDot, i);
    }
  }

  lemma StartsConserved(x: Matrix, y: Matrix, teamsPerDot: nat, todo: set<int>, i: int)
    requires teamsPerDot > 0 && Pending(ConjProduct(x, y, i), x.rows, teamsPerDot, todo, i) == Dot(x, y, i)
    ensures Conserved(Zero, x, y, teamsPerDot, todo, i)
  {
    hide ConjProduct, Pending, Dot;
  }

  lemma EndsConserved(ri: Complex, x: Matrix, y: Matrix, teamsPerDot: nat, i: int)
    requires teamsPerDot > 0 && Conserved(ri, x, y, teamsPerDot, {}, i)
    ensures ri == Dot(x, y, i)
  {
    hide ConjProduct, Pending, Dot;
    NonePending(ConjProduct(x, y, i), x.rows, teamsPerDot, i);
  }

  // ------------------------------------------------------------------
  // What a dot product is
  // ------------------------------------------------------------------

  /** The dot product written out on the data: the first operand is conjugated, and a single
      column stands for all. */
  lemma DotWrittenOut(x: Matrix, y: Matrix, i: nat, f: int -> Complex)
    requires x.rows == y.rows && (x.cols == 1 || i < x.cols) && (y.cols == 1 || i < y.cols)
    requires forall k :: 0 <= k < x.rows ==>
               f(k) == Mul(Conj(x.data[k][if x.cols == 1 then 0 else i]), y.data[k][if y.cols == 1 then 0 else i])
    ensures Dot(x, y, i) == Sum(f, 0, x.rows)
  {
    hide Mul, Conj, ConjProduct;
    forall k | 0 <= k < x.rows
      ensures ConjProduct(x, y, i)(k) == f(k)
    {
      ProductAt(x, y, i, k);
    }
    SumCongruence(ConjProduct(x, y, i), f, 0, x.rows);
  }

  /** Where the column of x is zero but in row k, one product is left. */
  lemma DotOfUnit(x: Matrix, y: Matrix, i: nat, k: nat)
    requires x.rows == y.rows && (x.cols == 1 || i < x.cols) && (y.cols == 1 || i < y.cols) && k < x.rows
    requires forall m :: 0 <= m < x.rows && m != k ==> x.data[m][if x.cols == 1 then 0 else i] == Zero
    ensures Dot(x, y, i) == Mul(Conj(x.data[k][if x.cols == 1 then 0 else i]), y.data[k][if y.cols == 1 then 0 else i])
  {
    hide Mul, Conj, ConjProduct;
    ProductAt(x, y, i, k);
    forall m | 0 <= m < x.rows && m != k
      ensures ConjProduct(x, y, i)(m) == Zero
    {
      ProductAt(x, y, i, m);
      ZeroProduct(y.data[m][if y.cols == 1 then 0 else i]);
    }
    SumOfOneTerm(ConjProduct(x, y, i), 0, x.rows, k);
  }

  lemma ProductAt(x: Matrix, y: Matrix, i: nat, k: nat)
    requires x.rows == y.rows && (x.cols == 1 || i < x.cols) && (y.cols == 1 || i < y.cols) && k < x.rows
    ensures ConjProduct(x, y, i)(k)
            == Mul(Conj(x.data[k][if x.cols == 1 then 0 else i]), y.data[k][if y.cols == 1 then 0 else i])
  {
    hide Mul, Conj;
  }

  lemma ZeroProduct(v: Complex)
    ensures Mul(Conj(Zero), v) == Zero
  {
    MulUnits(v);
    hide Mul;
    assert Conj(Zero) == Zero;
  }

  predicate SameShape(x: Matrix, y: Matrix) { x.rows == y.rows && x.cols == y.cols }

  /** w = s y + z, entry by entry. */
  ghost predicate Combination(w: Matrix, s: Complex, y: Matrix, z: Matrix) {
    && SameShape(w, y) && SameShape(w, z)
    && forall k, c :: 0 <= k < w.rows && 0 <= c < w.cols ==> At(w, k, c) == Add(Mul(s, At(y, k, c)), At(z, k, c))
  }

  /** Linear in the second operand. */
  lemma DotLinear(x: Matrix, w: Matrix, s: Complex, y: Matrix, z: Matrix, i: nat)
    requires x.rows == w.rows && Combination(w, s, y, z) && (x.cols == 1 || i < x.cols) && (w.cols == 1 || i < w.cols)
    ensures Dot(x, w, i) == Add(Mul(s, Dot(x, y, i)), Dot(x, z, i))
  {
    hide Mul, Add, Conj;
    var f, g, h := ConjProduct(x, w, i), ConjProduct(x, y, i), ConjProduct(x, z, i);
    forall k | 0 <= k < x.rows
      ensures f(k) == Add(Mul(s, g(k)), h(k))
    {
      ProductWithSum(Conj(At(x, k, ColumnOf(x, i))), s, At(y, k, ColumnOf(w, i)), At(z, k, ColumnOf(w, i)));
    }
    SumLinear(f, s, g, h, 0, x.rows);
  }

  lemma ProductWithSum(u: Complex, s: Complex, a: Complex, b: Complex)
    ensures Mul(u, Add(Mul(s, a), b)) == Add(Mul(s, Mul(u, a)), Mul(u, b))
  {
    hide Mul;
    MulDistributes(u, Mul(s, a), b);
    MulAssoc(u, s, a);
    MulComm(u, s);
    MulAssoc(s, u, a);
  }

  /** Exchanging the operands conjugates; with DotLinear, a factor of the first operand comes
      out conjugated. */
  lemma DotConjugates(x: Matrix, y: Matrix, i: nat)
    requires x.rows == y.rows
    ensures Dot(y, x, i) == Conj(Dot(x, y, i))
  {
    hide Mul, Conj;
    forall k | 0 <= k < x.rows
      ensures ConjProduct(y, x, i)(k) == Conj(ConjProduct(x, y, i)(k))
    {
      ProductConjugates(Padded(NoTrans, x, k, ColumnOf(x, i)), Padded(NoTrans, y, k, ColumnOf(y, i)));
    }
    SumConj(ConjProduct(y, x, i), ConjProduct(x, y, i), 0, x.rows);
  }

  lemma ProductConjugates(u: Complex, v: Complex)
    ensures Mul(Conj(v), u) == Conj(Mul(Conj(u), v))
  {
    hide Mul;
    ConjMul(Conj(u), v);
    MulComm(u, Conj(v));
    assert Conj(Conj(u)) == u;
  }

  /** Conjugate-linear in the first operand. */
  lemma DotConjLinear(w: Matrix, s: Complex, x: Matrix, z: Matrix, y: Matrix, i: nat)
    requires y.rows == w.rows && Combination(w, s, x, z) && (y.cols == 1 || i < y.cols) && (w.cols == 1 || i < w.cols)
    ensures Dot(w, y, i) == Add(Mul(Conj(s), Dot(x, y, i)), Dot(z, y, i))
  {
    hide Mul, Dot;
    DotLinear(y, w, s, x, z, i);
    DotConjugates(y, w, i);
    DotConjugates(y, x, i);
    DotConjugates(y, z, i);
    ConjMul(s, Dot(y, x, i));
  }

  /** A vector with itself gives a real number that is not negative. */
  lemma DotPositive(x: Matrix, i: nat)
    ensures Dot(x, x, i).im == 0.0 && Dot(x, x, i).re >= 0.0
  {
    forall k
      ensures ConjProduct(x, x, i)(k).im == 0.0 && ConjProduct(x, x, i)(k).re >= 0.0
    {
      OwnProduct(Padded(NoTrans, x, k, ColumnOf(x, i)));
    }
    hide ConjProduct;
    SumPositive(ConjProduct(x, x, i), 0, x.rows);
  }

  lemma OwnProduct(u: Complex)
    ensures Mul(Conj(u), u).im == 0.0 && Mul(Conj(u), u).re >= 0.0
  {
  }

  /** MV_Dot_Invoke. Mismatched shapes are rejected with r untouched; otherwise r holds the
      dot products, except that no column pairs at all divide by zero. */
  method Invoke(r: array<Complex>, x: Matrix, y: Matrix, reduction: Reduction) returns (outcome: Outcome)
    requires Reduces(reduction)
    modifies r
    ensures outcome == Done <==>
              x.rows == y.rows && x.cols > 0 && y.cols > 0 && (x.cols == y.cols || x.cols == 1 || y.cols == 1)
              && r.Length == if x.cols == 1 then y.cols else x.cols
    ensures outcome == LengthMismatch <==> x.rows != y.rows
    ensures outcome == ColumnMismatch <==>
              x.rows == y.rows && x.cols != y.cols && (x.cols != 1 || y.cols == 0) && (y.cols != 1 || x.cols == 0)
    ensures outcome == DivisionByZero <==> x.rows == y.rows && x.cols == 0 && y.cols == 0 && r.Length == 0
    ensures outcome == Done ==> forall i :: 0 <= i < r.Length ==> r[i] == Dot(x, y, i)
    ensures outcome != Done ==> r[..] == old(r[..])
  {
    hide Mul, Dot;
    var numDots := Max(x.cols, y.cols);
    if x.rows != y.rows {
      return LengthMismatch;
    }
    if (x.cols != 1 && x.cols != numDots) || (y.cols != 1 && y.cols != numDots) {
      return ColumnMismatch;
    }
    if r.Length != numDots {
      return WrongResultLength;
    }
    for i := 0 to r.Length
      invariant forall j :: 0 <= j < i ==> r[j] == Zero
      invariant forall j :: i <= j < r.Length ==> r[j] == old(r[j])
    {
      r[i] := Zero;
    }
    WorkDistributionBounds(x.rows, numDots);
    match WorkDistribution(x.rows, numDots)
    case None =>
      return DivisionByZero;
    case Some(teamsPerDot) =>
      Teams(r, x, y, teamsPerDot, reduction);
      return Done;
  }
}
