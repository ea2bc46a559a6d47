/**
 The rank-2 update of one triangle of a square matrix, A += alpha x y^T + alpha y x^T or
 A += alpha x y^H + conj(alpha) y x^H, by rows on the host and by column or row teams on
 a device. The kernels skip zero entries of x and y in different places.
 */
module Syr2 {
  import opened Scalars
  import opened Matrices
  import opened TransposeLetters

  predicate InTriangle(justUp: bool, i: int, j: int) {
    (justUp && i <= j) || (!justUp && i >= j)
  }

  function ConjUnless(justTranspose: bool, v: Complex): Complex {
    if justTranspose then v else Conj(v)
  }

  function FirstTerm(justTranspose: bool, alpha: Complex, xi: Complex, yj: Complex): Complex {
    Mul(Mul(alpha, xi), ConjUnless(justTranspose, yj))
  }

  function SecondTerm(justTranspose: bool, alpha: Complex, yi: Complex, xj: Complex): Complex {
    Mul(Mul(ConjUnless(justTranspose, alpha), yi), ConjUnless(justTranspose, xj))
  }

  /** Entry (i, j) of the update. */
  function Increment(justTranspose: bool, alpha: Complex, x: seq<Complex>, y: seq<Complex>, i: int, j: int): Complex
    requires 0 <= i < |x| == |y| && 0 <= j < |x|
  {
    Add(FirstTerm(justTranspose, alpha, x[i], y[j]), SecondTerm(justTranspose, alpha, y[i], x[j]))
  }

  /** What the routine promises of entry (i, j) of A, where aij is the old entry. */
  function Entry(justTranspose: bool, justUp: bool, alpha: Complex, x: seq<Complex>, y: seq<Complex>, aij: Complex,
                 i: int, j: int): Complex
    requires 0 <= i < |x| == |y| && 0 <= j < |x|
  {
    if InTriangle(justUp, i, j) then Add(aij, Increment(justTranspose, alpha, x, y, i, j)) else aij
  }

  ghost predicate Square(x: seq<Complex>, y: seq<Complex>, a: array2<Complex>) {
    a.Length0 == a.Length1 == |x| == |y|
  }

  // ------------------------------------------------------------------
  // Zero skips
  // ------------------------------------------------------------------

  lemma SkippedTerms(justTranspose: bool, alpha: Complex, u: Complex, v: Complex)
    ensures alpha == Zero || u == Zero || v == Zero ==>
              FirstTerm(justTranspose, alpha, u, v) == Zero && SecondTerm(justTranspose, alpha, u, v) == Zero
  {
    MulUnits(alpha);
    MulUnits(u);
    MulUnits(Mul(alpha, u));
    MulUnits(Mul(Conj(alpha), u));
    MulUnits(ConjUnless(justTranspose, v));
    MulUnits(Conj(alpha));
    assert Conj(Zero) == Zero;
    hide Mul;
  }

  /** An old entry with the terms that have been added so far. */
  function Partial(justTranspose: bool, justUp: bool, alpha: Complex, x: seq<Complex>, y: seq<Complex>, aij: Complex,
                   i: int, j: int, first: bool, second: bool): Complex
    requires 0 <= i < |x| == |y| && 0 <= j < |x|
  {
    if !InTriangle(justUp, i, j) then aij
    else Add(Add(aij, if first then FirstTerm(justTranspose, alpha, x[i], y[j]) else Zero),
             if second then SecondTerm(justTranspose, alpha, y[i], x[j]) else Zero)
  }

  /** A term that was skipped because its factor is zero is not missed. */
  lemma PartialIsEntry(justTranspose: bool, justUp: bool, alpha: Complex, x: seq<Complex>, y: seq<Complex>,
                       aij: Complex,
                       i: int, j: int, first: bool, second: bool)
    requires 0 <= i < |x| == |y| && 0 <= j < |x|
    requires first || alpha == Zero || x[i] == Zero || y[j] == Zero
    requires second || alpha == Zero || y[i] == Zero || x[j] == Zero
    ensures Partial(justTranspose, justUp, alpha, x, y, aij, i, j, first, second)
            == Entry(justTranspose, justUp, alpha, x, y, aij, i, j)
  {
    SkippedTerms(justTranspose, alpha, x[i], y[j]);
    SkippedTerms(justTranspose, alpha, y[i], x[j]);
    hide FirstTerm, SecondTerm;
  }

  lemma PartialStarts(justTranspose: bool, justUp: bool, alpha: Complex, x: seq<Complex>, y: seq<Complex>,
                      aij: Complex, i: int, j: int)
    requires 0 <= i < |x| == |y| && 0 <= j < |x|
    ensures Partial(justTranspose, justUp, alpha, x, y, aij, i, j, false, false) == aij
  {
    hide FirstTerm, SecondTerm;
  }

  /** A(i, j) += one of the two terms, if (i, j) lies in the triangle. */
  method AddTerm(a: array2<Complex>, justTranspose: bool, justUp: bool, alpha: Complex, x: seq<Complex>,
                 y: seq<Complex>,
                 i: int, j: int, isFirst: bool, ghost aij: Complex, ghost first: bool, ghost second: bool)
    requires Square(x, y, a) && 0 <= i < |x| && 0 <= j < |x|
    requires a[i, j] == Partial(justTranspose, justUp, alpha, x, y, aij, i, j, first, second)
    requires if isFirst then !first else !second
    modifies a
    ensures a[i, j] == Partial(justTranspose, justUp, alpha, x, y, aij, i, j, first || isFirst, second || !isFirst)
    ensures forall k, l :: 0 <= k < a.Length0 && 0 <= l < a.Length1 && (k, l) != (i, j) ==> a[k, l] == old(a[k, l])
  {
    hide FirstTerm, SecondTerm;
    if InTriangle(justUp, i, j) {
      if isFirst {
        a[i, j] := Add(a[i, j], FirstTerm(justTranspose, alpha, x[i], y[j]));
      } else {
        a[i, j] := Add(a[i, j], SecondTerm(justTranspose, alpha, y[i], x[j]));
      }
    }
  }

  // ------------------------------------------------------------------
  // One thread per row
  // ------------------------------------------------------------------

  method ThreadRow(i: nat, justTranspose: bool, justUp: bool, alpha: Complex, x: seq<Complex>, y: seq<Complex>,
                   a: array2<Complex>)
    requires Square(x, y, a) && i < |x|
    modifies a
    ensures forall k, j :: 0 <= k < a.Length0 && 0 <= j < a.Length1 ==>
              a[k, j] == if k == i then Entry(justTranspose, justUp, alpha, x, y, old(a[k, j]), k, j) else old(a[k, j])
  {
    hide Partial, Entry;
    var n := a.Length1;
    var runs := alpha != Zero && !(x[i] == Zero && y[i] == Zero);
    var doFirst := runs && x[i] != Zero;
    var doSecond := runs && y[i] != Zero;
    forall j | 0 <= j < n
      ensures a[i, j] == Partial(justTranspose, justUp, alpha, x, y, a[i, j], i, j, false, false)
    {
      PartialStarts(justTranspose, justUp, alpha, x, y, a[i, j], i, j);
    }
    if doFirst {
      for j := 0 to n
        invariant forall k, l :: 0 <= k < n && 0 <= l < n ==>
                    a[k, l] == if k == i
                               then Partial(justTranspose, justUp, alpha, x, y, old(a[k, l]), k, l, l < j, false)
                               else old(a[k, l])
      {
        AddTerm(a, justTranspose, justUp, alpha, x, y, i, j, true, old(a[i, j]), false, false);
      }
    }
    if doSecond {
      for j := 0 to n
        invariant forall k, l :: 0 <= k < n && 0 <= l < n ==>
                    a[k, l] == if k == i
                               then Partial(justTranspose, justUp, alpha, x, y, old(a[k, l]), k, l, doFirst, l < j)
                               else old(a[k, l])
      {
        AddTerm(a, justTranspose, justUp, alpha, x, y, i, j, false, old(a[i, j]), doFirst, false);
      }
    }
    forall j | 0 <= j < n
      ensures a[i, j] == Entry(justTranspose, justUp, alpha, x, y, old(a[i, j]), i, j)
    {
      PartialIsEntry(justTranspose, justUp, alpha, x, y, old(a[i, j]), i, j, doFirst, doSecond);
    }
  }

  method ThreadParallel(justTranspose: bool, justUp: bool, alpha: Complex, x: seq<Complex>, y: seq<Complex>,
                        a: array2<Complex>)
    requires Square(x, y, a)
    modifies a
    ensures forall i, j :: 0 <= i < |x| && 0 <= j < |x| ==>
              a[i, j] == Entry(justTranspose, justUp, alpha, x, y, old(a[i, j]), i, j)
  {
    hide Entry;
    if |x| == 0 || |y| == 0 {
      return;
    }
    if alpha == Zero {
      AlphaZero(justTranspose, justUp, x, y);
      return;
    }
    var todo := Ranks(a.Length0);
    while todo != {}
      invariant todo <= Ranks(a.Length0)
      invariant forall i, j :: 0 <= i < |x| && 0 <= j < |x| ==>
                  a[i, j] == if i in todo then old(a[i, j])
                             else Entry(justTranspose, justUp, alpha, x, y, old(a[i, j]), i, j)
      decreases todo
    {
      var i :| i in todo;
      ThreadRow(i, justTranspose, justUp, alpha, x, y, a);
      todo := todo - {i};
    }
  }

  lemma AlphaZero(justTranspose: bool, justUp: bool, x: seq<Complex>, y: seq<Complex>)
    requires |x| == |y|
    ensures forall aij, i, j :: 0 <= i < |x| && 0 <= j < |x| ==>
              Entry(justTranspose, justUp, Zero, x, y, aij, i, j) == aij
  {
    hide FirstTerm, SecondTerm;
    forall aij, i, j | 0 <= i < |x| && 0 <= j < |x|
      ensures Entry(justTranspose, justUp, Zero, x, y, aij, i, j) == aij
    {
      SkippedTerms(justTranspose, Zero, x[i], y[j]);
      SkippedTerms(justTranspose, Zero, y[i], x[j]);
    }
  }

  // ------------------------------------------------------------------
  // One team per column or per row
  // ------------------------------------------------------------------

  /** The work items of a team's two parallel loops. No barrier separates the loops, so items
      of both mix; but both loops hand index k to the same thread, which takes (k, true)
      before (k, false). An item is one step here; Syr2Schedules takes it apart into its load
      and its store and shows that the one thread per index is what makes that right. */
  function Items(n: nat, first: bool, second: bool): (items: set<(int, bool)>)
    ensures forall k, isFirst :: (k, isFirst) in items <==> 0 <= k < n && (if isFirst then first else second)
  {
    (set k | k in Ranks(n) && first :: (k, true)) + (set k | k in Ranks(n) && second :: (k, false))
  }

  /** An item whose thread has nothing to do before it. */
  predicate Ready(item: (int, bool), todo: set<(int, bool)>) {
    item in todo && (item.1 || (item.0, true) !in todo)
  }

  lemma SomeReady(todo: set<(int, bool)>)
    requires todo != {}
    ensures exists item :: item in todo && Ready(item, todo)
  {
    var item :| item in todo;
    if (item.0, true) in todo {
      assert Ready((item.0, true), todo);
    } else {
      assert Ready(item, todo);
    }
  }

  lemma ConjZero(justTranspose: bool, v: Complex)
    ensures ConjUnless(justTranspose, v) == Zero <==> v == Zero
  {
  }

  method ColumnTeam(j: nat, justTranspose: bool, justUp: bool, alpha: Complex, x: seq<Complex>, y: seq<Complex>,
                    a: array2<Complex>)
    requires Square(x, y, a) && j < |x|
    modifies a
    ensures forall i, l :: 0 <= i < a.Length0 && 0 <= l < a.Length1 ==>
              a[i, l] == if l == j then Entry(justTranspose, justUp, alpha, x, y, old(a[i, l]), i, l) else old(a[i, l])
  {
    hide Partial, Entry, ConjUnless;
    ConjZero(justTranspose, x[j]);
    ConjZero(justTranspose, y[j]);
    var runs := alpha != Zero && !(x[j] == Zero && y[j] == Zero);
    var doFirst := runs && ConjUnless(justTranspose, y[j]) != Zero;
    var doSecond := runs && ConjUnless(justTranspose, x[j]) != Zero;
    var todo := Items(a.Length0, doFirst, doSecond);
    forall i | 0 <= i < |x|
      ensures a[i, j] == Partial(justTranspose, justUp, alpha, x, y, a[i, j], i, j, false, false)
    {
      PartialStarts(justTranspose, justUp, alpha, x, y, a[i, j], i, j);
    }
    while todo != {}
      invariant todo <= Items(a.Length0, doFirst, doSecond)
      invariant forall i, l :: 0 <= i < |x| && 0 <= l < |x| ==>
                  a[i, l] == if l == j then Partial(justTranspose, justUp, alpha, x, y, old(a[i, l]), i, l,
                                                    doFirst && (i, true) !in todo, doSecond && (i, false) !in todo)
                             else old(a[i, l])
      decreases todo
    {
      SomeReady(todo);
      var item :| item in todo && Ready(item, todo);
      var (i, isFirst) := item;
      AddTerm(a, justTranspose, justUp, alpha, x, y, i, j, isFirst, old(a[i, j]),
              doFirst && (i, true) !in todo, doSecond && (i, false) !in todo);
      todo := todo - {item};
    }
    forall i | 0 <= i < |x|
      ensures a[i, j] == Entry(justTranspose, justUp, alpha, x, y, old(a[i, j]), i, j)
    {
      PartialIsEntry(justTranspose, justUp, alpha, x, y, old(a[i, j]), i, j, doFirst, doSecond);
    }
  }

  method RowTeam(i: nat, justTranspose: bool, justUp: bool, alpha: Complex, x: seq<Complex>, y: seq<Complex>,
                 a: array2<Complex>)
    requires Square(x, y, a) && i < |x|
    modifies a
    ensures forall k, j :: 0 <= k < a.Length0 && 0 <= j < a.Length1 ==>
              a[k, j] == if k == i then Entry(justTranspose, justUp, alpha, x, y, old(a[k, j]), k, j) else old(a[k, j])
  {
    hide Partial, Entry;
    var runs := alpha != Zero && !(x[i] == Zero && y[i] == Zero);
    var doFirst := runs && x[i] != Zero;
    var doSecond := runs && y[i] != Zero;
    var todo := Items(a.Length1, doFirst, doSecond);
    forall j | 0 <= j < |x|
      ensures a[i, j] == Partial(justTranspose, justUp, alpha, x, y, a[i, j], i, j, false, false)
    {
      PartialStarts(justTranspose, justUp, alpha, x, y, a[i, j], i, j);
    }
    while todo != {}
      invariant todo <= Items(a.Length1, doFirst, doSecond)
      invariant forall k, j :: 0 <= k < |x| && 0 <= j < |x| ==>
                  a[k, j] == if k == i then Partial(justTranspose, justUp, alpha, x, y, old(a[k, j]), k, j,
                                                    doFirst && (j, true) !in todo, doSecond && (j, false) !in todo)
                             else old(a[k, j])
      decreases todo
    {
      SomeReady(todo);
      var item :| item in todo && Ready(item, todo);
      var (j, isFirst) := item;
      AddTerm(a, justTranspose, justUp, alpha, x, y, i, j, isFirst, old(a[i, j]),
              doFirst && (j, true) !in todo, doSecond && (j, false) !in todo);
      todo := todo - {item};
    }
    forall j | 0 <= j < |x|
      ensures a[i, j] == Entry(justTranspose, justUp, alpha, x, y, old(a[i, j]), i, j)
    {
      PartialIsEntry(justTranspose, justUp, alpha, x, y, old(a[i, j]), i, j, doFirst, doSecond);
    }
  }

  method TeamParallel(isLayoutLeft: bool, justTranspose: bool, justUp: bool, alpha: Complex, x: seq<Complex>,
                      y: seq<Complex>, a: array2<Complex>)
    requires Square(x, y, a)
    modifies a
    ensures forall i, j :: 0 <= i < |x| && 0 <= j < |x| ==>
              a[i, j] == Entry(justTranspose, justUp, alpha, x, y, old(a[i, j]), i, j)
  {
    hide Entry;
    if |x| == 0 || |y| == 0 {
      return;
    }
    if alpha == Zero {
      AlphaZero(justTranspose, justUp, x, y);
      return;
    }
    var todo := Ranks(if isLayoutLeft then a.Length1 else a.Length0);
    while todo != {}
      invariant todo <= Ranks(|x|)
      invariant forall i, j :: 0 <= i < |x| && 0 <= j < |x| ==>
                  a[i, j] == if (if isLayoutLeft then j else i) in todo then old(a[i, j])
                             else Entry(justTranspose, justUp, alpha, x, y, old(a[i, j]), i, j)
      decreases todo
    {
      var rank :| rank in todo;
      if isLayoutLeft {
        ColumnTeam(rank, justTranspose, justUp, alpha, x, y, a);
      } else {
        RowTeam(rank, justTranspose, justUp, alpha, x, y, a);
      }
      todo := todo - {rank};
    }
  }

  // ------------------------------------------------------------------
  // syr2
  // ------------------------------------------------------------------

  datatype Outcome = Done | BadShape | BadTrans | BadUplo

  predicate IsU(c: char) { c == 'U' || c == 'u' }

  predicate IsL(c: char) { c == 'L' || c == 'l' }

  /** The promise of the routine with the conjugations, the factors and the triangle written out. */
  lemma EntryWrittenOut(justTranspose: bool, justUp: bool, alpha: Complex, x: seq<Complex>, y: seq<Complex>,
                        aij: Complex, i: int, j: int)
    requires 0 <= i < |x| == |y| && 0 <= j < |x|
    ensures (justUp && i > j) || (!justUp && i < j) ==> Entry(justTranspose, justUp, alpha, x, y, aij, i, j) == aij
    ensures (justUp && i <= j) || (!justUp && i >= j) ==>
              Entry(justTranspose, justUp, alpha, x, y, aij, i, j)
              == Add(aij, if justTranspose
                          then Add(Mul(Mul(alpha, x[i]), y[j]), Mul(Mul(alpha, y[i]), x[j]))
                          else Add(Mul(Mul(alpha, x[i]), Conj(y[j])), Mul(Mul(Conj(alpha), y[i]), Conj(x[j]))))
  {
    hide Mul, Add, Conj;
  }

  /** Every target gives the same A, and the other triangle is never touched. */
  method Invoke(trans: char, uplo: char, alpha: Complex, x: seq<Complex>, y: seq<Complex>, a: array2<Complex>,
                isGpu: bool, isLayoutLeft: bool) returns (outcome: Outcome)
    modifies a
    ensures outcome == BadShape <==> !(a.Length0 == a.Length1 == |x| == |y|)
    ensures outcome == BadTrans <==> outcome != BadShape && trans !in {'T', 't', 'H', 'h'}
    ensures outcome == BadUplo <==> outcome !in {BadShape, BadTrans} && uplo !in {'U', 'u', 'L', 'l'}
    ensures outcome == Done ==> forall i, j :: 0 <= i < |x| && 0 <= j < |x| ==>
              a[i, j] == if (if uplo in {'U', 'u'} then i > j else i < j) then old(a[i, j])
                         else Add(old(a[i, j]),
                                  if trans in {'T', 't'}
                                  then Add(Mul(Mul(alpha, x[i]), y[j]), Mul(Mul(alpha, y[i]), x[j]))
                                  else Add(Mul(Mul(alpha, x[i]), Conj(y[j])), Mul(Mul(Conj(alpha), y[i]), Conj(x[j]))))
    ensures outcome != Done ==> forall i, j :: 0 <= i < a.Length0 && 0 <= j < a.Length1 ==> a[i, j] == old(a[i, j])
  {
    hide Entry, Mul, Add, Conj;
    if !(a.Length0 == a.Length1 && a.Length0 == |x| && a.Length0 == |y|) {
      return BadShape;
    }
    if !IsT(trans) && !IsH(trans) {
      return BadTrans;
    }
    if !IsU(uplo) && !IsL(uplo) {
      return BadUplo;
    }
    if a.Length0 == 0 || a.Length1 == 0 {
      return Done;
    }
    if isGpu {
      TeamParallel(isLayoutLeft, IsT(trans), IsU(uplo), alpha, x, y, a);
    } else {
      ThreadParallel(IsT(trans), IsU(uplo), alpha, x, y, a);
    }
    forall i, j | 0 <= i < |x| && 0 <= j < |x|
      ensures a[i, j] == if (if uplo in {'U', 'u'} then i > j else i < j) then old(a[i, j])
                         else Add(old(a[i, j]),
                                  if trans in {'T', 't'}
                                  then Add(Mul(Mul(alpha, x[i]), y[j]), Mul(Mul(alpha, y[i]), x[j]))
                                  else Add(Mul(Mul(alpha, x[i]), Conj(y[j])), Mul(Mul(Conj(alpha), y[i]), Conj(x[j]))))
    {
      EntryWrittenOut(IsT(trans), IsU(uplo), alpha, x, y, old(a[i, j]), i, j);
    }
    return Done;
  }

  // ------------------------------------------------------------------
  // The two modes
  // ------------------------------------------------------------------

  /** In H mode the increment is Hermitian, so it is real on the diagonal for every alpha. */
  lemma HermitianIncrement(alpha: Complex, x: seq<Complex>, y: seq<Complex>, i: int, j: int)
    requires 0 <= i < |x| == |y| && 0 <= j < |x|
    ensures Increment(false, alpha, x, y, i, j) == Conj(Increment(false, alpha, x, y, j, i))
    ensures Increment(false, alpha, x, y, i, i).im == 0.0
  {
    hide Increment;
    MirroredIncrement(false, alpha, x, y, i, j);
    MirroredIncrement(false, alpha, x, y, i, i);
    assert ConjUnless(false, Increment(false, alpha, x, y, j, i)) == Conj(Increment(false, alpha, x, y, j, i));
  }

  /** In T mode the increment is symmetric and linear in alpha over the complex numbers. */
  lemma SymmetricIncrement(alpha: Complex, k: Complex, beta: Complex, x: seq<Complex>, y: seq<Complex>, i: int, j: int)
    requires 0 <= i < |x| == |y| && 0 <= j < |x|
    ensures Increment(true, alpha, x, y, i, j) == Increment(true, alpha, x, y, j, i)
    ensures Increment(true, Mul(k, alpha), x, y, i, j) == Mul(k, Increment(true, alpha, x, y, i, j))
    ensures Increment(true, Add(alpha, beta), x, y, i, j)
            == Add(Increment(true, alpha, x, y, i, j), Increment(true, beta, x, y, i, j))
  {
    PlainTerm(k, alpha, beta, x[i], y[j]);
    PlainTerm(k, alpha, beta, y[i], x[j]);
    MirroredIncrement(true, alpha, x, y, i, j);
    assert ConjUnless(true, Increment(true, alpha, x, y, j, i)) == Increment(true, alpha, x, y, j, i);
    hide Mul;
    MulDistributes(k, Mul(Mul(alpha, x[i]), y[j]), Mul(Mul(alpha, y[i]), x[j]));
  }

  lemma PlainTerm(k: Complex, alpha: Complex, beta: Complex, u: Complex, v: Complex)
    ensures Mul(Mul(Mul(k, alpha), u), v) == Mul(k, Mul(Mul(alpha, u), v))
    ensures Mul(Mul(Add(alpha, beta), u), v) == Add(Mul(Mul(alpha, u), v), Mul(Mul(beta, u), v))
  {
    MulAssoc(k, alpha, u);
    MulAssoc(k, Mul(alpha, u), v);
    hide Mul;
    MulComm(Add(alpha, beta), u);
    MulDistributes(u, alpha, beta);
    MulComm(alpha, u);
    MulComm(beta, u);
    MulComm(Mul(Add(alpha, beta), u), v);
    MulDistributes(v, Mul(alpha, u), Mul(beta, u));
    MulComm(Mul(alpha, u), v);
    MulComm(Mul(beta, u), v);
  }

  // ------------------------------------------------------------------
  // Upper and lower results
  // ------------------------------------------------------------------

  lemma MirroredTerms(justTranspose: bool, alpha: Complex, u: Complex, v: Complex)
    ensures ConjUnless(justTranspose, FirstTerm(justTranspose, alpha, u, v)) == SecondTerm(justTranspose, alpha, v, u)
    ensures ConjUnless(justTranspose, SecondTerm(justTranspose, alpha, v, u)) == FirstTerm(justTranspose, alpha, u, v)
  {
    if justTranspose {
      MulAssoc(alpha, u, v);
      MulAssoc(alpha, v, u);
      MulComm(u, v);
    } else {
      ConjMul(Mul(alpha, u), Conj(v));
      ConjMul(alpha, u);
      MulAssoc(Conj(alpha), Conj(u), v);
      MulAssoc(Conj(alpha), v, Conj(u));
      MulComm(Conj(u), v);
      assert Conj(Conj(v)) == v;
      assert Conj(Conj(FirstTerm(justTranspose, alpha, u, v))) == FirstTerm(justTranspose, alpha, u, v);
    }
    hide Mul;
  }

  lemma MirroredIncrement(justTranspose: bool, alpha: Complex, x: seq<Complex>, y: seq<Complex>, i: int, j: int)
    requires 0 <= i < |x| == |y| && 0 <= j < |x|
    ensures Increment(justTranspose, alpha, x, y, i, j)
            == ConjUnless(justTranspose, Increment(justTranspose, alpha, x, y, j, i))
  {
    hide FirstTerm, SecondTerm;
    MirroredTerms(justTranspose, alpha, x[j], y[i]);
    MirroredTerms(justTranspose, alpha, x[i], y[j]);
  }

  /** The upper result at (i, j) is the conjugate (for T the plain) mirror of the lower
      result at (j, i) exactly when the matrix was so mirrored there to begin with. */
  lemma UpperMirrorsLower(justTranspose: bool, alpha: Complex, x: seq<Complex>, y: seq<Complex>, aij: Complex,
                          aji: Complex, i: int, j: int)
    requires 0 <= i < |x| == |y| && 0 <= j < |x|
    ensures Entry(justTranspose, true, alpha, x, y, aij, i, j)
            == ConjUnless(justTranspose, Entry(justTranspose, false, alpha, x, y, aji, j, i))
            <==> aij == ConjUnless(justTranspose, aji)
  {
    hide Increment;
    MirroredIncrement(justTranspose, alpha, x, y, i, j);
  }
}
