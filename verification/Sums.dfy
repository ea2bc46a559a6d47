/**
 Finite sums of scalars over an index range, and the reduction trees by which
 a parallel reduction may evaluate them.
 */
module Sums {
  import opened Scalars

  ghost function Sum(f: int -> Complex, lo: int, hi: int): Complex
    requires lo <= hi
    decreases hi - lo
  {
    if lo == hi then Zero else Add(Sum(f, lo, hi - 1), f(hi - 1))
  }

  lemma {:induction false} SumSplit(f: int -> Complex, lo: int, mid: int, hi: int)
    requires lo <= mid <= hi
    ensures Sum(f, lo, hi) == Add(Sum(f, lo, mid), Sum(f, mid, hi))
    decreases hi - mid
  {
    if mid < hi {
      SumSplit(f, lo, mid, hi - 1);
    }
  }

  lemma {:induction false} SumCongruence(f: int -> Complex, g: int -> Complex, lo: int, hi: int)
    requires lo <= hi
    requires forall k :: lo <= k < hi ==> f(k) == g(k)
    ensures Sum(f, lo, hi) == Sum(g, lo, hi)
    decreases hi - lo
  {
    if lo < hi {
      SumCongruence(f, g, lo, hi - 1);
    }
  }

  lemma {:induction false} SumOfZeros(f: int -> Complex, lo: int, hi: int)
    requires lo <= hi
    requires forall k :: lo <= k < hi ==> f(k) == Zero
    ensures Sum(f, lo, hi) == Zero
    decreases hi - lo
  {
    if lo < hi {
      SumOfZeros(f, lo, hi - 1);
    }
  }

  lemma {:induction false} SumShift(f: int -> Complex, g: int -> Complex, lo: int, hi: int, d: int)
    requires lo <= hi
    requires forall k :: lo <= k < hi ==> f(k) == g(k + d)
    ensures Sum(f, lo, hi) == Sum(g, lo + d, hi + d)
    decreases hi - lo
  {
    if lo < hi {
      SumShift(f, g, lo, hi - 1, d);
    }
  }

  /** A constant factor may be taken out of a sum. */
  lemma {:induction false} SumScale(c: Complex, f: int -> Complex, g: int -> Complex, lo: int, hi: int)
    requires lo <= hi
    requires forall k :: lo <= k < hi ==> g(k) == Mul(c, f(k))
    ensures Sum(g, lo, hi) == Mul(c, Sum(f, lo, hi))
    decreases hi - lo
  {
    if lo < hi {
      SumScale(c, f, g, lo, hi - 1);
      MulDistributes(c, Sum(f, lo, hi - 1), f(hi - 1));
    } else {
      MulUnits(c);
    }
  }

  lemma {:induction false} SumLinear(f: int -> Complex, s: Complex, g: int -> Complex, h: int -> Complex, lo: int,
                                     hi: int)
    requires lo <= hi && forall k :: lo <= k < hi ==> f(k) == Add(Mul(s, g(k)), h(k))
    ensures Sum(f, lo, hi) == Add(Mul(s, Sum(g, lo, hi)), Sum(h, lo, hi))
    decreases hi - lo
  {
    hide Mul;
    if lo < hi {
      SumLinear(f, s, g, h, lo, hi - 1);
      MulDistributes(s, Sum(g, lo, hi - 1), g(hi - 1));
    } else {
      MulUnits(s);
    }
  }

  lemma {:induction false} SumConj(f: int -> Complex, g: int -> Complex, lo: int, hi: int)
    requires lo <= hi && forall k :: lo <= k < hi ==> f(k) == Conj(g(k))
    ensures Sum(f, lo, hi) == Conj(Sum(g, lo, hi))
    decreases hi - lo
  {
    if lo < hi {
      SumConj(f, g, lo, hi - 1);
    }
  }

  lemma {:induction false} SumPositive(f: int -> Complex, lo: int, hi: int)
    requires lo <= hi && forall k :: lo <= k < hi ==> f(k).im == 0.0 && f(k).re >= 0.0
    ensures Sum(f, lo, hi).im == 0.0 && Sum(f, lo, hi).re >= 0.0
    decreases hi - lo
  {
    if lo < hi {
      SumPositive(f, lo, hi - 1);
    }
  }

  /** A sum with one term that may not be zero. */
  lemma {:induction false} SumOfOneTerm(f: int -> Complex, lo: int, hi: int, k: int)
    requires lo <= k < hi
    requires forall i :: lo <= i < hi && i != k ==> f(i) == Zero
    ensures Sum(f, lo, hi) == f(k)
    decreases hi - lo
  {
    if k < hi - 1 {
      SumOfOneTerm(f, lo, hi - 1, k);
    } else {
      SumOfZeros(f, lo, hi - 1);
    }
  }

  /** Zeroing one term takes exactly that term out of the sum. */
  lemma {:induction false} SumRemoveTerm(f: int -> Complex, g: int -> Complex, lo: int, hi: int, k: int)
    requires lo <= k < hi
    requires g(k) == Zero
    requires forall i :: lo <= i < hi && i != k ==> g(i) == f(i)
    ensures Sum(f, lo, hi) == Add(f(k), Sum(g, lo, hi))
    decreases hi - lo
  {
    if k == hi - 1 {
      SumCongruence(f, g, lo, hi - 1);
    } else {
      SumRemoveTerm(f, g, lo, hi - 1, k);
    }
  }

  // ------------------------------------------------------------------
  // Reduction trees
  // ------------------------------------------------------------------

  /** How a parallel reduction is carried out: each leaf folds a list of indices
      into a private accumulator, each inner node joins two accumulators. */
  datatype Tree = Leaf(indices: seq<int>) | Join(left: Tree, right: Tree)

  ghost function Indices(t: Tree): multiset<int> {
    match t
    case Leaf(s) => multiset(s)
    case Join(l, r) => Indices(l) + Indices(r)
  }

  ghost function Range(lo: int, hi: int): multiset<int>
    requires lo <= hi
    decreases hi - lo
  {
    if lo == hi then multiset{} else Range(lo, hi - 1) + multiset{hi - 1}
  }

  ghost predicate Covers(t: Tree, lo: int, hi: int) {
    lo <= hi && Indices(t) == Range(lo, hi)
  }

  ghost function Fold(f: int -> Complex, s: seq<int>): Complex {
    if s == [] then Zero else Add(Fold(f, s[..|s| - 1]), f(s[|s| - 1]))
  }

  ghost function Reduce(f: int -> Complex, t: Tree): Complex {
    match t
    case Leaf(s) => Fold(f, s)
    case Join(l, r) => Add(Reduce(f, l), Reduce(f, r))
  }

  ghost function Flatten(t: Tree): seq<int> {
    match t
    case Leaf(s) => s
    case Join(l, r) => Flatten(l) + Flatten(r)
  }

  lemma {:induction false} FoldConcat(f: int -> Complex, s: seq<int>, t: seq<int>)
    ensures Fold(f, s + t) == Add(Fold(f, s), Fold(f, t))
    decreases |t|
  {
    if t == [] {
      assert s + t == s;
    } else {
      assert (s + t)[..|s + t| - 1] == s + t[..|t| - 1];
      FoldConcat(f, s, t[..|t| - 1]);
    }
  }

  lemma {:induction false} FoldRemove(f: int -> Complex, s: seq<int>, i: nat)
    requires i < |s|
    ensures Fold(f, s) == Add(Fold(f, s[..i] + s[i + 1..]), f(s[i]))
  {
    var a, b := s[..i], s[i + 1..];
    assert s == a + ([s[i]] + b);
    FoldConcat(f, a, [s[i]] + b);
    FoldConcat(f, [s[i]], b);
    FoldConcat(f, a, b);
    assert [s[i]][..0] == [];
    assert Fold(f, [s[i]]) == f(s[i]);
  }

  /** A listing of a range holds its last index, and lists the rest of the range without it. */
  lemma LastOfRange(s: seq<int>, lo: int, hi: int) returns (i: nat)
    requires lo < hi && multiset(s) == Range(lo, hi)
    ensures i < |s| && s[i] == hi - 1 && multiset(s[..i] + s[i + 1..]) == Range(lo, hi - 1)
  {
    assert hi - 1 in multiset(s);
    i :| 0 <= i < |s| && s[i] == hi - 1;
    assert s == s[..i] + [s[i]] + s[i + 1..];
    assert multiset(s[..i] + s[i + 1..]) == multiset(s) - multiset{hi - 1};
    assert Range(lo, hi) - multiset{hi - 1} == Range(lo, hi - 1);
  }

  lemma {:induction false} FoldOfRange(f: int -> Complex, s: seq<int>, lo: int, hi: int)
    requires lo <= hi && multiset(s) == Range(lo, hi)
    ensures Fold(f, s) == Sum(f, lo, hi)
    decreases hi - lo
  {
    if lo == hi {
      assert |s| == |multiset(s)| == 0;
    } else {
      var i := LastOfRange(s, lo, hi);
      FoldOfRange(f, s[..i] + s[i + 1..], lo, hi - 1);
      FoldRemove(f, s, i);
    }
  }

  lemma {:induction false} ReduceIsFold(f: int -> Complex, t: Tree)
    ensures Reduce(f, t) == Fold(f, Flatten(t))
    ensures Indices(t) == multiset(Flatten(t))
  {
    match t
    case Leaf(_) =>
    case Join(l, r) =>
      ReduceIsFold(f, l);
      ReduceIsFold(f, r);
      FoldConcat(f, Flatten(l), Flatten(r));
  }

  /** Every reduction tree whose leaves hold exactly the indices of a range,
      in whatever order and grouping, computes the sum over the range. */
  lemma ReduceIsSum(f: int -> Complex, t: Tree, lo: int, hi: int)
    requires Covers(t, lo, hi)
    ensures Reduce(f, t) == Sum(f, lo, hi)
  {
    ReduceIsFold(f, t);
    FoldOfRange(f, Flatten(t), lo, hi);
  }

  lemma {:induction false} RangeMembers(lo: int, hi: int)
    requires lo <= hi
    ensures forall k :: k in Range(lo, hi) <==> lo <= k < hi
    decreases hi - lo
  {
    if lo < hi {
      RangeMembers(lo, hi - 1);
    }
  }

  /** A choice of reduction tree for every parallel reduction over a range; the first
      argument tells apart reductions over the same range. */
  type Reduction = (int, int, int) -> Tree

  ghost predicate Reduces(r: Reduction) {
    forall id, lo, hi :: lo <= hi ==> Covers(r(id, lo, hi), lo, hi)
  }

  lemma {:induction false} CountUp(lo: int, hi: int) returns (s: seq<int>)
    requires lo <= hi
    ensures multiset(s) == Range(lo, hi)
    decreases hi - lo
  {
    if lo == hi {
      s := [];
    } else {
      var r := CountUp(lo, hi - 1);
      s := r + [hi - 1];
    }
  }

  /** Every range has a reduction tree: one leaf that folds it from the front. */
  lemma SomeTreeCovers(lo: int, hi: int) returns (t: Tree)
    requires lo <= hi
    ensures Covers(t, lo, hi)
  {
    var s := CountUp(lo, hi);
    t := Leaf(s);
  }
}
