/**
 iamax: the 1-based index of an entry of maximum magnitude, by a parallel reduction whose
 accumulator is the index itself.
 */
module Iamax {
  import opened Scalars
  import opened Sums
  import opened Matrices

  /** The magnitude the reduction compares. */
  type Norm = Complex -> real

  function Mag(norm: Norm, x: seq<Complex>, i: nat): real
    requires 1 <= i <= |x|
  {
    norm(x[i - 1])
  }

  predicate InRange(s: seq<int>, n: nat) {
    forall k :: 0 <= k < |s| ==> 1 <= s[k] <= n
  }

  ghost predicate TreeInRange(t: Tree, n: nat) {
    match t
    case Leaf(s) => InRange(s, n)
    case Join(l, r) => TreeInRange(l, n) && TreeInRange(r, n)
  }

  /** operator() and join: a later entry wins only if it is strictly larger. */
  function Larger(norm: Norm, x: seq<Complex>, current: nat, other: nat): (r: nat)
    requires 1 <= current <= |x| && 1 <= other <= |x|
    ensures r == current || r == other
    ensures Mag(norm, x, r) >= Mag(norm, x, current) && Mag(norm, x, r) >= Mag(norm, x, other)
    ensures Mag(norm, x, current) == Mag(norm, x, other) ==> r == current
  {
    if Mag(norm, x, current) < Mag(norm, x, other) then other else current
  }

  function FoldIndex(norm: Norm, x: seq<Complex>, s: seq<int>): (r: nat)
    requires |x| > 0 && InRange(s, |x|)
    ensures 1 <= r <= |x|
  {
    if s == [] then 1 else Larger(norm, x, FoldIndex(norm, x, s[..|s| - 1]), s[|s| - 1])
  }

  /** What the reduction along a tree returns; every leaf starts from index 1. */
  ghost function TreeIndex(norm: Norm, x: seq<Complex>, t: Tree): (r: nat)
    requires |x| > 0 && TreeInRange(t, |x|)
    ensures 1 <= r <= |x|
  {
    match t
    case Leaf(s) => FoldIndex(norm, x, s)
    case Join(l, r) => Larger(norm, x, TreeIndex(norm, x, l), TreeIndex(norm, x, r))
  }

  // ------------------------------------------------------------------
  // What the reduction finds
  // ------------------------------------------------------------------

  lemma LargerAssociates(norm: Norm, x: seq<Complex>, a: nat, b: nat, c: nat)
    requires 1 <= a <= |x| && 1 <= b <= |x| && 1 <= c <= |x|
    ensures Larger(norm, x, Larger(norm, x, a, b), c) == Larger(norm, x, a, Larger(norm, x, b, c))
  {
  }

  /** Starting over from index 1 in the middle of a list of indices changes nothing. */
  lemma {:induction false} FoldConcat(norm: Norm, x: seq<Complex>, s: seq<int>, s': seq<int>)
    requires |x| > 0 && InRange(s, |x|) && InRange(s', |x|)
    ensures InRange(s + s', |x|) && Mag(norm, x, 1) <= Mag(norm, x, FoldIndex(norm, x, s))
    ensures FoldIndex(norm, x, s + s') == Larger(norm, x, FoldIndex(norm, x, s), FoldIndex(norm, x, s'))
    decreases |s'|, |s|
  {
    if s' != [] {
      hide Larger;
      var init, last := s'[..|s'| - 1], s'[|s'| - 1];
      FoldConcat(norm, x, s, init);
      assert (s + s')[..|s + s'| - 1] == s + init && (s + s')[|s + s'| - 1] == last;
      LargerAssociates(norm, x, FoldIndex(norm, x, s), FoldIndex(norm, x, init), last);
    } else {
      assert s + s' == s;
      if s != [] {
        FoldConcat(norm, x, s[..|s| - 1], []);
      }
    }
  }

  /** The shape of a tree does not matter, only the order in which it visits the indices. */
  lemma {:induction false} TreeIsFold(norm: Norm, x: seq<Complex>, t: Tree)
    requires |x| > 0 && TreeInRange(t, |x|)
    ensures InRange(Flatten(t), |x|) && TreeIndex(norm, x, t) == FoldIndex(norm, x, Flatten(t))
  {
    match t
    case Leaf(s) =>
    case Join(l, r) =>
      TreeIsFold(norm, x, l);
      TreeIsFold(norm, x, r);
      FoldConcat(norm, x, Flatten(l), Flatten(r));
  }

  /** r is index 1, or the first listed index of the largest magnitude if that is larger. */
  ghost predicate EarliestBest(norm: Norm, x: seq<Complex>, s: seq<int>, r: nat)
    requires InRange(s, |x|) && 1 <= r <= |x|
  {
    && Mag(norm, x, 1) <= Mag(norm, x, r)
    && (forall k :: 0 <= k < |s| ==> Mag(norm, x, s[k]) <= Mag(norm, x, r))
    && (r == 1 || (Mag(norm, x, 1) < Mag(norm, x, r) && FirstListed(norm, x, s, r)))
  }

  ghost predicate FirstListed(norm: Norm, x: seq<Complex>, s: seq<int>, r: nat)
    requires InRange(s, |x|) && 1 <= r <= |x|
  {
    exists k :: 0 <= k < |s| && s[k] == r && forall q :: 0 <= q < k ==> Mag(norm, x, s[q]) < Mag(norm, x, r)
  }

  lemma {:induction false} FoldIsEarliestBest(norm: Norm, x: seq<Complex>, s: seq<int>)
    requires |x| > 0 && InRange(s, |x|)
    ensures EarliestBest(norm, x, s, FoldIndex(norm, x, s))
  {
    if s != [] {
      var init := s[..|s| - 1];
      FoldIsEarliestBest(norm, x, init);
      var r, last := FoldIndex(norm, x, init), s[|s| - 1];
      if FoldIndex(norm, x, s) == r {
        if r != 1 {
          var k :| 0 <= k < |init| && init[k] == r
                   && forall q :: 0 <= q < k ==> Mag(norm, x, init[q]) < Mag(norm, x, r);
          assert s[k] == r && forall q :: 0 <= q < k ==> s[q] == init[q];
        }
      } else {
        assert forall q :: 0 <= q < |s| - 1 ==> s[q] == init[q];
      }
    }
  }

  lemma {:induction false} CoveringTreeInRange(t: Tree, n: nat)
    requires forall k :: k in Indices(t) ==> 1 <= k <= n
    ensures TreeInRange(t, n)
  {
    match t
    case Leaf(s) =>
      assert forall k :: 0 <= k < |s| ==> s[k] in Indices(t);
    case Join(l, r) =>
      assert forall k :: k in Indices(l) ==> k in Indices(t);
      assert forall k :: k in Indices(r) ==> k in Indices(t);
      CoveringTreeInRange(l, n);
      CoveringTreeInRange(r, n);
  }

  lemma ListingOfRange(s: seq<int>, n: nat)
    requires multiset(s) == Range(1, n + 1)
    ensures InRange(s, n) && forall k :: 1 <= k <= n ==> k in s
  {
    RangeMembers(1, n + 1);
    forall k | 1 <= k <= n
      ensures k in s
    {
      assert k in multiset(s);
    }
    forall k | 0 <= k < |s|
      ensures 1 <= s[k] <= n
    {
      assert s[k] in multiset(s);
    }
  }

  lemma ListingIsDistinct(s: seq<int>, n: nat, i: nat, j: nat)
    requires multiset(s) == Range(1, n + 1) && i < j < |s|
    ensures s[i] != s[j]
  {
    RangeOnce(1, n + 1, s[i]);
    if s[i] == s[j] {
      ListedTwice(s, i, j);
    }
  }

  /** A covering tree lists every index, and lists none twice. */
  lemma CoveringTree(t: Tree, n: nat)
    requires Covers(t, 1, n + 1)
    ensures TreeInRange(t, n) && InRange(Flatten(t), n)
    ensures forall k :: 1 <= k <= n ==> k in Flatten(t)
    ensures forall i, j :: 0 <= i < j < |Flatten(t)| ==> Flatten(t)[i] != Flatten(t)[j]
  {
    RangeMembers(1, n + 1);
    CoveringTreeInRange(t, n);
    ReduceIsFold((_: int) => Zero, t);
    hide Range, Flatten, Indices, TreeInRange, InRange;
    ListingOfRange(Flatten(t), n);
    forall i, j | 0 <= i < j < |Flatten(t)|
      ensures Flatten(t)[i] != Flatten(t)[j]
    {
      ListingIsDistinct(Flatten(t), n, i, j);
    }
  }

  lemma ListedTwice(s: seq<int>, i: nat, j: nat)
    requires i < j < |s| && s[i] == s[j]
    ensures multiset(s)[s[i]] >= 2
  {
    assert s == s[..j] + s[j..];
    assert s[..j][i] == s[i] && s[j..][0] == s[j];
    assert s[i] in multiset(s[..j]) && s[i] in multiset(s[j..]);
  }

  lemma {:induction false} RangeOnce(lo: int, hi: int, k: int)
    requires lo <= hi
    ensures Range(lo, hi)[k] <= 1
    decreases hi - lo
  {
    if lo < hi {
      RangeOnce(lo, hi - 1, k);
      RangeMembers(lo, hi - 1);
    }
  }

  ghost predicate IsMaximum(norm: Norm, x: seq<Complex>, r: nat) {
    1 <= r <= |x| && forall k :: 1 <= k <= |x| ==> Mag(norm, x, k) <= Mag(norm, x, r)
  }

  ghost predicate IsFirstMaximum(norm: Norm, x: seq<Complex>, r: nat) {
    IsMaximum(norm, x, r) && forall k :: 1 <= k < r ==> Mag(norm, x, k) < Mag(norm, x, r)
  }

  /** For every chunking and join tree the result is an index of maximum magnitude. */
  lemma TreeFindsMaximum(norm: Norm, x: seq<Complex>, t: Tree)
    requires |x| > 0 && Covers(t, 1, |x| + 1)
    ensures TreeInRange(t, |x|) && IsMaximum(norm, x, TreeIndex(norm, x, t))
  {
    CoveringTree(t, |x|);
    TreeIsFold(norm, x, t);
    FoldIsEarliestBest(norm, x, Flatten(t));
    forall k | 1 <= k <= |x|
      ensures Mag(norm, x, k) <= Mag(norm, x, TreeIndex(norm, x, t))
    {
      assert k in Flatten(t);
    }
  }

  // ------------------------------------------------------------------
  // The smallest index
  // ------------------------------------------------------------------

  /** The indices are listed in increasing order, wherever index 1 may stand. */
  predicate InOrder(s: seq<int>) {
    forall i, j :: 0 <= i < j < |s| && s[i] != 1 && s[j] != 1 ==> s[i] < s[j]
  }

  lemma SmallerComesEarlier(s: seq<int>, p: nat, k: int) returns (q: nat)
    requires InOrder(s) && p < |s| && k in s && 1 < k < s[p]
    ensures q < p && s[q] == k
  {
    q :| 0 <= q < |s| && s[q] == k;
  }

  lemma OrderedTreeFindsFirst(norm: Norm, x: seq<Complex>, t: Tree)
    requires |x| > 0 && Covers(t, 1, |x| + 1) && InOrder(Flatten(t))
    ensures TreeInRange(t, |x|) && IsFirstMaximum(norm, x, TreeIndex(norm, x, t))
  {
    hide InOrder, Covers, IsMaximum;
    TreeFindsMaximum(norm, x, t);
    CoveringTree(t, |x|);
    TreeIsFold(norm, x, t);
    var s, r := Flatten(t), TreeIndex(norm, x, t);
    hide TreeIndex, FoldIndex, TreeInRange;
    FoldIsEarliestBest(norm, x, s);
    forall k | 1 <= k < r
      ensures Mag(norm, x, k) < Mag(norm, x, r)
    {
      var p :| 0 <= p < |s| && s[p] == r && forall q :: 0 <= q < p ==> Mag(norm, x, s[q]) < Mag(norm, x, r);
      if k > 1 {
        var q := SmallerComesEarlier(s, p, k);
      }
    }
  }

  ghost predicate AlwaysFindsFirst(t: Tree, n: nat)
    requires n > 0 && TreeInRange(t, n)
  {
    forall norm: Norm, x: seq<Complex> :: |x| == n ==> IsFirstMaximum(norm, x, TreeIndex(norm, x, t))
  }

  /** A vector whose only large entries are at two listed indices. */
  function TwoPeaks(n: nat, a: int, b: int): seq<Complex> {
    seq(n, k => if k + 1 == a || k + 1 == b then One else Zero)
  }

  lemma MissedFirst(t: Tree, n: nat, i: nat, j: nat)
    requires n > 0 && Covers(t, 1, n + 1) && TreeInRange(t, n) && i < j < |Flatten(t)|
    requires Flatten(t)[i] != 1 && Flatten(t)[j] != 1 && Flatten(t)[i] >= Flatten(t)[j]
    ensures !AlwaysFindsFirst(t, n)
  {
    CoveringTree(t, n);
    var s := Flatten(t);
    var x := TwoPeaks(n, s[i], s[j]);
    var norm := (z: Complex) => z.re;
    TreeIsFold(norm, x, t);
    FoldIsEarliestBest(norm, x, s);
    var r := TreeIndex(norm, x, t);
    assert Mag(norm, x, s[i]) == 1.0 && Mag(norm, x, s[j]) == 1.0 && Mag(norm, x, 1) == 0.0;
    assert r != s[j] by {
      var p :| 0 <= p < |s| && s[p] == r && forall q :: 0 <= q < p ==> Mag(norm, x, s[q]) < Mag(norm, x, r);
      assert p <= i;
    }
    assert r == s[i];
    assert Mag(norm, x, s[j]) == Mag(norm, x, r);
    assert !IsFirstMaximum(norm, x, r);
  }

  /** A covering tree returns the smallest index of maximum magnitude for every vector
      exactly when it visits the indices in order. */
  lemma FindsFirstExactly(t: Tree, n: nat)
    requires n > 0 && Covers(t, 1, n + 1)
    ensures TreeInRange(t, n) && (AlwaysFindsFirst(t, n) <==> InOrder(Flatten(t)))
  {
    hide Covers, IsFirstMaximum;
    CoveringTree(t, n);
    if InOrder(Flatten(t)) {
      forall norm: Norm, x: seq<Complex> | |x| == n
        ensures IsFirstMaximum(norm, x, TreeIndex(norm, x, t))
      {
        OrderedTreeFindsFirst(norm, x, t);
      }
    } else {
      var i, j :| 0 <= i < j < |Flatten(t)| && Flatten(t)[i] != 1
                  && Flatten(t)[j] != 1 && Flatten(t)[i] >= Flatten(t)[j];
      MissedFirst(t, n, i, j);
    }
  }

  // ------------------------------------------------------------------
  // The vectors for which the tree does not matter
  // ------------------------------------------------------------------

  /** The result is the promised one however the reduction is chunked and joined. */
  ghost predicate EveryTreeFindsFirst(norm: Norm, x: seq<Complex>)
    requires |x| > 0
  {
    forall t :: Covers(t, 1, |x| + 1) ==>
      TreeInRange(t, |x|) && IsFirstMaximum(norm, x, TreeIndex(norm, x, t))
  }

  /** The largest magnitude occurs once. */
  ghost predicate OnlyMaximum(norm: Norm, x: seq<Complex>, r: nat) {
    1 <= r <= |x| && forall k :: 1 <= k <= |x| && k != r ==> Mag(norm, x, k) < Mag(norm, x, r)
  }

  function Descending(n: nat): seq<int> {
    if n == 0 then [] else [n] + Descending(n - 1)
  }

  lemma {:induction false} DescendingAt(n: nat, k: nat)
    requires k < n
    ensures |Descending(n)| == n && Descending(n)[k] == n - k
  {
    if k > 0 {
      DescendingAt(n - 1, k - 1);
    } else if n > 1 {
      DescendingAt(n - 1, 0);
    }
  }

  lemma MultisetOfCons(a: int, s: seq<int>)
    ensures multiset([a] + s) == multiset(s) + multiset{a}
  {
  }

  lemma {:induction false} DescendingCovers(n: nat)
    ensures multiset(Descending(n)) == Range(1, n + 1)
  {
    if n > 0 {
      DescendingCovers(n - 1);
      MultisetOfCons(n, Descending(n - 1));
    }
  }

  lemma FirstIsBest(norm: Norm, x: seq<Complex>, t: Tree)
    requires |x| > 0 && Covers(t, 1, |x| + 1) && IsMaximum(norm, x, 1)
    ensures TreeInRange(t, |x|) && TreeIndex(norm, x, t) == 1
  {
    CoveringTree(t, |x|);
    TreeIsFold(norm, x, t);
    FoldIsEarliestBest(norm, x, Flatten(t));
  }

  lemma OnlyOneIsBest(norm: Norm, x: seq<Complex>, t: Tree, r: nat)
    requires |x| > 0 && Covers(t, 1, |x| + 1) && OnlyMaximum(norm, x, r)
    ensures TreeInRange(t, |x|) && TreeIndex(norm, x, t) == r
  {
    hide Covers;
    TreeFindsMaximum(norm, x, t);
    assert Mag(norm, x, r) <= Mag(norm, x, TreeIndex(norm, x, t));
  }

  lemma LastListedFirst(norm: Norm, x: seq<Complex>, s: seq<int>, r: nat, b: nat)
    requires |s| == |x| && (forall k :: 0 <= k < |s| ==> s[k] == |s| - k)
    requires 1 <= r <= |x| && EarliestBest(norm, x, s, r) && r != 1 && 1 <= b <= |x|
    requires Mag(norm, x, b) >= Mag(norm, x, r)
    ensures b <= r
  {
    var p :| 0 <= p < |s| && s[p] == r && forall q :: 0 <= q < p ==> Mag(norm, x, s[q]) < Mag(norm, x, r);
    assert s[|s| - b] == b;
  }

  /** A tree that visits the indices backwards returns the last of several maxima. */
  lemma BackwardsFindsLast(norm: Norm, x: seq<Complex>, a: nat, b: nat)
    requires IsMaximum(norm, x, a) && IsMaximum(norm, x, b) && a < b && !IsMaximum(norm, x, 1)
    ensures var t := Leaf(Descending(|x|));
            Covers(t, 1, |x| + 1) && TreeInRange(t, |x|) && !IsFirstMaximum(norm, x, TreeIndex(norm, x, t))
  {
    hide Descending, FoldIndex, EarliestBest;
    var s := Descending(|x|);
    DescendingCovers(|x|);
    DescendingAt(|x|, 0);
    forall k | 0 <= k < |x|
      ensures s[k] == |x| - k
    {
      DescendingAt(|x|, k);
    }
    assert Covers(Leaf(s), 1, |x| + 1);
    hide Covers, Range;
    TreeFindsMaximum(norm, x, Leaf(s));
    var r := TreeIndex(norm, x, Leaf(s));
    FoldIsEarliestBest(norm, x, s);
    LastListedFirst(norm, x, s, r, b);
    assert Mag(norm, x, a) == Mag(norm, x, r);
  }

  /** The promise of the smallest index holds of a vector, whatever the reduction does, exactly
      if the largest magnitude is that of the first entry or occurs once. */
  lemma EveryTreeExactly(norm: Norm, x: seq<Complex>)
    requires |x| > 0
    ensures EveryTreeFindsFirst(norm, x) <==> IsMaximum(norm, x, 1) || exists r: nat :: OnlyMaximum(norm, x, r)
  {
    hide Covers, TreeIndex, TreeInRange;
    if IsMaximum(norm, x, 1) {
      forall t | Covers(t, 1, |x| + 1) { FirstIsBest(norm, x, t); }
    } else if r: nat :| OnlyMaximum(norm, x, r) {
      forall t | Covers(t, 1, |x| + 1) { OnlyOneIsBest(norm, x, t, r); }
    } else {
      var t, r := SomeTree(norm, x);
      assert !OnlyMaximum(norm, x, r);
      var k: nat :| 1 <= k <= |x| && k != r && Mag(norm, x, k) >= Mag(norm, x, r);
      assert IsMaximum(norm, x, k);
      BackwardsFindsLast(norm, x, if k < r then k else r, if k < r then r else k);
    }
  }

  lemma SomeTree(norm: Norm, x: seq<Complex>) returns (t: Tree, r: nat)
    requires |x| > 0
    ensures Covers(t, 1, |x| + 1) && IsMaximum(norm, x, r)
  {
    DescendingCovers(|x|);
    t := Leaf(Descending(|x|));
    TreeFindsMaximum(norm, x, t);
    r := TreeIndex(norm, x, t);
  }

  // ------------------------------------------------------------------
  // The reduction
  // ------------------------------------------------------------------

  method Accumulate(norm: Norm, x: seq<Complex>, i: nat, lmaxloc0: nat) returns (lmaxloc: nat)
    requires 1 <= i <= |x| && 1 <= lmaxloc0 <= |x|
    ensures lmaxloc == Larger(norm, x, lmaxloc0, i)
  {
    lmaxloc := lmaxloc0;
    var val := norm(x[i - 1]);
    var maxval := norm(x[lmaxloc - 1]);
    if val > maxval {
      lmaxloc := i;
    }
  }

  method JoinInto(norm: Norm, x: seq<Complex>, update0: nat, source: nat) returns (update: nat)
    requires 1 <= update0 <= |x| && 1 <= source <= |x|
    ensures update == Larger(norm, x, update0, source)
  {
    update := update0;
    var sourceVal := norm(x[source - 1]);
    var updateVal := norm(x[update - 1]);
    if updateVal < sourceVal {
      update := source;
    }
  }

  method ReduceTree(norm: Norm, x: seq<Complex>, t: Tree) returns (update: nat)
    requires |x| > 0 && TreeInRange(t, |x|)
    ensures update == TreeIndex(norm, x, t)
    decreases t
  {
    match t
    case Leaf(s) =>
      // init: the identity of max for the unsigned index type, plus one
      update := 0 + 1;
      for n := 0 to |s|
        invariant InRange(s[..n], |x|) && update == FoldIndex(norm, x, s[..n])
      {
        assert s[..n + 1][..n] == s[..n];
        update := Accumulate(norm, x, s[n], update);
      }
      assert s[..|s|] == s;
    case Join(l, r) =>
      update := ReduceTree(norm, x, l);
      var source := ReduceTree(norm, x, r);
      update := JoinInto(norm, x, update, source);
  }

  /** V_Iamax_Invoke: zero for an empty vector, else the reduction over 1, ..., n. */
  method Invoke(norm: Norm, x: seq<Complex>, t: Tree) returns (r: nat)
    requires Covers(t, 1, |x| + 1)
    ensures |x| == 0 ==> r == 0
    ensures |x| > 0 ==> 1 <= r <= |x| && forall k :: 0 <= k < |x| ==> norm(x[k]) <= norm(x[r - 1])
    ensures |x| > 0 && InOrder(Flatten(t)) ==> forall k :: 0 <= k < r - 1 ==> norm(x[k]) < norm(x[r - 1])
  {
    var numRows := |x|;
    if numRows == 0 {
      return 0;
    }
    TreeFindsMaximum(norm, x, t);
    if InOrder(Flatten(t)) {
      OrderedTreeFindsFirst(norm, x, t);
    }
    r := ReduceTree(norm, x, t);
    forall k | 0 <= k < |x|
      ensures norm(x[k]) == Mag(norm, x, k + 1)
    {
    }
  }

  function Column(x: Matrix, j: nat): seq<Complex>
    requires j < x.cols
  {
    seq(x.rows, i requires 0 <= i < x.rows => At(x, i, j))
  }

  /** MV_Iamax_Invoke: one reduction per column, stated on the entries of the columns. */
  method InvokeMultiVector(norm: Norm, x: Matrix, reduction: Reduction, r: array<nat>)
    requires r.Length == x.cols && Reduces(reduction)
    modifies r
    ensures x.rows == 0 ==> forall j :: 0 <= j < x.cols ==> r[j] == 0
    ensures x.rows > 0 ==> forall j :: 0 <= j < x.cols ==> 1 <= r[j] <= x.rows
    ensures x.rows > 0 ==> forall i, j :: 0 <= i < x.rows && 0 <= j < x.cols ==>
              norm(At(x, i, j)) <= norm(At(x, r[j] - 1, j))
    ensures x.rows > 0 ==> forall i, j :: 0 <= j < x.cols && 0 <= i < r[j] - 1
                                          && InOrder(Flatten(reduction(j, 1, x.rows + 1))) ==>
              norm(At(x, i, j)) < norm(At(x, r[j] - 1, j))
  {
    hide InOrder, Covers;
    for j := 0 to x.cols
      invariant x.rows == 0 ==> forall k :: 0 <= k < j ==> r[k] == 0
      invariant x.rows > 0 ==> forall k :: 0 <= k < j ==> 1 <= r[k] <= x.rows
      invariant x.rows > 0 ==> forall i, k :: 0 <= i < x.rows && 0 <= k < j ==>
                  norm(At(x, i, k)) <= norm(At(x, r[k] - 1, k))
      invariant x.rows > 0 ==> forall i, k :: 0 <= k < j && 0 <= i < r[k] - 1
                                              && InOrder(Flatten(reduction(k, 1, x.rows + 1))) ==>
                  norm(At(x, i, k)) < norm(At(x, r[k] - 1, k))
    {
      var column := Column(x, j);
      r[j] := Invoke(norm, column, reduction(j, 1, x.rows + 1));
      forall i | 0 <= i < x.rows
        ensures At(x, i, j) == column[i]
      {
      }
    }
  }
}
