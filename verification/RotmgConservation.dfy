/**
 What rotmg followed by rotm promises: the weighted form d1 x^2 + d2 y^2 is conserved and
 the pair rotmg was built from is mapped to (x1', 0). A rescale pass that is entered with
 flag -1 overwrites h12 and h21, so both promises can fail after two passes; the theorems
 say exactly when they hold.
 */
module RotmgConservation {
  import opened RealAlgebra
  import opened Rotmg
  import opened Rotm

  // ------------------------------------------------------------------
  // The matrix behind a flag
  // ------------------------------------------------------------------

  datatype Mat = Mat(h11: real, h12: real, h21: real, h22: real)

  /** The matrix a state stands for: flags 0 and 1 leave two entries implicit. */
  function Effective(r: Rot): Mat {
    if r.flag == 0.0 then Mat(1.0, r.h12, r.h21, 1.0)
    else if r.flag == 1.0 then Mat(r.h11, 1.0, -1.0, r.h22)
    else Mat(r.h11, r.h12, r.h21, r.h22)
  }

  function Apply(h: Mat, x: real, y: real): Point {
    Point(Times(h.h11, x) + Times(h.h12, y), Times(h.h21, x) + Times(h.h22, y))
  }

  /** rotm reads from param exactly the matrix that rotmg wrote. */
  lemma ParamRoundTrip(r: Rot, param: seq<real>, x: real, y: real)
    requires |param| == 5 && (r.flag == -1.0 || r.flag == 0.0 || r.flag == 1.0)
    ensures RotmPoint(ParamOut(r, param), x, y) == Apply(Effective(r), x, y)
  {
  }

  // ------------------------------------------------------------------
  // The weighted form
  // ------------------------------------------------------------------

  function Weighted(d1: real, d2: real, p: Point): real
    requires p.Point?
  {
    d1 * Sq(p.x) + d2 * Sq(p.y)
  }

  /** The entries of H^T diag(d1, d2) H. */
  function E11(d1: real, d2: real, h: Mat): real { d1 * Sq(h.h11) + d2 * Sq(h.h21) }

  function E12(d1: real, d2: real, h: Mat): real { d1 * (h.h11 * h.h12) + d2 * (h.h21 * h.h22) }

  function E22(d1: real, d2: real, h: Mat): real { d1 * Sq(h.h12) + d2 * Sq(h.h22) }

  lemma SquareOfSum(d: real, a: real, x: real, b: real, y: real)
    ensures d * Sq(Times(a, x) + Times(b, y))
            == (d * Sq(a)) * Sq(x) + 2.0 * ((d * (a * b)) * (x * y)) + (d * Sq(b)) * Sq(y)
  {
  }

  lemma Collect(a: real, b: real, c: real, a': real, b': real, c': real, p: real, q: real, r: real)
    ensures (a * p + 2.0 * (b * q) + c * r) + (a' * p + 2.0 * (b' * q) + c' * r)
            == (a + a') * p + 2.0 * ((b + b') * q) + (c + c') * r
  {
  }

  lemma Expand(d1: real, d2: real, h: Mat, x: real, y: real)
    ensures Weighted(d1, d2, Apply(h, x, y))
            == E11(d1, d2, h) * Sq(x) + 2.0 * (E12(d1, d2, h) * (x * y)) + E22(d1, d2, h) * Sq(y)
  {
    hide Sq, Times;
    SquareOfSum(d1, h.h11, x, h.h12, y);
    SquareOfSum(d2, h.h21, x, h.h22, y);
    Collect(d1 * Sq(h.h11), d1 * (h.h11 * h.h12), d1 * Sq(h.h12),
            d2 * Sq(h.h21), d2 * (h.h21 * h.h22), d2 * Sq(h.h22), Sq(x), x * y, Sq(y));
  }

  /** The form of h under weights d1', d2' is d1 x^2 + d2 y^2 at every point. */
  ghost predicate SameForm(d1: real, d2: real, d1': real, d2': real, h: Mat) {
    forall x, y :: Weighted(d1', d2', Apply(h, x, y)) == Weighted(d1, d2, Point(x, y))
  }

  lemma FormAtPoints(d1: real, d2: real, h: Mat)
    ensures Weighted(d1, d2, Apply(h, 1.0, 0.0)) == E11(d1, d2, h)
    ensures Weighted(d1, d2, Apply(h, 0.0, 1.0)) == E22(d1, d2, h)
    ensures Weighted(d1, d2, Apply(h, 1.0, 1.0)) == E11(d1, d2, h) + 2.0 * E12(d1, d2, h) + E22(d1, d2, h)
  {
    assert Sq(1.0) == 1.0 && Sq(0.0) == 0.0;
    hide Sq, Weighted, E11, E12, E22;
    Expand(d1, d2, h, 1.0, 0.0);
    Expand(d1, d2, h, 0.0, 1.0);
    Expand(d1, d2, h, 1.0, 1.0);
  }

  lemma WeightsAtPoints(d1: real, d2: real)
    ensures Weighted(d1, d2, Point(1.0, 0.0)) == d1
    ensures Weighted(d1, d2, Point(0.0, 1.0)) == d2
    ensures Weighted(d1, d2, Point(1.0, 1.0)) == d1 + d2
  {
    assert Sq(1.0) == 1.0 && Sq(0.0) == 0.0;
    hide Sq;
  }

  lemma FormOfEntries(e11: real, e12: real, e22: real, d1: real, d2: real, x: real, y: real)
    requires e11 == d1 && e12 == 0.0 && e22 == d2
    ensures e11 * Sq(x) + 2.0 * (e12 * (x * y)) + e22 * Sq(y) == Weighted(d1, d2, Point(x, y))
  {
    assert 2.0 * (0.0 * (x * y)) == 0.0;
  }

  lemma EntriesOfSameForm(d1: real, d2: real, d1': real, d2': real, h: Mat)
    requires SameForm(d1, d2, d1', d2', h)
    ensures E11(d1', d2', h) == d1 && E12(d1', d2', h) == 0.0 && E22(d1', d2', h) == d2
  {
    hide Weighted, Apply, E11, E12, E22;
    FormAtPoints(d1', d2', h);
    WeightsAtPoints(d1, d2);
  }

  lemma SameFormOfEntries(d1: real, d2: real, d1': real, d2': real, h: Mat)
    requires E11(d1', d2', h) == d1 && E12(d1', d2', h) == 0.0 && E22(d1', d2', h) == d2
    ensures SameForm(d1, d2, d1', d2', h)
  {
    hide E11, E12, E22, Times, Weighted;
    forall x, y
      ensures Weighted(d1', d2', Apply(h, x, y)) == Weighted(d1, d2, Point(x, y))
    {
      Expand(d1', d2', h, x, y);
      FormOfEntries(E11(d1', d2', h), E12(d1', d2', h), E22(d1', d2', h), d1, d2, x, y);
    }
  }

  lemma SameFormEntries(d1: real, d2: real, d1': real, d2': real, h: Mat)
    ensures SameForm(d1, d2, d1', d2', h) <==>
              E11(d1', d2', h) == d1 && E12(d1', d2', h) == 0.0 && E22(d1', d2', h) == d2
  {
    hide SameForm, E11, E12, E22;
    if SameForm(d1, d2, d1', d2', h) {
      EntriesOfSameForm(d1, d2, d1', d2', h);
    }
    if E11(d1', d2', h) == d1 && E12(d1', d2', h) == 0.0 && E22(d1', d2', h) == d2 {
      SameFormOfEntries(d1, d2, d1', d2', h);
    }
  }

  // ------------------------------------------------------------------
  // The branches
  // ------------------------------------------------------------------

  /** The algebra shared by both branches: with w * d1 == t * d2, a = d1 / u and b = d2 / u
      for u = 1 + w * t, the matrix [1 w; -t 1] conserves the form. */
  lemma BranchAlgebra(d1: real, d2: real, a: real, b: real, w: real, t: real, u: real)
    requires u > 0.0 && u == 1.0 + w * t && w * d1 == t * d2 && a * u == d1 && b * u == d2
    ensures a + b * Sq(t) == d1
    ensures a * w == b * t
    ensures a * Sq(w) + b == d2
  {
    calc {
      (a + b * Sq(t)) * u;
      a * u + (b * u) * Sq(t);
      d1 + (t * d2) * t;
      d1 + (w * d1) * t;
      d1 * u;
    }
    Cancel(a + b * Sq(t), d1, u);
    calc {
      (a * w) * u;
      (a * u) * w;
      (b * u) * t;
      (b * t) * u;
    }
    Cancel(a * w, b * t, u);
    calc {
      (a * Sq(w) + b) * u;
      (a * u) * Sq(w) + b * u;
      (w * d1) * w + d2;
      (t * d2) * w + d2;
      d2 * u;
    }
    Cancel(a * Sq(w) + b, d2, u);
  }

  lemma RatioLaw(w: real, t: real, d1: real, x: real, d2: real, y: real)
    requires x != 0.0 && w * (d1 * x) == d2 * y && t * x == y
    ensures w * d1 == t * d2
  {
    calc {
      (w * d1) * x;
      d2 * (t * x);
      (t * d2) * x;
    }
    Cancel(w * d1, t * d2, x);
  }

  /** Before any rescaling the form is conserved and (x1, y1) is mapped to (x1', 0). */
  lemma GeneralConserves(d1: real, d2: real, x1: real, y1: real)
    requires d1 >= 0.0 && d2 * y1 != 0.0 && !GivesUp(d1, d2, x1, y1)
    ensures var g := General(d1, d2, x1, y1);
            && E11(g.d1, g.d2, Effective(g)) == d1 && E12(g.d1, g.d2, Effective(g)) == 0.0
            && E22(g.d1, g.d2, Effective(g)) == d2
            && Apply(Effective(g), x1, y1) == Point(g.x1, 0.0)
  {
    hide Q1, Q2, General;
    var g := General(d1, d2, x1, y1);
    if Abs(Q1(d1, x1)) > Abs(Q2(d2, y1)) {
      var u := LargeQ1Branch(d1, d2, x1, y1);
      QFacts(d1, d2, x1, y1);
      LargeQ1Conserves(d1, d2, x1, y1, u, g);
    } else {
      var u := LargeQ2Branch(d1, d2, x1, y1);
      QFacts(d1, d2, x1, y1);
      LargeQ2Conserves(d1, d2, x1, y1, u, g);
    }
  }

  lemma Negated(w: real, h: real, x: real, y: real)
    requires h * x == -y
    ensures 1.0 - w * h == 1.0 + w * (-h) && (-h) * x == y && Sq(-h) == Sq(h)
  {
  }

  lemma LargeQ1Conserves(d1: real, d2: real, x1: real, y1: real, u: real, g: Rot)
    requires LargeQ1Result(d1, d2, x1, y1, u, g) && x1 != 0.0
    ensures E11(g.d1, g.d2, Effective(g)) == d1 && E12(g.d1, g.d2, Effective(g)) == 0.0
            && E22(g.d1, g.d2, Effective(g)) == d2
    ensures Apply(Effective(g), x1, y1) == Point(g.x1, 0.0)
  {
    var w, h, t := g.h12, g.h21, -g.h21;
    Negated(w, h, x1, y1);
    assert Sq(1.0) == 1.0;
    hide Sq;
    RatioLaw(w, t, d1, x1, d2, y1);
    BranchAlgebra(d1, d2, g.d1, g.d2, w, t, u);
    LargeQ1Image(w, h, x1, y1, u);
  }

  lemma LargeQ1Image(w: real, h: real, x1: real, y1: real, u: real)
    requires u == UMinus(w, h) && h * x1 == -y1
    ensures Times(1.0, x1) + Times(w, y1) == x1 * u
    ensures Times(h, x1) + Times(1.0, y1) == 0.0
  {
    calc {
      x1 * u;
      x1 - w * (h * x1);
      x1 + w * y1;
    }
  }

  lemma LargeQ2Conserves(d1: real, d2: real, x1: real, y1: real, u: real, g: Rot)
    requires LargeQ2Result(d1, d2, x1, y1, u, g) && y1 != 0.0
    ensures E11(g.d1, g.d2, Effective(g)) == d1 && E12(g.d1, g.d2, Effective(g)) == 0.0
            && E22(g.d1, g.d2, Effective(g)) == d2
    ensures Apply(Effective(g), x1, y1) == Point(g.x1, 0.0)
  {
    var a, b := g.h11, g.h22;
    assert Sq(1.0) == 1.0 && Sq(-1.0) == 1.0;
    hide Sq;
    RatioLaw(a, b, d2, y1, d1, x1);
    BranchAlgebra(d2, d1, g.d1, g.d2, a, b, u);
    LargeQ2Image(a, b, x1, y1, u);
  }

  lemma LargeQ2Image(a: real, b: real, x1: real, y1: real, u: real)
    requires u == UPlus(a, b) && b * y1 == x1
    ensures Times(a, x1) + Times(1.0, y1) == y1 * u
    ensures Times(-1.0, x1) + Times(b, y1) == 0.0
  {
    calc {
      y1 * u;
      y1 + a * (b * y1);
      y1 + a * x1;
    }
  }

  // ------------------------------------------------------------------
  // One pass
  // ------------------------------------------------------------------

  predicate KnownFlag(r: Rot) {
    r.flag == -1.0 || r.flag == 0.0 || r.flag == 1.0
  }

  /** Scaling d by a square and its row by the root cancel in the form. */
  lemma RowLaw(d: real, h: real, k: real)
    ensures Rescaled(d) * (RowScaled(d, h) * RowScaled(d, k)) == d * (h * k)
  {
  }

  lemma RowTimes(d: real, h: real, x: real)
    ensures Times(RowScaled(d, h), x) == RowScaled(d, Times(h, x))
  {
  }

  ghost predicate SameEntries(r: Rot, q: Rot) {
    && E11(r.d1, r.d2, Effective(r)) == E11(q.d1, q.d2, Effective(q))
    && E12(r.d1, r.d2, Effective(r)) == E12(q.d1, q.d2, Effective(q))
    && E22(r.d1, r.d2, Effective(r)) == E22(q.d1, q.d2, Effective(q))
  }

  lemma Pass1Entries(r: Rot)
    requires KnownFlag(r)
    ensures SameEntries(Pass1(r), Explicit(r))
  {
    var e := Explicit(r);
    RowLaw(r.d1, e.h11, e.h11);
    RowLaw(r.d1, e.h11, e.h12);
    RowLaw(r.d1, e.h12, e.h12);
    hide RowScaled, Rescaled;
  }

  lemma Pass2Entries(r: Rot)
    requires KnownFlag(r)
    ensures SameEntries(Pass2(r), Explicit(r))
  {
    var e := Explicit(r);
    RowLaw(r.d2, e.h21, e.h21);
    RowLaw(r.d2, e.h21, e.h22);
    RowLaw(r.d2, e.h22, e.h22);
    hide RowScaled, Rescaled;
  }

  lemma ExplicitKeepsMatrix(r: Rot)
    requires r.flag == 0.0 || r.flag == 1.0
    ensures Effective(Explicit(r)) == Effective(r)
  {
  }

  /** Where (x1, y1) goes under the matrix of a state. */
  function Image(r: Rot, x1: real, y1: real): Point {
    Apply(Effective(r), x1, y1)
  }

  lemma RowScaledSum(d: real, a: real, b: real)
    ensures RowScaled(d, a) + RowScaled(d, b) == RowScaled(d, a + b)
  {
  }

  lemma RowScaledInjective(d: real, a: real, b: real)
    ensures RowScaled(d, a) == RowScaled(d, b) <==> a == b
    ensures RowScaled(d, a) == 0.0 <==> a == 0.0
  {
  }

  lemma Pass1Image(r: Rot, x1: real, y1: real)
    requires KnownFlag(r)
    ensures Image(Pass1(r), x1, y1)
            == Point(RowScaled(r.d1, Image(Explicit(r), x1, y1).x), Image(Explicit(r), x1, y1).y)
  {
    var e := Explicit(r);
    RowTimes(r.d1, e.h11, x1);
    RowTimes(r.d1, e.h12, y1);
    RowScaledSum(r.d1, Times(e.h11, x1), Times(e.h12, y1));
    hide RowScaled, Times;
  }

  lemma Pass2Image(r: Rot, x1: real, y1: real)
    requires KnownFlag(r)
    ensures Image(Pass2(r), x1, y1)
            == Point(Image(Explicit(r), x1, y1).x, RowScaled(r.d2, Image(Explicit(r), x1, y1).y))
  {
    var e := Explicit(r);
    RowTimes(r.d2, e.h21, x1);
    RowTimes(r.d2, e.h22, y1);
    RowScaledSum(r.d2, Times(e.h21, x1), Times(e.h22, y1));
    hide RowScaled, Times;
  }

  // ------------------------------------------------------------------
  // Counting passes
  // ------------------------------------------------------------------

  /** How often a rescale loop runs for a diagonal entry. */
  ghost function Passes(d: real): nat
    decreases if d == 0.0 then 0 else Measure(d)
  {
    if d == 0.0 || InBand(d) then 0
    else
      PassDecreases(d);
      1 + Passes(Rescaled(d))
  }

  ghost function TotalPasses(g: Rot): nat { Passes(g.d1) + Passes(g.d2) }

  lemma RescaledSign(d: real)
    ensures Rescaled(d) > 0.0 <==> d > 0.0
    ensures Rescaled(d) == 0.0 <==> d == 0.0
  {
  }

  lemma SinglePass1(r: Rot)
    requires r.d1 > 0.0 && Passes(r.d1) == 1
    ensures Loop1(r) == Pass1(r)
  {
    hide Measure, RowScaled;
    RescaledSign(r.d1);
    assert Passes(r.d1) == 1 + Passes(Rescaled(r.d1));
    assert Passes(Rescaled(r.d1)) == 0;
    assert Loop1(r) == Loop1(Pass1(r));
  }

  lemma SinglePass2(r: Rot)
    requires Passes(r.d2) == 1
    ensures Loop2(r) == Pass2(r)
  {
    hide Measure, RowScaled;
    RescaledSign(r.d2);
    assert Passes(r.d2) == 1 + Passes(Rescaled(r.d2));
    assert Passes(Rescaled(r.d2)) == 0;
    assert Loop2(r) == Loop2(Pass2(r));
  }

  /** With at most one pass in total, the form and the image of (x1, y1) survive rescaling. */
  lemma AtMostOnePass(g: Rot, x1: real, y1: real)
    requires g.flag == 0.0 || g.flag == 1.0
    requires g.d1 > 0.0 && TotalPasses(g) <= 1
    ensures var f := Loop2(Loop1(g));
            && KnownFlag(f) && SameEntries(f, g)
            && (Image(g, x1, y1) == Point(g.x1, 0.0) ==> Image(f, x1, y1) == Point(f.x1, 0.0))
  {
    hide SameEntries, Measure, Rescaled, RowScaled, Image;
    if Passes(g.d1) == 1 {
      SinglePass1(g);
      OnePass1(g, x1, y1);
    } else if Passes(g.d2) == 1 {
      SinglePass2(g);
      OnePass2(g, x1, y1);
    } else {
      SameEntriesReflexive(g);
    }
  }

  lemma SameEntriesReflexive(g: Rot)
    ensures SameEntries(g, g)
  {
  }

  lemma OnePass1(g: Rot, x1: real, y1: real)
    requires g.flag == 0.0 || g.flag == 1.0
    ensures var f := Pass1(g);
            && KnownFlag(f) && SameEntries(f, g)
            && (Image(g, x1, y1) == Point(g.x1, 0.0) ==> Image(f, x1, y1) == Point(f.x1, 0.0))
  {
    hide E11, E12, E22, RowScaled, Rescaled, Times;
    ExplicitKeepsMatrix(g);
    Pass1Entries(g);
    Pass1Image(g, x1, y1);
  }

  lemma OnePass2(g: Rot, x1: real, y1: real)
    requires g.flag == 0.0 || g.flag == 1.0
    ensures var f := Pass2(g);
            && KnownFlag(f) && SameEntries(f, g)
            && (Image(g, x1, y1) == Point(g.x1, 0.0) ==> Image(f, x1, y1) == Point(f.x1, 0.0))
  {
    ExplicitKeepsMatrix(g);
    Pass2Entries(g);
    Pass2Image(g, x1, y1);
    RowScaledInjective(g.d2, 0.0, 0.0);
    hide E11, E12, E22, RowScaled, Rescaled, Times;
  }

  // ------------------------------------------------------------------
  // Two passes or more
  // ------------------------------------------------------------------

  /** The factor a row has been scaled by when its loop ends, and before its last pass. */
  ghost function Scale(d: real): real
    decreases if d == 0.0 then 0 else Measure(d)
  {
    if d == 0.0 || InBand(d) then 1.0
    else
      PassDecreases(d);
      RowScaled(d, Scale(Rescaled(d)))
  }

  ghost function ScaleBeforeLast(d: real): real
    decreases if d == 0.0 then 0 else Measure(d)
  {
    if d == 0.0 || InBand(d) then 1.0
    else
      PassDecreases(d);
      if InBand(Rescaled(d)) then 1.0 else RowScaled(d, ScaleBeforeLast(Rescaled(d)))
  }

  /** Row scales when the last pass of the kernel begins. */
  ghost function S1(g: Rot): real {
    if Passes(g.d2) > 0 then Scale(g.d1) else ScaleBeforeLast(g.d1)
  }

  ghost function S2(g: Rot): real {
    if Passes(g.d2) > 0 then ScaleBeforeLast(g.d2) else 1.0
  }

  /** r is g with its rows scaled by s1 and s2; h12 and h21 may have been overwritten. */
  ghost predicate ScaledFrom(g: Rot, r: Rot, s1: real, s2: real) {
    && s1 > 0.0 && s2 > 0.0
    && r.d1 * Sq(s1) == g.d1 && r.d2 * Sq(s2) == g.d2
    && r.x1 == g.x1 * s1
    && Effective(r).h11 == Effective(g).h11 * s1 && Effective(r).h22 == Effective(g).h22 * s2
  }

  lemma ScaledByPass(d: real, e: real, s: real)
    requires s > 0.0 && d * Sq(s) == e
    ensures RowScaled(d, s) > 0.0 && Rescaled(d) * Sq(RowScaled(d, s)) == e
  {
    RowLaw(d, s, s);
  }

  lemma RowScaledProduct(d: real, a: real, s: real)
    ensures RowScaled(d, a * s) == a * RowScaled(d, s)
  {
  }

  lemma Pass1Scales(g: Rot, r: Rot, s1: real, s2: real)
    requires KnownFlag(r) && ScaledFrom(g, r, s1, s2)
    ensures ScaledFrom(g, Pass1(r), RowScaled(r.d1, s1), s2)
  {
    ScaledByPass(r.d1, g.d1, s1);
    RowScaledProduct(r.d1, g.x1, s1);
    RowScaledProduct(r.d1, Effective(g).h11, s1);
    hide RowScaled, Rescaled, Sq;
  }

  lemma Pass2Scales(g: Rot, r: Rot, s1: real, s2: real)
    requires KnownFlag(r) && ScaledFrom(g, r, s1, s2)
    ensures ScaledFrom(g, Pass2(r), s1, RowScaled(r.d2, s2))
  {
    ScaledByPass(r.d2, g.d2, s2);
    RowScaledProduct(r.d2, Effective(g).h22, s2);
    hide RowScaled, Rescaled, Sq;
  }

  /** The state a loop that runs at least once begins its last pass in. */
  ghost function Last1(r: Rot): Rot
    requires r.d1 > 0.0
    decreases Measure(r.d1)
  {
    RescaledSign(r.d1);
    if InBand(r.d1) || InBand(Rescaled(r.d1)) then r
    else
      PassDecreases(r.d1);
      Last1(Pass1(r))
  }

  ghost function Last2(r: Rot): Rot
    requires r.d2 != 0.0
    decreases Measure(r.d2)
  {
    RescaledSign(r.d2);
    if InBand(r.d2) || InBand(Rescaled(r.d2)) then r
    else
      PassDecreases(r.d2);
      Last2(Pass2(r))
  }

  lemma ScaleFront(d: real, s: real, t: real)
    ensures Times(RowScaled(d, s), t) == Times(s, RowScaled(d, t))
  {
  }

  /** A whole first loop, and the first loop up to its last pass. */
  lemma {:induction false} Loop1Scales(g: Rot, r: Rot, s1: real, s2: real)
    requires KnownFlag(r) && ScaledFrom(g, r, s1, s2) && r.d1 > 0.0
    ensures var f := Loop1(r);
            KnownFlag(f) && ScaledFrom(g, f, Times(s1, Scale(r.d1)), s2)
            && (if Passes(r.d1) == 0 then f == r else f.flag == -1.0)
    decreases Measure(r.d1)
  {
    hide ScaledFrom, RowScaled, Rescaled, Measure, Times;
    if !InBand(r.d1) {
      PassDecreases(r.d1);
      RescaledSign(r.d1);
      Pass1Scales(g, r, s1, s2);
      Loop1Scales(g, Pass1(r), RowScaled(r.d1, s1), s2);
      ScaleFront(r.d1, s1, Scale(Rescaled(r.d1)));
    } else {
      TimesOne(s1, Scale(r.d1));
    }
  }

  lemma {:induction false} Last1Scales(g: Rot, r: Rot, s1: real, s2: real)
    requires KnownFlag(r) && ScaledFrom(g, r, s1, s2) && r.d1 > 0.0 && Passes(r.d1) > 0
    ensures var q := Last1(r);
            && KnownFlag(q) && ScaledFrom(g, q, Times(s1, ScaleBeforeLast(r.d1)), s2)
            && q.d1 > 0.0 && q.d2 == r.d2 && Loop1(r) == Pass1(q)
            && (if Passes(r.d1) == 1 then q == r else q.flag == -1.0)
    decreases Measure(r.d1)
  {
    hide ScaledFrom, RowScaled, Rescaled, Measure, Times;
    RescaledSign(r.d1);
    PassDecreases(r.d1);
    if !InBand(Rescaled(r.d1)) {
      Pass1Scales(g, r, s1, s2);
      Last1Scales(g, Pass1(r), RowScaled(r.d1, s1), s2);
      ScaleFront(r.d1, s1, ScaleBeforeLast(Rescaled(r.d1)));
    } else {
      TimesOne(s1, ScaleBeforeLast(r.d1));
    }
  }

  lemma {:induction false} Last2Scales(g: Rot, r: Rot, s1: real, s2: real)
    requires KnownFlag(r) && ScaledFrom(g, r, s1, s2) && Passes(r.d2) > 0
    ensures var q := Last2(r);
            && KnownFlag(q) && ScaledFrom(g, q, s1, Times(s2, ScaleBeforeLast(r.d2)))
            && q.d2 != 0.0 && q.d1 == r.d1 && Loop2(r) == Pass2(q)
            && (if Passes(r.d2) == 1 then q == r else q.flag == -1.0)
    decreases Measure(r.d2)
  {
    hide ScaledFrom, RowScaled, Rescaled, Measure, Times;
    RescaledSign(r.d2);
    PassDecreases(r.d2);
    if !InBand(Rescaled(r.d2)) {
      Pass2Scales(g, r, s1, s2);
      Last2Scales(g, Pass2(r), s1, RowScaled(r.d2, s2));
      ScaleFront(r.d2, s2, ScaleBeforeLast(Rescaled(r.d2)));
    } else {
      TimesOne(s2, ScaleBeforeLast(r.d2));
    }
  }

  ghost predicate MapsToAxis(r: Rot, x1: real, y1: real) {
    Image(r, x1, y1) == Point(r.x1, 0.0)
  }

  /** The last pass of a run of at least two: what it overwrites decides both promises. */
  ghost predicate LastPass(g: Rot, q: Rot, f: Rot) {
    && q.flag == -1.0 && KnownFlag(f) && SameEntries(f, Explicit(q))
    && ScaledFrom(g, q, S1(g), S2(g))
    && q.d1 > 0.0 && (g.d2 != 0.0 ==> q.d2 != 0.0)
  }

  lemma ScaledFromSelf(g: Rot)
    ensures ScaledFrom(g, g, 1.0, 1.0)
  {
    assert Sq(1.0) == 1.0;
    hide Sq;
  }

  lemma LastPassInD2(g: Rot, x1: real, y1: real) returns (q: Rot)
    requires (g.flag == 0.0 || g.flag == 1.0) && g.d1 > 0.0 && TotalPasses(g) >= 2 && Passes(g.d2) > 0
    ensures LastPass(g, q, Loop2(Loop1(g)))
    ensures MapsToAxis(Loop2(Loop1(g)), x1, y1) <==> Image(Explicit(q), x1, y1) == Point(q.x1, 0.0)
  {
    hide ScaledFrom, SameEntries, Times, RowScaled, Rescaled;
    ScaledFromSelf(g);
    Loop1Scales(g, g, 1.0, 1.0);
    OneTimes(Scale(g.d1));
    var r := Loop1(g);
    Last2Scales(g, r, Scale(g.d1), 1.0);
    OneTimes(ScaleBeforeLast(g.d2));
    q := Last2(r);
    Pass2Entries(q);
    Pass2Image(q, x1, y1);
    RowScaledInjective(q.d2, Image(Explicit(q), x1, y1).y, 0.0);
    Pass2KeepsX1(q);
  }

  lemma Pass2KeepsX1(q: Rot)
    ensures Pass2(q).x1 == q.x1 && Pass2(q).flag == -1.0 && Pass1(q).flag == -1.0
    ensures Pass1(q).x1 == RowScaled(q.d1, q.x1)
  {
  }

  lemma LastPassInD1(g: Rot, x1: real, y1: real) returns (q: Rot)
    requires (g.flag == 0.0 || g.flag == 1.0) && g.d1 > 0.0 && TotalPasses(g) >= 2 && Passes(g.d2) == 0
    ensures LastPass(g, q, Loop2(Loop1(g)))
    ensures MapsToAxis(Loop2(Loop1(g)), x1, y1) <==> Image(Explicit(q), x1, y1) == Point(q.x1, 0.0)
  {
    hide ScaledFrom, SameEntries, Times, RowScaled, Rescaled;
    ScaledFromSelf(g);
    Last1Scales(g, g, 1.0, 1.0);
    OneTimes(ScaleBeforeLast(g.d1));
    q := Last1(g);
    Pass1Entries(q);
    Pass1Image(q, x1, y1);
    RowScaledInjective(q.d1, Image(Explicit(q), x1, y1).x, q.x1);
    Pass2KeepsX1(q);
    assert Loop2(Pass1(q)) == Pass1(q);
  }

  lemma FindLastPass(g: Rot, x1: real, y1: real) returns (q: Rot)
    requires (g.flag == 0.0 || g.flag == 1.0) && g.d1 > 0.0 && TotalPasses(g) >= 2
    ensures LastPass(g, q, Loop2(Loop1(g)))
    ensures MapsToAxis(Loop2(Loop1(g)), x1, y1) <==> Image(Explicit(q), x1, y1) == Point(q.x1, 0.0)
  {
    hide LastPass, MapsToAxis, Image;
    if Passes(g.d2) > 0 {
      q := LastPassInD2(g, x1, y1);
    } else {
      q := LastPassInD1(g, x1, y1);
    }
  }

  // ------------------------------------------------------------------
  // Scales away from one
  // ------------------------------------------------------------------

  lemma RowScaledFar(d: real, s: real)
    ensures Abs(d) >= GammaSq && s >= 1.0 ==> RowScaled(d, s) > 1.0
    ensures Abs(d) <= GammaSqInv && 0.0 < s <= 1.0 ==> 0.0 < RowScaled(d, s) < 1.0
  {
  }

  lemma RescaledFar(d: real)
    ensures Abs(d) >= GammaSq ==> Abs(Rescaled(d)) >= 1.0
    ensures Abs(d) <= GammaSqInv ==> Abs(Rescaled(d)) <= 1.0
  {
  }

  lemma {:induction false} ScaleFar(d: real)
    requires d != 0.0
    ensures Abs(d) >= 1.0 ==> Scale(d) >= 1.0 && (!InBand(d) ==> Scale(d) > 1.0)
    ensures Abs(d) <= 1.0 ==> 0.0 < Scale(d) <= 1.0 && (!InBand(d) ==> Scale(d) < 1.0)
    decreases Measure(d)
  {
    if !InBand(d) {
      hide Rescaled, RowScaled, Measure;
      PassDecreases(d);
      RescaledFar(d);
      ScaleFar(Rescaled(d));
      RowScaledFar(d, Scale(Rescaled(d)));
    }
  }

  lemma {:induction false} ScaleBeforeLastFar(d: real)
    requires d != 0.0 && !InBand(d)
    ensures Abs(d) >= 1.0 ==> ScaleBeforeLast(d) >= 1.0 && (!InBand(Rescaled(d)) ==> ScaleBeforeLast(d) > 1.0)
    ensures Abs(d) <= 1.0 ==> 0.0 < ScaleBeforeLast(d) <= 1.0 && (!InBand(Rescaled(d)) ==> ScaleBeforeLast(d) < 1.0)
    decreases Measure(d)
  {
    hide Rescaled, RowScaled, Measure;
    PassDecreases(d);
    if !InBand(Rescaled(d)) {
      RescaledFar(d);
      ScaleBeforeLastFar(Rescaled(d));
      RowScaledFar(d, ScaleBeforeLast(Rescaled(d)));
    }
  }

  /** With two passes or more, some row has been scaled when the last pass begins. */
  lemma ScalesMoved(g: Rot)
    requires g.d1 > 0.0 && TotalPasses(g) >= 2
    ensures S1(g) != 1.0 || (S2(g) != 1.0 && g.d2 != 0.0)
  {
    hide Rescaled, Measure;
    if Passes(g.d2) == 0 {
      ScaleBeforeLastFar(g.d1);
      assert Passes(g.d1) == 1 + Passes(Rescaled(g.d1));
    } else if Passes(g.d1) > 0 {
      ScaleFar(g.d1);
    } else {
      ScaleBeforeLastFar(g.d2);
      assert Passes(g.d2) == 1 + Passes(Rescaled(g.d2));
    }
  }
}
