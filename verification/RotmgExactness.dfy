/**
 When rotmg followed by rotm conserves the weighted form and maps (x1, y1) to (x1', 0), in
 terms of how often the rescale loops run. RotmgConditions states the same on the input.
 */
module RotmgExactness {
  import opened RealAlgebra
  import opened Rotmg
  import opened Rotm
  import opened RotmgConservation

  // ------------------------------------------------------------------
  // The branch |q1| > |q2| after two passes or more
  // ------------------------------------------------------------------

  /** q2 s2^2 = D2: keeping q2 right means s2 t squares to one. */
  lemma OverwrittenH21(q2: real, big2: real, s2: real, t: real)
    requires q2 != 0.0 && q2 * Sq(s2) == big2
    ensures q2 == big2 * Sq(t) <==> Sq(Times(s2, t)) == 1.0
  {
    calc {
      big2 * Sq(t);
      Times(Sq(Times(s2, t)), q2);
    }
    OneTimes(q2);
    TimesCancel(Sq(Times(s2, t)), 1.0, q2);
  }

  lemma OverwrittenCross(q1: real, q2: real, s1: real, s2: real, d1: real, d2: real, u: real)
    requires s1 > 0.0 && s2 > 0.0 && u > 0.0
    requires (q1 * Sq(s1)) * u == d1 && (q2 * Sq(s2)) * u == d2
    ensures q1 * s1 == q2 * s2 <==> Times(d1, s2) == Times(d2, s1)
  {
    var k := Times(Times(s1, s2), u);
    ProductNonzero(s1, s2);
    ProductNonzero(Times(s1, s2), u);
    calc {
      Times(d1, s2);
      Times(q1 * s1, k);
    }
    calc {
      Times(d2, s1);
      Times(q2 * s2, k);
    }
    TimesCancel(q1 * s1, q2 * s2, k);
  }

  /** With the first and the cross condition the second one follows. */
  lemma OverwrittenH12(q1: real, big1: real, s1: real, s2: real, w: real, t: real, d1: real, d2: real)
    requires q1 * Sq(s1) == big1 && d2 != 0.0
    requires w * d1 == t * d2 && Times(d1, s2) == Times(d2, s1) && Sq(Times(s2, t)) == 1.0
    ensures q1 == big1 * Sq(w)
  {
    calc {
      Times(Times(s2, t), d2);
      Times(s2, t * d2);
      Times(s2, w * d1);
      Times(w, Times(d1, s2));
      Times(w, Times(d2, s1));
      Times(Times(s1, w), d2);
    }
    TimesCancel(Times(s2, t), Times(s1, w), d2);
    calc {
      big1 * Sq(w);
      Times(Sq(Times(s1, w)), q1);
      q1;
    }
  }

  /** The same condition on y1 and x1 instead of their ratio. */
  lemma RatioSquare(s2: real, t: real, x1: real, y1: real)
    requires x1 != 0.0 && Times(t, x1) == y1
    ensures Sq(Times(s2, t)) == 1.0 <==> Sq(Times(s2, y1)) == Sq(x1)
  {
    calc {
      Sq(Times(s2, y1));
      Sq(Times(Times(s2, t), x1));
      Times(Sq(Times(s2, t)), Sq(x1));
    }
    SquareSign(x1);
    OneTimes(Sq(x1));
    TimesCancel(Sq(Times(s2, t)), 1.0, Sq(x1));
  }

  ghost predicate LargeQ1Coincidence(d1: real, d2: real, x1: real, y1: real, s1: real, s2: real) {
    Sq(Times(s2, y1)) == Sq(x1) && Times(d1, s2) == Times(d2, s1)
  }

  /** The entries of the overwritten matrix [s1 1; -1 s2] under weights q1, q2. */
  lemma OverwrittenEntries(q1: real, q2: real, h11: real, h22: real)
    ensures E11(q1, q2, Mat(h11, 1.0, -1.0, h22)) == q1 * Sq(h11) + q2
    ensures E12(q1, q2, Mat(h11, 1.0, -1.0, h22)) == q1 * h11 - q2 * h22
    ensures E22(q1, q2, Mat(h11, 1.0, -1.0, h22)) == q1 + q2 * Sq(h22)
  {
  }

  ghost predicate EntriesAre(r: Rot, d1: real, d2: real) {
    && E11(r.d1, r.d2, Effective(r)) == d1 && E12(r.d1, r.d2, Effective(r)) == 0.0
    && E22(r.d1, r.d2, Effective(r)) == d2
  }

  /** For the branch |q1| > |q2| the overwritten matrix is [s1 1; -1 s2]. */
  lemma OverwrittenLargeQ1Entries(g: Rot, q: Rot, s1: real, s2: real, d1: real, d2: real)
    requires g.flag == 0.0 && q.flag == -1.0 && ScaledFrom(g, q, s1, s2)
    ensures EntriesAre(Explicit(q), d1, d2) <==> g.d1 + q.d2 == d1 && q.d1 * s1 == q.d2 * s2 && q.d1 + g.d2 == d2
  {
    OneTimes(s1);
    OneTimes(s2);
    assert Effective(Explicit(q)) == Mat(s1, 1.0, -1.0, s2);
    OverwrittenEntries(q.d1, q.d2, s1, s2);
    hide Sq, E11, E12, E22;
  }

  /** What BranchAlgebra needs and gives, under one name. */
  ghost predicate Conserving(d1: real, d2: real, a: real, b: real, w: real, t: real, u: real) {
    && u > 0.0 && w * d1 == t * d2 && a * u == d1 && b * u == d2
    && a + b * Sq(t) == d1 && a * Sq(w) + b == d2
  }

  lemma LargeQ1Conserving(g: Rot, d1: real, d2: real, x1: real, y1: real, u: real)
    requires LargeQ1Result(d1, d2, x1, y1, u, g) && x1 != 0.0
    ensures Conserving(d1, d2, g.d1, g.d2, g.h12, -g.h21, u) && Times(-g.h21, x1) == y1
  {
    Negated(g.h12, g.h21, x1, y1);
    hide Sq;
    RatioLaw(g.h12, -g.h21, d1, x1, d2, y1);
    BranchAlgebra(d1, d2, g.d1, g.d2, g.h12, -g.h21, u);
  }

  lemma OverwrittenLargeQ1Algebra(g: Rot, q: Rot, s1: real, s2: real, w: real, t: real, d1: real, d2: real, u: real)
    requires Conserving(d1, d2, g.d1, g.d2, w, t, u) && ScaledFrom(g, q, s1, s2) && q.d2 != 0.0 && d2 != 0.0
    ensures g.d1 + q.d2 == d1 && q.d1 * s1 == q.d2 * s2 && q.d1 + g.d2 == d2
            <==> Sq(Times(s2, t)) == 1.0 && Times(d1, s2) == Times(d2, s1)
  {
    hide Sq, Times;
    OverwrittenH21(q.d2, g.d2, s2, t);
    OverwrittenCross(q.d1, q.d2, s1, s2, d1, d2, u);
    if Sq(Times(s2, t)) == 1.0 && Times(d1, s2) == Times(d2, s1) {
      OverwrittenH12(q.d1, g.d1, s1, s2, w, t, d1, d2);
    }
  }

  lemma OverwrittenLargeQ1(g: Rot, q: Rot, s1: real, s2: real, d1: real, d2: real, x1: real, y1: real, u: real)
    requires LargeQ1Result(d1, d2, x1, y1, u, g) && x1 != 0.0 && d2 != 0.0
    requires q.flag == -1.0 && ScaledFrom(g, q, s1, s2) && q.d2 != 0.0
    ensures EntriesAre(Explicit(q), d1, d2) <==> LargeQ1Coincidence(d1, d2, x1, y1, s1, s2)
  {
    assert g.flag == 0.0;
    hide EntriesAre, Times, Sq, ScaledFrom, LargeQ1Result, Conserving;
    OverwrittenLargeQ1Entries(g, q, s1, s2, d1, d2);
    LargeQ1Conserving(g, d1, d2, x1, y1, u);
    OverwrittenLargeQ1Algebra(g, q, s1, s2, g.h12, -g.h21, d1, d2, u);
    RatioSquare(s2, -g.h21, x1, y1);
  }

  // ------------------------------------------------------------------
  // The branch |q1| <= |q2| after two passes or more
  // ------------------------------------------------------------------

  lemma SquareIsOne(s: real)
    requires s > 0.0 && Sq(s) == 1.0
    ensures s == 1.0
  {
    assert (s - 1.0) * (s + 1.0) == 0.0;
    ProductNonzero(s - 1.0, s + 1.0);
  }

  lemma UnscaledWeight(q: real, big: real, s: real)
    requires s > 0.0 && q * Sq(s) == big && big == q
    ensures q == 0.0 || s == 1.0
  {
    if q != 0.0 {
      OneTimes(q);
      TimesCancel(Sq(s), 1.0, q);
      SquareIsOne(s);
    }
  }

  lemma ScaledSquare(q: real, big: real, s: real, h: real)
    requires q * Sq(s) == big
    ensures q * Sq(h * s) == big * Sq(h)
  {
  }

  /** For the branch |q1| <= |q2| the right entries would need unscaled weights. */
  lemma OverwrittenLargeQ2Entries(g: Rot, q: Rot, s1: real, s2: real, d1: real, d2: real)
    requires g.flag == 1.0 && EntriesAre(g, d1, d2)
    requires q.flag == -1.0 && ScaledFrom(g, q, s1, s2) && EntriesAre(Explicit(q), d1, d2)
    ensures q.d1 == g.d1 && q.d2 == g.d2
  {
    OverwrittenEntries(q.d1, q.d2, q.h11, q.h22);
    OverwrittenEntries(g.d1, g.d2, g.h11, g.h22);
    ScaledSquare(q.d1, g.d1, s1, g.h11);
    ScaledSquare(q.d2, g.d2, s2, g.h22);
    hide Sq, E11, E12, E22;
  }

  lemma OverwrittenLargeQ2(g: Rot, q: Rot, s1: real, s2: real, d1: real, d2: real)
    requires g.flag == 1.0 && EntriesAre(g, d1, d2)
    requires q.flag == -1.0 && ScaledFrom(g, q, s1, s2) && q.d1 > 0.0 && (g.d2 != 0.0 ==> q.d2 != 0.0)
    requires s1 != 1.0 || (s2 != 1.0 && g.d2 != 0.0)
    ensures !EntriesAre(Explicit(q), d1, d2)
  {
    hide Sq, EntriesAre;
    if EntriesAre(Explicit(q), d1, d2) {
      OverwrittenLargeQ2Entries(g, q, s1, s2, d1, d2);
      UnscaledWeight(q.d1, g.d1, s1);
      UnscaledWeight(q.d2, g.d2, s2);
      assert false;
    }
  }

  // ------------------------------------------------------------------
  // Conservation
  // ------------------------------------------------------------------

  /** rotm with the output of rotmg conserves the weighted form at every point. */
  ghost predicate Conserves(d1: real, d2: real, o: Output)
    requires |o.param| == 5
  {
    forall x, y ::
      RotmPoint(o.param, x, y).Point? && Weighted(o.d1, o.d2, RotmPoint(o.param, x, y)) == Weighted(d1, d2, Point(x, y))
  }

  /** When the kernel's output conserves the form: nothing to rotate, or the zeroing
      branch is not taken and either at most one rescale pass runs or the entries the
      last pass overwrites happen to be right. */
  ghost predicate RunConserves(d1: real, d2: real, x1: real, y1: real) {
    && d1 >= 0.0
    && (d2 * y1 == 0.0 ||
        (&& !GivesUp(d1, d2, x1, y1)
         && var g := General(d1, d2, x1, y1);
            || TotalPasses(g) <= 1
            || (Abs(Q1(d1, x1)) > Abs(Q2(d2, y1)) && LargeQ1Coincidence(d1, d2, x1, y1, S1(g), S2(g)))))
  }

  lemma ConservesIffSameForm(d1: real, d2: real, r: Rot, param: seq<real>)
    requires |param| == 5 && KnownFlag(r)
    ensures Conserves(d1, d2, Output(r.d1, r.d2, r.x1, ParamOut(r, param))) <==> EntriesAre(r, d1, d2)
  {
    var o := Output(r.d1, r.d2, r.x1, ParamOut(r, param));
    SameFormEntries(d1, d2, r.d1, r.d2, Effective(r));
    hide ParamOut, RotmPoint, Weighted, E11, E12, E22, Effective, Apply;
    forall x, y
      ensures RotmPoint(o.param, x, y) == Apply(Effective(r), x, y)
    {
      ParamRoundTrip(r, param, x, y);
    }
    SamePointsSameForm(d1, d2, o, Effective(r));
  }

  lemma SamePointsSameForm(d1: real, d2: real, o: Output, h: Mat)
    requires |o.param| == 5 && forall x, y :: RotmPoint(o.param, x, y) == Apply(h, x, y)
    ensures Conserves(d1, d2, o) <==> SameForm(d1, d2, o.d1, o.d2, h)
  {
    hide RotmPoint, Weighted;
    if Conserves(d1, d2, o) {
      forall x, y
        ensures Weighted(o.d1, o.d2, Apply(h, x, y)) == Weighted(d1, d2, Point(x, y))
      {
        assert RotmPoint(o.param, x, y) == Apply(h, x, y);
      }
    }
  }

  /** For every input with something to rotate, after both loops. */
  lemma FinalEntries(d1: real, d2: real, x1: real, y1: real)
    requires d1 >= 0.0 && d2 * y1 != 0.0 && !GivesUp(d1, d2, x1, y1)
    ensures var r := Final(d1, d2, x1, y1);
            KnownFlag(r) && (EntriesAre(r, d1, d2) <==> RunConserves(d1, d2, x1, y1))
  {
    hide Q1, Q2, General, Loop1, Loop2, LargeQ1Coincidence, S1, S2, Image, E11, E12, E22;
    GeneralCases(d1, d2, x1, y1);
    GeneralConserves(d1, d2, x1, y1);
    QFacts(d1, d2, x1, y1);
    var g := General(d1, d2, x1, y1);
    if TotalPasses(g) <= 1 {
      AtMostOnePass(g, x1, y1);
    } else {
      var q := FindLastPass(g, x1, y1);
      if g.flag == 0.0 {
        var u := LargeQ1Branch(d1, d2, x1, y1);
        OverwrittenLargeQ1(g, q, S1(g), S2(g), d1, d2, x1, y1, u);
      } else {
        ScalesMoved(g);
        OverwrittenLargeQ2(g, q, S1(g), S2(g), d1, d2);
      }
    }
  }

  lemma ZeroWeights(d1: real, d2: real, o: Output)
    requires |o.param| == 5 && o.d1 == 0.0 && o.d2 == 0.0 && (d1 != 0.0 || d2 != 0.0)
    ensures !Conserves(d1, d2, o)
  {
    if Conserves(d1, d2, o) {
      var p, q := RotmPoint(o.param, 1.0, 0.0), RotmPoint(o.param, 0.0, 1.0);
      assert p.Point? && q.Point?;
      assert Weighted(0.0, 0.0, p) == 0.0 && Weighted(0.0, 0.0, q) == 0.0;
      WeightsAtPoints(d1, d2);
    }
  }

  lemma IdentityConserves(d1: real, d2: real, x1: real, param: seq<real>)
    requires |param| == 5 && param[0] == -2.0
    ensures Conserves(d1, d2, Output(d1, d2, x1, param))
  {
  }

  /** The weighted form is conserved at every index exactly when RunConserves. */
  lemma ConservationByRun(d1: real, d2: real, x1: real, y1: real, param: seq<real>)
    requires |param| == 5
    ensures Conserves(d1, d2, RotmgSpec(d1, d2, x1, y1, param)) <==> RunConserves(d1, d2, x1, y1)
  {
    hide General, Loop1, Loop2, Conserves, TotalPasses, EntriesAre, LargeQ1Coincidence, Q1, Q2;
    if d1 < 0.0 {
      ZeroWeights(d1, d2, RotmgSpec(d1, d2, x1, y1, param));
    } else if d2 * y1 == 0.0 {
      IdentityConserves(d1, d2, x1, param[0 := -2.0]);
    } else {
      QFacts(d1, d2, x1, y1);
      GeneralCases(d1, d2, x1, y1);
      if GivesUp(d1, d2, x1, y1) {
        FinalOfZeroed(d1, d2, x1, y1);
        ZeroWeights(d1, d2, RotmgSpec(d1, d2, x1, y1, param));
      } else {
        FinalEntries(d1, d2, x1, y1);
        ConservesIffSameForm(d1, d2, Final(d1, d2, x1, y1), param);
      }
    }
  }

  lemma FinalOfZeroed(d1: real, d2: real, x1: real, y1: real)
    requires d1 >= 0.0 && d2 * y1 != 0.0 && General(d1, d2, x1, y1) == Zeroed
    ensures Final(d1, d2, x1, y1) == Zeroed
  {
  }

  // ------------------------------------------------------------------
  // The image of (x1, y1)
  // ------------------------------------------------------------------

  /** rotm maps the pair rotmg was built from to (x1', 0). */
  ghost predicate ToAxis(x1: real, y1: real, o: Output)
    requires |o.param| == 5
  {
    RotmPoint(o.param, x1, y1) == Point(o.x1, 0.0)
  }

  ghost predicate RunMapsToAxis(d1: real, d2: real, x1: real, y1: real)
    requires d1 >= 0.0
  {
    if d2 * y1 == 0.0 then y1 == 0.0
    else
      || GivesUp(d1, d2, x1, y1)
      || var g := General(d1, d2, x1, y1);
         || TotalPasses(g) <= 1
         || (if Abs(Q1(d1, x1)) > Abs(Q2(d2, y1)) then
               Times(S1(g), d2 * y1) == d1 * x1 && Times(S2(g), y1) == x1
             else
               S1(g) == 1.0 && Times(S2(g), x1) == x1)
  }

  lemma ImageLargeQ1Algebra(w: real, t: real, x1: real, y1: real, u: real, s1: real, p1: real, p2: real)
    requires u == 1.0 + w * t && t * x1 == y1 && w * p1 == p2 && p1 != 0.0 && y1 != 0.0
    ensures s1 * x1 + y1 == (x1 * u) * s1 <==> Times(s1, p2) == p1
  {
    calc {
      (x1 * u) * s1;
      s1 * x1 + (s1 * w) * (t * x1);
      s1 * x1 + (s1 * w) * y1;
    }
    OneTimes(y1);
    TimesCancel(s1 * w, 1.0, y1);
    OneTimes(p1);
    calc {
      Times(s1, p2);
      Times(s1 * w, p1);
    }
    TimesCancel(s1 * w, 1.0, p1);
  }

  lemma ImageLargeQ1(g: Rot, q: Rot, s1: real, s2: real, d1: real, d2: real, x1: real, y1: real, u: real)
    requires LargeQ1Result(d1, d2, x1, y1, u, g) && d1 * x1 != 0.0 && y1 != 0.0
    requires q.flag == -1.0 && ScaledFrom(g, q, s1, s2)
    ensures Image(Explicit(q), x1, y1) == Point(q.x1, 0.0)
            <==> Times(s1, d2 * y1) == d1 * x1 && Times(s2, y1) == x1
  {
    OneTimes(s1);
    OneTimes(s2);
    assert Effective(Explicit(q)) == Mat(s1, 1.0, -1.0, s2);
    Negated(g.h12, g.h21, x1, y1);
    ImageLargeQ1Algebra(g.h12, -g.h21, x1, y1, u, s1, d1 * x1, d2 * y1);
    ExplicitImage(s1, s2, x1, y1);
    hide Sq, Times, UMinus;
  }

  lemma ExplicitImage(h11: real, h22: real, x1: real, y1: real)
    ensures Apply(Mat(h11, 1.0, -1.0, h22), x1, y1) == Point(h11 * x1 + y1, Times(h22, y1) - x1)
  {
  }

  lemma ImageLargeQ2Algebra(a: real, b: real, x1: real, y1: real, u: real, s1: real, s2: real, x: real, h11: real,
                            h22: real, x': real)
    requires u == 1.0 + a * b && b * y1 == x1 && y1 != 0.0 && x == y1 * u
    requires h11 == a * s1 && h22 == b * s2 && x' == x * s1
    ensures h11 * x1 + y1 == x' <==> s1 == 1.0
    ensures Times(h22, y1) == Times(s2, x1)
  {
    calc {
      x';
      (y1 * u) * s1;
      s1 * y1 + (a * s1) * (b * y1);
      s1 * y1 + h11 * x1;
    }
    OneTimes(y1);
    TimesCancel(s1, 1.0, y1);
    calc {
      Times(h22, y1);
      s2 * (b * y1);
      Times(s2, x1);
    }
  }

  lemma ImageLargeQ2(g: Rot, q: Rot, s1: real, s2: real, d1: real, d2: real, x1: real, y1: real, u: real)
    requires LargeQ2Result(d1, d2, x1, y1, u, g) && y1 != 0.0
    requires q.flag == -1.0 && ScaledFrom(g, q, s1, s2)
    ensures Image(Explicit(q), x1, y1) == Point(q.x1, 0.0) <==> s1 == 1.0 && Times(s2, x1) == x1
  {
    hide Sq, Times;
    ImageLargeQ2Algebra(g.h11, g.h22, x1, y1, u, s1, s2, g.x1, q.h11, q.h22, q.x1);
    hide LargeQ2Result, UPlus, Apply, ScaledFrom;
    ExplicitImage(q.h11, q.h22, x1, y1);
    assert Effective(Explicit(q)) == Mat(q.h11, 1.0, -1.0, q.h22);
  }

  lemma FinalToAxis(d1: real, d2: real, x1: real, y1: real)
    requires d1 >= 0.0 && d2 * y1 != 0.0 && !GivesUp(d1, d2, x1, y1)
    ensures var r := Final(d1, d2, x1, y1);
            KnownFlag(r) && (MapsToAxis(r, x1, y1) <==> RunMapsToAxis(d1, d2, x1, y1))
  {
    hide Q1, Q2, General, Loop1, Loop2, S1, S2, E11, E12, E22, LargeQ1Result, LargeQ2Result, ScaledFrom, Times;
    GeneralCases(d1, d2, x1, y1);
    GeneralConserves(d1, d2, x1, y1);
    QFacts(d1, d2, x1, y1);
    var g := General(d1, d2, x1, y1);
    if TotalPasses(g) <= 1 {
      AtMostOnePass(g, x1, y1);
    } else {
      var q := FindLastPass(g, x1, y1);
      if g.flag == 0.0 {
        var u := LargeQ1Branch(d1, d2, x1, y1);
        ImageLargeQ1(g, q, S1(g), S2(g), d1, d2, x1, y1, u);
      } else {
        var u := LargeQ2Branch(d1, d2, x1, y1);
        ImageLargeQ2(g, q, S1(g), S2(g), d1, d2, x1, y1, u);
      }
    }
  }

  /** For d1 >= 0 the pair (x1, y1) is mapped to (x1', 0) exactly when RunMapsToAxis. */
  lemma ToAxisByRun(d1: real, d2: real, x1: real, y1: real, param: seq<real>)
    requires |param| == 5 && d1 >= 0.0
    ensures ToAxis(x1, y1, RotmgSpec(d1, d2, x1, y1, param)) <==> RunMapsToAxis(d1, d2, x1, y1)
  {
    hide General, Loop1, Loop2, TotalPasses, Q1, Q2, S1, S2;
    if d2 * y1 != 0.0 {
      QFacts(d1, d2, x1, y1);
      GeneralCases(d1, d2, x1, y1);
      if GivesUp(d1, d2, x1, y1) {
        FinalOfZeroed(d1, d2, x1, y1);
      } else {
        hide RunMapsToAxis, ParamOut, RotmPoint, Effective, Apply;
        FinalToAxis(d1, d2, x1, y1);
        ParamRoundTrip(Final(d1, d2, x1, y1), param, x1, y1);
      }
    }
  }

  // ------------------------------------------------------------------
  // Where the promises fail, and rotmg followed by rotm
  // ------------------------------------------------------------------

  const GammaFourth := 281474976710656.0

  /** Two passes on d1: the second one overwrites h12 after it has been scaled. */
  lemma TwoPassesLoseTheRotation(param: seq<real>)
    requires |param| == 5
    ensures var o := RotmgSpec(0.0, GammaFourth, 0.0, 1.0, param);
            !Conserves(0.0, GammaFourth, o) && !ToAxis(0.0, 1.0, o)
  {
    TwoPassesGeneral();
    TwoPasses();
    hide General, Conserves, ToAxis, RotmgSpec, Scale, ScaleBeforeLast, Passes, Times, LargeQ1Coincidence;
    ConservationByRun(0.0, GammaFourth, 0.0, 1.0, param);
    ToAxisByRun(0.0, GammaFourth, 0.0, 1.0, param);
  }

  lemma SimpleQuotients(a: real)
    ensures a != 0.0 ==> Quot(0.0, a) == 0.0
    ensures Quot(a, 1.0) == a
  {
  }

  lemma TwoPassesGeneral()
    ensures General(0.0, GammaFourth, 0.0, 1.0) == Rot(GammaFourth, 0.0, 1.0, 0.0, 0.0, 0.0, 0.0, 1.0)
    ensures !GivesUp(0.0, GammaFourth, 0.0, 1.0)
    ensures Abs(Q1(0.0, 0.0)) <= Abs(Q2(GammaFourth, 1.0))
  {
    hide Quot, UPlus, Q1, Q2, LargeQ2;
    UnitProducts(GammaFourth);
    ZeroQuotient(GammaFourth);
    SimpleQuotients(1.0);
    TwoPassesBranch();
  }

  lemma UnitProducts(a: real)
    ensures Q1(0.0, 0.0) == 0.0 && Q2(a, 1.0) == a && UPlus(0.0, 0.0) == 1.0
  {
  }

  lemma ZeroQuotient(a: real)
    requires a != 0.0
    ensures a * 1.0 != 0.0 && Quot(0.0 * 0.0, a * 1.0) == 0.0
  {
    assert a * 1.0 == a;
    SimpleQuotients(a);
    hide Quot;
  }

  lemma TwoPassesBranch()
    requires UPlus(0.0, 0.0) == 1.0
    ensures LargeQ2(0.0, GammaFourth, 1.0, 0.0, 0.0) == Rot(GammaFourth, 0.0, 1.0, 0.0, 0.0, 0.0, 0.0, 1.0)
  {
    hide Quot, UPlus;
    SimpleQuotients(GammaFourth);
    SimpleQuotients(0.0);
  }

  lemma TwoPasses()
    ensures Passes(GammaFourth) == 2 && ScaleBeforeLast(GammaFourth) == 4096.0 && Passes(0.0) == 0
  {
    hide Measure;
    assert Rescaled(GammaFourth) == GammaSq && Rescaled(GammaSq) == 1.0;
    assert InBand(1.0) && !InBand(GammaSq) && !InBand(GammaFourth);
    assert Passes(1.0) == 0 && ScaleBeforeLast(GammaSq) == 1.0;
    assert Passes(GammaSq) == 1;
  }

  lemma SpecFlag(d1: real, d2: real, x1: real, y1: real, param: seq<real>)
    requires |param| == 5 && d1 >= 0.0
    ensures |RotmgSpec(d1, d2, x1, y1, param).param| == 5 && ValidFlag(RotmgSpec(d1, d2, x1, y1, param).param[0])
  {
    hide General, Loop1, Loop2, Q1, Q2, RunConserves, RunMapsToAxis;
    if d2 * y1 != 0.0 {
      GeneralCases(d1, d2, x1, y1);
      if GivesUp(d1, d2, x1, y1) {
        FinalOfZeroed(d1, d2, x1, y1);
      } else {
        FinalEntries(d1, d2, x1, y1);
      }
    }
  }
}
