/**
 The exact conditions under which rotmg followed by rotm conserves the weighted form and
 maps (x1, y1) to (x1', 0), for every input, in terms of the input alone: how often the
 kernel rescales, and by which powers of 4096, is read off from the size of two quotients.
 */
module RotmgConditions {
  import opened RealAlgebra
  import opened Rotmg
  import opened Rotm
  import opened RotmgConservation
  import opened RotmgExactness

  // ------------------------------------------------------------------
  // Powers of gamma
  // ------------------------------------------------------------------

  /** 4096 to the power n. */
  function Power(n: int): (p: real)
    ensures p > 0.0
    decreases if n < 0 then -n else n
  {
    if n == 0 then 1.0 else if n > 0 then Power(n - 1) * Gamma else Power(n + 1) / Gamma
  }

  lemma PowerStep(n: int)
    ensures Power(n + 1) == Power(n) * Gamma
  {
  }

  lemma PowerStep2(n: int)
    ensures Power(n + 2) == Power(n) * GammaSq
  {
    hide Power;
    PowerStep(n);
    PowerStep(n + 1);
  }

  lemma SmallPowers()
    ensures Power(0) == 1.0 && Power(2) == GammaSq && Power(-2) == GammaSqInv
  {
    hide Power;
    PowerAtZero();
    PowerStep2(0);
    PowerStep2(-2);
  }

  lemma PowerAtZero()
    ensures Power(0) == 1.0
  {
  }

  lemma {:induction false} PowerMonotone(m: int, n: int)
    requires m <= n
    ensures Power(m) <= Power(n) && (m < n ==> Power(m) < Power(n))
    decreases n - m
  {
    hide Power;
    if m < n {
      PowerMonotone(m, n - 1);
      PowerStep(n - 1);
    }
  }

  // ------------------------------------------------------------------
  // How often a weight is rescaled
  // ------------------------------------------------------------------

  /** A weight d is rescaled k times: its size lies in one of the two k-th bands of ratio
      4096^2, or for k = 0 in the open middle band. */
  predicate RescaleCount(d: real, k: nat) {
    if k == 0 then d == 0.0 || Power(-2) < Abs(d) < Power(2)
    else d != 0.0 && (Power(2 * k) <= Abs(d) < Power(2 * k + 2) || Power(-2 * k - 2) < Abs(d) <= Power(-2 * k))
  }

  /** The factor n passes give to the row of a weight. */
  function RowFactor(d: real, n: int): real {
    if Abs(d) >= 1.0 then Power(n) else Power(-n)
  }

  /** How many passes come before the last of k. */
  function Before(k: nat): nat { if k == 0 then 0 else k - 1 }

  lemma RescaledSize(d: real)
    ensures Abs(d) <= GammaSqInv ==> Abs(Rescaled(d)) == Abs(d) * GammaSq <= 1.0
    ensures Abs(d) >= GammaSq ==> Abs(Rescaled(d)) * GammaSq == Abs(d) && Abs(Rescaled(d)) >= 1.0
  {
  }

  /** One more pass moves a weight one band further out. */
  lemma NextBand(d: real, k: nat)
    requires d != 0.0 && !InBand(d) && RescaleCount(Rescaled(d), k)
    ensures RescaleCount(d, k + 1)
  {
    hide Power, InBand, Rescaled;
    SmallPowers();
    RescaledSize(d);
    OutOfBand(d);
    PowerStep2(2 * k);
    PowerStep2(2 * k + 2);
    PowerStep2(-2 * k - 4);
    PowerStep2(-2 * k - 2);
    PowerMonotone(0, 2 * k);
    PowerMonotone(-2 * k, 0);
    if k > 0 {
      PowerMonotone(2, 2 * k);
      PowerMonotone(-2 * k, -2);
    }
    assert 2 * (k + 1) == 2 * k + 2 && -2 * (k + 1) == -2 * k - 2;
  }

  lemma OutOfBand(d: real)
    ensures InBand(d) <==> GammaSqInv < Abs(d) < GammaSq
  {
  }

  /** The loops run as often as RescaleCount says, and scale by the named powers. */
  lemma {:induction false} CountIsPasses(d: real)
    ensures RescaleCount(d, Passes(d))
    ensures Scale(d) == RowFactor(d, Passes(d))
    ensures ScaleBeforeLast(d) == RowFactor(d, Before(Passes(d)))
    decreases if d == 0.0 then 0 else Measure(d)
  {
    hide Power, Rescaled, Measure;
    SmallPowers();
    PowerAtZero();
    if d != 0.0 && !InBand(d) {
      PassDecreases(d);
      var d' := Rescaled(d);
      CountIsPasses(d');
      NextBand(d, Passes(d'));
      assert InBand(d') ==> Passes(d') == 0;
      FactorStep(d, Passes(d'));
      FactorStep(d, Before(Passes(d')));
    }
  }

  lemma FactorStep(d: real, n: int)
    requires d != 0.0 && !InBand(d) && 0 <= n && (n > 0 ==> Abs(Rescaled(d)) != 1.0)
    ensures RowScaled(d, RowFactor(Rescaled(d), n)) == RowFactor(d, n + 1)
  {
    hide Power;
    PowerStep(n);
    PowerStep(-n - 1);
    RescaledSize(d);
    PowerAtZero();
  }

  lemma CountUnique(d: real, k: nat, n: nat)
    requires RescaleCount(d, k) && RescaleCount(d, n)
    ensures k >= n
  {
    hide Power;
    if k < n {
      PowerMonotone(2 * k + 2, 2 * n);
      PowerMonotone(-2 * n, -2 * k - 2);
      PowerMonotone(-2 * n, 2 * k);
      PowerMonotone(-2 * k, 2 * n);
    }
  }

  /** The bands say exactly how often the loop for d runs. */
  lemma CountExact(d: real, k: nat)
    ensures RescaleCount(d, k) <==> Passes(d) == k
  {
    hide RescaleCount, Passes;
    CountIsPasses(d);
    if RescaleCount(d, k) {
      CountUnique(d, k, Passes(d));
      CountUnique(d, Passes(d), k);
    }
  }

  /** At most one pass for d, in one band. */
  lemma AtMostOnce(d: real)
    ensures Passes(d) == 0 <==> d == 0.0 || Power(-2) < Abs(d) < Power(2)
    ensures Passes(d) <= 1 <==> d == 0.0 || Power(-4) < Abs(d) < Power(4)
  {
    hide Power, Passes;
    CountExact(d, 0);
    CountExact(d, 1);
    PowerMonotone(-4, -2);
    PowerMonotone(-2, 2);
    PowerMonotone(2, 4);
  }

  // ------------------------------------------------------------------
  // The weights before rescaling
  // ------------------------------------------------------------------

  predicate LargeFirst(d1: real, d2: real, x1: real, y1: real) {
    Abs(Q1(d1, x1)) > Abs(Q2(d2, y1))
  }

  /** u = 1 + q2 / q1 or 1 + q1 / q2, the larger q below. */
  function U(d1: real, d2: real, x1: real, y1: real): (u: real)
    requires d1 >= 0.0 && d2 * y1 != 0.0
  {
    QFacts(d1, d2, x1, y1);
    if LargeFirst(d1, d2, x1, y1) then 1.0 + Quot(Q2(d2, y1), Q1(d1, x1)) else 1.0 + Quot(Q1(d1, x1), Q2(d2, y1))
  }

  lemma UOfResult1(d1: real, d2: real, x1: real, y1: real, u: real, g: Rot)
    requires d1 >= 0.0 && d2 * y1 != 0.0 && LargeFirst(d1, d2, x1, y1) && LargeQ1Result(d1, d2, x1, y1, u, g)
    ensures u == U(d1, d2, x1, y1)
  {
    QFacts(d1, d2, x1, y1);
    RatioProduct(g.h12, g.h21, d1, x1, d2, y1, -1.0);
    SameRatio(-(g.h12 * g.h21), Q2(d2, y1), Q1(d1, x1));
  }

  lemma UOfResult2(d1: real, d2: real, x1: real, y1: real, u: real, g: Rot)
    requires d1 >= 0.0 && d2 * y1 != 0.0 && !LargeFirst(d1, d2, x1, y1) && LargeQ2Result(d1, d2, x1, y1, u, g)
    ensures u == U(d1, d2, x1, y1)
  {
    QFacts(d1, d2, x1, y1);
    RatioProduct(g.h11, g.h22, d2, y1, d1, x1, 1.0);
    SameRatio(g.h11 * g.h22, Q1(d1, x1), Q2(d2, y1));
  }

  lemma SameRatio(r: real, a: real, b: real)
    requires b != 0.0 && r * b == a
    ensures r == Quot(a, b)
  {
    Cancel(r, Quot(a, b), b);
  }

  lemma UPositive(d1: real, d2: real, x1: real, y1: real)
    requires d1 >= 0.0 && d2 * y1 != 0.0 && !GivesUp(d1, d2, x1, y1)
    ensures U(d1, d2, x1, y1) > 0.0
  {
    hide Q1, Q2, U, General;
    if LargeFirst(d1, d2, x1, y1) {
      var u := LargeQ1Branch(d1, d2, x1, y1);
      UOfResult1(d1, d2, x1, y1, u, General(d1, d2, x1, y1));
    } else {
      var u := LargeQ2Branch(d1, d2, x1, y1);
      UOfResult2(d1, d2, x1, y1, u, General(d1, d2, x1, y1));
    }
  }

  /** The weight of the first row before any rescaling: d1 / u, or d2 / u where q2 is the larger. */
  function FirstWeight(d1: real, d2: real, x1: real, y1: real): real
    requires d1 >= 0.0 && d2 * y1 != 0.0 && !GivesUp(d1, d2, x1, y1)
  {
    UPositive(d1, d2, x1, y1);
    Quot(if LargeFirst(d1, d2, x1, y1) then d1 else d2, U(d1, d2, x1, y1))
  }

  function SecondWeight(d1: real, d2: real, x1: real, y1: real): real
    requires d1 >= 0.0 && d2 * y1 != 0.0 && !GivesUp(d1, d2, x1, y1)
  {
    UPositive(d1, d2, x1, y1);
    Quot(if LargeFirst(d1, d2, x1, y1) then d2 else d1, U(d1, d2, x1, y1))
  }

  lemma WeightsAre(d1: real, d2: real, x1: real, y1: real)
    requires d1 >= 0.0 && d2 * y1 != 0.0 && !GivesUp(d1, d2, x1, y1)
    ensures General(d1, d2, x1, y1).d1 == FirstWeight(d1, d2, x1, y1)
    ensures General(d1, d2, x1, y1).d2 == SecondWeight(d1, d2, x1, y1)
  {
    hide Q1, Q2, U, General, Quot;
    var g, u := General(d1, d2, x1, y1), U(d1, d2, x1, y1);
    UPositive(d1, d2, x1, y1);
    if LargeFirst(d1, d2, x1, y1) {
      var u1 := LargeQ1Branch(d1, d2, x1, y1);
      UOfResult1(d1, d2, x1, y1, u1, g);
      SameRatio(g.d1, d1, u);
      SameRatio(g.d2, d2, u);
    } else {
      var u2 := LargeQ2Branch(d1, d2, x1, y1);
      UOfResult2(d1, d2, x1, y1, u2, g);
      SameRatio(g.d1, d2, u);
      SameRatio(g.d2, d1, u);
    }
  }

  // ------------------------------------------------------------------
  // The conditions
  // ------------------------------------------------------------------

  predicate MiddleBand(d: real) { d == 0.0 || Power(-2) < Abs(d) < Power(2) }

  predicate WideBand(d: real) { d == 0.0 || Power(-4) < Abs(d) < Power(4) }

  /** At most one rescale pass in total: both weights in the middle band, but for one that may
      lie one band further out. */
  predicate OnePassAtMost(w1: real, w2: real) {
    (MiddleBand(w1) && WideBand(w2)) || (WideBand(w1) && MiddleBand(w2))
  }

  /** The factors of the two rows when the last pass begins, for weights rescaled k1 and k2
      times; the loop for the second weight comes last. */
  function FirstFactor(w1: real, k1: nat, k2: nat): real {
    RowFactor(w1, if k2 > 0 then k1 else Before(k1))
  }

  function SecondFactor(w2: real, k2: nat): real { RowFactor(w2, Before(k2)) }

  /** What the last of several passes overwrites happens to be right. */
  ghost predicate FormCoincides(d1: real, d2: real, x1: real, y1: real, w1: real, w2: real) {
    exists k1: nat, k2: nat :: RescaleCount(w1, k1) && RescaleCount(w2, k2)
      && LargeQ1Coincidence(d1, d2, x1, y1, FirstFactor(w1, k1, k2), SecondFactor(w2, k2))
  }

  /** There is nothing to rotate, or the zeroing branch is not taken and at most one pass runs or
      the overwritten entries happen to be right. */
  ghost predicate ConservationHolds(d1: real, d2: real, x1: real, y1: real) {
    && d1 >= 0.0
    && (d2 * y1 == 0.0 ||
        (&& !GivesUp(d1, d2, x1, y1)
         && var w1, w2 := FirstWeight(d1, d2, x1, y1), SecondWeight(d1, d2, x1, y1);
            OnePassAtMost(w1, w2) || (LargeFirst(d1, d2, x1, y1) && FormCoincides(d1, d2, x1, y1, w1, w2))))
  }

  lemma OnePassExact(w1: real, w2: real)
    ensures OnePassAtMost(w1, w2) <==> Passes(w1) + Passes(w2) <= 1
  {
    AtMostOnce(w1);
    AtMostOnce(w2);
    hide Power, Passes;
  }

  /** The scales of the run are the named powers. */
  lemma FactorsExact(g: Rot, k1: nat, k2: nat)
    requires RescaleCount(g.d1, k1) && RescaleCount(g.d2, k2)
    ensures S1(g) == FirstFactor(g.d1, k1, k2) && S2(g) == SecondFactor(g.d2, k2)
  {
    CountExact(g.d1, k1);
    CountExact(g.d2, k2);
    CountIsPasses(g.d1);
    CountIsPasses(g.d2);
    PowerAtZero();
    hide Power, Passes, Scale, ScaleBeforeLast, RescaleCount;
  }

  lemma FormCoincidesExact(d1: real, d2: real, x1: real, y1: real, g: Rot)
    ensures FormCoincides(d1, d2, x1, y1, g.d1, g.d2) <==> LargeQ1Coincidence(d1, d2, x1, y1, S1(g), S2(g))
  {
    hide LargeQ1Coincidence, S1, S2, RescaleCount, FirstFactor, SecondFactor, Passes, Scale, ScaleBeforeLast;
    CountIsPasses(g.d1);
    CountIsPasses(g.d2);
    FactorsExact(g, Passes(g.d1), Passes(g.d2));
    if FormCoincides(d1, d2, x1, y1, g.d1, g.d2) {
      var k1: nat, k2: nat :| RescaleCount(g.d1, k1) && RescaleCount(g.d2, k2)
        && LargeQ1Coincidence(d1, d2, x1, y1, FirstFactor(g.d1, k1, k2), SecondFactor(g.d2, k2));
      FactorsExact(g, k1, k2);
    }
  }

  /** rotmg followed by rotm conserves the weighted form at every point exactly when
      ConservationHolds. */
  lemma ConservationExact(d1: real, d2: real, x1: real, y1: real, param: seq<real>)
    requires |param| == 5
    ensures Conserves(d1, d2, RotmgSpec(d1, d2, x1, y1, param)) <==> ConservationHolds(d1, d2, x1, y1)
  {
    hide Conserves, RotmgSpec, General, Passes, Q1, Q2, FormCoincides, OnePassAtMost, FirstWeight, SecondWeight, S1, S2;
    hide LargeQ1Coincidence;
    ConservationByRun(d1, d2, x1, y1, param);
    if d1 >= 0.0 && d2 * y1 != 0.0 && !GivesUp(d1, d2, x1, y1) {
      var g := General(d1, d2, x1, y1);
      WeightsAre(d1, d2, x1, y1);
      OnePassExact(g.d1, g.d2);
      FormCoincidesExact(d1, d2, x1, y1, g);
    }
  }

  // ------------------------------------------------------------------
  // The image of (x1, y1)
  // ------------------------------------------------------------------

  /** What param makes of (x1, y1) is (0, 0): the test that decides for d1 < 0, where rotmg
      leaves param as it was. */
  predicate Annihilates(param: seq<real>, x1: real, y1: real)
    requires |param| == 5
  {
    if param[0] == -2.0 then x1 == 0.0 && y1 == 0.0
    else if param[0] == -1.0 then
      param[1] * x1 == -(param[3] * y1) && param[2] * x1 == -(param[4] * y1)
    else if param[0] == 0.0 then x1 == -(param[3] * y1) && (y1 == 0.0 || param[2] * param[3] == 1.0)
    else if param[0] == 1.0 then y1 == -(param[1] * x1) && (x1 == 0.0 || param[1] * param[4] == -1.0)
    else false
  }

  ghost predicate ImageCoincides(d1: real, d2: real, x1: real, y1: real, w1: real, w2: real) {
    exists k1: nat, k2: nat :: RescaleCount(w1, k1) && RescaleCount(w2, k2)
      && FirstFactor(w1, k1, k2) * (d2 * y1) == d1 * x1 && SecondFactor(w2, k2) * y1 == x1
  }

  ghost predicate ToAxisHolds(d1: real, d2: real, x1: real, y1: real, param: seq<real>)
    requires |param| == 5
  {
    if d1 < 0.0 then Annihilates(param, x1, y1)
    else if d2 * y1 == 0.0 then y1 == 0.0
    else if GivesUp(d1, d2, x1, y1) then true
    else
      var w1, w2 := FirstWeight(d1, d2, x1, y1), SecondWeight(d1, d2, x1, y1);
      || OnePassAtMost(w1, w2)
      || (if LargeFirst(d1, d2, x1, y1) then ImageCoincides(d1, d2, x1, y1, w1, w2) else x1 == 0.0 && MiddleBand(w1))
  }

  lemma ImageCoincidesExact(d1: real, d2: real, x1: real, y1: real, g: Rot)
    ensures ImageCoincides(d1, d2, x1, y1, g.d1, g.d2)
            <==> Times(S1(g), d2 * y1) == d1 * x1 && Times(S2(g), y1) == x1
  {
    hide S1, S2, RescaleCount, FirstFactor, SecondFactor, Passes, Scale, ScaleBeforeLast;
    CountIsPasses(g.d1);
    CountIsPasses(g.d2);
    FactorsExact(g, Passes(g.d1), Passes(g.d2));
    if ImageCoincides(d1, d2, x1, y1, g.d1, g.d2) {
      var k1: nat, k2: nat :| RescaleCount(g.d1, k1) && RescaleCount(g.d2, k2)
        && FirstFactor(g.d1, k1, k2) * (d2 * y1) == d1 * x1 && SecondFactor(g.d2, k2) * y1 == x1;
      FactorsExact(g, k1, k2);
    }
  }

  /** With two passes or more, the first row is unscaled exactly if its loop never runs. */
  lemma FirstRowUnscaled(g: Rot)
    requires g.d1 > 0.0 && TotalPasses(g) >= 2
    ensures S1(g) == 1.0 <==> Passes(g.d1) == 0
  {
    hide Rescaled, Measure;
    if Passes(g.d1) > 0 {
      if Passes(g.d2) > 0 {
        ScaleFar(g.d1);
      } else {
        ScaleBeforeLastFar(g.d1);
        assert Passes(g.d1) == 1 + Passes(Rescaled(g.d1));
      }
    }
  }

  lemma LargeSecondExact(g: Rot, x1: real)
    requires g.d1 > 0.0 && TotalPasses(g) >= 2
    ensures S1(g) == 1.0 && Times(S2(g), x1) == x1 <==> x1 == 0.0 && MiddleBand(g.d1)
  {
    FirstRowUnscaled(g);
    ScalesMoved(g);
    AtMostOnce(g.d1);
    OneTimes(x1);
    hide S1, S2, Passes, Power;
    if x1 != 0.0 {
      TimesCancel(S2(g), 1.0, x1);
    }
  }

  lemma SolvedRows(h: real, k: real, x: real, y: real)
    ensures x + h * y == 0.0 && k * x + y == 0.0 <==> x == -(h * y) && (y == 0.0 || k * h == 1.0)
  {
    if x == -(h * y) {
      calc {
        k * x + y;
        (1.0 - k * h) * y;
      }
      ProductNonzero(1.0 - k * h, y);
    }
  }

  lemma AnnihilatesExact(param: seq<real>, x1: real, y1: real)
    requires |param| == 5
    ensures RotmPoint(param, x1, y1) == Point(0.0, 0.0) <==> Annihilates(param, x1, y1)
  {
    if param[0] == 0.0 {
      SolvedRows(param[3], param[2], x1, y1);
    } else if param[0] == 1.0 {
      SolvedRows(param[1], -param[4], y1, x1);
    }
  }

  /** rotmg followed by rotm takes (x1, y1) to (x1', 0) exactly when ToAxisHolds. */
  lemma ToAxisExact(d1: real, d2: real, x1: real, y1: real, param: seq<real>)
    requires |param| == 5
    ensures ToAxis(x1, y1, RotmgSpec(d1, d2, x1, y1, param)) <==> ToAxisHolds(d1, d2, x1, y1, param)
  {
    hide General, Passes, Q1, Q2, ImageCoincides, OnePassAtMost, FirstWeight, SecondWeight, S1, S2, MiddleBand;
    hide Annihilates, RotmPoint, Times, Final;
    if d1 < 0.0 {
      AnnihilatesExact(param, x1, y1);
    } else {
      ToAxisByRun(d1, d2, x1, y1, param);
      if d2 * y1 != 0.0 && !GivesUp(d1, d2, x1, y1) {
        hide ToAxis, RotmgSpec;
        var g := General(d1, d2, x1, y1);
        GeneralCases(d1, d2, x1, y1);
        WeightsAre(d1, d2, x1, y1);
        OnePassExact(g.d1, g.d2);
        if TotalPasses(g) >= 2 {
          ImageCoincidesExact(d1, d2, x1, y1, g);
          LargeSecondExact(g, x1);
        }
      }
    }
  }

  // ------------------------------------------------------------------
  // rotmg followed by rotm
  // ------------------------------------------------------------------

  /** A caller's sequence: build the rotation, then apply it to two whole vectors. For d1 < 0
      rotmg does not write param, and rotm takes or rejects what the caller had put there. */
  method RotmgThenRotm(v: RotmgViews, y1: real, x: array<real>, y: array<real>) returns (ok: bool)
    requires v.param.Length == 5 && x != y && v.param != x && v.param != y && x.Length <= y.Length
    modifies v, v.param, x, y
    ensures ok <==> old(v.d1) >= 0.0 || old(v.param[0]) in {-2.0, -1.0, 0.0, 1.0}
    ensures !ok ==> x[..] == old(x[..]) && y[..] == old(y[..])
    ensures ok && ConservationHolds(old(v.d1), old(v.d2), old(v.x1), y1) ==>
              forall i :: 0 <= i < x.Length ==>
                Weighted(v.d1, v.d2, Point(x[i], y[i])) == Weighted(old(v.d1), old(v.d2), Point(old(x[i]), old(y[i])))
    ensures ok && ToAxisHolds(old(v.d1), old(v.d2), old(v.x1), y1, old(v.param[..])) ==>
              forall i :: 0 <= i < x.Length && old(x[i]) == old(v.x1) && old(y[i]) == y1 ==> x[i] == v.x1 && y[i] == 0.0
  {
    hide ConservationHolds, ToAxisHolds, Weighted, RotmgSpec, RotmPoint;
    ConservationExact(v.d1, v.d2, v.x1, y1, v.param[..]);
    ToAxisExact(v.d1, v.d2, v.x1, y1, v.param[..]);
    if v.d1 >= 0.0 {
      SpecFlag(v.d1, v.d2, v.x1, y1, v.param[..]);
    } else {
      NegativeKeepsParam(v.d1, v.d2, v.x1, y1, v.param[..]);
    }
    RotmgImpl(v, y1);
    ok := Rotm.Invoke(x, y, v.param[..]);
  }

  lemma NegativeKeepsParam(d1: real, d2: real, x1: real, y1: real, param: seq<real>)
    requires |param| == 5 && d1 < 0.0
    ensures RotmgSpec(d1, d2, x1, y1, param).param == param
  {
  }
}
