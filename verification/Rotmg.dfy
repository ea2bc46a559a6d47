/**
 The modified Givens rotation: rotmg builds it, rotm applies it.
 */
module Rotmg {
  import opened RealAlgebra

  const Gamma := 4096.0
  const GammaSq := 16777216.0
  const GammaSqInv := 1.0 / 16777216.0

  /** The kernel's local variables, and the views it updates. */
  datatype Rot = Rot(d1: real, d2: real, x1: real, h11: real, h12: real, h21: real, h22: real, flag: real)

  const Zeroed := Rot(0.0, 0.0, 0.0, 0.0, 0.0, 0.0, 0.0, -1.0)

  function Q1(d1: real, x1: real): real { d1 * x1 * x1 }

  function Q2(d2: real, y1: real): real { d2 * y1 * y1 }

  lemma QSquares(d: real, x: real)
    ensures d * x * x == d * Sq(x)
  {
  }

  lemma QFacts(d1: real, d2: real, x1: real, y1: real)
    requires d1 >= 0.0 && d2 * y1 != 0.0
    ensures d2 != 0.0 && y1 != 0.0
    ensures Q1(d1, x1) >= 0.0 && Q2(d2, y1) != 0.0
    ensures Q2(d2, y1) > 0.0 <==> d2 > 0.0
    ensures Abs(Q1(d1, x1)) > Abs(Q2(d2, y1)) ==> d1 > 0.0 && x1 != 0.0 && d1 * x1 != 0.0
  {
    ProductNonzero(d2, y1);
    QSquares(d1, x1);
    QSquares(d2, y1);
    assert Q1(d1, x1) == d1 * Sq(x1) && Q2(d2, y1) == d2 * Sq(y1);
    SquareSign(x1);
    SquareSign(y1);
    hide Sq, Q1, Q2;
    ProductNonnegative(d1, Sq(x1));
    SignOfProduct(d2, Sq(y1));
    if Q1(d1, x1) > 0.0 {
      ProductNonzero(d1, Sq(x1));
      ProductNonzero(d1, x1);
    }
  }

  /** The product of the two off-diagonal ratios is the ratio of the q's, up to sign. */
  lemma RatioProduct(w: real, t: real, a: real, x: real, b: real, y: real, sign: real)
    requires w * (a * x) == b * y && t * x == sign * y
    ensures (w * t) * (a * x * x) == sign * (b * y * y)
  {
    calc {
      (w * t) * (a * x * x);
      (w * (a * x)) * (t * x);
      (b * y) * (sign * y);
      sign * (b * y * y);
    }
  }

  lemma UOfLargeQ1(d1: real, d2: real, x1: real, y1: real, h12: real, h21: real)
    requires h12 * (d1 * x1) == d2 * y1 && h21 * x1 == -y1
    requires Abs(Q1(d1, x1)) > Abs(Q2(d2, y1)) && Q1(d1, x1) >= 0.0
    ensures UMinus(h12, h21) > 0.0
  {
    RatioProduct(h12, h21, d1, x1, d2, y1, -1.0);
    var q1, q2, r := Q1(d1, x1), Q2(d2, y1), h12 * h21;
    assert r * q1 == -1.0 * q2;
    ScaledDifference(r, q1, q2);
    PositiveFactor(1.0 - r, q1);
  }

  lemma ScaledDifference(r: real, q1: real, q2: real)
    requires r * q1 == -1.0 * q2
    ensures (1.0 - r) * q1 == q1 + q2
  {
  }

  lemma UOfLargeQ2(d1: real, d2: real, x1: real, y1: real, h11: real, h22: real)
    requires h11 * (d2 * y1) == d1 * x1 && h22 * y1 == x1
    requires Q1(d1, x1) >= 0.0 && Q2(d2, y1) > 0.0
    ensures UPlus(h11, h22) >= 1.0
  {
    RatioProduct(h11, h22, d2, y1, d1, x1, 1.0);
    PositiveFactor(h11 * h22, Q2(d2, y1));
  }

  function UMinus(h12: real, h21: real): real { 1.0 - h12 * h21 }

  function UPlus(h11: real, h22: real): real { 1.0 + h11 * h22 }

  /** The branch |q1| > |q2|, from the two ratios. */
  function LargeQ1(d1: real, d2: real, x1: real, h12: real, h21: real): Rot {
    var u := UMinus(h12, h21);
    if u > 0.0 then Rot(Quot(d1, u), Quot(d2, u), x1 * u, 0.0, h12, h21, 0.0, 0.0) else Zeroed
  }

  /** The branch |q1| <= |q2| with q2 >= 0, from the two ratios. */
  function LargeQ2(d1: real, d2: real, y1: real, h11: real, h22: real): Rot
    requires UPlus(h11, h22) != 0.0
  {
    var u := UPlus(h11, h22);
    Rot(Quot(d2, u), Quot(d1, u), y1 * u, h11, 0.0, 0.0, h22, 1.0)
  }

  /** The branch analysis for d1 >= 0 and p2 != 0, before any rescaling. */
  function General(d1: real, d2: real, x1: real, y1: real): Rot
    requires d1 >= 0.0 && d2 * y1 != 0.0
  {
    QFacts(d1, d2, x1, y1);
    var p1, p2 := d1 * x1, d2 * y1;
    if Abs(Q1(d1, x1)) > Abs(Q2(d2, y1)) then
      LargeQ1(d1, d2, x1, Quot(p2, p1), Quot(-y1, x1))
    else if Q2(d2, y1) < 0.0 then
      Zeroed
    else
      UOfLargeQ2(d1, d2, x1, y1, Quot(p1, p2), Quot(x1, y1));
      LargeQ2(d1, d2, y1, Quot(p1, p2), Quot(x1, y1))
  }

  /** Whether the kernel gives up and zeroes everything: |q1| <= |q2| with q2 < 0. */
  predicate GivesUp(d1: real, d2: real, x1: real, y1: real) {
    Abs(Q1(d1, x1)) <= Abs(Q2(d2, y1)) && Q2(d2, y1) < 0.0
  }

  lemma QuotientSign(q: real, a: real, u: real)
    requires u > 0.0 && q * u == a
    ensures q > 0.0 <==> a > 0.0
    ensures q == 0.0 <==> a == 0.0
  {
    ProductNonzero(q, u);
  }

  /** What the results of the branch |q1| > |q2| satisfy, without divisions. */
  ghost predicate LargeQ1Result(d1: real, d2: real, x1: real, y1: real, u: real, g: Rot) {
    && g.flag == 0.0 && u > 0.0 && u == UMinus(g.h12, g.h21)
    && g.h12 * (d1 * x1) == d2 * y1 && g.h21 * x1 == -y1
    && g.d1 * u == d1 && g.d2 * u == d2 && g.x1 == x1 * u
  }

  ghost predicate LargeQ2Result(d1: real, d2: real, x1: real, y1: real, u: real, g: Rot) {
    && g.flag == 1.0 && u >= 1.0 && u == UPlus(g.h11, g.h22)
    && g.h11 * (d2 * y1) == d1 * x1 && g.h22 * y1 == x1
    && g.d1 * u == d2 && g.d2 * u == d1 && g.x1 == y1 * u
  }

  lemma LargeQ1Holds(d1: real, d2: real, x1: real, y1: real, h12: real, h21: real) returns (u: real)
    requires h12 * (d1 * x1) == d2 * y1 && h21 * x1 == -y1
    requires Abs(Q1(d1, x1)) > Abs(Q2(d2, y1)) && Q1(d1, x1) >= 0.0
    ensures LargeQ1Result(d1, d2, x1, y1, u, LargeQ1(d1, d2, x1, h12, h21))
  {
    hide Quot, Q1, Q2, Abs, UPlus, UMinus;
    UOfLargeQ1(d1, d2, x1, y1, h12, h21);
    u := UMinus(h12, h21);
  }

  lemma LargeQ2Holds(d1: real, d2: real, x1: real, y1: real, h11: real, h22: real) returns (u: real)
    requires h11 * (d2 * y1) == d1 * x1 && h22 * y1 == x1
    requires Q1(d1, x1) >= 0.0 && Q2(d2, y1) > 0.0
    ensures UPlus(h11, h22) != 0.0
    ensures LargeQ2Result(d1, d2, x1, y1, u, LargeQ2(d1, d2, y1, h11, h22))
  {
    hide Quot, Q1, Q2, Abs, UPlus, UMinus;
    UOfLargeQ2(d1, d2, x1, y1, h11, h22);
    u := UPlus(h11, h22);
  }

  lemma LargeQ1Branch(d1: real, d2: real, x1: real, y1: real) returns (u: real)
    requires d1 >= 0.0 && d2 * y1 != 0.0 && Abs(Q1(d1, x1)) > Abs(Q2(d2, y1))
    ensures LargeQ1Result(d1, d2, x1, y1, u, General(d1, d2, x1, y1))
  {
    QFacts(d1, d2, x1, y1);
    hide Quot, Q1, Q2, LargeQ1, LargeQ1Result, UMinus;
    u := LargeQ1Holds(d1, d2, x1, y1, Quot(d2 * y1, d1 * x1), Quot(-y1, x1));
  }

  lemma LargeQ2Branch(d1: real, d2: real, x1: real, y1: real) returns (u: real)
    requires d1 >= 0.0 && d2 * y1 != 0.0 && Abs(Q1(d1, x1)) <= Abs(Q2(d2, y1)) && Q2(d2, y1) >= 0.0
    ensures LargeQ2Result(d1, d2, x1, y1, u, General(d1, d2, x1, y1))
  {
    QFacts(d1, d2, x1, y1);
    hide Quot, Q1, Q2, LargeQ2, LargeQ2Result, UPlus;
    u := LargeQ2Holds(d1, d2, x1, y1, Quot(d1 * x1, d2 * y1), Quot(x1, y1));
  }

  /** The zeroing branch for u <= 0 cannot be reached, and the first rescale loop, which
      takes no absolute value, starts from d1 >= 0. */
  lemma GeneralCases(d1: real, d2: real, x1: real, y1: real)
    requires d1 >= 0.0 && d2 * y1 != 0.0
    ensures var g := General(d1, d2, x1, y1);
            && g.d1 >= 0.0
            && (g == Zeroed <==> GivesUp(d1, d2, x1, y1))
            && (g.flag == 0.0 <==> Abs(Q1(d1, x1)) > Abs(Q2(d2, y1)))
            && (!GivesUp(d1, d2, x1, y1) ==> g.d1 > 0.0 && (g.flag == 0.0 || g.flag == 1.0))
            && (g.flag == 0.0 ==> g.d2 != 0.0)
  {
    hide Q1, Q2;
    if Abs(Q1(d1, x1)) > Abs(Q2(d2, y1)) {
      hide General;
      var u := LargeQ1Branch(d1, d2, x1, y1);
      var g := General(d1, d2, x1, y1);
      QuotientSign(g.d1, d1, u);
      QuotientSign(g.d2, d2, u);
      QFacts(d1, d2, x1, y1);
    } else if Q2(d2, y1) >= 0.0 {
      hide General;
      var u := LargeQ2Branch(d1, d2, x1, y1);
      var g := General(d1, d2, x1, y1);
      QFacts(d1, d2, x1, y1);
      QuotientSign(g.d1, d2, u);
    }
  }

  // ------------------------------------------------------------------
  // Rescaling
  // ------------------------------------------------------------------

  predicate InBand(d: real) {
    GammaSqInv < Abs(d) < GammaSq
  }

  /** One pass divides or multiplies d by gamma squared, and its row of H by gamma. */
  function Rescaled(d: real): real {
    if Abs(d) <= GammaSqInv then d * GammaSq else d / GammaSq
  }

  function RowScaled(d: real, x: real): real {
    if Abs(d) <= GammaSqInv then x / Gamma else x * Gamma
  }

  /** Every pass first makes all four entries of H explicit, as if the flag had been 0 or 1. */
  function Explicit(r: Rot): Rot {
    if r.flag == 0.0 then r.(h11 := 1.0, h22 := 1.0, flag := -1.0)
    else r.(h21 := -1.0, h12 := 1.0, flag := -1.0)
  }

  function Pass1(r: Rot): Rot {
    var e := Explicit(r);
    e.(d1 := Rescaled(r.d1), x1 := RowScaled(r.d1, e.x1), h11 := RowScaled(r.d1, e.h11), h12 := RowScaled(r.d1, e.h12))
  }

  function Pass2(r: Rot): Rot {
    var e := Explicit(r);
    e.(d2 := Rescaled(r.d2), h21 := RowScaled(r.d2, e.h21), h22 := RowScaled(r.d2, e.h22))
  }

  ghost function Reciprocal(d: real): (q: real)
    requires d != 0.0
    ensures q * Abs(d) == 1.0 && q > 0.0
  {
    var q := Quot(1.0, Abs(d));
    ReciprocalSign(q, Abs(d));
    q
  }

  lemma ReciprocalSign(q: real, a: real)
    requires a > 0.0 && q * a == 1.0
    ensures q > 0.0
  {
  }

  /** The floor of max(|d|, 1 / |d|), which every pass decreases. */
  ghost function Magnitude(d: real): (m: real)
    requires d != 0.0
    ensures m >= 0.0
  {
    if Abs(d) >= 1.0 then Abs(d) else Reciprocal(d)
  }

  ghost function Measure(d: real): nat
    requires d != 0.0
  {
    Magnitude(d).Floor
  }

  lemma ReciprocalBound(q: real, a: real)
    requires a > 0.0 && q * a == 1.0 && a <= GammaSqInv
    ensures q >= GammaSq
  {
    assert (q - GammaSq) * a == 1.0 - GammaSq * a;
    PositiveFactor(q - GammaSq, a);
  }

  lemma ReciprocalScaled(q: real, a: real, q': real, a': real)
    requires a > 0.0 && q * a == 1.0 && a' == a * GammaSq && q' * a' == 1.0
    ensures q == q' * GammaSq
  {
    assert (q' * GammaSq - q) * a == 0.0;
    ProductNonzero(q' * GammaSq - q, a);
  }

  lemma FloorDrops(m: real, m': real)
    requires m >= GammaSq && m == m' * GammaSq
    ensures 0 <= m'.Floor < m.Floor
  {
    assert m' <= m - 1.0;
  }

  lemma PassDecreases(d: real)
    requires d != 0.0 && !InBand(d)
    ensures Rescaled(d) != 0.0 && Measure(Rescaled(d)) < Measure(d)
  {
    var d' := Rescaled(d);
    if Abs(d) <= GammaSqInv {
      var q, q' := Reciprocal(d), Reciprocal(d');
      ReciprocalBound(q, Abs(d));
      assert Abs(d') == Abs(d) * GammaSq;
      ReciprocalScaled(q, Abs(d), q', Abs(d'));
      FloorDrops(q, q');
      if Abs(d') >= 1.0 {
        assert Abs(d') == 1.0;
        assert Measure(d') == 1;
        assert q >= GammaSq;
      }
    } else {
      assert Abs(d') == Abs(d) / GammaSq;
      FloorDrops(Abs(d), Abs(d'));
    }
  }

  function Loop1(r: Rot): (r': Rot)
    requires r.d1 >= 0.0
    ensures r.d1 == 0.0 ==> r' == r
    ensures r.d1 > 0.0 ==> r'.d1 > 0.0 && InBand(r'.d1)
    ensures r'.d2 == r.d2
    decreases if r.d1 == 0.0 then 0 else Measure(r.d1)
  {
    if r.d1 == 0.0 || InBand(r.d1) then r
    else
      PassDecreases(r.d1);
      Loop1(Pass1(r))
  }

  function Loop2(r: Rot): (r': Rot)
    ensures r.d2 == 0.0 ==> r' == r
    ensures r.d2 != 0.0 ==> InBand(r'.d2) && (r'.d2 > 0.0 <==> r.d2 > 0.0)
    ensures r'.d1 == r.d1 && r'.x1 == r.x1
    decreases if r.d2 == 0.0 then 0 else Measure(r.d2)
  {
    if r.d2 == 0.0 || InBand(r.d2) then r
    else
      PassDecreases(r.d2);
      Loop2(Pass2(r))
  }

  /** The kernel's state after both rescale loops. */
  function Final(d1: real, d2: real, x1: real, y1: real): Rot
    requires d1 >= 0.0 && d2 * y1 != 0.0
  {
    GeneralCases(d1, d2, x1, y1);
    Loop2(Loop1(General(d1, d2, x1, y1)))
  }

  /** Both rescale loops end, with each diagonal entry zero or strictly inside the band. */
  lemma FinalInBand(d1: real, d2: real, x1: real, y1: real)
    requires d1 >= 0.0 && d2 * y1 != 0.0
    ensures var r := Final(d1, d2, x1, y1);
            && r.d1 >= 0.0
            && (r.d1 == 0.0 || 1.0 / 16777216.0 < r.d1 < 16777216.0)
            && (r.d2 == 0.0 || 1.0 / 16777216.0 < Abs(r.d2) < 16777216.0)
  {
    hide General;
    GeneralCases(d1, d2, x1, y1);
  }

  // ------------------------------------------------------------------
  // rotmg_impl
  // ------------------------------------------------------------------

  /** The views the kernel updates. */
  class RotmgViews {
    var d1: real
    var d2: real
    var x1: real
    const param: array<real>

    constructor (d1: real, d2: real, x1: real, param: array<real>)
      ensures this.d1 == d1 && this.d2 == d2 && this.x1 == x1 && this.param == param
    {
      this.d1, this.d2, this.x1, this.param := d1, d2, x1, param;
    }
  }

  /** The entries of param the kernel writes for a given final state. */
  function ParamOut(r: Rot, param: seq<real>): (p: seq<real>)
    requires |param| == 5
    ensures |p| == 5 && p[0] == r.flag
  {
    if r.flag < 0.0 then [r.flag, r.h11, r.h21, r.h12, r.h22]
    else if r.flag == 0.0 then param[2 := r.h21][3 := r.h12][0 := r.flag]
    else param[1 := r.h11][4 := r.h22][0 := r.flag]
  }

  datatype Output = Output(d1: real, d2: real, x1: real, param: seq<real>)

  /** What rotmg leaves in its views. For d1 < 0 param is not written at all. */
  function RotmgSpec(d1: real, d2: real, x1: real, y1: real, param: seq<real>): Output
    requires |param| == 5
  {
    if d1 < 0.0 then
      Output(0.0, 0.0, 0.0, param)
    else if d2 * y1 == 0.0 then
      Output(d1, d2, x1, param[0 := -2.0])
    else
      var r := Final(d1, d2, x1, y1);
      Output(r.d1, r.d2, r.x1, ParamOut(r, param))
  }

  /** The cases in which nothing is rotated, written out: a negative d1 zeroes the scalars and leaves
      param alone, d2 * y1 = 0 sets the flag to -2 and nothing else, and |q1| <= |q2| with q2 < 0
      zeroes everything. */
  lemma SpecialOutputs(d1: real, d2: real, x1: real, y1: real, param: seq<real>)
    requires |param| == 5
    ensures d1 < 0.0 ==> RotmgSpec(d1, d2, x1, y1, param) == Output(0.0, 0.0, 0.0, param)
    ensures d1 >= 0.0 && d2 * y1 == 0.0 ==>
              RotmgSpec(d1, d2, x1, y1, param) == Output(d1, d2, x1, [-2.0] + param[1..])
    ensures d1 >= 0.0 && d2 * y1 != 0.0 && Abs(d1 * x1 * x1) <= Abs(d2 * y1 * y1) && d2 * y1 * y1 < 0.0 ==>
              RotmgSpec(d1, d2, x1, y1, param) == Output(0.0, 0.0, 0.0, [-1.0, 0.0, 0.0, 0.0, 0.0])
  {
    hide General;
    if d1 >= 0.0 && d2 * y1 != 0.0 {
      GeneralCases(d1, d2, x1, y1);
    }
  }

  lemma {:induction false} FlagStays1(r: Rot)
    requires r.d1 >= 0.0 && r.flag == -1.0
    ensures Loop1(r).flag == -1.0
    decreases if r.d1 == 0.0 then 0 else Measure(r.d1)
  {
    hide Measure;
    if r.d1 != 0.0 && !InBand(r.d1) {
      PassDecreases(r.d1);
      FlagStays1(Pass1(r));
    }
  }

  lemma {:induction false} FlagStays2(r: Rot)
    requires r.flag == -1.0
    ensures Loop2(r).flag == -1.0
    decreases if r.d2 == 0.0 then 0 else Measure(r.d2)
  {
    hide Measure;
    if r.d2 != 0.0 && !InBand(r.d2) {
      PassDecreases(r.d2);
      FlagStays2(Pass2(r));
    }
  }

  /** A state that no pass has rescaled keeps its flag; any other has flag -1. */
  lemma ScaledFlag(g: Rot)
    requires g.d1 >= 0.0
    ensures Loop2(Loop1(g)) == g || Loop2(Loop1(g)).flag == -1.0
  {
    hide Measure;
    if g.d1 != 0.0 && !InBand(g.d1) {
      PassDecreases(g.d1);
      FlagStays1(Pass1(g));
      FlagStays2(Loop1(g));
    } else if g.d2 != 0.0 && !InBand(g.d2) {
      PassDecreases(g.d2);
      FlagStays2(Pass2(g));
    }
  }

  lemma FlagOfGeneral(d1: real, d2: real, x1: real, y1: real, param: seq<real>)
    requires |param| == 5 && d1 >= 0.0 && d2 * y1 != 0.0
    ensures var o, g := RotmgSpec(d1, d2, x1, y1, param), General(d1, d2, x1, y1);
            && o.param[0] in {-1.0, 0.0, 1.0}
            && (o.param[0] == 0.0 ==>
                  && Abs(Q1(d1, x1)) > Abs(Q2(d2, y1)) && g.flag == 0.0
                  && o == Output(g.d1, g.d2, g.x1, [0.0, param[1], g.h21, g.h12, param[4]]))
            && (o.param[0] == 1.0 ==>
                  && Abs(Q1(d1, x1)) <= Abs(Q2(d2, y1)) && Q2(d2, y1) >= 0.0 && g.flag == 1.0
                  && o == Output(g.d1, g.d2, g.x1, [1.0, g.h11, param[2], param[3], g.h22]))
  {
    hide General, Loop1, Loop2, Q1, Q2, Abs;
    GeneralCases(d1, d2, x1, y1);
    ScaledFlag(General(d1, d2, x1, y1));
  }

  /** What rotmg computes where |q1| > |q2|, in the values it leaves. */
  ghost predicate FlagZeroValues(d1: real, d2: real, x1: real, y1: real, newD1: real, newD2: real, newX1: real,
                                 h21: real, h12: real) {
    var u := 1.0 - h12 * h21;
    && Abs(d1 * x1 * x1) > Abs(d2 * y1 * y1)
    && h21 * x1 == -y1 && h12 * (d1 * x1) == d2 * y1
    && u > 0.0 && newD1 * u == d1 && newD2 * u == d2 && newX1 == x1 * u
  }

  ghost predicate FlagOneValues(d1: real, d2: real, x1: real, y1: real, newD1: real, newD2: real, newX1: real,
                                h11: real, h22: real) {
    var u := 1.0 + h11 * h22;
    && Abs(d1 * x1 * x1) <= Abs(d2 * y1 * y1)
    && h11 * (d2 * y1) == d1 * x1 && h22 * y1 == x1
    && u >= 1.0 && newD1 * u == d2 && newD2 * u == d1 && newX1 == y1 * u
  }

  lemma ValuesOfLargeQ1(d1: real, d2: real, x1: real, y1: real, u: real, g: Rot)
    requires LargeQ1Result(d1, d2, x1, y1, u, g) && Abs(Q1(d1, x1)) > Abs(Q2(d2, y1))
    ensures FlagZeroValues(d1, d2, x1, y1, g.d1, g.d2, g.x1, g.h21, g.h12)
  {
    hide Abs;
  }

  lemma ValuesOfLargeQ2(d1: real, d2: real, x1: real, y1: real, u: real, g: Rot)
    requires LargeQ2Result(d1, d2, x1, y1, u, g) && Abs(Q1(d1, x1)) <= Abs(Q2(d2, y1))
    ensures FlagOneValues(d1, d2, x1, y1, g.d1, g.d2, g.x1, g.h11, g.h22)
  {
    hide Abs;
  }

  lemma GeneralValues(d1: real, d2: real, x1: real, y1: real)
    requires d1 >= 0.0 && d2 * y1 != 0.0
    ensures var g := General(d1, d2, x1, y1);
            && (Abs(Q1(d1, x1)) > Abs(Q2(d2, y1)) ==>
                  FlagZeroValues(d1, d2, x1, y1, g.d1, g.d2, g.x1, g.h21, g.h12))
            && (Abs(Q1(d1, x1)) <= Abs(Q2(d2, y1)) && Q2(d2, y1) >= 0.0 ==>
                  FlagOneValues(d1, d2, x1, y1, g.d1, g.d2, g.x1, g.h11, g.h22))
  {
    hide General, Abs, Q1, Q2, FlagZeroValues, FlagOneValues, LargeQ1Result, LargeQ2Result;
    if Abs(Q1(d1, x1)) > Abs(Q2(d2, y1)) {
      var u := LargeQ1Branch(d1, d2, x1, y1);
      ValuesOfLargeQ1(d1, d2, x1, y1, u, General(d1, d2, x1, y1));
    } else if Q2(d2, y1) >= 0.0 {
      var u := LargeQ2Branch(d1, d2, x1, y1);
      ValuesOfLargeQ2(d1, d2, x1, y1, u, General(d1, d2, x1, y1));
    }
  }

  /** Flags 0 and 1 tell that no rescale pass ran and which branch did: the entries of param that
      are written, those that are not, and what the values satisfy. */
  lemma FlagsWrittenOut(d1: real, d2: real, x1: real, y1: real, param: seq<real>)
    requires |param| == 5 && d1 >= 0.0 && d2 * y1 != 0.0
    ensures var o := RotmgSpec(d1, d2, x1, y1, param);
            && o.param[0] in {-1.0, 0.0, 1.0}
            && (o.param[0] == 0.0 ==>
                  && o.param[1] == param[1] && o.param[4] == param[4]
                  && FlagZeroValues(d1, d2, x1, y1, o.d1, o.d2, o.x1, o.param[2], o.param[3]))
            && (o.param[0] == 1.0 ==>
                  && o.param[2] == param[2] && o.param[3] == param[3]
                  && FlagOneValues(d1, d2, x1, y1, o.d1, o.d2, o.x1, o.param[1], o.param[4]))
  {
    hide General, RotmgSpec, Abs, FlagZeroValues, FlagOneValues, Q1, Q2;
    FlagOfGeneral(d1, d2, x1, y1, param);
    GeneralValues(d1, d2, x1, y1);
  }

  method RotmgImpl(v: RotmgViews, y1: real)
    requires v.param.Length == 5
    modifies v, v.param
    ensures var o := RotmgSpec(old(v.d1), old(v.d2), old(v.x1), y1, old(v.param[..]));
            v.d1 == o.d1 && v.d2 == o.d2 && v.x1 == o.x1 && v.param[..] == o.param
  {
    hide General, Loop1, Loop2;
    var flag := 0.0;
    if v.d1 < 0.0 {
      flag := -1.0;
      v.d1, v.d2, v.x1 := 0.0, 0.0, 0.0;
      return;
    }
    var p2 := v.d2 * y1;
    if p2 == 0.0 {
      flag := -2.0;
      v.param[0] := flag;
      return;
    }
    GeneralCases(v.d1, v.d2, v.x1, y1);
    var h11, h12, h21, h22;
    flag, h11, h12, h21, h22 := Branches(v, y1, p2);
    flag, h11, h12, h21, h22 := Rescale(v, flag, h11, h12, h21, h22);
    if flag < 0.0 {
      v.param[1] := h11;
      v.param[2] := h21;
      v.param[3] := h12;
      v.param[4] := h22;
    } else if flag == 0.0 {
      v.param[2] := h21;
      v.param[3] := h12;
    } else {
      v.param[1] := h11;
      v.param[4] := h22;
    }
    v.param[0] := flag;
  }

  /** Rotmg_Invoke: the kernel on one work item. */
  method Invoke(v: RotmgViews, y1: real)
    requires v.param.Length == 5
    modifies v, v.param
    ensures var o := RotmgSpec(old(v.d1), old(v.d2), old(v.x1), y1, old(v.param[..]));
            v.d1 == o.d1 && v.d2 == o.d2 && v.x1 == o.x1 && v.param[..] == o.param
    ensures old(v.d1) < 0.0 ==> v.d1 == v.d2 == v.x1 == 0.0 && v.param[..] == old(v.param[..])
    ensures old(v.d1) >= 0.0 && old(v.d2) * y1 == 0.0 ==>
              && v.d1 == old(v.d1) && v.d2 == old(v.d2) && v.x1 == old(v.x1)
              && v.param[0] == -2.0 && v.param[1..] == old(v.param[1..])
    ensures old(v.d1) >= 0.0 && old(v.d2) * y1 != 0.0
            && Abs(old(v.d1) * old(v.x1) * old(v.x1)) <= Abs(old(v.d2) * y1 * y1) && old(v.d2) * y1 * y1 < 0.0 ==>
              v.d1 == v.d2 == v.x1 == 0.0 && v.param[..] == [-1.0, 0.0, 0.0, 0.0, 0.0]
  {
    hide RotmgSpec, Abs;
    SpecialOutputs(v.d1, v.d2, v.x1, y1, v.param[..]);
    RotmgImpl(v, y1);
  }

  /** The general case up to the rescale loops. */
  method Branches(v: RotmgViews, y1: real, p2: real)
    returns (flag: real, h11: real, h12: real, h21: real, h22: real)
    requires v.d1 >= 0.0 && p2 == v.d2 * y1 && p2 != 0.0
    modifies v
    ensures Rot(v.d1, v.d2, v.x1, h11, h12, h21, h22, flag) == General(old(v.d1), old(v.d2), old(v.x1), y1)
  {
    hide Quot, LargeQ1, LargeQ2, UPlus;
    h11, h12, h21, h22 := 0.0, 0.0, 0.0, 0.0;
    var p1 := v.d1 * v.x1;
    var q1 := p1 * v.x1;
    var q2 := p2 * y1;
    assert q1 == Q1(v.d1, v.x1) && q2 == Q2(v.d2, y1);
    QFacts(v.d1, v.d2, v.x1, y1);
    hide Q1, Q2;
    if Abs(q1) > Abs(q2) {
      flag, h11, h12, h21, h22 := LargeQ1Case(v, y1, p1, p2);
    } else if q2 < 0.0 {
      flag := -1.0;
      h11, h12, h21, h22 := 0.0, 0.0, 0.0, 0.0;
      v.d1, v.d2, v.x1 := 0.0, 0.0, 0.0;
    } else {
      UOfLargeQ2(v.d1, v.d2, v.x1, y1, Quot(p1, p2), Quot(v.x1, y1));
      flag, h11, h12, h21, h22 := LargeQ2Case(v, y1, p1, p2);
    }
  }

  method LargeQ1Case(v: RotmgViews, y1: real, p1: real, p2: real)
    returns (flag: real, h11: real, h12: real, h21: real, h22: real)
    requires v.x1 != 0.0 && p1 != 0.0
    modifies v
    ensures Rot(v.d1, v.d2, v.x1, h11, h12, h21, h22, flag)
            == LargeQ1(old(v.d1), old(v.d2), old(v.x1), Quot(p2, p1), Quot(-y1, old(v.x1)))
  {
    hide Quot, UMinus;
    h11, h22 := 0.0, 0.0;
    h21 := Quot(-y1, v.x1);
    h12 := Quot(p2, p1);
    var u := UMinus(h12, h21);
    if u > 0.0 {
      flag := 0.0;
      v.d1 := Quot(v.d1, u);
      v.d2 := Quot(v.d2, u);
      v.x1 := v.x1 * u;
    } else {
      flag := -1.0;
      h11, h12, h21, h22 := 0.0, 0.0, 0.0, 0.0;
      v.d1, v.d2, v.x1 := 0.0, 0.0, 0.0;
    }
  }

  method LargeQ2Case(v: RotmgViews, y1: real, p1: real, p2: real)
    returns (flag: real, h11: real, h12: real, h21: real, h22: real)
    requires y1 != 0.0 && p2 != 0.0 && UPlus(Quot(p1, p2), Quot(v.x1, y1)) != 0.0
    modifies v
    ensures Rot(v.d1, v.d2, v.x1, h11, h12, h21, h22, flag)
            == LargeQ2(old(v.d1), old(v.d2), y1, Quot(p1, p2), Quot(old(v.x1), y1))
  {
    hide Quot, UPlus;
    h12, h21 := 0.0, 0.0;
    flag := 1.0;
    h11 := Quot(p1, p2);
    h22 := Quot(v.x1, y1);
    var u := UPlus(h11, h22);
    var tmp := Quot(v.d2, u);
    v.d2 := Quot(v.d1, u);
    v.d1 := tmp;
    v.x1 := y1 * u;
  }

  /** Both rescale loops. */
  method Rescale(v: RotmgViews, flag0: real, h11_0: real, h12_0: real, h21_0: real, h22_0: real)
    returns (flag: real, h11: real, h12: real, h21: real, h22: real)
    requires v.d1 >= 0.0
    modifies v
    ensures Rot(v.d1, v.d2, v.x1, h11, h12, h21, h22, flag)
            == Loop2(Loop1(Rot(old(v.d1), old(v.d2), old(v.x1), h11_0, h12_0, h21_0, h22_0, flag0)))
  {
    flag, h11, h12, h21, h22 := RescaleD1(v, flag0, h11_0, h12_0, h21_0, h22_0);
    flag, h11, h12, h21, h22 := RescaleD2(v, flag, h11, h12, h21, h22);
  }

  /** Rescales d1, h11 and h12. */
  method RescaleD1(v: RotmgViews, flag0: real, h11_0: real, h12_0: real, h21_0: real, h22_0: real)
    returns (flag: real, h11: real, h12: real, h21: real, h22: real)
    requires v.d1 >= 0.0
    modifies v
    ensures Rot(v.d1, v.d2, v.x1, h11, h12, h21, h22, flag)
            == Loop1(Rot(old(v.d1), old(v.d2), old(v.x1), h11_0, h12_0, h21_0, h22_0, flag0))
  {
    hide Measure;
    flag, h11, h12, h21, h22 := flag0, h11_0, h12_0, h21_0, h22_0;
    ghost var r0 := Rot(v.d1, v.d2, v.x1, h11, h12, h21, h22, flag);
    if v.d1 != 0.0 {
      while v.d1 <= GammaSqInv || v.d1 >= GammaSq
        invariant v.d1 > 0.0
        invariant Loop1(Rot(v.d1, v.d2, v.x1, h11, h12, h21, h22, flag)) == Loop1(r0)
        decreases Measure(v.d1)
      {
        PassDecreases(v.d1);
        if flag == 0.0 {
          h11 := 1.0;
          h22 := 1.0;
          flag := -1.0;
        } else {
          h21 := -1.0;
          h12 := 1.0;
          flag := -1.0;
        }
        if v.d1 <= GammaSqInv {
          v.d1 := v.d1 * GammaSq;
          v.x1 := v.x1 / Gamma;
          h11 := h11 / Gamma;
          h12 := h12 / Gamma;
        } else {
          v.d1 := v.d1 / GammaSq;
          v.x1 := v.x1 * Gamma;
          h11 := h11 * Gamma;
          h12 := h12 * Gamma;
        }
      }
    }
  }

  /** Rescales d2, h21 and h22. */
  method RescaleD2(v: RotmgViews, flag0: real, h11_0: real, h12_0: real, h21_0: real, h22_0: real)
    returns (flag: real, h11: real, h12: real, h21: real, h22: real)
    modifies v
    ensures Rot(v.d1, v.d2, v.x1, h11, h12, h21, h22, flag)
            == Loop2(Rot(old(v.d1), old(v.d2), old(v.x1), h11_0, h12_0, h21_0, h22_0, flag0))
  {
    hide Measure;
    flag, h11, h12, h21, h22 := flag0, h11_0, h12_0, h21_0, h22_0;
    ghost var r0 := Rot(v.d1, v.d2, v.x1, h11, h12, h21, h22, flag);
    if v.d2 != 0.0 {
      while Abs(v.d2) <= GammaSqInv || Abs(v.d2) >= GammaSq
        invariant v.d2 != 0.0
        invariant Loop2(Rot(v.d1, v.d2, v.x1, h11, h12, h21, h22, flag)) == Loop2(r0)
        decreases Measure(v.d2)
      {
        PassDecreases(v.d2);
        if flag == 0.0 {
          h11 := 1.0;
          h22 := 1.0;
          flag := -1.0;
        } else {
          h21 := -1.0;
          h12 := 1.0;
          flag := -1.0;
        }
        if Abs(v.d2) <= GammaSqInv {
          v.d2 := v.d2 * GammaSq;
          h21 := h21 / Gamma;
          h22 := h22 / Gamma;
        } else {
          v.d2 := v.d2 / GammaSq;
          h21 := h21 * Gamma;
          h22 := h22 * Gamma;
        }
      }
    }
  }
}
