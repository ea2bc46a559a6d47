/**
 rot applies a plane rotation to two vectors in place.
 */
module Rot {
  import opened RealAlgebra
  import opened Scalars
  import opened ComplexAlgebra
  import opened Matrices
  import Rotg
  import ComplexRotg

  datatype Pair = Pair(x: Complex, y: Complex)

  /** What one entry pair becomes; s is not conjugated, also for complex vectors. */
  function RotPoint(c: Complex, s: Complex, p: Pair): Pair {
    Pair(Add(Mul(c, p.x), Mul(s, p.y)), Add(Mul(c, p.y), Neg(Mul(s, p.x))))
  }

  method Entry(x: array<Complex>, y: array<Complex>, c: Complex, s: Complex, i: int)
    requires x != y && 0 <= i < x.Length <= y.Length
    modifies x, y
    ensures Pair(x[i], y[i]) == RotPoint(c, s, Pair(old(x[i]), old(y[i])))
    ensures x[..] == old(x[..])[i := x[i]] && y[..] == old(y[..])[i := y[i]]
  {
    hide Mul, Add;
    var temp := Add(Mul(c, x[i]), Mul(s, y[i]));
    y[i] := Add(Mul(c, y[i]), Neg(Mul(s, x[i])));
    x[i] := temp;
  }

  /** Rot_Invoke: the entries in any order. */
  method Invoke(x: array<Complex>, y: array<Complex>, c: Complex, s: Complex)
    requires x != y && x.Length <= y.Length
    modifies x, y
    ensures forall i :: 0 <= i < x.Length ==> Pair(x[i], y[i]) == RotPoint(c, s, Pair(old(x[i]), old(y[i])))
    ensures forall i :: x.Length <= i < y.Length ==> y[i] == old(y[i])
  {
    hide RotPoint;
    var todo := Ranks(x.Length);
    while todo != {}
      invariant todo <= Ranks(x.Length)
      invariant forall i :: 0 <= i < x.Length ==>
                  Pair(x[i], y[i]) == if i in todo then Pair(old(x[i]), old(y[i]))
                                      else RotPoint(c, s, Pair(old(x[i]), old(y[i])))
      invariant forall i :: x.Length <= i < y.Length ==> y[i] == old(y[i])
      decreases todo
    {
      var i :| i in todo;
      Entry(x, y, c, s, i);
      todo := todo - {i};
    }
  }

  // ------------------------------------------------------------------
  // Undoing a rotation
  // ------------------------------------------------------------------

  function SumSq(c: Complex, s: Complex): Complex { Add(Mul(c, c), Mul(s, s)) }

  lemma UndoAlgebra(c: Complex, s: Complex, x: Complex, y: Complex)
    ensures Add(Mul(c, Add(Mul(c, x), Mul(s, y))), Mul(Neg(s), Add(Mul(c, y), Neg(Mul(s, x))))) == Mul(SumSq(c, s), x)
  {
    calc {
      Mul(c, Add(Mul(c, x), Mul(s, y)));
      { MulDistributes(c, Mul(c, x), Mul(s, y)); MulAssoc(c, c, x); }
      Add(Mul(Mul(c, c), x), Mul(c, Mul(s, y)));
    }
    calc {
      Mul(Neg(s), Add(Mul(c, y), Neg(Mul(s, x))));
      {
        MulDistributes(Neg(s), Mul(c, y), Neg(Mul(s, x)));
        MulNeg(s, Mul(c, y));
        MulNeg(s, Neg(Mul(s, x)));
        MulNeg2(s, Mul(s, x));
        MulAssoc(s, s, x);
      }
      Add(Neg(Mul(s, Mul(c, y))), Mul(Mul(s, s), x));
    }
    MulSwap(c, s, y);
    MulDistributes(x, Mul(c, c), Mul(s, s));
    MulComm(x, Mul(c, c));
    MulComm(x, Mul(s, s));
    MulComm(x, SumSq(c, s));
    hide Mul;
  }

  lemma MulNeg(s: Complex, z: Complex)
    ensures Mul(Neg(s), z) == Neg(Mul(s, z))
  {
  }

  lemma MulNeg2(s: Complex, z: Complex)
    ensures Mul(s, Neg(z)) == Neg(Mul(s, z)) && Neg(Neg(Mul(s, z))) == Mul(s, z)
  {
  }

  lemma MulSwap(c: Complex, s: Complex, y: Complex)
    ensures Mul(c, Mul(s, y)) == Mul(s, Mul(c, y))
  {
    MulAssoc(c, s, y);
    MulAssoc(s, c, y);
    MulComm(c, s);
  }

  /** Rotating by (c, s) and then by (c, -s) scales every pair by c^2 + s^2. */
  lemma UndoScales(c: Complex, s: Complex, p: Pair)
    ensures RotPoint(c, Neg(s), RotPoint(c, s, p)) == Pair(Mul(SumSq(c, s), p.x), Mul(SumSq(c, s), p.y))
  {
    hide Mul, Add, SumSq;
    UndoAlgebra(c, s, p.x, p.y);
    UndoAlgebra(c, Neg(s), p.y, p.x);
    UndoNegated(c, s, p.x, p.y);
  }

  /** The second component is the first one with x and y exchanged and s negated. */
  lemma UndoNegated(c: Complex, s: Complex, x: Complex, y: Complex)
    ensures Neg(Neg(s)) == s && SumSq(c, Neg(s)) == SumSq(c, s)
    ensures Add(Mul(c, y), Mul(Neg(s), x)) == Add(Mul(c, y), Neg(Mul(s, x)))
    ensures Add(Mul(c, x), Neg(Mul(Neg(s), y))) == Add(Mul(c, x), Mul(s, y))
    ensures var u, v := Add(Mul(c, x), Mul(s, y)), Add(Mul(c, y), Neg(Mul(s, x)));
            Add(Mul(c, v), Neg(Mul(Neg(s), u))) == Add(Mul(c, v), Mul(s, u))
  {
    MulNeg(s, x);
    MulNeg(s, y);
    MulNeg(s, s);
    MulNeg2(s, s);
    MulNeg(s, Neg(s));
    MulNeg(s, Add(Mul(c, x), Mul(s, y)));
    hide Mul;
  }

  ghost predicate Undoes(c: Complex, s: Complex) {
    forall p :: RotPoint(c, Neg(s), RotPoint(c, s, p)) == p
  }

  /** (c, -s) undoes (c, s) on every pair exactly when c^2 + s^2 = 1. */
  lemma UndoExact(c: Complex, s: Complex)
    ensures Undoes(c, s) <==> SumSq(c, s) == One
  {
    hide Mul, RotPoint, SumSq;
    if SumSq(c, s) == One {
      forall p
        ensures RotPoint(c, Neg(s), RotPoint(c, s, p)) == p
      {
        UndoScales(c, s, p);
        MulUnits(p.x);
        MulUnits(p.y);
      }
    }
    if Undoes(c, s) {
      var p := Pair(One, One);
      assert RotPoint(c, Neg(s), RotPoint(c, s, p)) == p;
      UndoScales(c, s, p);
      MulUnits(SumSq(c, s));
    }
  }

  /** A caller's sequence: rotate two vectors, then rotate them back. */
  method RotateAndBack(x: array<Complex>, y: array<Complex>, c: Complex, s: Complex)
    requires x != y && x.Length <= y.Length
    modifies x, y
    ensures SumSq(c, s) == One ==> x[..] == old(x[..]) && y[..] == old(y[..])
  {
    hide RotPoint;
    UndoExact(c, s);
    ghost var x0, y0 := x[..], y[..];
    Invoke(x, y, c, s);
    Invoke(x, y, c, Neg(s));
    if SumSq(c, s) == One {
      forall i | 0 <= i < x.Length
        ensures x[i] == x0[i] && y[i] == y0[i]
      {
        var p := Pair(x0[i], y0[i]);
        assert Pair(x[i], y[i]) == RotPoint(c, Neg(s), RotPoint(c, s, p));
      }
    }
  }

  // ------------------------------------------------------------------
  // Applying what rotg built
  // ------------------------------------------------------------------

  /** The real rotation turns its own pair into (r, 0) and can be undone. */
  lemma RealRotation(a: real, b: real, g: Rotg.Givens)
    requires Rotg.GivensOf(a, b, g)
    ensures RotPoint(Real(g.c), Real(g.s), Pair(Real(a), Real(b))) == Pair(Real(g.r), Zero)
    ensures Undoes(Real(g.c), Real(g.s))
  {
    hide Mul, Times, Sq, Undoes, Rotg.GivensOf;
    Rotg.GivensLaws(a, b, g);
    UndoExact(Real(g.c), Real(g.s));
    RealMul(g.c, a);
    RealMul(g.s, b);
    RealMul(g.c, b);
    RealMul(g.s, a);
    RealMul(g.c, g.c);
    RealMul(g.s, g.s);
    SqIsTimes(g.c);
    SqIsTimes(g.s);
  }

  lemma RealMul(x: real, y: real)
    ensures Mul(Real(x), Real(y)) == Real(Times(x, y))
  {
  }

  lemma ScaleIsMul(c: real, z: Complex)
    ensures Scale(c, z) == Mul(Real(c), z)
  {
  }

  lemma ConjugateDifference(s: Complex, a: Complex)
    ensures Add(Mul(Conj(s), a), Neg(Mul(s, a))) == Complex(2.0 * Times(s.im, a.im), -2.0 * Times(s.im, a.re))
  {
  }

  lemma ImaginaryPart(s: Complex, a: Complex)
    ensures Mul(Mul(Conj(s), a), Conj(a)).im == -Times(s.im, NormSq(a))
  {
  }

  lemma ImaginaryOfScaled(c: real, z: Complex)
    ensures Scale(c, z).im == Times(c, z.im)
  {
  }

  lemma TimesNonzero(x: real, y: real)
    ensures Times(x, y) != 0.0 <==> x != 0.0 && y != 0.0
  {
    ProductNonzero(x, y);
  }

  /** What GivensOf says of the off-diagonal entry: s is real exactly when b conj(a) is. */
  lemma RealSine(a: Complex, b: Complex, r: Complex, c: real, s: Complex)
    requires ComplexRotg.GivensOf(a, b, r, c, s) && a != Zero
    ensures s.im == 0.0 <==> Mul(b, Conj(a)).im == 0.0
  {
    hide Mul, Times, Scale, Sq;
    var z := Mul(Conj(s), a);
    assert Scale(c, b) == z;
    ImaginaryPart(s, a);
    ScaleOfProduct(c, b, Conj(a));
    ImaginaryOfScaled(c, Mul(b, Conj(a)));
    SineNonzero(a, b, c, s);
    SquareSign(a.re);
    SquareSign(a.im);
    TimesNonzero(s.im, NormSq(a));
    TimesNonzero(c, Mul(b, Conj(a)).im);
  }

  lemma SineNonzero(a: Complex, b: Complex, c: real, s: Complex)
    requires a != Zero && Sq(c) + NormSq(s) == 1.0 && Scale(c, b) == Mul(Conj(s), a)
    ensures c != 0.0
  {
    if c == 0.0 {
      ScaleByZero(b);
      ConjTimes(s, a);
      assert Sq(0.0) == 0.0;
      hide Sq, Mul, NormSq, Times, Scale;
      TimesNonzero(NormSq(s), NormSq(a));
      NonzeroNorm(a);
    }
  }

  lemma NonzeroNorm(a: Complex)
    requires a != Zero
    ensures NormSq(a) != 0.0
  {
    SquareSign(a.re);
    SquareSign(a.im);
    hide Sq;
  }

  lemma ConjTimes(s: Complex, a: Complex)
    ensures Mul(Conj(s), a) == Zero ==> Times(NormSq(s), NormSq(a)) == 0.0
  {
    NormSqLaws(1.0, Conj(s), Conj(a));
    assert Conj(Conj(a)) == a && NormSq(Conj(s)) == NormSq(s) && NormSq(Conj(a)) == NormSq(a);
  }

  /** Applying the complex rotation with rot always gives r in the first entry, but because
      rot does not conjugate s the second entry is zero exactly when b conj(a) is real. */
  lemma ComplexRotation(a: Complex, b: Complex, r: Complex, c: real, s: Complex)
    requires ComplexRotg.GivensOf(a, b, r, c, s)
    ensures RotPoint(Real(c), s, Pair(a, b)).x == r
    ensures RotPoint(Real(c), s, Pair(a, b)).y == Zero <==> Mul(b, Conj(a)).im == 0.0
  {
    hide Mul, Scale, Sq, Times;
    ScaleIsMul(c, a);
    ScaleIsMul(c, b);
    var z := Mul(Conj(s), a);
    assert Mul(Real(c), b) == z;
    if a == Zero {
      MulUnits(Conj(s));
      MulUnits(s);
      MulUnits(b);
    } else {
      ConjugateDifference(s, a);
      RealSine(a, b, r, c, s);
      TimesNonzero(s.im, a.re);
      TimesNonzero(s.im, a.im);
    }
  }

  /** Products of purely real and purely imaginary numbers. */
  lemma AxisProducts(p: real, q: real)
    ensures Mul(Complex(p, 0.0), Complex(q, 0.0)) == Complex(p * q, 0.0)
    ensures Mul(Complex(0.0, p), Complex(0.0, q)) == Complex(-(p * q), 0.0)
    ensures Mul(Complex(0.0, p), Complex(q, 0.0)) == Complex(0.0, p * q)
    ensures Mul(Complex(q, 0.0), Complex(0.0, p)) == Complex(0.0, p * q)
    ensures Scale(p, Complex(q, 0.0)) == Complex(p * q, 0.0) && Scale(p, Complex(0.0, q)) == Complex(0.0, p * q)
  {
  }

  lemma AxisNorms(p: real, q: real)
    ensures Sq(p) + NormSq(Complex(0.0, q)) == p * p + q * q
  {
  }

  /** c = 3/5 and s = -4i/5 rotate (3, 4i) to (5, 0). */
  lemma ThreeFourGivens()
    ensures ComplexRotg.GivensOf(Real(3.0), Complex(0.0, 4.0), Real(5.0), 0.6, Complex(0.0, -0.8))
  {
    hide Mul, Scale, Sq, NormSq, Add;
    ThreeFourRows();
    AxisNorms(0.6, -0.8);
  }

  lemma ThreeFourRows()
    ensures Add(Scale(0.6, Real(3.0)), Mul(Complex(0.0, -0.8), Complex(0.0, 4.0))) == Real(5.0)
    ensures Add(Scale(0.6, Complex(0.0, 4.0)), Neg(Mul(Conj(Complex(0.0, -0.8)), Real(3.0)))) == Zero
  {
    hide Mul, Scale;
    AxisProducts(0.6, 3.0);
    AxisProducts(-0.8, 4.0);
    AxisProducts(0.6, 4.0);
    AxisProducts(0.8, 3.0);
  }

  lemma ThreeFourRot()
    ensures RotPoint(Real(0.6), Complex(0.0, -0.8), Pair(Real(3.0), Complex(0.0, 4.0)))
            == Pair(Real(5.0), Complex(0.0, 4.8))
  {
    hide Mul;
    AxisProducts(0.6, 3.0);
    AxisProducts(-0.8, 4.0);
    AxisProducts(4.0, 0.6);
    AxisProducts(-0.8, 3.0);
  }

  /** So rot after rotg can miss: for a = 3 and b = 4i rotg gives c = 3/5, s = -4i/5 and r = 5,
      and rot leaves 24i/5 where the zero should be. */
  lemma ComplexRotationMisses()
    ensures ComplexRotg.GivensOf(Real(3.0), Complex(0.0, 4.0), Real(5.0), 0.6, Complex(0.0, -0.8))
    ensures RotPoint(Real(0.6), Complex(0.0, -0.8), Pair(Real(3.0), Complex(0.0, 4.0)))
            == Pair(Real(5.0), Complex(0.0, 4.8))
  {
    hide ComplexRotg.GivensOf, RotPoint;
    ThreeFourGivens();
    ThreeFourRot();
  }
}
