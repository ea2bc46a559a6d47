/**
 The Givens rotation of a complex pair.
 */
module ComplexRotg {
  import opened RealAlgebra
  import opened Scalars
  import opened ComplexAlgebra

  ghost predicate IsAbs(abs: Complex -> real) {
    forall z :: abs(z) >= 0.0 && Sq(abs(z)) == NormSq(z)
  }

  /** Any of the square roots a complex sqrt may return. */
  ghost predicate IsComplexSqrt(sqrt: Complex -> Complex) {
    forall z :: Mul(sqrt(z), sqrt(z)) == z
  }

  class ComplexRotgArgs {
    var a: Complex
    var b: Complex
    var c: real
    var s: Complex
  }

  // ------------------------------------------------------------------
  // The norm
  // ------------------------------------------------------------------

  /** The modulus of a square root of a nonnegative real is its real square root. */
  lemma ModulusOfRoot(w: Complex, m: real, x: real)
    requires Mul(w, w) == Real(x) && x >= 0.0 && Sq(m) == NormSq(w)
    ensures Sq(m) == x
  {
    assert w.re * w.re - w.im * w.im == x && 2.0 * (w.re * w.im) == 0.0;
    ProductNonzero(w.re, w.im);
    SquareSign(w.im);
  }

  lemma ScaledModulus(z: Complex, n: real, m: real)
    requires n != 0.0 && Sq(m) == NormSq(DividedBy(z, n))
    ensures Times(Sq(m), Sq(n)) == NormSq(z)
  {
    QuotTimes(z.re, n);
    QuotTimes(z.im, n);
    SumOfSquares(Quot(z.re, n), Quot(z.im, n), n, Sq(m));
    hide Quot, Times, Sq;
  }

  lemma SumOfSquares(x: real, y: real, n: real, m2: real)
    requires m2 == Sq(x) + Sq(y)
    ensures Times(m2, Sq(n)) == Sq(Times(x, n)) + Sq(Times(y, n))
  {
  }

  /** The scaled computation yields the Euclidean norm of the pair. */
  lemma NormOfPair(a: Complex, b: Complex, n: real, abs: Complex -> real, sqrt: Complex -> Complex)
    requires IsAbs(abs) && IsComplexSqrt(sqrt) && n > 0.0
    ensures var scaledA, scaledB := Real(abs(DividedBy(a, n))), Real(abs(DividedBy(b, n)));
            var norm := Times(abs(sqrt(Add(Mul(scaledA, scaledA), Mul(scaledB, scaledB)))), n);
            norm >= 0.0 && Sq(norm) == NormSq(a) + NormSq(b)
  {
    hide Sq, Mul, Add, DividedBy, NormSq;
    var x, y := abs(DividedBy(a, n)), abs(DividedBy(b, n));
    SquareOfReal(x, y);
    SquareSign(x);
    SquareSign(y);
    var w := sqrt(Real(Sq(x) + Sq(y)));
    assert Mul(w, w) == Real(Sq(x) + Sq(y));
    ModulusOfRoot(w, abs(w), Sq(x) + Sq(y));
    ProductNonnegative(abs(w), n);
    assert Times(abs(w), n) >= 0.0;
    hide Times;
    SquareOfTimes(abs(w), n);
    TimesAdds(Sq(x), Sq(y), Sq(n));
    ScaledModulus(a, n, x);
    ScaledModulus(b, n, y);
  }

  // ------------------------------------------------------------------
  // rotg_impl
  // ------------------------------------------------------------------

  /** The contract of the complex rotation: c is real and nonnegative, [c s; -conj(s) c]
      is unitary and turns (a, b) into (r, 0). */
  ghost predicate GivensOf(a: Complex, b: Complex, r: Complex, c: real, s: Complex) {
    && c >= 0.0 && Sq(c) + NormSq(s) == 1.0
    && Add(Scale(c, a), Mul(s, b)) == r
    && Add(Scale(c, b), Neg(Mul(Conj(s), a))) == Zero
  }

  lemma NormOfZero(a: Complex, m: real)
    requires m >= 0.0 && Sq(m) == NormSq(a)
    ensures m == 0.0 <==> a == Zero
  {
    SquareSign(m);
    SquareSign(a.re);
    SquareSign(a.im);
    assert Sq(0.0) == 0.0;
    hide Sq;
  }

  /** The unit vector along a. */
  lemma UnitAlong(a: Complex, m: real, u: Complex)
    requires m != 0.0 && Sq(m) == NormSq(a) && Scale(m, u) == a
    ensures NormSq(u) == 1.0 && Mul(Conj(u), a) == Real(m)
  {
    NormSqLaws(m, u, u);
    SquareSign(m);
    OneTimes(Sq(m));
    assert Times(Sq(m), NormSq(u)) == Times(NormSq(u), Sq(m));
    TimesCancel(NormSq(u), 1.0, Sq(m));
    ConjSelf(u, m);
  }

  lemma ConjSelf(u: Complex, m: real)
    requires NormSq(u) == 1.0
    ensures Mul(Conj(u), Scale(m, u)) == Real(m)
  {
  }

  /** c^2 + |s|^2 = 1. */
  lemma Unitary(b: Complex, m: real, n: real, u: Complex, c: real, s: Complex, nb: real)
    requires n != 0.0 && NormSq(u) == 1.0 && Sq(n) == Sq(m) + nb && nb == NormSq(b)
    requires Times(c, n) == m && Scale(n, s) == Mul(u, Conj(b))
    ensures Sq(c) + NormSq(s) == 1.0
  {
    hide Sq, NormSq, Mul, Scale, Times;
    NormSqLaws(n, s, s);
    NormSqLaws(n, u, b);
    OneTimes(NormSq(b));
    SquareOfTimes(c, n);
    SquareSign(n);
    TimesAssoc(Sq(n), NormSq(s), 1.0);
    TimesAdds(Sq(c), NormSq(s), Sq(n));
    OneTimes(Sq(n));
    TimesCancel(Sq(c) + NormSq(s), 1.0, Sq(n));
  }

  /** c a + s b = r. */
  lemma FirstRow(a: Complex, b: Complex, m: real, n: real, u: Complex, c: real, s: Complex)
    requires n != 0.0 && Scale(m, u) == a && Sq(n) == Sq(m) + NormSq(b)
    requires Times(c, n) == m && Scale(n, s) == Mul(u, Conj(b))
    ensures Add(Scale(c, a), Mul(s, b)) == Scale(n, u)
  {
    hide Sq, NormSq, Mul, Scale, Times, Add;
    ScaleLaws(n, c, a, Mul(s, b));
    ScaleLaws(n, c, Scale(c, a), Mul(s, b));
    ScaleOfProduct(n, s, b);
    TimesAssoc(n, c, 1.0);
    ScaleLaws(m, m, u, u);
    ConjTimesSelf(u, b);
    ScaleLaws(Times(m, m), NormSq(b), u, u);
    ScaleLaws(n, n, u, u);
    SqIsTimes(m);
    SqIsTimes(n);
    ScaleCancel(n, Add(Scale(c, a), Mul(s, b)), Scale(n, u));
  }

  /** c b - conj(s) a = 0. */
  lemma SecondRow(a: Complex, b: Complex, m: real, n: real, u: Complex, c: real, s: Complex)
    requires n != 0.0 && Mul(Conj(u), a) == Real(m)
    requires Times(c, n) == m && Scale(n, s) == Mul(u, Conj(b))
    ensures Add(Scale(c, b), Neg(Mul(Conj(s), a))) == Zero
  {
    calc {
      Scale(n, Mul(Conj(s), a));
      { ScaleOfProduct(n, Conj(s), a); ScaleLaws(n, n, s, s); }
      Mul(Conj(Mul(u, Conj(b))), a);
      { ConjugateProduct(u, b, a); }
      Mul(b, Mul(Conj(u), a));
      { RealFactor(b, m); }
      Scale(m, b);
      { TimesAssoc(n, c, 1.0); ScaleLaws(n, c, b, b); }
      Scale(n, Scale(c, b));
    }
    ScaleCancel(n, Mul(Conj(s), a), Scale(c, b));
  }

  lemma ConjugateProduct(u: Complex, b: Complex, a: Complex)
    ensures Mul(Conj(Mul(u, Conj(b))), a) == Mul(b, Mul(Conj(u), a))
  {
    hide Mul;
    ConjMul(u, Conj(b));
    assert Conj(Conj(b)) == b;
    MulComm(Conj(u), b);
    MulAssoc(b, Conj(u), a);
  }

  lemma RealFactor(b: Complex, m: real)
    ensures Mul(b, Real(m)) == Scale(m, b)
  {
  }

  lemma CosineSign(c: real, n: real, m: real)
    requires n > 0.0 && Times(c, n) == m && m >= 0.0
    ensures c >= 0.0
  {
    SignOfProduct(c, n);
  }

  lemma RotationOf(a: Complex, b: Complex, m: real, n: real, u: Complex, c: real, s: Complex)
    requires m > 0.0 && n > 0.0 && Sq(m) == NormSq(a) && Sq(n) == NormSq(a) + NormSq(b)
    requires Scale(m, u) == a && Times(c, n) == m && Scale(n, s) == Mul(u, Conj(b))
    ensures GivensOf(a, b, Scale(n, u), c, s)
  {
    hide Sq, NormSq, Mul, Scale, Times, Add, Conj, Neg;
    CosineSign(c, n, m);
    UnitAlong(a, m, u);
    Unitary(b, m, n, u, c, s, NormSq(b));
    FirstRow(a, b, m, n, u, c, s);
    SecondRow(a, b, m, n, u, c, s);
  }

  lemma UnitSquares()
    ensures Sq(0.0) + NormSq(One) == 1.0
  {
    assert Sq(0.0) == 0.0 && Sq(1.0) == 1.0;
  }

  lemma ZeroPair(b: Complex)
    ensures GivensOf(Zero, b, b, 0.0, One)
  {
    hide Sq, NormSq, Mul, Scale;
    UnitSquares();
    MulUnits(b);
    MulUnits(Conj(One));
    ScaleByZero(Zero);
    ScaleByZero(b);
  }

  /** The complex rotg_impl: b is left as it is. */
  method RotgImpl(v: ComplexRotgArgs, abs: Complex -> real, sqrt: Complex -> Complex)
    requires IsAbs(abs) && IsComplexSqrt(sqrt)
    modifies v
    ensures GivensOf(old(v.a), old(v.b), v.a, v.c, v.s) && v.b == old(v.b)
    ensures old(v.a) == Zero ==> v.a == old(v.b) && v.c == 0.0 && v.s == One
  {
    hide Sq, NormSq, Mul, Scale, Times, Add, DividedBy, GivensOf;
    var numericalScaling := abs(v.a) + abs(v.b);
    NormOfZero(v.a, abs(v.a));
    if abs(v.a) == 0.0 {
      ZeroPair(v.b);
      v.c := 0.0;
      v.s := One;
      v.a := v.b;
    } else {
      var scaledA := Real(abs(DividedBy(v.a, numericalScaling)));
      var scaledB := Real(abs(DividedBy(v.b, numericalScaling)));
      var norm := Times(abs(sqrt(Add(Mul(scaledA, scaledA), Mul(scaledB, scaledB)))), numericalScaling);
      NormOfPair(v.a, v.b, numericalScaling, abs, sqrt);
      NormPositive(v.a, v.b, abs(v.a), norm);
      var unitA := DividedBy(v.a, abs(v.a));
      v.c := Quot(abs(v.a), norm);
      v.s := DividedBy(Mul(unitA, Conj(v.b)), norm);
      DividedBack(v.a, abs(v.a));
      DividedBack(Mul(unitA, Conj(v.b)), norm);
      QuotTimes(abs(v.a), norm);
      RotationOf(v.a, v.b, abs(v.a), norm, unitA, v.c, v.s);
      v.a := Scale(norm, unitA);
    }
  }

  lemma NormPositive(a: Complex, b: Complex, m: real, n: real)
    requires m > 0.0 && n >= 0.0 && Sq(m) == NormSq(a) && Sq(n) == NormSq(a) + NormSq(b)
    ensures n > 0.0
  {
    SquareSign(m);
    SquareSign(b.re);
    SquareSign(b.im);
    assert Sq(0.0) == 0.0;
    hide Sq;
  }
}
