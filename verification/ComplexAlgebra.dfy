/**
 Complex numbers next to real ones: norms, real factors and divisors.
 */
module ComplexAlgebra {
  import opened RealAlgebra
  import opened Scalars

  function NormSq(z: Complex): real { Sq(z.re) + Sq(z.im) }

  function Scale(x: real, z: Complex): Complex {
    Complex(Times(x, z.re), Times(x, z.im))
  }

  function DividedBy(z: Complex, x: real): Complex
    requires x != 0.0
  {
    Complex(Quot(z.re, x), Quot(z.im, x))
  }

  function Real(x: real): Complex { Complex(x, 0.0) }

  lemma SquareOfReal(x: real, y: real)
    ensures Add(Mul(Real(x), Real(x)), Mul(Real(y), Real(y))) == Real(Sq(x) + Sq(y))
  {
  }

  lemma ScaleLaws(x: real, y: real, z: Complex, w: Complex)
    ensures Scale(x, Scale(y, z)) == Scale(Times(x, y), z)
    ensures Scale(x, Add(z, w)) == Add(Scale(x, z), Scale(x, w))
    ensures Scale(x, Conj(z)) == Conj(Scale(x, z))
    ensures Scale(x + y, z) == Add(Scale(x, z), Scale(y, z))
    ensures Scale(x, Neg(z)) == Neg(Scale(x, z))
  {
  }

  lemma ScaleOfProduct(x: real, z: Complex, w: Complex)
    ensures Scale(x, Mul(z, w)) == Mul(Scale(x, z), w)
  {
  }

  lemma ScaleCancel(x: real, z: Complex, w: Complex)
    requires x != 0.0 && Scale(x, z) == Scale(x, w)
    ensures z == w
  {
    Cancel(z.re, w.re, x);
    Cancel(z.im, w.im, x);
  }

  lemma DividedBack(z: Complex, x: real)
    requires x != 0.0
    ensures Scale(x, DividedBy(z, x)) == z
  {
    QuotTimes(z.re, x);
    QuotTimes(z.im, x);
  }

  lemma ConjTimesSelf(z: Complex, w: Complex)
    ensures Mul(Mul(z, Conj(w)), w) == Scale(NormSq(w), z)
  {
  }

  lemma NormSqLaws(x: real, z: Complex, w: Complex)
    ensures NormSq(Scale(x, z)) == Times(Sq(x), NormSq(z))
    ensures NormSq(Mul(z, Conj(w))) == Times(NormSq(z), NormSq(w))
  {
  }

  lemma ScaleByZero(z: Complex)
    ensures Scale(0.0, z) == Zero
  {
  }

  lemma NormProduct(z: Complex, w: Complex)
    ensures NormSq(z) * NormSq(w) == NormSq(Mul(z, w))
  {
  }

  lemma ZeroNorm(z: Complex)
    ensures NormSq(z) == 0.0 <==> z == Zero
  {
    SquareSign(z.re);
    SquareSign(z.im);
    assert Sq(0.0) == 0.0;
    hide Sq;
  }

  lemma NoZeroDivisors(z: Complex, w: Complex)
    ensures Mul(z, w) == Zero <==> z == Zero || w == Zero
  {
    hide Mul, NormSq;
    NormProduct(z, w);
    ZeroNorm(z);
    ZeroNorm(w);
    ZeroNorm(Mul(z, w));
    ProductNonzero(NormSq(z), NormSq(w));
  }
}
