/**
 Real arithmetic for the Givens kernels. Products and quotients carry names so that a
 proof can keep them opaque and use only the laws it needs.
 */
module RealAlgebra {

  function Abs(x: real): (r: real)
    ensures r >= 0.0 && (r == x || r == -x)
  {
    if x < 0.0 then -x else x
  }

  /** Division, known by its defining property where the body is hidden. */
  function Quot(a: real, b: real): (q: real)
    requires b != 0.0
    ensures q * b == a
  {
    a / b
  }

  function Sq(a: real): real {
    a * a
  }

  lemma ProductNonzero(a: real, b: real)
    ensures a * b != 0.0 <==> a != 0.0 && b != 0.0
  {
    if a != 0.0 {
      assert a * b / a == b;
    }
  }

  lemma PositiveFactor(a: real, b: real)
    requires b >= 0.0
    ensures a * b > 0.0 ==> a > 0.0
    ensures a * b >= 0.0 && b > 0.0 ==> a >= 0.0
  {
  }

  lemma ProductNonnegative(a: real, b: real)
    requires a >= 0.0 && b >= 0.0
    ensures a * b >= 0.0
  {
  }

  lemma SignOfProduct(a: real, b: real)
    requires b > 0.0
    ensures a * b > 0.0 <==> a > 0.0
    ensures a * b == 0.0 <==> a == 0.0
  {
    ProductNonzero(a, b);
  }

  lemma SameSigns(s: real, a: real, b: real)
    requires s == a * b && ((a > 0.0 && b > 0.0) || (a < 0.0 && b < 0.0))
    ensures s > 0.0
  {
  }

  lemma SquareSign(a: real)
    ensures Sq(a) >= 0.0
    ensures a != 0.0 ==> Sq(a) > 0.0
  {
    if a != 0.0 {
      SameSigns(Sq(a), a, a);
    }
  }

  function Times(a: real, b: real): real { a * b }

  lemma QuotTimes(a: real, b: real)
    requires b != 0.0
    ensures Times(Quot(a, b), b) == a
  {
  }

  lemma Cancel(a: real, b: real, u: real)
    requires u != 0.0 && a * u == b * u
    ensures a == b
  {
    ProductNonzero(a - b, u);
    assert (a - b) * u == 0.0;
  }

  lemma OneTimes(t: real)
    ensures Times(1.0, t) == t
  {
  }

  lemma TimesOne(s: real, t: real)
    requires t == 1.0
    ensures Times(s, t) == s
  {
  }

  lemma TimesAssoc(a: real, b: real, c: real)
    ensures Times(Times(a, b), c) == Times(a, Times(b, c))
    ensures Times(a, b) == Times(b, a)
  {
  }

  lemma TimesCancel(a: real, b: real, u: real)
    requires u != 0.0
    ensures Times(a, u) == Times(b, u) <==> a == b
  {
    if Times(a, u) == Times(b, u) {
      Cancel(a, b, u);
    }
  }

  lemma TimesAdds(x: real, y: real, n: real)
    ensures Times(x + y, n) == Times(x, n) + Times(y, n)
  {
  }

  lemma SqIsTimes(x: real)
    ensures Sq(x) == Times(x, x)
  {
  }

  lemma SquareOfTimes(a: real, b: real)
    ensures Sq(Times(a, b)) == Times(Sq(a), Sq(b))
    ensures Times(Times(a, a), b) == Times(Sq(a), b)
  {
  }
}
