/**
 The real Givens rotation: rotg builds it from a pair and leaves it encoded in one number.
 */
module Rotg {
  import opened RealAlgebra

  ghost predicate IsSqrt(sqrt: real -> real) {
    forall x :: x >= 0.0 ==> sqrt(x) >= 0.0 && Sq(sqrt(x)) == x
  }

  function CopySign(m: real, sign: real): real {
    if sign < 0.0 then -Abs(m) else Abs(m)
  }

  /** What the kernel leaves in a, b, c and s. */
  datatype Givens = Givens(r: real, z: real, c: real, s: real)

  /** The entry whose sign r takes. */
  function Dominant(a: real, b: real): real {
    if Abs(a) > Abs(b) then a else b
  }

  /** The rotation of a pair, without divisions, square roots or scaling. */
  ghost predicate GivensOf(a: real, b: real, g: Givens) {
    if a == 0.0 && b == 0.0 then g == Givens(0.0, 0.0, 1.0, 0.0)
    else
      && Sq(g.r) == Sq(a) + Sq(b) && (g.r > 0.0 <==> Dominant(a, b) > 0.0)
      && Times(g.c, g.r) == a && Times(g.s, g.r) == b
      && (if Abs(a) > Abs(b) then g.z == g.s
          else if g.c != 0.0 then Times(g.z, g.c) == 1.0
          else g.z == 1.0)
  }

  class RotgArgs {
    var a: real
    var b: real
    var c: real
    var s: real
  }

  lemma ScaledNorm(a: real, b: real, n: real, sqrt: real -> real)
    requires IsSqrt(sqrt) && n != 0.0
    ensures Sq(Times(sqrt(Sq(Quot(a, n)) + Sq(Quot(b, n))), n)) == Sq(a) + Sq(b)
  {
    hide Quot;
    var x, y := Quot(a, n), Quot(b, n);
    SquareSign(x);
    SquareSign(y);
    SquaresScaled(a, b, n, x, y, sqrt(Sq(x) + Sq(y)));
  }

  lemma SquaresScaled(a: real, b: real, n: real, x: real, y: real, root: real)
    requires x * n == a && y * n == b && Sq(root) == Sq(x) + Sq(y)
    ensures Sq(Times(root, n)) == Sq(a) + Sq(b)
  {
    calc {
      Sq(Times(root, n));
      Sq(root) * Sq(n);
      Sq(x) * Sq(n) + Sq(y) * Sq(n);
      Sq(x * n) + Sq(y * n);
    }
  }

  lemma SignedNorm(a: real, b: real, m: real)
    requires (a != 0.0 || b != 0.0) && Sq(m) == Sq(a) + Sq(b)
    ensures var r := CopySign(m, Dominant(a, b));
            r != 0.0 && Sq(r) == Sq(a) + Sq(b) && (r > 0.0 <==> Dominant(a, b) > 0.0)
  {
    SquareSign(a);
    SquareSign(b);
    assert Sq(0.0) == 0.0 && Sq(-m) == Sq(m);
    hide Sq;
  }

  /** The real rotg_impl. */
  method RotgImpl(v: RotgArgs, sqrt: real -> real)
    requires IsSqrt(sqrt)
    modifies v
    ensures GivensOf(old(v.a), old(v.b), Givens(v.a, v.b, v.c, v.s))
  {
    hide Sq, Quot, Times;
    var numericalScaling := Abs(v.a) + Abs(v.b);
    if numericalScaling == 0.0 {
      v.c := 1.0;
      v.s := 0.0;
      v.a := 0.0;
      v.b := 0.0;
    } else {
      var scaledA := Quot(v.a, numericalScaling);
      var scaledB := Quot(v.b, numericalScaling);
      var norm := Times(sqrt(Sq(scaledA) + Sq(scaledB)), numericalScaling);
      ScaledNorm(v.a, v.b, numericalScaling, sqrt);
      var sign := if Abs(v.a) > Abs(v.b) then v.a else v.b;
      SignedNorm(v.a, v.b, norm);
      norm := CopySign(norm, sign);
      QuotTimes(v.a, norm);
      QuotTimes(v.b, norm);
      v.c := Quot(v.a, norm);
      v.s := Quot(v.b, norm);
      var z := 1.0;
      if Abs(v.a) > Abs(v.b) {
        z := v.s;
      }
      if Abs(v.b) >= Abs(v.a) && v.c != 0.0 {
        z := Quot(1.0, v.c);
        QuotTimes(1.0, v.c);
      }
      v.a := norm;
      v.b := z;
    }
  }

  // ------------------------------------------------------------------
  // The laws of the rotation
  // ------------------------------------------------------------------

  lemma UnitVector(a: real, b: real, r: real, c: real, s: real)
    requires r != 0.0 && Sq(r) == Sq(a) + Sq(b) && Times(c, r) == a && Times(s, r) == b
    ensures Sq(c) + Sq(s) == 1.0
    ensures Times(c, a) + Times(s, b) == r
    ensures Times(c, b) - Times(s, a) == 0.0
  {
    SquareSign(r);
    SquareOfTimes(c, r);
    SquareOfTimes(s, r);
    assert Times(Sq(c) + Sq(s), Sq(r)) == Times(Sq(c), Sq(r)) + Times(Sq(s), Sq(r));
    OneTimes(Sq(r));
    TimesCancel(Sq(c) + Sq(s), 1.0, Sq(r));
    calc {
      Times(c, Times(c, r)) + Times(s, Times(s, r));
      Times(Sq(c) + Sq(s), r);
      { OneTimes(r); }
      r;
    }
    assert Times(c, Times(s, r)) == Times(s, Times(c, r));
  }

  lemma NonzeroR(a: real, b: real, g: Givens)
    requires GivensOf(a, b, g) && (a != 0.0 || b != 0.0)
    ensures g.r != 0.0
  {
    SquareSign(a);
    SquareSign(b);
    assert Sq(0.0) == 0.0;
    hide Sq;
  }

  /** The rotation is a rotation, and turns (a, b) into (r, 0). */
  lemma GivensLaws(a: real, b: real, g: Givens)
    requires GivensOf(a, b, g)
    ensures Sq(g.c) + Sq(g.s) == 1.0
    ensures Times(g.c, a) + Times(g.s, b) == g.r
    ensures Times(g.c, b) - Times(g.s, a) == 0.0
    ensures Sq(g.r) == Sq(a) + Sq(b)
  {
    if a != 0.0 || b != 0.0 {
      NonzeroR(a, b, g);
      UnitVector(a, b, g.r, g.c, g.s);
    }
  }

  /** A pair has only one rotation in the sense of GivensOf. */
  lemma GivensUnique(a: real, b: real, g: Givens, g': Givens)
    requires GivensOf(a, b, g) && GivensOf(a, b, g')
    ensures g == g'
  {
    if a != 0.0 || b != 0.0 {
      NonzeroR(a, b, g);
      NonzeroR(a, b, g');
      SquareRoots(g.r, g'.r);
      hide Sq, Times;
      TimesCancel(g.c, g'.c, g.r);
      TimesCancel(g.s, g'.s, g.r);
      if g.c != 0.0 {
        TimesCancel(g.z, g'.z, g.c);
      }
    }
  }

  lemma SquareRoots(x: real, y: real)
    requires Sq(x) == Sq(y) && (x > 0.0 <==> y > 0.0)
    ensures x == y
  {
    ProductNonzero(x - y, x + y);
    assert (x - y) * (x + y) == 0.0;
    SquareSign(x);
    SquareSign(y);
  }

  // ------------------------------------------------------------------
  // Decoding z
  // ------------------------------------------------------------------

  /** The BLAS rule by which (c, s) is recovered from z. */
  function Decode(z: real, sqrt: real -> real): (real, real) {
    if z == 1.0 then (0.0, 1.0)
    else if Abs(z) < 1.0 then (sqrt(1.0 - Sq(z)), z)
    else var c := Quot(1.0, z);
      (c, sqrt(1.0 - Sq(c)))
  }

  lemma SquareBelow(x: real, y: real)
    requires y >= 0.0
    ensures Abs(x) < y <==> Sq(x) < Sq(y)
  {
    assert Sq(Abs(x)) == Sq(x);
    assert (y - Abs(x)) * (y + Abs(x)) == Sq(y) - Sq(x);
    if Abs(x) < y {
      SameSigns(Sq(y) - Sq(x), y - Abs(x), y + Abs(x));
    } else {
      ProductNonnegative(Abs(x) - y, Abs(x) + y);
    }
  }

  lemma RootOf(x: real, y: real, sqrt: real -> real)
    requires IsSqrt(sqrt) && y >= 0.0 && Sq(y) == x
    ensures sqrt(x) == y
  {
    SquareSign(y);
    SquareSign(sqrt(x));
    if y > 0.0 || sqrt(x) > 0.0 {
      SquareRoots(sqrt(x), y) by { assert Sq(0.0) == 0.0; hide Sq; }
    }
  }

  lemma SignOfQuotient(c: real, r: real, a: real)
    requires Times(c, r) == a && r != 0.0
    ensures c == 0.0 <==> a == 0.0
    ensures (r > 0.0 <==> a > 0.0) ==> c >= 0.0
  {
    if r < 0.0 {
      SignOfProduct(-c, -r);
      assert (-c) * (-r) == a;
    } else {
      SignOfProduct(c, r);
    }
  }

  lemma OneHasSquareOne()
    ensures Sq(1.0) == 1.0 && Sq(0.0) == 0.0
  {
  }

  lemma DecodeSmallZ(a: real, b: real, g: Givens, sqrt: real -> real)
    requires IsSqrt(sqrt) && GivensOf(a, b, g) && Abs(a) > Abs(b)
    ensures Decode(g.z, sqrt) == (g.c, g.s)
  {
    GivensLaws(a, b, g);
    NonzeroR(a, b, g);
    OneHasSquareOne();
    hide Sq, Times;
    SignOfQuotient(g.c, g.r, a);
    SquareSign(g.c);
    SquareBelow(g.s, 1.0);
    RootOf(1.0 - Sq(g.z), g.c, sqrt);
  }

  lemma ReciprocalIsLarge(z: real, c: real)
    requires Times(z, c) == 1.0 && Abs(c) < 1.0
    ensures Abs(z) > 1.0 && c == Quot(1.0, z)
  {
    assert z != 0.0 && c != 0.0;
    assert Abs(z) * Abs(c) == 1.0;
    if Abs(z) <= 1.0 {
      ProductNonnegative(1.0 - Abs(z), Abs(c));
    }
    TimesCancel(c, Quot(1.0, z), z);
  }

  lemma DecodeLargeZ(a: real, b: real, g: Givens, sqrt: real -> real)
    requires IsSqrt(sqrt) && GivensOf(a, b, g) && Abs(a) <= Abs(b) && b != 0.0
    ensures Decode(g.z, sqrt) == (g.c, g.s)
  {
    GivensLaws(a, b, g);
    NonzeroR(a, b, g);
    OneHasSquareOne();
    hide Sq, Times, Quot;
    SignOfQuotient(g.s, g.r, b);
    SquareSign(g.s);
    if g.c == 0.0 {
      SquareRoots(g.s, 1.0);
    } else {
      SquareBelow(g.c, 1.0);
      ReciprocalIsLarge(g.z, g.c);
      RootOf(1.0 - Sq(g.c), g.s, sqrt);
    }
  }

  /** The number left in b decodes to exactly the c and s of the rotation. */
  lemma DecodeRoundTrip(a: real, b: real, g: Givens, sqrt: real -> real)
    requires IsSqrt(sqrt) && GivensOf(a, b, g)
    ensures Decode(g.z, sqrt) == (g.c, g.s)
  {
    if Abs(a) > Abs(b) {
      DecodeSmallZ(a, b, g, sqrt);
    } else if b != 0.0 {
      DecodeLargeZ(a, b, g, sqrt);
    } else {
      OneHasSquareOne();
      RootOf(1.0, 1.0, sqrt);
    }
  }

  /** Three pairs written out: z is s where a is the larger, and 1 / c where b is; r takes the sign
      of the larger. A zero pair gives the identity. */
  lemma GivensWrittenOut()
    ensures GivensOf(4.0, 3.0, Givens(5.0, 0.6, 0.8, 0.6))
    ensures GivensOf(3.0, -4.0, Givens(-5.0, -5.0 / 3.0, -0.6, 0.8))
    ensures GivensOf(0.0, 2.0, Givens(2.0, 1.0, 0.0, 1.0))
    ensures GivensOf(0.0, 0.0, Givens(0.0, 0.0, 1.0, 0.0))
  {
    assert Sq(5.0) == 25.0 && Sq(-5.0) == 25.0 && Sq(4.0) == 16.0 && Sq(-4.0) == 16.0 && Sq(3.0) == 9.0;
    assert Sq(2.0) == 4.0 && Sq(0.0) == 0.0;
    assert Times(0.8, 5.0) == 4.0 && Times(0.6, 5.0) == 3.0 && Times(0.0, 2.0) == 0.0 && Times(1.0, 2.0) == 2.0;
    assert Times(-0.6, -5.0) == 3.0 && Times(0.8, -5.0) == -4.0 && Times(-5.0 / 3.0, -0.6) == 1.0;
    hide Sq, Times;
  }

  /** How the number in b is read back, as BLAS prescribes it. */
  lemma DecodeWrittenOut(z: real, sqrt: real -> real)
    ensures z == 1.0 ==> Decode(z, sqrt) == (0.0, 1.0)
    ensures Abs(z) < 1.0 ==> Decode(z, sqrt).1 == z
    ensures Abs(z) > 1.0 ==> Decode(z, sqrt).0 * z == 1.0
  {
  }
}
