/**
 The front end of GEMV: argument checks, then the host or the device implementation.
 */
module Gemv {
  import opened Scalars
  import opened Sums
  import opened Matrices
  import opened GemvSpec
  import opened TransposeLetters
  import SingleLevelGemv
  import TwoLevelGemv

  datatype Outcome = Done | BadLetter | BadShape | DivisionByZero

  /** gemv. Host and device compute the same y for every letter, coefficient and size;
      any failure leaves y untouched. */
  method Invoke(tr: char, alpha: Complex, a: Matrix, x: seq<Complex>, beta: Complex, y: array<Complex>,
                isGpu: bool, target: TwoLevelGemv.Target)
    returns (outcome: Outcome)
    requires Reduces(target.reduction)
    modifies y
    ensures outcome == BadLetter <==> tr !in {'N', 'n', 'T', 't', 'C', 'c', 'H', 'h'}
    ensures outcome == BadShape <==>
              outcome != BadLetter
              && (if tr in {'N', 'n'} then a.rows != y.Length || a.cols != |x|
                  else a.cols != y.Length || a.rows != |x|)
    ensures outcome == DivisionByZero <==>
              outcome !in {BadLetter, BadShape} && isGpu && tr in {'N', 'n'}
              && a.rows > 0 && a.cols > 0 && target.layoutLeft && target.recommended < 32
    ensures outcome == Done ==> forall i :: 0 <= i < y.Length ==>
              y[i] == GemvEntry(alpha,
                                if tr in {'N', 'n'} then NoTrans else if tr in {'T', 't'} then Trans else ConjTrans,
                                a, x, beta, old(y[i]), i)
    ensures outcome != Done ==> y[..] == old(y[..])
  {
    hide GemvEntry;
    if IsN(tr) {
      if a.rows != y.Length || a.cols != |x| {
        return BadShape;
      }
    } else if IsT(tr) || IsConj(tr) {
      if a.cols != y.Length || a.rows != |x| {
        return BadShape;
      }
    } else {
      return BadLetter;
    }
    if isGpu {
      var ok := TwoLevelGemv.Run(tr, alpha, a, x, beta, y, target);
      return if ok then Done else DivisionByZero;
    } else {
      SingleLevelGemv.Run(tr, alpha, a, x, beta, y, target.reduction(0, 0, a.rows));
      return Done;
    }
  }
}
