/**
 The letters that name op(A), in either case. Which of them a routine accepts is its own affair.
 */
module TransposeLetters {
  predicate IsN(c: char) { c == 'N' || c == 'n' }

  predicate IsT(c: char) { c == 'T' || c == 't' }

  predicate IsC(c: char) { c == 'C' || c == 'c' }

  predicate IsH(c: char) { c == 'H' || c == 'h' }
}
