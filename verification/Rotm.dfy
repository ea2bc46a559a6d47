/**
 rotm applies the modified Givens rotation held in param to two vectors in place.
 */
module Rotm {
  import opened Matrices
  import opened RealAlgebra

  datatype Point = Invalid | Point(x: real, y: real)

  /** What one entry pair becomes; a flag other than -2, -1, 0 and 1 is rejected. */
  function RotmPoint(param: seq<real>, x: real, y: real): Point
    requires |param| == 5
  {
    if param[0] == -2.0 then Point(x, y)
    else if param[0] == -1.0 then
      Point(Times(param[1], x) + Times(param[3], y), Times(param[2], x) + Times(param[4], y))
    else if param[0] == 0.0 then Point(x + Times(param[3], y), Times(param[2], x) + y)
    else if param[0] == 1.0 then Point(Times(param[1], x) + y, -x + Times(param[4], y))
    else Invalid
  }

  /** The images written out: param holds the flag, h11, h21, h12 and h22. */
  lemma PointWrittenOut(flag: real, h11: real, h21: real, h12: real, h22: real, x: real, y: real)
    ensures RotmPoint([-2.0, h11, h21, h12, h22], x, y) == Point(x, y)
    ensures RotmPoint([-1.0, h11, h21, h12, h22], x, y) == Point(h11 * x + h12 * y, h21 * x + h22 * y)
    ensures RotmPoint([0.0, h11, h21, h12, h22], x, y) == Point(x + h12 * y, h21 * x + y)
    ensures RotmPoint([1.0, h11, h21, h12, h22], x, y) == Point(h11 * x + y, h22 * y - x)
    ensures flag !in {-2.0, -1.0, 0.0, 1.0} ==> RotmPoint([flag, h11, h21, h12, h22], x, y) == Invalid
  {
  }

  predicate ValidFlag(flag: real) {
    flag == -2.0 || flag == -1.0 || flag == 0.0 || flag == 1.0
  }

  /** Rotm_Invoke: the entries in any order; false stands for the exception thrown
      before any entry is touched. */
  method Invoke(x: array<real>, y: array<real>, param: seq<real>) returns (ok: bool)
    requires |param| == 5 && x != y && x.Length <= y.Length
    modifies x, y
    ensures ok <==> param[0] in {-2.0, -1.0, 0.0, 1.0}
    ensures ok ==> forall i :: 0 <= i < x.Length ==> Point(x[i], y[i]) == RotmPoint(param, old(x[i]), old(y[i]))
    ensures !ok ==> x[..] == old(x[..])
    ensures forall i :: 0 <= i < y.Length && (!ok || x.Length <= i) ==> y[i] == old(y[i])
  {
    hide Times;
    var flag := param[0];
    if flag == -2.0 {
      return true;
    } else if flag == -1.0 || flag == 0.0 || flag == 1.0 {
      var todo := Ranks(x.Length);
      while todo != {}
        invariant todo <= Ranks(x.Length)
        invariant forall i :: 0 <= i < x.Length ==>
                    Point(x[i], y[i]) == if i in todo then Point(old(x[i]), old(y[i]))
                                         else RotmPoint(param, old(x[i]), old(y[i]))
        invariant forall i :: x.Length <= i < y.Length ==> y[i] == old(y[i])
        decreases todo
      {
        var i :| i in todo;
        if flag == -1.0 {
          MinusOneTag(x, y, param, i);
        } else if flag == 0.0 {
          ZeroTag(x, y, param, i);
        } else {
          OneTag(x, y, param, i);
        }
        todo := todo - {i};
      }
      return true;
    } else {
      return false;
    }
  }

  ghost predicate OnlyEntry(x: seq<real>, y: seq<real>, x': seq<real>, y': seq<real>, i: int, p: Point) {
    && |x| == |x'| && |y| == |y'| && 0 <= i < |x| && i < |y| && p.Point?
    && x' == x[i := p.x] && y' == y[i := p.y]
  }

  method MinusOneTag(x: array<real>, y: array<real>, param: seq<real>, i: int)
    requires |param| == 5 && param[0] == -1.0 && x != y && 0 <= i < x.Length <= y.Length
    modifies x, y
    ensures OnlyEntry(old(x[..]), old(y[..]), x[..], y[..], i, RotmPoint(param, old(x[i]), old(y[i])))
  {
    hide Times;
    var tmp := x[i];
    x[i] := Times(param[1], tmp) + Times(param[3], y[i]);
    y[i] := Times(param[2], tmp) + Times(param[4], y[i]);
    assert x[..] == old(x[..])[i := x[i]] && y[..] == old(y[..])[i := y[i]];
  }

  method ZeroTag(x: array<real>, y: array<real>, param: seq<real>, i: int)
    requires |param| == 5 && param[0] == 0.0 && x != y && 0 <= i < x.Length <= y.Length
    modifies x, y
    ensures OnlyEntry(old(x[..]), old(y[..]), x[..], y[..], i, RotmPoint(param, old(x[i]), old(y[i])))
  {
    hide Times;
    var tmp := x[i];
    x[i] := tmp + Times(param[3], y[i]);
    y[i] := Times(param[2], tmp) + y[i];
    assert x[..] == old(x[..])[i := x[i]] && y[..] == old(y[..])[i := y[i]];
  }

  method OneTag(x: array<real>, y: array<real>, param: seq<real>, i: int)
    requires |param| == 5 && param[0] == 1.0 && x != y && 0 <= i < x.Length <= y.Length
    modifies x, y
    ensures OnlyEntry(old(x[..]), old(y[..]), x[..], y[..], i, RotmPoint(param, old(x[i]), old(y[i])))
  {
    hide Times;
    var tmp := x[i];
    x[i] := Times(param[1], tmp) + y[i];
    y[i] := -tmp + Times(param[4], y[i]);
    assert x[..] == old(x[..])[i := x[i]] && y[..] == old(y[..])[i := y[i]];
  }
}
