/**
  Python's built-in `round()` applied to a number: the nearest integer, with
  an exact half going to the even neighbour ("banker's rounding").
 */
module Rounding {

  /** `r` is a nearest integer to `x`, and the even one when `x` lies halfway. */
  ghost predicate IsRoundHalfEven(x: real, r: int) {
    && -0.5 <= x - r as real <= 0.5
    && ((x - r as real == 0.5 || x - r as real == -0.5) ==> r % 2 == 0)
  }

  function Round(x: real): (r: int)
    ensures IsRoundHalfEven(x, r)
  {
    var f := x.Floor;
    var d := x - f as real;
    if d < 0.5 then f
    else if d > 0.5 then f + 1
    else if f % 2 == 0 then f
    else f + 1
  }

  /** The rounding relation determines a single integer, so `Round` is the only function meeting it. */
  lemma RoundUnique(x: real, r: int)
    requires IsRoundHalfEven(x, r)
    ensures r == Round(x)
  {
    var s := Round(x);
    assert -1.0 <= r as real - s as real <= 1.0;
  }

  /** Integers are left unchanged. */
  lemma RoundOfInteger(i: int)
    ensures Round(i as real) == i
  {
    RoundUnique(i as real, i);
  }

  /** A larger input never rounds to a smaller integer. */
  lemma RoundMonotone(x: real, y: real)
    requires x <= y
    ensures Round(x) <= Round(y)
  {
    var a, b := Round(x), Round(y);
  }

  /** Ties to even are symmetric about zero: rounding commutes with negation. */
  lemma RoundNegate(x: real)
    ensures Round(-x) == -Round(x)
  {
    var r := Round(x);
    assert IsRoundHalfEven(-x, -r);
    RoundUnique(-x, -r);
  }
}
