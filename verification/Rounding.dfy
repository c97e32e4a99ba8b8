/** Python's rounding of a real to an integer: to the nearest, ties to even. */
module Rounding {

  function RoundHalfEven(x: real): (n: int)
    ensures -0.5 <= n as real - x <= 0.5
  {
    var f := x.Floor;
    var d := x - f as real;
    if d < 0.5 then f
    else if d > 0.5 then f + 1
    else if f % 2 == 0 then f
    else f + 1
  }

  lemma RoundMonotone(x: real, y: real)
    requires x <= y
    ensures RoundHalfEven(x) <= RoundHalfEven(y)
  {
    var m, n := RoundHalfEven(x), RoundHalfEven(y);
    if m > n {
      assert x.Floor <= y.Floor;
      assert m == n + 1;
      assert x == y;
    }
  }

  lemma RoundExact(n: int)
    ensures RoundHalfEven(n as real) == n
  {
  }
}
