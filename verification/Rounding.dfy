/** Math.round of an exact quotient: to nearest, halves towards plus infinity. */
module Rounding {
  function RoundDiv(a: int, b: int): int
    requires b > 0
  {
    (2 * a + b) / (2 * b)
  }

  lemma RoundDivIsNearest(a: int, b: int)
    requires b > 0
    ensures 2 * a - b < 2 * b * RoundDiv(a, b) <= 2 * a + b
  {
    var n, d := 2 * a + b, 2 * b;
    assert n == d * (n / d) + n % d;
  }

  lemma RoundDivBounds(a: int, b: int)
    requires b > 0 && a >= 0
    ensures RoundDiv(a, b) >= 0
    ensures a == 0 ==> RoundDiv(a, b) == 0
  {
  }
}
