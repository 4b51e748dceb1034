/** The two pieces of JavaScript number arithmetic the components rely on. */
module JsMath {

  /** `Math.round(x)`: the nearest integer, a tie going towards +infinity. */
  function Round(x: real): (r: int)
    ensures r as real - 0.5 <= x < r as real + 0.5
  {
    (x + 0.5).Floor
  }

  /** Rounding never leaves an interval whose ends are integers. */
  lemma RoundWithin(x: real, lo: int, hi: int)
    requires lo as real <= x <= hi as real
    ensures lo <= Round(x) <= hi
  {
  }

  /** The quotient of JavaScript integer division truncated towards zero: `Math.trunc(a / b)`. */
  function Quot(a: int, b: int): int
    requires b > 0
  {
    if a >= 0 then a / b else -((-a) / b)
  }

  /**
   * `a % b` in JavaScript for a positive divisor: truncating, so the remainder
   * takes the sign of `a`, and `a` is the truncated quotient times `b` plus it.
   */
  function Rem(a: int, b: int): (r: int)
    requires b > 0
    ensures a >= 0 ==> 0 <= r < b
    ensures a < 0 ==> -b < r <= 0
    ensures a == b * Quot(a, b) + r
  {
    if a >= 0 then a % b
    else
      var q := (-a) / b;
      assert -a == b * q + (-a) % b;
      assert b * -q == -(b * q);
      -((-a) % b)
  }
}
