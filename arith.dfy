/** The few JavaScript `Math` functions the game step uses, on exact reals and integers. */
module Arith {

  /** `Math.abs` */
  function Abs(a: real): (r: real)
    ensures r >= 0.0 && (r == a || r == -a)
  {
    if a < 0.0 then -a else a
  }

  /** `Math.min` on two numbers */
  function Min(a: real, b: real): (r: real)
    ensures r <= a && r <= b && (r == a || r == b)
  {
    if a <= b then a else b
  }

  /** `Math.max` on two numbers */
  function Max(a: real, b: real): (r: real)
    ensures r >= a && r >= b && (r == a || r == b)
  {
    if a >= b then a else b
  }

  /**
   * `Math.min` on integral numbers.  The same function as `Min`, kept separate
   * because the shot angle is an `int` (it only ever holds integers) while
   * positions, velocities and the charge are `real`s, and Dafny has no
   * implicit conversion between the two.
   */
  function MinInt(a: int, b: int): (r: int)
    ensures r <= a && r <= b && (r == a || r == b)
  {
    if a <= b then a else b
  }

  /** `Math.max` on integral numbers; kept separate from `Max` for the same reason as `MinInt`. */
  function MaxInt(a: int, b: int): (r: int)
    ensures r >= a && r >= b && (r == a || r == b)
  {
    if a >= b then a else b
  }
}
