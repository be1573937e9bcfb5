/** The JavaScript number semantics the track pipeline relies on: the
    infinities and NaN, `<`, `Math.round` and division. */
module Numbers {

  /** A JavaScript number. Reals stand for the finite doubles; besides them
      there are NaN and the two infinities. */
  datatype Number = Finite(value: real) | NaN | PositiveInfinity | NegativeInfinity

  /** JavaScript's `x < n` for a finite `x`: every finite number is below
      `Infinity`, none is below `-Infinity`, and every comparison with NaN is
      false. */
  predicate Less(x: real, n: Number) {
    match n
    case Finite(v) => x < v
    case PositiveInfinity => true
    case NaN => false
    case NegativeInfinity => false
  }

  /** `Math.round`: the nearest integer, halves rounded up. */
  function Round(x: real): (n: int)
    ensures n as real - 0.5 <= x < n as real + 0.5
  {
    (x + 0.5).Floor
  }

  /** A nonzero number divided by itself is one. */
  lemma SelfQuotient(y: real)
    requires y != 0.0
    ensures y / y == 1.0
  {
  }

  /** JavaScript's `x / y` for a zero that is `+0`, as the differences and
      sums of the point description produce: the exact quotient when `y` is not zero,
      otherwise NaN for `0 / 0` and an infinity of the numerator's sign. */
  function Divide(x: real, y: real): (q: Number)
    ensures y != 0.0 ==> q.Finite? && q.value * y == x
    ensures y != 0.0 && x == 0.0 ==> q == Finite(0.0)
    ensures y != 0.0 && x == y ==> q == Finite(1.0)
    ensures y == 0.0 ==> (q == NaN <==> x == 0.0)
    ensures y == 0.0 ==> (q == PositiveInfinity <==> x > 0.0)
    ensures y == 0.0 ==> (q == NegativeInfinity <==> x < 0.0)
  {
    if y != 0.0 then
      SelfQuotient(y);
      Finite(x / y)
    else if x == 0.0 then NaN
    else if x > 0.0 then PositiveInfinity
    else NegativeInfinity
  }
}
