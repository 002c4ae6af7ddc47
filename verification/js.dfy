/**
 * The parts of JavaScript's number semantics that the renderer's arithmetic
 * observably depends on: infinities, NaN, truthiness and `Math.round`.
 * Finite values are exact reals; IEEE-754 rounding is not modelled.
 */
module Js {

  datatype Number = Finite(value: real) | PosInfinity | NegInfinity | NaN {

    /** `!!n`: every number except 0 and NaN is truthy. */
    predicate Truthy() {
      match this
      case Finite(v) => v != 0.0
      case NaN => false
      case _ => true
    }

    /** `n > 0`. */
    predicate Positive() {
      match this
      case Finite(v) => v > 0.0
      case PosInfinity => true
      case _ => false
    }
  }

  /** `Math.floor` on a finite value. */
  function Floor(x: real): (r: int)
    ensures r as real <= x < r as real + 1.0
  {
    x.Floor
  }

  /** `Math.round` on a finite value: the nearest integer, ties toward +infinity. */
  function Round(x: real): (r: int)
    ensures x - 0.5 < r as real <= x + 0.5
  {
    Floor(x + 0.5)
  }

  /** `Math.round` on any number: infinities and NaN are returned unchanged. */
  function RoundNumber(n: Number): (r: Number)
    ensures n.Finite? <==> r.Finite?
    ensures n.Finite? ==> r.value == Round(n.value) as real
    ensures !n.Finite? ==> r == n
  {
    match n
    case Finite(v) => Finite(Round(v) as real)
    case _ => n
  }

  function Max(a: real, b: real): (r: real)
    ensures r >= a && r >= b && (r == a || r == b)
  {
    if a >= b then a else b
  }

  function Min(a: real, b: real): (r: real)
    ensures r <= a && r <= b && (r == a || r == b)
  {
    if a <= b then a else b
  }
}
