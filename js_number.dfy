/**
 * The results of JavaScript's `/` on two non-negative counts, and the two
 * operations the score curves apply to them: scaling by 100 and the `>` test.
 * Arithmetic is exact (real numbers), not IEEE-754 doubles; the only
 * non-finite values a quotient of two counts can take are NaN (0/0) and
 * +Infinity (n/0 with n > 0).
 */
module JsNumber {

  datatype Ratio = Finite(r: real) | NaN | PosInf

  /** `n / d` in JavaScript, for counts `n` and `d`. */
  function Div(n: nat, d: nat): (q: Ratio)
    ensures d > 0 ==> q.Finite? && q.r * d as real == n as real
    ensures d == 0 && n == 0 <==> q.NaN?
    ensures d == 0 && n > 0 <==> q.PosInf?
  {
    if d > 0 then Finite(n as real / d as real)
    else if n == 0 then NaN
    else PosInf
  }

  /** `x * 100`: NaN and +Infinity are absorbing. */
  function Times100(x: Ratio): (r: Ratio)
    ensures r.NaN? <==> x.NaN?
    ensures r.PosInf? <==> x.PosInf?
    ensures x.Finite? ==> r.Finite? && r.r == 100.0 * x.r
  {
    match x
    case Finite(r) => Finite(r * 100.0)
    case NaN => NaN
    case PosInf => PosInf
  }

  /** `x > t` for a finite constant `t`: false for NaN, true for +Infinity. */
  predicate Gt(x: Ratio, t: real): (b: bool)
    ensures x.NaN? ==> !b
    ensures x.PosInf? ==> b
  {
    match x
    case Finite(r) => r > t
    case NaN => false
    case PosInf => true
  }

  /** The order on the numbers a quotient can take; NaN is comparable to nothing. */
  predicate Leq(a: Ratio, b: Ratio)
  {
    match (a, b)
    case (Finite(x), Finite(y)) => x <= y
    case (Finite(_), PosInf) => true
    case (PosInf, PosInf) => true
    case _ => false
  }

  /** `>` against a constant respects the order. */
  lemma GtMonotone(a: Ratio, b: Ratio, t: real)
    requires Leq(a, b) && Gt(a, t)
    ensures Gt(b, t)
  {
  }

  /** Scaling by 100 respects the order. */
  lemma Times100Monotone(a: Ratio, b: Ratio)
    requires Leq(a, b)
    ensures Leq(Times100(a), Times100(b))
  {
  }

  /** With the denominator fixed, a larger numerator never gives a smaller quotient. */
  lemma DivMonotone(n1: nat, n2: nat, d: nat)
    requires n1 <= n2 && (d == 0 ==> n1 > 0)
    ensures Leq(Div(n1, d), Div(n2, d))
  {
    if d > 0 {
      assert n1 as real / d as real <= n2 as real / d as real by {
        DivLeq(n1 as real, n2 as real, d as real);
      }
    }
  }

  lemma DivLeq(x: real, y: real, d: real)
    requires x <= y && d > 0.0
    ensures x / d <= y / d
  {
    assert y / d - x / d == (y - x) / d;
  }

  /** A part of a non-empty whole is a finite fraction in [0, 1]. */
  lemma DivOfPart(n: nat, d: nat)
    requires n <= d && d > 0
    ensures Div(n, d).Finite? && 0.0 <= Div(n, d).r <= 1.0
  {
    DivLeq(n as real, d as real, d as real);
  }
}
