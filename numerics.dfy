/**
 * Numeric conventions shared by the solver modules.
 *
 * The Python code compares almost every quantity after rounding it with the
 * built-in `round`. Here those roundings are modelled exactly on reals:
 * `round(x)` is round-half-to-even to an integer, `round(x, n)` is the same
 * applied to x * 10^n. Floating-point representation error is not modelled.
 *
 * `np.exp`, `np.log` and `**` with a real exponent are not computed: they are
 * fields of a `FloatOps` value passed in by the caller, and the only fact the
 * proofs ever assume about them is that `exp` is positive. A division whose
 * divisor can be zero yields an unspecified value (IEEE inf/nan).
 */
module Numerics {

  /** Python's built-in round(x): the nearest integer, ties to the even one. */
  function RoundInt(x: real): (r: int)
    ensures x - 0.5 <= r as real <= x + 0.5
  {
    var f := x.Floor;
    var frac := x - f as real;
    if frac < 0.5 then f
    else if frac > 0.5 then f + 1
    else if f % 2 == 0 then f else f + 1
  }

  /**
   * Python's built-in round(x, n) for n >= 0, on exact reals, written with the
   * scale p = 10^n: the nearest multiple of 1/p, ties to the even multiple.
   */
  function RoundAt(x: real, p: real): real
    requires p > 0.0
  {
    RoundInt(x * p) as real / p
  }

  function Round2(x: real): real { RoundAt(x, 100.0) }
  function Round3(x: real): real { RoundAt(x, 1000.0) }
  function Round4(x: real): real { RoundAt(x, 10000.0) }

  function Abs(x: real): (r: real)
    ensures r >= 0.0 && (r == x || r == -x)
  {
    if x < 0.0 then -x else x
  }

  /** Rounding to an integer never reverses an order. */
  lemma RoundIntMonotone(x: real, y: real)
    requires x <= y
    ensures RoundInt(x) <= RoundInt(y)
  {
    var fx, fy := x.Floor, y.Floor;
    assert fx <= fy;
    if fx < fy {
      assert RoundInt(x) <= fx + 1 <= fy <= RoundInt(y);
    }
  }

  lemma DivideMonotone(a: real, b: real, p: real)
    requires a <= b && p > 0.0
    ensures a / p <= b / p
  {
    assert b / p - a / p == (b - a) / p;
  }

  /** round(x, n) is monotone in x. */
  lemma RoundMonotone(x: real, y: real, p: real)
    requires p > 0.0 && x <= y
    ensures RoundAt(x, p) <= RoundAt(y, p)
  {
    assert x * p <= y * p;
    RoundIntMonotone(x * p, y * p);
    DivideMonotone(RoundInt(x * p) as real, RoundInt(y * p) as real, p);
  }

  /** A strict order between rounded values is an order between the values. */
  lemma RoundedLess(x: real, y: real, p: real)
    requires p > 0.0 && RoundAt(x, p) < RoundAt(y, p)
    ensures x < y
  {
    if y <= x {
      RoundMonotone(y, x, p);
    }
  }

  /** A constant that is a whole multiple of 1/p is left alone by the rounding. */
  lemma RoundExact(k: int, p: real)
    requires p > 0.0
    ensures RoundAt(k as real / p, p) == k as real / p
  {
    RoundMultiple(k as real / p, k, p);
  }

  lemma RoundMultiple(x: real, k: int, p: real)
    requires p > 0.0 && x * p == k as real
    ensures RoundAt(x, p) == x
  {
    assert RoundInt(k as real) == k;
  }

  /** The constants the solver compares rounded values against. */
  lemma RoundConstants()
    ensures Round4(0.0) == 0.0 && Round4(1.0) == 1.0 && Round4(99.0) == 99.0 && Round4(4.0) == 4.0
    ensures Round2(99.0) == 99.0 && Round3(0.0) == 0.0 && Round3(0.001) == 0.001
    ensures Round2(0.1) == 0.1 && Round2(0.3) == 0.3
  {
    RoundExact(0, 10000.0);
    RoundExact(10000, 10000.0);
    RoundExact(990000, 10000.0);
    RoundExact(40000, 10000.0);
    RoundExact(9900, 100.0);
    RoundExact(0, 1000.0);
    RoundExact(1, 1000.0);
    RoundExact(10, 100.0);
    RoundExact(30, 100.0);
  }

  /** A rounded value is positive (negative) only if the value is. */
  lemma RoundSign(x: real, p: real)
    requires p > 0.0
    ensures RoundAt(x, p) > 0.0 ==> x > 0.0
    ensures RoundAt(x, p) < 0.0 ==> x < 0.0
  {
    RoundExact(0, p);
    if RoundAt(x, p) > 0.0 { RoundedLess(0.0, x, p); }
    if RoundAt(x, p) < 0.0 { RoundedLess(x, 0.0, p); }
  }

  /** A product with a positive factor is positive only if the other factor is. */
  lemma PositiveFactor(x: real, y: real)
    requires x * y > 0.0 && y > 0.0
    ensures x > 0.0
  {
  }

  /** A fraction of a larger positive number lies strictly between 0 and 1. */
  lemma FractionInUnitInterval(a: real, b: real)
    requires 0.0 < a < b
    ensures 0.0 < a / b < 1.0 && a / b * b == a
  {
    var q := a / b;
    assert q * b == a;
    PositiveFactor(q, b);
    assert (1.0 - q) * b == b - a;
    PositiveFactor(1.0 - q, b);
  }

  /** The floating-point primitives the solver calls but the model does not compute. */
  datatype FloatOps = FloatOps(
    exp: real -> real,              // np.exp
    log: real -> real,              // np.log
    pow: (real, real) -> real,      // x ** y for a real exponent y
    divByZero: real -> real)        // the (inf/nan) value of a / 0
  {
    /** The one property of exp that the proofs rely on. */
    ghost predicate ExpPositive()
    {
      forall x :: exp(x) > 0.0
    }

    /** a / b, with the unspecified IEEE value when b is zero. */
    function Quot(a: real, b: real): (q: real)
      ensures b != 0.0 ==> q * b == a
    {
      if b == 0.0 then divByZero(a) else a / b
    }
  }
}
