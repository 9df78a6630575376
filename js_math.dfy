/**
 * The numeric operations the system performs with JavaScript numbers, stated in exact
 * arithmetic: `Math.round` of a non-negative ratio, and the percentage `Math.round(a / b * 100)`.
 */
module JsMath {

  /** A JavaScript number as far as the system needs it: a finite value or NaN (from 0 / 0). */
  datatype JsNumber = Finite(value: real) | NaN

  /**
   * `Math.round(num / den)` for a non-negative numerator: the nearest integer, halves rounded up.
   * The postcondition says r - 1/2 <= num / den < r + 1/2.
   */
  function RoundDiv(num: nat, den: nat): (r: nat)
    requires den > 0
    ensures 2 * den * r <= 2 * num + den < 2 * den * (r + 1)
  {
    (2 * num + den) / (2 * den)
  }

  /** `Math.round(part / whole * 100)`: a ratio as a rounded percentage. */
  function Percent(part: nat, whole: nat): (p: nat)
    requires whole > 0
    ensures 2 * whole * p <= 200 * part + whole < 2 * whole * (p + 1)
  {
    RoundDiv(100 * part, whole)
  }

  /** From r * m < k * m with m > 0 it follows that r < k. */
  lemma CancelPositive(r: int, k: int, m: int)
    requires m > 0 && r * m < k * m
    ensures r < k
  {
    assert (k - r) * m > 0;
  }

  /** A percentage of a part no larger than the whole lies in [0, 100]. */
  lemma PercentAtMost100(part: nat, whole: nat)
    requires 0 < whole && part <= whole
    ensures Percent(part, whole) <= 100
  {
    var p := Percent(part, whole);
    assert 200 * part + whole <= 201 * whole;
    assert p * (2 * whole) < 101 * (2 * whole);
    CancelPositive(p, 101, 2 * whole);
  }

  /** The whole is 100 percent and nothing is 0 percent. */
  lemma PercentExtremes(whole: nat)
    requires whole > 0
    ensures Percent(whole, whole) == 100
    ensures Percent(0, whole) == 0
  {
    var p := Percent(whole, whole);
    assert p * (2 * whole) < 101 * (2 * whole);
    CancelPositive(p, 101, 2 * whole);
    assert 99 * (2 * whole) < p * (2 * whole) + 2 * whole;
    CancelPositive(99, p + 1, 2 * whole);
    var z := Percent(0, whole);
    assert z * (2 * whole) < 1 * (2 * whole);
    CancelPositive(z, 1, 2 * whole);
  }

  /** A larger part of the same whole never gets a smaller percentage. */
  lemma PercentMonotone(a: nat, b: nat, whole: nat)
    requires whole > 0 && a <= b
    ensures Percent(a, whole) <= Percent(b, whole)
  {
    var pa, pb := Percent(a, whole), Percent(b, whole);
    assert pa * (2 * whole) < (pb + 1) * (2 * whole);
    CancelPositive(pa, pb + 1, 2 * whole);
  }

  /** The same part of a whole one larger never gets a larger percentage. */
  lemma PercentMonotoneStep(part: nat, whole: nat)
    requires whole > 0
    ensures Percent(part, whole + 1) <= Percent(part, whole)
  {
    var a, b := Percent(part, whole + 1), Percent(part, whole);
    if a > 0 {
      assert 2 * (whole + 1) * a == a * (2 * whole) + 2 * a;
      assert a * (2 * whole) < (b + 1) * (2 * whole);
      CancelPositive(a, b + 1, 2 * whole);
    }
  }

  /** The same part of a larger whole never gets a larger percentage. */
  lemma {:induction false} PercentMonotoneWhole(part: nat, whole: nat, larger: nat)
    requires 0 < whole <= larger
    ensures Percent(part, larger) <= Percent(part, whole)
    decreases larger - whole
  {
    if whole < larger {
      PercentMonotoneWhole(part, whole, larger - 1);
      PercentMonotoneStep(part, larger - 1);
    }
  }
}
