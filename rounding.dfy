/**
 * Decimal rounding of exact reals, standing for Python's `round(x, n)`.
 *
 * Python rounds the binary double to the nearest multiple of 10^-n, ties to
 * even. On exact reals that is round-half-to-even on the scaled value, which
 * is what `Round1` and `Round2` compute. The lemmas give the facts the rest of
 * the model relies on: rounding is monotone, exact on multiples of the step,
 * and keeps a value inside an interval with whole-number ends.
 */
module Rounding {

  /** The integer nearest to `y`, ties to the even one. */
  function NearestInt(y: real): (n: int)
    ensures y - 0.5 <= n as real <= y + 0.5
  {
    var f := y.Floor;
    var frac := y - f as real;
    if frac < 0.5 then f
    else if frac > 0.5 then f + 1
    else if f % 2 == 0 then f else f + 1
  }

  /** `round(x, 1)`: within half a tenth of `x`. */
  function Round1(x: real): (r: real)
    ensures x - 0.05 <= r <= x + 0.05
  {
    NearestInt(x * 10.0) as real / 10.0
  }

  /** `round(x, 2)`: within half a hundredth of `x`. */
  function Round2(x: real): (r: real)
    ensures x - 0.005 <= r <= x + 0.005
  {
    NearestInt(x * 100.0) as real / 100.0
  }

  /** The nearest integer never reverses the order of two values. */
  lemma NearestIntMonotone(y1: real, y2: real)
    requires y1 <= y2
    ensures NearestInt(y1) <= NearestInt(y2)
  {
    var f1, f2 := y1.Floor, y2.Floor;
    if f1 == f2 {
      assert y1 - f1 as real <= y2 - f2 as real;
    } else {
      assert f1 + 1 <= f2;
    }
  }

  /** An integer is its own nearest integer. */
  lemma NearestIntOfInt(k: int)
    ensures NearestInt(k as real) == k
  {
    assert (k as real).Floor == k;
  }

  lemma Round1Monotone(x: real, y: real)
    requires x <= y
    ensures Round1(x) <= Round1(y)
  {
    NearestIntMonotone(x * 10.0, y * 10.0);
  }

  lemma Round2Monotone(x: real, y: real)
    requires x <= y
    ensures Round2(x) <= Round2(y)
  {
    NearestIntMonotone(x * 100.0, y * 100.0);
  }

  /** A value that already is a multiple of 0.1 is left unchanged. */
  lemma Round1Exact(k: int)
    ensures Round1(k as real / 10.0) == k as real / 10.0
  {
    assert (k as real / 10.0) * 10.0 == k as real;
    NearestIntOfInt(k);
  }

  /** A value that already is a multiple of 0.01 is left unchanged. */
  lemma Round2Exact(k: int)
    ensures Round2(k as real / 100.0) == k as real / 100.0
  {
    assert (k as real / 100.0) * 100.0 == k as real;
    NearestIntOfInt(k);
  }

  /** Rounding a whole number to one decimal gives it back. */
  lemma Round1Integer(k: int)
    ensures Round1(k as real) == k as real
  {
    assert (k * 10) as real / 10.0 == k as real;
    Round1Exact(k * 10);
  }

  /** Rounding a whole number to two decimals gives it back. */
  lemma Round2Integer(k: int)
    ensures Round2(k as real) == k as real
  {
    assert (k * 100) as real / 100.0 == k as real;
    Round2Exact(k * 100);
  }

  /** Rounding keeps a value inside an interval whose ends are whole numbers. */
  lemma Round1Within(x: real, lo: int, hi: int)
    requires lo as real <= x <= hi as real
    ensures lo as real <= Round1(x) <= hi as real
  {
    Round1Monotone(lo as real, x);
    Round1Monotone(x, hi as real);
    Round1Integer(lo);
    Round1Integer(hi);
  }

  lemma Round2Within(x: real, lo: int, hi: int)
    requires lo as real <= x <= hi as real
    ensures lo as real <= Round2(x) <= hi as real
  {
    Round2Monotone(lo as real, x);
    Round2Monotone(x, hi as real);
    Round2Integer(lo);
    Round2Integer(hi);
  }

  /** `round(part / whole * 100, 1)`: a share as a percentage with one decimal. */
  function Percentage(part: int, whole: int): (r: real)
    requires whole > 0
    ensures part as real / whole as real * 100.0 - 0.05 <= r <= part as real / whole as real * 100.0 + 0.05
  {
    Round1(part as real / whole as real * 100.0)
  }

  lemma ShareBounds(part: int, whole: int)
    requires whole > 0 && 0 <= part <= whole
    ensures 0.0 <= part as real / whole as real * 100.0 <= 100.0
  {
    assert 0.0 <= part as real / whole as real <= 1.0;
  }

  lemma PercentageAll(whole: int)
    requires whole > 0
    ensures Percentage(whole, whole) == 100.0
  {
    var t := whole as real;
    assert t / t == 1.0;
    Round1Integer(100);
  }

  /** A share of a whole is a percentage between 0 and 100. */
  lemma PercentageRange(part: int, whole: int)
    requires whole > 0 && 0 <= part <= whole
    ensures 0.0 <= Percentage(part, whole) <= 100.0
    ensures part == 0 ==> Percentage(part, whole) == 0.0
    ensures part == whole ==> Percentage(part, whole) == 100.0
  {
    ShareBounds(part, whole);
    Round1Within(part as real / whole as real * 100.0, 0, 100);
    if part == 0 {
      Round1Integer(0);
    }
    if part == whole {
      PercentageAll(whole);
    }
  }
}
