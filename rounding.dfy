/** JavaScript's `Math.round` applied to a quotient of non-negative integers,
    done in integer arithmetic. `Math.round(x)` is the greatest integer not above
    `x + 1/2`, so `Math.round(a / b)` is `(2a + b) / (2b)` with integer division. */
module Rounding {

  /** `Math.round(a / b)`: the integer nearest to a / b, halves rounded up,
      that is the unique r with r - 1/2 <= a/b < r + 1/2. */
  function RoundDiv(a: nat, b: nat): (r: nat)
    requires b > 0
    ensures b * (2 * r) <= 2 * a + b < b * (2 * r + 2)
  {
    var q := (2 * a + b) / (2 * b);
    assert 2 * a + b == (2 * b) * q + (2 * a + b) % (2 * b);
    q
  }

  /** The two inequalities of `RoundDiv` determine their integer. */
  lemma RoundDivUnique(a: nat, b: nat, r: nat)
    requires b > 0
    requires b * (2 * r) <= 2 * a + b < b * (2 * r + 2)
    ensures r == RoundDiv(a, b)
  {
    var q := RoundDiv(a, b);
    if r < q {
      MulMonotone(b, 2 * r + 2, 2 * q);
    } else if q < r {
      MulMonotone(b, 2 * q + 2, 2 * r);
    }
  }

  lemma MulMonotone(b: nat, x: nat, y: nat)
    requires x <= y
    ensures b * x <= b * y
  {
  }

  /** `count > 0 ? Math.round(total / count) : 0`: the rounded mean with the
      empty-collection guard the views use. */
  function RoundedAverage(total: nat, count: nat): (r: nat)
    ensures count == 0 ==> r == 0
  {
    if count == 0 then 0 else RoundDiv(total, count)
  }

  /** A rounded mean of values in [lo, hi] is in [lo, hi]. */
  lemma AverageWithinBounds(total: nat, count: nat, lo: nat, hi: nat)
    requires count > 0
    requires count * lo <= total <= count * hi
    ensures lo <= RoundedAverage(total, count) <= hi
  {
    var r := RoundDiv(total, count);
    if r < lo {
      // count * 2r + 2count <= count * 2lo <= 2 total < 2 total + count
      assert count * (2 * lo) == 2 * (count * lo);
      MulMonotone(count, 2 * r + 2, 2 * lo);
    }
    if r > hi {
      // count * 2r >= count * (2hi + 2) > 2 total + count
      assert count * (2 * hi + 2) == 2 * (count * hi) + 2 * count;
      MulMonotone(count, 2 * hi + 2, 2 * r);
    }
  }

  /** `Math.round(total / Math.max(count, 1))`, the variant of the mean that
      divides by at least one instead of testing for emptiness. */
  function RoundedAverageMaxOne(total: nat, count: nat): nat {
    RoundDiv(total, if count > 1 then count else 1)
  }

  /** The two variants agree whenever an empty group has a zero total. */
  lemma MaxOneAgrees(total: nat, count: nat)
    requires count == 0 ==> total == 0
    ensures RoundedAverageMaxOne(total, count) == RoundedAverage(total, count)
  {
    if count == 0 {
      RoundDivUnique(0, 1, 0);
    }
  }

  /** `whole > 0 ? Math.round(part / whole * 100) : 0`, as an exact rational rounding. */
  function Percentage(part: nat, whole: nat): (r: nat)
    ensures whole == 0 ==> r == 0
  {
    if whole == 0 then 0 else RoundDiv(100 * part, whole)
  }

  /** A part of a whole is at most 100 percent of it. */
  lemma PercentageAtMost100(part: nat, whole: nat)
    requires part <= whole
    ensures Percentage(part, whole) <= 100
  {
    if whole > 0 {
      MulMonotone(100, part, whole);
      AverageWithinBounds(100 * part, whole, 0, 100);
    }
  }
}
