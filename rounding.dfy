/** Python's `round(x, 3)`, taken over the reals: the nearest multiple of
    1/1000, ties going to the even multiple. */
module Rounding {

  /** Whether x is a whole number of thousandths. */
  predicate IsThousandths(x: real) {
    (x * 1000.0).Floor as real == x * 1000.0
  }

  /** The number of thousandths `round(x, 3)` picks. */
  function NearestThousandths(x: real): (k: int)
    ensures -0.5 <= k as real - x * 1000.0 <= 0.5
  {
    var n := (x * 1000.0).Floor;
    var frac := x * 1000.0 - n as real;
    if frac < 0.5 then n
    else if frac > 0.5 then n + 1
    else if n % 2 == 0 then n
    else n + 1
  }

  /** `round(x, 3)`: a multiple of 1/1000 within half a thousandth of x. */
  function RoundToThousandths(x: real): (r: real)
    ensures IsThousandths(r)
    ensures -0.0005 <= r - x <= 0.0005
  {
    NearestThousandths(x) as real / 1000.0
  }

  /** Rounding never reverses the order of two values. */
  lemma RoundMonotone(x: real, y: real)
    requires x <= y
    ensures RoundToThousandths(x) <= RoundToThousandths(y)
  {
    var nx, ny := (x * 1000.0).Floor, (y * 1000.0).Floor;
    assert nx <= ny;
    var kx, ky := NearestThousandths(x), NearestThousandths(y);
    if nx == ny {
      assert x * 1000.0 - nx as real <= y * 1000.0 - ny as real;
      assert kx <= ky;
    } else {
      assert kx <= nx + 1 <= ny <= ky;
    }
  }

  /** A value that already is a whole number of thousandths is left unchanged. */
  lemma RoundExact(x: real)
    requires IsThousandths(x)
    ensures RoundToThousandths(x) == x
  {
    assert NearestThousandths(x) == (x * 1000.0).Floor;
  }

  /** Rounding maps [0, 1] into [0, 1]: it fixes both ends and is monotone. */
  lemma RoundKeepsUnitInterval(x: real)
    requires 0.0 <= x <= 1.0
    ensures 0.0 <= RoundToThousandths(x) <= 1.0
  {
    RoundExact(0.0);
    RoundExact(1.0);
    RoundMonotone(0.0, x);
    RoundMonotone(x, 1.0);
  }

  /** Rounding is idempotent. */
  lemma RoundIdempotent(x: real)
    ensures RoundToThousandths(RoundToThousandths(x)) == RoundToThousandths(x)
  {
    RoundExact(RoundToThousandths(x));
  }

  /** On [0, 1], a score rounds to 1.000 exactly from 0.9995 upwards (the tie
      at 0.9995 goes to the even 1000), so a cohort's maximum is not the only
      row that can be shown as 1.000. */
  lemma RoundsToOne(x: real)
    requires x <= 1.0
    ensures RoundToThousandths(x) == 1.0 <==> x >= 0.9995
  {
    if x >= 0.9995 {
      if x < 1.0 {
        assert (x * 1000.0).Floor == 999;
      } else {
        RoundExact(x);
      }
    } else {
      assert (x * 1000.0).Floor <= 999;
    }
  }

  /** On [0, 1], a score rounds to 0.000 exactly up to 0.0005 (the tie at
      0.0005 goes to the even 0). */
  lemma RoundsToZero(x: real)
    requires 0.0 <= x
    ensures RoundToThousandths(x) == 0.0 <==> x <= 0.0005
  {
    if x <= 0.0005 {
      assert (x * 1000.0).Floor == 0;
    } else {
      assert (x * 1000.0).Floor >= 0;
    }
  }
}
