/** Python's `round(x, 2)` on money amounts, modelled on exact reals.
    Everything the rest of the model uses about it is its contract: the
    result is a whole number of cents and lies within half a cent of `x`. */
module Rounding {

  /** `r` is a whole number of cents: `100 * r` is an integer. */
  predicate IsCents(r: real) {
    (100.0 * r).Floor as real == 100.0 * r
  }

  /** `r` lies within half a cent of `x`. */
  predicate WithinHalfCent(r: real, x: real) {
    -0.005 <= r - x <= 0.005
  }

  /** Cent rounding. Ties go up here; only the contract is relied on. */
  function Round2(x: real): (r: real)
    ensures IsCents(r)
    ensures WithinHalfCent(r, x)
  {
    var n := (100.0 * x + 0.5).Floor;
    assert 100.0 * x - 0.5 < n as real <= 100.0 * x + 0.5;
    assert 100.0 * (n as real / 100.0) == n as real;
    n as real / 100.0
  }

  /** Two whole-cent amounts less than a cent apart are equal. */
  lemma CentsUnique(r: real, s: real)
    requires IsCents(r) && IsCents(s)
    requires -0.01 < r - s < 0.01
    ensures r == s
  {
    var m, n := (100.0 * r).Floor, (100.0 * s).Floor;
    assert -1.0 < (m - n) as real < 1.0;
    assert m == n;
  }

  /** Rounding leaves an amount that is already whole cents unchanged. */
  lemma RoundFixesCents(x: real)
    requires IsCents(x)
    ensures Round2(x) == x
  {
    CentsUnique(Round2(x), x);
  }

  /** Any whole-cent amount strictly closer than half a cent to `x` is the
      rounded value (at an exact tie both neighbours satisfy the contract). */
  lemma RoundDetermined(x: real, c: real)
    requires IsCents(c) && -0.005 < c - x < 0.005
    ensures Round2(x) == c
  {
    CentsUnique(Round2(x), c);
  }

  /** Cent rounding is monotone: it never reverses the order of two amounts. */
  lemma RoundMonotone(x: real, y: real)
    requires x <= y
    ensures Round2(x) <= Round2(y)
  {
    if x < y {
      var rx, ry := Round2(x), Round2(y);
      var m, n := (100.0 * rx).Floor, (100.0 * ry).Floor;
      assert m as real < n as real + 1.0;
      assert m <= n;
    }
  }

  /** Rounding zero gives zero. */
  lemma RoundZero()
    ensures Round2(0.0) == 0.0
  {
    RoundFixesCents(0.0);
  }
}
