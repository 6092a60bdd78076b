/** Currency amounts and PHP's `round($x, 2)`, taken over exact reals. */
module Money {

  /** A whole number of cents. */
  predicate WholeCents(x: real)
  {
    (x * 100.0).Floor as real == x * 100.0
  }

  /**
   * `round($x, 2)`: to the nearest cent, halves away from zero.
   * The result is a whole number of cents within half a cent of `x`.
   */
  function Round2(x: real): (r: real)
    ensures WholeCents(r)
    ensures r - x <= 0.005 && x - r <= 0.005
    ensures x >= 0.0 ==> r >= 0.0
    ensures x <= 0.0 ==> r <= 0.0
  {
    if x >= 0.0 then CentsToAmount((x * 100.0 + 0.5).Floor)
    else -CentsToAmount((-x * 100.0 + 0.5).Floor)
  }

  /** The amount worth `c` cents. */
  function CentsToAmount(c: int): (r: real)
    ensures WholeCents(r) && WholeCents(-r)
    ensures r * 100.0 == c as real
  {
    var r := c as real / 100.0;
    assert r * 100.0 == c as real;
    assert (-r) * 100.0 == (-c) as real;
    r
  }

  /** Rounding an amount that is already in whole cents changes nothing. */
  lemma Round2Exact(x: real)
    requires WholeCents(x)
    ensures Round2(x) == x
  {
    var c := (x * 100.0).Floor;
    assert x * 100.0 == c as real;
    if x >= 0.0 {
      assert (x * 100.0 + 0.5).Floor == c;
    } else {
      assert (-x * 100.0 + 0.5).Floor == -c;
    }
  }

}
