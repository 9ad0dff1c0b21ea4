/** Fixed decimals over exact reals, for what is not negative: the nearest multiple, ties up. */
module FixedPoint {
  function Min(x: real, y: real): real { if x <= y then x else y }

  function Max(x: real, y: real): real { if x >= y then x else y }

  function Nearest(x: real): int {
    (x + 0.5).Floor
  }

  /** Four decimals. */
  function Round4(x: real): real {
    Nearest(x * 10000.0) as real / 10000.0
  }

  predicate FourDecimals(x: real) {
    (x * 10000.0).Floor as real == x * 10000.0
  }

  lemma NearestBounds(x: real)
    ensures x - 0.5 < Nearest(x) as real <= x + 0.5
  {
  }

  /** Rounding does not leave an interval with whole ends. */
  lemma NearestBetween(low: int, high: int, x: real)
    requires low as real <= x <= high as real
    ensures low <= Nearest(x) <= high
  {
    NearestBounds(x);
  }

  /** What has four decimals is left alone. */
  lemma Round4Fixes(x: real)
    requires FourDecimals(x)
    ensures Round4(x) == x
  {
    var n := (x * 10000.0).Floor;
    assert Nearest(x * 10000.0) == n;
  }

  lemma ProductBounds(x: real, part: real)
    requires x >= 0.0 && 0.0 <= part <= 1.0
    ensures 0.0 <= x * part <= x
  {
    assert x * (1.0 - part) >= 0.0;
  }

  lemma QuotientBelow(x: real, d: real, bound: real)
    requires d > 0.0
    ensures x / d < bound <==> x < bound * d
  {
    var q := x / d;
    assert x == q * d;
    if q < bound { assert (bound - q) * d > 0.0; } else { assert (q - bound) * d >= 0.0; }
  }

  lemma QuotientAbove(x: real, d: real, bound: real)
    requires d > 0.0
    ensures x / d > bound <==> x > bound * d
  {
    var q := x / d;
    assert x == q * d;
    if q > bound { assert (q - bound) * d > 0.0; } else { assert (bound - q) * d >= 0.0; }
  }

  lemma QuotientBounds(x: real, d: real)
    requires 0.0 <= x <= d && d > 0.0
    ensures 0.0 <= x / d <= 1.0
  {
    QuotientBelow(x, d, 0.0);
    QuotientAbove(x, d, 1.0);
  }
}
