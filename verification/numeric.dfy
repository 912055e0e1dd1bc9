/** Exact-arithmetic counterparts of the `Math` helpers the calculator uses. */
module Numeric {

  /** `x` is a whole number of hundredths. */
  predicate IsCents(x: real) {
    (x * 100.0).Floor as real == x * 100.0
  }

  /** `Math.round(x * 100) / 100`: round to the nearest hundredth, halves
      going towards positive infinity. */
  function Round2(x: real): (r: real)
    ensures IsCents(r)
    ensures x - 0.005 < r <= x + 0.005
  {
    var k := (x * 100.0 + 0.5).Floor;
    assert (k as real / 100.0) * 100.0 == k as real;
    k as real / 100.0
  }

  function Min(a: real, b: real): (r: real)
    ensures r <= a && r <= b
    ensures r == a || r == b
  {
    if a <= b then a else b
  }

  /** Rounding never reverses the order of two values. */
  lemma Round2Monotone(x: real, y: real)
    requires x <= y
    ensures Round2(x) <= Round2(y)
  {
    assert (x * 100.0 + 0.5).Floor <= (y * 100.0 + 0.5).Floor;
  }

  /** A value already in hundredths is left as it is. */
  lemma Round2OfCents(x: real)
    requires IsCents(x)
    ensures Round2(x) == x
  {
    var k := (x * 100.0).Floor;
    assert x * 100.0 + 0.5 == k as real + 0.5;
    assert (x * 100.0 + 0.5).Floor == k;
  }

  /** Rounding twice is rounding once. */
  lemma Round2Idempotent(x: real)
    ensures Round2(Round2(x)) == Round2(x)
  {
    Round2OfCents(Round2(x));
  }

  /** Rounding keeps a value inside any range whose ends are hundredths. */
  lemma Round2Within(x: real, lo: real, hi: real)
    requires IsCents(lo) && IsCents(hi)
    requires lo <= x <= hi
    ensures lo <= Round2(x) <= hi
  {
    Round2Monotone(lo, x);
    Round2Monotone(x, hi);
    Round2OfCents(lo);
    Round2OfCents(hi);
  }
}
