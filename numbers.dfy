/** JavaScript number rounding as the application uses it, on exact reals. */
module Numbers {

  function Min(a: real, b: real): real { if a <= b then a else b }

  function Max(a: real, b: real): real { if a >= b then a else b }

  /** `Math.min(Math.max(x, lo), hi)`. */
  function Clamp(x: real, lo: real, hi: real): real { Min(Max(x, lo), hi) }

  /** `Math.round(x)`: the nearest integer, a half rounded toward +infinity. */
  function RoundHalfUp(x: real): (n: int)
    ensures x - 0.5 < n as real <= x + 0.5
  {
    (x + 0.5).Floor
  }

  /** The value has at most `1` decimal place. */
  predicate IsTenths(r: real) { (r * 10.0).Floor as real == r * 10.0 }

  /** The value has at most `2` decimal places. */
  predicate IsCents(r: real) { (r * 100.0).Floor as real == r * 100.0 }

  /** `Math.round(x * 10) / 10`: the nearest multiple of 0.1, halves upward. */
  function Round1(x: real): (r: real)
    ensures IsTenths(r)
    ensures x - 0.05 < r <= x + 0.05
  {
    RoundHalfUp(x * 10.0) as real / 10.0
  }

  /** `Math.round(x * 100) / 100`: the nearest multiple of 0.01, halves upward. */
  function Round2(x: real): (r: real)
    ensures IsCents(r)
    ensures x - 0.005 < r <= x + 0.005
  {
    RoundHalfUp(x * 100.0) as real / 100.0
  }

  /** Rounding to cents never reverses the order of two values. */
  lemma Round2Monotone(x: real, y: real)
    requires x <= y
    ensures Round2(x) <= Round2(y)
  {
    var a, b := x * 100.0 + 0.5, y * 100.0 + 0.5;
    assert a <= b;
    assert a.Floor <= b.Floor by {
      assert a.Floor as real <= a < b.Floor as real + 1.0;
    }
  }

  /** A value that already has at most two decimals is left unchanged. */
  lemma Round2OfCents(x: real)
    requires IsCents(x)
    ensures Round2(x) == x
  {
    var n := (x * 100.0).Floor;
    assert (x * 100.0 + 0.5).Floor == n;
  }

  /** Rounding a value in `[lo, hi]` lands in `[Round2(lo), Round2(hi)]`. */
  lemma Round2Between(x: real, lo: real, hi: real)
    requires lo <= x <= hi
    ensures Round2(lo) <= Round2(x) <= Round2(hi)
  {
    Round2Monotone(lo, x);
    Round2Monotone(x, hi);
  }
}
