/** Exact-arithmetic versions of the numeric idioms the application uses. */
module Numbers {

  /** `Math.round` on an exact value: the nearest integer, halves rounded up. */
  function Round(x: real): (r: int)
    ensures r as real - 0.5 <= x < r as real + 0.5
  {
    (x + 0.5).Floor
  }

  /** `Math.max(lo, Math.min(hi, x))`. */
  function Clamp(lo: int, hi: int, x: int): (r: int)
    requires lo <= hi
    ensures lo <= r <= hi
    ensures lo <= x <= hi ==> r == x
    ensures x < lo ==> r == lo
    ensures hi < x ==> r == hi
  {
    if x < lo then lo else if hi < x then hi else x
  }

  /** Progress and energy values are clamped to a percentage. */
  function Percent(x: int): (r: int)
    ensures 0 <= r <= 100
    ensures 0 <= x <= 100 ==> r == x
  {
    Clamp(0, 100, x)
  }

  /** Rounding never reverses an order. */
  lemma RoundMonotone(x: real, y: real)
    requires x <= y
    ensures Round(x) <= Round(y)
  {
  }

  /** Rounding an integer gives it back. */
  lemma RoundInt(n: int)
    ensures Round(n as real) == n
  {
  }

  /** A value between two integers rounds to a value between them. */
  lemma RoundBetween(lo: int, x: real, hi: int)
    requires lo as real <= x <= hi as real
    ensures lo <= Round(x) <= hi
  {
    RoundMonotone(lo as real, x);
    RoundMonotone(x, hi as real);
    RoundInt(lo);
    RoundInt(hi);
  }

  /** A quotient inherits the bounds its dividend has relative to the divisor. */
  lemma RatioBetween(a: real, n: real, lo: real, hi: real)
    requires n > 0.0
    requires lo * n <= a <= hi * n
    ensures lo <= a / n <= hi
  {
  }

  /** Dividing by a positive number keeps an order. */
  lemma QuotientMonotone(a: real, b: real, n: real)
    requires n > 0.0 && a <= b
    ensures a / n <= b / n
  {
  }

  /** Dividing by a negative number reverses an order. */
  lemma QuotientAntitone(a: real, b: real, n: real)
    requires n < 0.0 && a <= b
    ensures b / n <= a / n
  {
  }

  /** Clamping to a percentage keeps an order. */
  lemma PercentMonotone(x: int, y: int)
    requires x <= y
    ensures Percent(x) <= Percent(y)
  {
  }
}
