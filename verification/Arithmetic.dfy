/** Integer facts used by several modules. Divisors are positive, so `/` rounds down as Python's `//` does. */
module Arithmetic {

  /** `max(lo, min(hi, x))`. */
  function Clamp(lo: int, hi: int, x: int): int {
    var low := if x < hi then x else hi;
    if low > lo then low else lo
  }

  function Abs(x: int): nat { if x < 0 then -x else x }

  lemma {:induction false} MulOrder(a: int, b: int, den: int)
    requires den > 0
    ensures a <= b ==> a * den <= b * den
  {
  }

  lemma {:induction false} ProductOrder(a: int, b: int, c: int)
    requires a <= b && c >= 0
    ensures a * c <= b * c && c * a <= c * b
  {
  }

  lemma {:induction false} MulPositive(a: int, b: int)
    requires a > 0 && b > 0
    ensures a * b > 0
  {
  }

  /** A quotient and remainder in range are the quotient and remainder. */
  lemma {:induction false} QuotientIs(num: int, den: int, q: int, r: int)
    requires den > 0 && num == q * den + r && 0 <= r < den
    ensures num / den == q && num % den == r
  {
    var q', r' := num / den, num % den;
    assert num == q' * den + r';
    MulOrder(q' + 1, q, den);
    MulOrder(q + 1, q', den);
  }

  lemma {:induction false} DivOrder(a: int, b: int, den: int)
    requires den > 0 && a <= b
    ensures a / den < b / den || (a / den == b / den && a % den <= b % den)
  {
    var qa, qb := a / den, b / den;
    assert a == qa * den + a % den && b == qb * den + b % den;
    MulOrder(qb + 1, qa, den);
  }

  lemma {:induction false} QuotientAtMost(x: int, v: int, den: int)
    requires den > 0 && 0 <= x <= v * den
    ensures 0 <= x / den <= v
  {
    var q := x / den;
    assert x == q * den + x % den;
    MulOrder(v + 1, q, den);
  }

  // ---- Python's rounding ----

  /** `round(num / den)`: to the nearest integer, a tie to the even one. */
  function RoundHalfEven(num: int, den: int): int
    requires den > 0
  {
    var q, r := num / den, num % den;
    if 2 * r < den then q else if 2 * r > den then q + 1 else if q % 2 == 0 then q else q + 1
  }

  lemma {:induction false} RoundIsNear(num: int, den: int)
    requires den > 0
    ensures -den <= 2 * (RoundHalfEven(num, den) * den - num) <= den
  {
    var q := num / den;
    assert num == q * den + num % den;
    assert (q + 1) * den == q * den + den;
  }

  /** `r` is an integer nearest to `num / den`, the even one if there are two. */
  predicate IsRounded(r: int, num: int, den: int) {
    && -den <= 2 * (r * den - num) <= den
    && (2 * (r * den - num) == den || 2 * (r * den - num) == -den ==> r % 2 == 0)
  }

  lemma {:induction false} RoundIsRounded(num: int, den: int)
    requires den > 0
    ensures IsRounded(RoundHalfEven(num, den), num, den)
  {
    var q := num / den;
    assert num == q * den + num % den;
    assert (q + 1) * den == q * den + den;
  }

  lemma {:induction false} RoundedOnce(a: int, b: int, num: int, den: int)
    requires den > 0 && IsRounded(a, num, den) && a < b
    ensures !IsRounded(b, num, den)
  {
    MulOrder(a + 1, b, den);
    assert (a + 1) * den == a * den + den;
    if b > a + 1 {
      MulOrder(a + 2, b, den);
      assert (a + 2) * den == a * den + 2 * den;
    }
  }

  /** Python's rounding is exactly that. */
  lemma {:induction false} RoundExactly(r: int, num: int, den: int)
    requires den > 0
    ensures r == RoundHalfEven(num, den) <==> IsRounded(r, num, den)
  {
    RoundIsRounded(num, den);
    var q := RoundHalfEven(num, den);
    if r < q && IsRounded(r, num, den) {
      RoundedOnce(r, q, num, den);
    } else if q < r {
      RoundedOnce(q, r, num, den);
    }
  }

  lemma {:induction false} RoundOfMultiple(k: int, den: int)
    requires den > 0
    ensures RoundHalfEven(k * den, den) == k
  {
    QuotientIs(k * den, den, k, 0);
  }

  lemma {:induction false} RoundMonotone(a: int, b: int, den: int)
    requires den > 0 && a <= b
    ensures RoundHalfEven(a, den) <= RoundHalfEven(b, den)
  {
    DivOrder(a, b, den);
  }
}
