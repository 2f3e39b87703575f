/** The greater of two numbers, and the few facts about multiplication and remainders that the proofs need. */
module Arithmetic {

  function Max(a: int, b: int): int {
    if a < b then b else a
  }

  lemma MulAtLeast(d: int, n: int)
    requires 0 < n
    ensures 1 <= d ==> n <= d * n
    ensures d <= -1 ==> d * n <= -n
  {
    if 1 <= d {
      assert (d - 1) * n >= 0;
      assert d * n == (d - 1) * n + n;
    } else if d <= -1 {
      assert (-1 - d) * n >= 0;
      assert d * n == -((-1 - d) * n) - n;
    }
  }

  lemma DivMod(a: int, n: int)
    requires 0 < n
    ensures a == a / n * n + a % n && 0 <= a % n < n
  {
  }

  lemma SmallMultiple(d: int, n: int)
    requires 0 < n && -n < d * n < n
    ensures d == 0
  {
    MulAtLeast(d, n);
  }

  /** Quotient and remainder are determined by the division identity. */
  lemma DivModUnique(a: int, q: int, r: int, n: int)
    requires 0 < n && 0 <= r < n && a == q * n + r
    ensures a / n == q && a % n == r
  {
    DivMod(a, n);
    var d := q - a / n;
    assert d * n == q * n - a / n * n;
    SmallMultiple(d, n);
  }

  /** Numbers less than n apart have different remainders. */
  lemma ModInjective(a: int, b: int, n: int)
    requires 0 < n && a <= b < a + n && a % n == b % n
    ensures a == b
  {
    DivMod(a, n);
    DivMod(b, n);
    var d := b / n - a / n;
    assert d * n == b / n * n - a / n * n;
    SmallMultiple(d, n);
  }

  lemma MultipleMod(q: int, n: int)
    requires 0 < n
    ensures q * n % n == 0
  {
    DivModUnique(q * n, q, 0, n);
  }

  /** Rounding down to a multiple of n. */
  lemma RoundDown(a: int, n: int)
    requires 0 < n
    ensures a - n < a / n * n <= a && a / n * n % n == 0
  {
    DivMod(a, n);
    MultipleMod(a / n, n);
  }
}
