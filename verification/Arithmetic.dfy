/** Machine integers, and the few facts about products and quotients that need stating. */
module Arithmetic {
  const MIN_INT64: int := -0x8000_0000_0000_0000
  const MAX_INT64: int := 0x7fff_ffff_ffff_ffff
  const TWO_TO_THE_64: int := 0x1_0000_0000_0000_0000

  lemma TimesMonotone(a: int, b: int, k: int)
    requires a <= b && k >= 0
    ensures a * k <= b * k
  {
  }

  /** A quotient with a remainder in range is the quotient. */
  lemma DivisionUnique(a: int, n: int, q: int, r: int)
    requires n > 0 && a == q * n + r && 0 <= r < n
    ensures a / n == q && a % n == r
  {
    var d := a / n - q;
    assert a == (a / n) * n + a % n;
    assert d * n == r - a % n by {
      assert d * n == (a / n) * n - q * n;
    }
    if d > 0 {
      TimesMonotone(1, d, n);
    } else if d < 0 {
      TimesMonotone(d, -1, n);
    }
  }

  lemma DivisionMonotone(a: int, b: int, n: int)
    requires n > 0 && a <= b
    ensures a / n <= b / n
  {
    if a / n > b / n {
      TimesMonotone(b / n + 1, a / n, n);
    }
  }
}
