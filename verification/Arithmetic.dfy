// Facts about products and quotients.

module Arithmetic {

  lemma TimesKeepsOrder(x: int, y: int, m: int)
    requires x <= y && m >= 0
    ensures x * m <= y * m
  {
    assert (y - x) * m >= 0;
  }

  lemma Floor(n: int, a: int)
    requires a > 0
    ensures n / a * a <= n < n / a * a + a
  {
  }

  lemma QuotientAtMost(n: int, a: int, k: int)
    requires a > 0 && n < (k + 1) * a
    ensures n / a <= k
  {
    Floor(n, a);
    if n / a > k {
      TimesKeepsOrder(k + 1, n / a, a);
      assert false;
    }
  }

  lemma TimesNests(a: int, b: int, c: int)
    ensures a * (b * c) == a * b * c == a * c * b
  {
  }
}
