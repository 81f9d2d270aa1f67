/** Facts about products and remainders that the other modules share. */
module Arithmetic {
  lemma MulBound(k: int, m: int)
    requires m >= 0
    ensures k >= 1 ==> k * m >= m
    ensures k <= -1 ==> k * m <= -m
  {
    if k >= 1 {
      assert k * m == m + (k - 1) * m;
    } else if k <= -1 {
      assert k * m == -m + (k + 1) * m;
    }
  }

  /** Quotient and remainder are unique. */
  lemma DivModIs(n: int, m: int, k: int, r: int)
    requires n == k * m + r && 0 <= r < m
    ensures n / m == k && n % m == r
  {
    assert (k - n / m) * m == n % m - r;
    MulBound(k - n / m, m);
  }

  /** Two numbers with the same remainder are a multiple of m apart. */
  lemma ModDiffers(a: int, b: int, m: int)
    requires a < b < a + m
    ensures a % m != b % m
  {
    if a % m == b % m {
      assert b - a == (b / m - a / m) * m;
      MulBound(b / m - a / m, m);
    }
  }

  lemma ModAdd(a: int, b: int, m: int)
    requires m > 0
    ensures (a % m + b) % m == (a + b) % m
  {
    var k := (a % m + b) / m;
    assert a + b == (a / m + k) * m + (a % m + b) % m;
    DivModIs(a + b, m, a / m + k, (a % m + b) % m);
  }

  lemma QuotientBound(p: nat, n: nat, b: nat)
    requires n > 0 && p < n * b
    ensures p / n < b && p % n <= p
  {
    MulBound(p / n - b, n);
    MulBound(p / n, n);
    assert p == (p / n - b) * n + n * b + p % n;
  }

  lemma Nested(a: nat, b: nat, start: nat, q: nat)
    requires start < a && q < b
    ensures start + a * q < a * b
  {
    MulBound(b - q - 1, a);
    assert a * b == (b - q - 1) * a + a * q + a;
  }

  lemma MultiplesApart(n: nat, h: int, g: int)
    requires h * n < g * n
    ensures h * n + n <= g * n
  {
    MulBound(h - g, n);
    assert (h - g) * n == h * n - g * n;
    MulBound(g - h - 1, n);
    assert (g - h - 1) * n == g * n - h * n - n;
  }

  lemma DivMod(b: nat, m: nat)
    requires m > 0
    ensures b == (b / m) * m + b % m && 0 <= b % m < m && 0 <= b / m
  {
  }
}
