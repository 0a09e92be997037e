/** Division with remainder by a variable divisor. */
module Arithmetic {
  lemma MulBound(n: int, x: int)
    requires n > 0
    ensures x >= 1 ==> n * x >= n
    ensures x <= -1 ==> n * x <= -n
  {
    if x >= 1 {
      assert n * (x - 1) >= 0;
    } else if x <= -1 {
      assert n * (-1 - x) >= 0;
    }
  }

  lemma DivMod(a: int, n: int)
    requires n > 0
    ensures a == n * (a / n) + a % n && 0 <= a % n < n
  {
  }

  lemma ModIs(a: int, n: int, q: int, m: int)
    requires n > 0 && 0 <= m < n && a == n * q + m
    ensures a % n == m
  {
    DivMod(a, n);
    var d := q - a / n;
    assert n * d == n * q - n * (a / n);
    MulBound(n, d);
  }

  lemma ModStep(a: int, n: int)
    requires n > 0
    ensures (a + 1) % n == if a % n == n - 1 then 0 else a % n + 1
    ensures (a + n) % n == a % n
  {
    DivMod(a, n);
    var q, m := a / n, a % n;
    assert n * (q + 1) == n * q + n;
    ModIs(a + n, n, q + 1, m);
    if m == n - 1 {
      ModIs(a + 1, n, q + 1, 0);
    } else {
      ModIs(a + 1, n, q, m + 1);
    }
  }

  lemma ModUnique(a: int, b: int, n: int)
    requires n > 0 && a <= b < a + n && a % n == b % n
    ensures a == b
  {
    DivMod(a, n);
    DivMod(b, n);
    var d := b / n - a / n;
    assert n * d == n * (b / n) - n * (a / n);
    MulBound(n, d);
  }
}
