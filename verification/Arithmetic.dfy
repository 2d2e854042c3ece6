/** Quotients and remainders. */
module Arithmetic {

  lemma ModShift(n: int, m: int, k: int)
    requires m > 0
    ensures (n + k * m) % m == n % m
  {
    var q := n / m;
    assert n + k * m == (q + k) * m + n % m;
    DivisionUnique(n + k * m, m, q + k, n % m);
  }

  lemma DivisionUnique(n: int, m: int, q: int, r: int)
    requires m > 0 && n == q * m + r && 0 <= r < m
    ensures n / m == q && n % m == r
  {
    var q', r' := n / m, n % m;
    assert (q' - q) * m == r - r';
    Multiple(q' - q, m);
  }

  lemma Multiple(x: int, m: int)
    requires m > 0
    ensures x > 0 ==> x * m >= m
    ensures x < 0 ==> x * m <= -m
  {
  }
}
