/** Facts about products and quotients of integers. */
module Arithmetic {

  lemma MulMono(a: int, b: int, n: nat)
    requires a <= b
    ensures a * n <= b * n
  {
    assert b * n - a * n == (b - a) * n;
  }

  lemma DivMono(a: int, b: int, n: nat)
    requires a <= b && n > 0
    ensures a / n <= b / n
  {
    assert b == b / n * n + b % n && a == a / n * n + a % n;
    if a / n > b / n {
      MulMono(b / n + 1, a / n, n);
    }
  }

  lemma DivBelow(a: int, t: int, n: nat)
    requires a < t * n
    ensures n > 0 ==> a / n < t
  {
    if n > 0 {
      assert a == a / n * n + a % n;
      if a / n >= t {
        MulMono(t, a / n, n);
      }
    }
  }

  lemma RemainderUnique(q: int, p: int, n: nat, r: int, s: int)
    requires q * n + r == p * n + s && 0 <= r < n && 0 <= s < n
    ensures q == p && r == s
  {
    if q > p {
      MulMono(p + 1, q, n);
    } else if q < p {
      MulMono(q + 1, p, n);
    }
  }

  lemma Quotient(x: int, n: nat, q: int, r: int)
    requires n > 0 && x == q * n + r && 0 <= r < n
    ensures x % n == r && x / n == q
  {
    RemainderUnique(q, x / n, n, r, x % n);
  }

  lemma DivExact(t: int, n: nat)
    requires n > 0
    ensures t * n / n == t
  {
    Quotient(t * n, n, t, 0);
  }
}
