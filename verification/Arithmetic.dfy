/** Products, quotients and remainders of natural numbers. */
module Arithmetic {

  lemma MulLess(a: nat, b: nat, k: nat)
    requires a < b && k > 0
    ensures a * k < b * k
  {}

  lemma CeilBounds(num: nat, k: nat, q: nat)
    requires k > 0 && q == (num + k - 1) / k
    ensures num <= q * k < num + k
  {
    assert num + k - 1 == k * q + (num + k - 1) % k;
  }

  lemma MulCancel(a: nat, b: nat, k: nat)
    requires a * k < b * k
    ensures a < b
  {
    if a >= b { MulLe(b, a, k); }
  }

  lemma MulLe(a: nat, b: nat, k: nat)
    requires a <= b
    ensures a * k <= b * k
  {}

  lemma ModuloSplit(n: nat, p: nat)
    requires p > 0
    ensures 256 * (n / 256 % p) + n % 256 == n % (256 * p)
  {
    var q, r := n / 256 / p, n / 256 % p;
    assert n / 256 == p * q + r;
    assert n == 256 * (p * q + r) + n % 256;
    var low := 256 * r + n % 256;
    assert 256 * (p * q) == (256 * p) * q;
    assert n == (256 * p) * q + low;
    assert low < 256 * p by { assert r <= p - 1; }
    DivisionIsUnique(n, 256 * p, q, low);
  }

  lemma DivisionIsUnique(n: nat, m: nat, q: nat, r: nat)
    requires m > 0 && n == m * q + r && r < m
    ensures n % m == r
  {
    var q', r' := n / m, n % m;
    assert n == m * q' + r';
    Multiples(m, q, q');
    Multiples(m, q', q);
  }

  lemma Multiples(m: nat, a: nat, b: nat)
    ensures a < b ==> m * a + m <= m * b
  {
    if a < b {
      Distributes(m, a, b - a);
      Distributes(m, 1, b - a - 1);
    }
  }

  lemma Distributes(m: nat, x: nat, y: nat)
    ensures m * (x + y) == m * x + m * y
  {}
}
