/** Division with remainder by a variable divisor. */
module Arithmetic {

  lemma MulFar(m: int, d: int)
    requires m > 0
    ensures d >= 1 ==> m * d >= m
    ensures d <= -1 ==> m * d <= 0 - m
  {
  }

  lemma Euclid(n: nat, m: nat)
    requires m > 0
    ensures n == m * (n / m) + n % m && n % m < m
  {
  }

  lemma DivModUnique(x: nat, m: nat, q: nat, r: nat)
    requires m > 0 && r < m && x == m * q + r
    ensures x / m == q && x % m == r
  {
    assert x == m * (x / m) + x % m;
    assert m * (x / m - q) == m * (x / m) - m * q;
    MulFar(m, x / m - q);
  }

  lemma ModOfSum(a: nat, q: nat, m: nat)
    requires m > 0
    ensures (a + m * q) % m == a % m
  {
    assert a == m * (a / m) + a % m;
    assert m * (a / m + q) == m * (a / m) + m * q;
    DivModUnique(a + m * q, m, a / m + q, a % m);
  }

  lemma ModOfMod(k: nat, m: nat, n: nat)
    requires m > 0 && n > 0 && n % m == 0
    ensures (k % n) % m == k % m
  {
    var q, d := k / n, n / m;
    assert n == m * d;
    assert m * (d * q) == (m * d) * q;
    assert k == k % n + m * (d * q);
    ModOfSum(k % n, d * q, m);
  }

  lemma ModApart(j: nat, k: nat, m: nat)
    requires j < k < j + m
    ensures j % m != k % m
  {
    assert j == m * (j / m) + j % m;
    assert k == m * (k / m) + k % m;
    assert m * (k / m - j / m) == m * (k / m) - m * (j / m);
    MulFar(m, k / m - j / m);
  }

  lemma MulSum(s: nat, l: nat, q: nat, r: nat, t: nat)
    requires r < l && t < s
    ensures s * (l * q + r) + t == (s * l) * q + (s * r + t) && s * r + t < s * l
  {
    assert s * (l * q + r) == s * (l * q) + s * r;
    assert s * (l * q) == (s * l) * q;
    assert s * (r + 1) == s * r + s;
    MulMonotone(s, r + 1, l);
  }

  lemma MulMonotone(s: nat, a: nat, b: nat)
    requires a <= b
    ensures s * a <= s * b
  {
  }

  lemma DivDivOf(n: nat, s: nat, l: nat, m: nat, q: nat, r: nat, t: nat)
    requires r < l && t < s && n == s * m + t && m == l * q + r
    ensures s * l > 0 && n / (s * l) == q
  {
    MulSum(s, l, q, r, t);
    DivModUnique(n, s * l, q, s * r + t);
  }

  lemma DivByProduct(n: nat, s: nat, l: nat)
    requires s > 0 && l > 0
    ensures s * l > 0 && n / (s * l) == (n / s) / l
  {
    Euclid(n, s);
    Euclid(n / s, l);
    DivDivOf(n, s, l, n / s, (n / s) / l, (n / s) % l, n % s);
  }
}
