/** Quotients and remainders that the solver does not find by itself. */
module Division {

  lemma MulBounds(n: nat, d: int)
    ensures d >= 1 ==> n * d >= n
    ensures d <= -1 ==> n * d <= -(n as int)
  {
  }

  /** Quotient and remainder are unique. */
  lemma DivModIs(a: nat, n: nat, q: nat, r: nat)
    requires n > 0 && r < n && a == n * q + r
    ensures a / n == q && a % n == r
  {
    var d := a / n - q;
    assert n * d == r - a % n by { assert n * d == n * (a / n) - n * q; }
    MulBounds(n, d);
  }

  lemma Split(v: nat, m: nat)
    requires m > 0
    ensures v == m * (v / m) + v % m && v % m < m
  {
  }

  lemma MulMono(c: nat, a: nat, b: nat)
    requires a <= b
    ensures c * a <= c * b
  {
  }

  lemma Distribute(m: nat, b: nat, q: nat, d: nat)
    ensures m * (b * q + d) == m * b * q + m * d
  {
    assert m * (b * q) == m * b * q;
  }

  /** A digit and what is below it stay below the next weight. */
  lemma BelowWeight(m: nat, b: nat, d: nat, r: nat)
    requires d < b && r < m
    ensures m * d + r < m * b
  {
    MulMono(m, d + 1, b);
    assert m * (d + 1) == m * d + m;
  }

  /** The digit at weight m, and what is left below it. */
  lemma DigitAt(v: nat, m: nat, b: nat)
    requires m > 0 && b > 0
    ensures m * b > 0
    ensures v / m / b == v / (m * b) && v / m % b == v % (m * b) / m
    ensures v % (m * b) % m == v % m && v % (m * b) / m < b
  {
    Split(v, m);
    Split(v / m, b);
    DigitOf(v, m, b, v / m / b, v / m % b, v % m);
  }

  lemma DigitOf(v: nat, m: nat, b: nat, q: nat, d: nat, r: nat)
    requires m > 0 && b > 0 && d < b && r < m && v == m * (b * q + d) + r
    ensures m * b > 0
    ensures v / (m * b) == q && v % (m * b) == m * d + r
    ensures v % (m * b) / m == d && v % (m * b) % m == r
  {
    Distribute(m, b, q, d);
    BelowWeight(m, b, d, r);
    DivModIs(v, m * b, q, m * d + r);
    DivModIs(m * d + r, m, d, r);
  }
}
