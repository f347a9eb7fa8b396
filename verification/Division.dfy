/** Division with remainder, where the verifier needs telling. */
module Division {

  lemma Remainder(v: nat, m: nat, q: nat, r: nat)
    requires m > 0 && r < m && v == m * q + r
    ensures v % m == r
  {
    var d, e := v / m, v % m;
    var k := d - q;
    assert m * d + e == v;
    assert m * k == m * d - m * q;
    assert m * k == r - e;
    NoMultiple(m, k);
  }

  lemma NoMultiple(m: nat, k: int)
    requires m > 0 && -(m as int) < m * k < m
    ensures k == 0
  {
    if k > 0 { AtLeast(m, k); }
    if k < 0 {
      AtLeast(m, -k);
      Negated(m, k);
    }
  }

  lemma {:induction false} AtLeast(m: nat, j: nat)
    requires j >= 1
    ensures m * j >= m
    decreases j
  {
    if j > 1 {
      AtLeast(m, j - 1);
      OneMore(m, j - 1);
    }
  }

  lemma OneMore(m: nat, j: nat)
    ensures m * (j + 1) == m * j + m
  {
  }

  lemma Negated(m: nat, k: int)
    ensures m * -k == -(m * k)
  {
  }

  lemma Quotient(v: nat, m: nat, q: nat, r: nat)
    requires m > 0 && r < m && v == m * q + r
    ensures v / m == q && v % m == r
  {
    Remainder(v, m, q, r);
    var k := v / m - q;
    assert m * (v / m) + v % m == v;
    assert m * k == m * (v / m) - m * q;
    NoMultiple(m, k);
  }

  lemma Monotone(n: nat, a: nat, b: nat)
    requires a <= b
    ensures n * a <= n * b
  {
  }

  lemma Joined(q: nat, d: nat, n: nat)
    requires d < n
    ensures (q * n + d) / n == q && (q * n + d) % n == d
  {
    assert q * n == n * q;
    Quotient(q * n + d, n, q, d);
  }

  lemma Recombine(v: nat, a: nat, q: nat, r: nat)
    requires a > 0 && q == v / a && r == v % a
    ensures v == a * q + r && r < a
  {
  }

  lemma Spread(a: nat, b: nat, s: nat, t: nat)
    ensures a * (b * s + t) == s * (a * b) + a * t
  {
    assert a * (b * s) == s * (a * b);
  }

  lemma Bounded(a: nat, b: nat, t: nat, r: nat)
    requires t < b && r < a
    ensures a * t + r < a * b
  {
    Monotone(a, t + 1, b);
    assert a * (t + 1) == a * t + a;
  }

  lemma DivDiv(v: nat, a: nat, b: nat)
    requires a > 0 && b > 0
    ensures (v / a) / b == v / (a * b)
  {
    var q, r := v / a, v % a;
    var s, t := q / b, q % b;
    Recombine(v, a, q, r);
    Recombine(q, b, s, t);
    Bounded(a, b, t, r);
    Spread(a, b, s, t);
    Joined(s, a * t + r, a * b);
  }
}
