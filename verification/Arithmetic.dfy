// Facts about products and quotients of numbers that are not known, one step each.

module Arithmetic {
  function Pow2(n: nat): (r: nat)
    ensures r > 0
  {
    if n == 0 then 1 else 2 * Pow2(n - 1)
  }

  lemma Regroup(a: nat, b: nat, c: nat)
    ensures a * (b * c) == (a * c) * b
  {
  }

  lemma Distribute(a: nat, b: nat, c: nat)
    ensures (a + b) * c == a * c + b * c
  {
  }

  lemma Monotone(a: nat, b: nat, c: nat)
    requires a <= b
    ensures a * c <= b * c
  {
  }

  // A quotient and a remainder are told by their sum.
  lemma DivMod(q: nat, r: nat, m: nat)
    requires r < m
    ensures (q * m + r) / m == q && (q * m + r) % m == r
  {
    var x := q * m + r;
    var c := x / m;
    assert x == c * m + x % m;
    if c < q {
      Monotone(c + 1, q, m);
      Distribute(c, 1, m);
    } else if c > q {
      Monotone(q + 1, c, m);
      Distribute(q, 1, m);
    }
  }

  lemma Quotient(x: nat, m: nat, n: nat)
    requires m > 0
    ensures x < m * n <==> x / m < n
    ensures x % m < m && x == x / m * m + x % m
  {
    var q := x / m;
    assert x == q * m + x % m;
    if q >= n {
      Monotone(n, q, m);
    } else {
      Monotone(q + 1, n, m);
      Distribute(q, 1, m);
    }
  }
}
