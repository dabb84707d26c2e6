/** Division by a variable, one step at a time. */
module Arith {
  /** A quotient and a remainder are determined by their sum. */
  lemma DivUnique(n: nat, d: nat, q: int, r: nat)
    requires d > 0 && n == q * d + r && r < d
    ensures n / d == q && n % d == r
  {
    var p, s := n / d, n % d;
    assert n == p * d + s;
    assert (q - p) * d == s - r;
    Multiple(q - p, d);
  }

  lemma Multiple(k: int, d: nat)
    ensures k >= 1 ==> k * d >= d
    ensures k <= -1 ==> k * d + d <= 0
  {
    if k >= 1 {
      Monotone(1, k, d);
    } else {
      Monotone(k, 0, d);
      assert (k + 1) * d == k * d + d;
      if k <= -1 {
        Monotone(k + 1, 0, d);
      }
    }
  }

  lemma Monotone(a: int, b: int, d: nat)
    requires a <= b
    ensures a * d <= b * d
  {}

  lemma Successor(n: nat, d: nat)
    requires d > 0
    ensures n % d + 1 < d ==> (n + 1) / d == n / d && (n + 1) % d == n % d + 1
    ensures n % d + 1 == d ==> (n + 1) / d == n / d + 1 && (n + 1) % d == 0
  {
    var q, r := n / d, n % d;
    assert n == q * d + r;
    if r + 1 < d {
      DivUnique(n + 1, d, q, r + 1);
    } else {
      assert (q + 1) * d == q * d + d;
      DivUnique(n + 1, d, q + 1, 0);
    }
  }
}
