/** Quotient and remainder from a decomposition. */
module Modular {

  lemma SmallMultiple(m: int, d: int, e: int)
    requires m * d == e && 0 - m < e < m
    ensures d == 0 && e == 0
  {
  }

  lemma Quotient(x: nat, m: nat, q: nat, r: nat)
    requires m >= 1 && r < m && x == m * q + r
    ensures x / m == q && x % m == r
  {
    assert x == m * (x / m) + x % m;
    SmallMultiple(m, q - x / m, x % m - r);
  }
}
