/** Division facts the solver does not find on its own. */
module Arithmetic {
  /** Quotient and remainder are unique. */
  lemma DivUnique(x: nat, m: nat, q: nat, r: nat)
    requires m > 0 && x == m * q + r && r < m
    ensures x / m == q && x % m == r
  {
    var d: int := x / m - q;
    assert m * d == r - x % m;
    assert d >= 1 ==> m * d >= m;
    assert d <= -1 ==> m * d + m <= 0;
  }

  lemma Multiple(m: nat, q: nat)
    requires m > 0
    ensures (m * q) % m == 0
  {
    DivUnique(m * q, m, q, 0);
  }

  /** What a division leaves is the rest. */
  lemma DivRest(x: nat, m: nat)
    requires m > 0
    ensures m * (x / m) == x - x % m && x % m < m && (x - x % m) % m == 0
  {
    Multiple(m, x / m);
  }

  /** The remainder by an even number, from that of the halves. */
  lemma HalfRemainder(x: nat, half: nat)
    requires half > 0
    ensures x % (2 * half) == 2 * (x / 2 % half) + x % 2
  {
    var q, r := x / 2 / half, x / 2 % half;
    assert x / 2 == half * q + r;
    assert 2 * (half * q) == 2 * half * q;
    DivUnique(x, 2 * half, q, 2 * r + x % 2);
  }
}
