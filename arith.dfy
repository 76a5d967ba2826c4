/** Facts about integer multiplication and division that the solver does
    not find on its own. */
module Arith {
  lemma MulSucc(k: nat, n: nat)
    ensures (k + 1) * n == k * n + n
  {
  }

  lemma MulStrictMono(a: int, b: int, d: int)
    requires a < b && d > 0
    ensures a * d + d <= b * d
  {
    var k := b - a;
    assert b * d == a * d + k * d;
    assert k * d == (k - 1) * d + d;
    assert (k - 1) * d >= 0;
  }

  lemma DivModUnique(x: int, d: int, q: int, r: int)
    requires d > 0 && 0 <= r < d && x == q * d + r
    ensures x / d == q && x % d == r
  {
    if x / d > q {
      MulStrictMono(q, x / d, d);
      assert false;
    } else if x / d < q {
      MulStrictMono(x / d, q, d);
      assert false;
    }
  }

  /** Multiplying by a positive divisor and dividing again is exact. */
  lemma MulDivExact(n: int, d: int)
    requires d > 0
    ensures (n * d) % d == 0 && (n * d) / d == n
  {
    DivModUnique(n * d, d, n, 0);
  }

  /** A remainder of zero means the quotient times the divisor gives the
      dividend back. */
  lemma DivMulExact(x: int, d: int)
    requires d > 0 && x % d == 0
    ensures (x / d) * d == x
  {
  }
}
