/** Remainders of sums and products. */
module Arithmetic {

  lemma MulMonotone(p: nat, a: nat, b: nat)
    requires a < b
    ensures p * a + p <= p * b
  {
    assert p * b == p * (a + 1) + p * (b - a - 1);
  }

  lemma {:induction false} MulMod(q: nat, r: nat, p: nat)
    requires r < p
    ensures (p * q + r) % p == r
  {
    var n := p * q + r;
    var q', r' := n / p, n % p;
    assert n == p * q' + r';
    if q < q' {
      MulMonotone(p, q, q');
    } else if q' < q {
      MulMonotone(p, q', q);
    }
  }

  /** Once round the circle of n places. */
  lemma ModOnce(x: nat, n: nat)
    requires n > 0 && x < 2 * n
    ensures x % n == if x < n then x else x - n
  {
    if x < n {
      MulMod(0, x, n);
    } else {
      MulMod(1, x - n, n);
    }
  }
}
