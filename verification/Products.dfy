/** Products of variables, kept away from the proofs that use them. */
module Products {

  lemma OneMore(k: nat, a: int)
    ensures (k + 1) * a == k * a + a
  {
  }

  lemma Positive(m: nat, n: nat)
    requires 0 < m && 0 < n
    ensures 0 < m * n
  {
  }

  lemma Scale(n: nat, a: int, b: int)
    requires a <= b
    ensures n * a <= n * b
  {
    assert n * (b - a) == n * b - n * a;
  }

  /** A multiple of n that is at most n / 2 is not positive. */
  lemma HalfIsLessThanOne(n: nat, k: int)
    requires 0 < n && 2 * (n * k) <= n
    ensures k <= 0
  {
    if 1 <= k {
      Scale(n, 1, k);
    }
  }
}
