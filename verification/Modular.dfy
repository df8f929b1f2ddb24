/** Remainders of non-negative positions, as bucket and shard assignments use them. */
module Modular {

  lemma TimesMonotone(n: nat, i: int, j: int)
    requires i <= j
    ensures n * i <= n * j
  {
  }

  /** Quotient and remainder are unique. */
  lemma RemainderIs(x: int, n: nat, k: int, b: nat)
    requires b < n && x == n * k + b
    ensures x % n == b && x / n == k
  {
    var q := x / n;
    var r := x % n;
    assert x == n * q + r;
    assert n * (q + 1) == n * q + n && n * (k + 1) == n * k + n;
    if k > q {
      TimesMonotone(n, q + 1, k);
    } else if k < q {
      TimesMonotone(n, k + 1, q);
    }
  }
}
