/** Products as repeated addition, for bounds that grow along a run. */
module Products {
  /** `k * n` written as repeated addition, which keeps products out of the proofs about runs. */
  function Times(k: nat, n: nat): nat {
    if n == 0 then 0 else Times(k, n - 1) + k
  }

  lemma {:induction false} TimesBound(k: nat, a: nat, b: nat, limit: nat)
    requires a <= b && Times(k, b) <= limit
    ensures k * a <= limit
  {
    if a < b { TimesBound(k, a, b - 1, limit); } else { TimesIsProduct(k, a); }
  }

  lemma {:induction false} TimesIsProduct(k: nat, n: nat)
    ensures Times(k, n) == k * n
  {
    if n > 0 { TimesIsProduct(k, n - 1); }
  }
}
