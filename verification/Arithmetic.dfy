/** Small arithmetic shared by the models. */
module Arithmetic {

  function Max(a: int, b: int): int { if a > b then a else b }

  function Min(a: int, b: int): int { if a < b then a else b }

  /** `k * unit` by repeated addition, which the inductive proofs can follow. */
  function Times(k: nat, unit: nat): nat {
    if k == 0 then 0 else Times(k - 1, unit) + unit
  }

  lemma {:induction false} TimesIsProduct(k: nat, unit: nat)
    ensures Times(k, unit) == k * unit
  {
    if k > 0 {
      TimesIsProduct(k - 1, unit);
      assert (k - 1) * unit + unit == k * unit;
    }
  }

  lemma {:induction false} TimesMonotone(j: nat, k: nat, unit: nat)
    requires j <= k
    ensures Times(j, unit) <= Times(k, unit)
  {
    if j < k {
      TimesMonotone(j, k - 1, unit);
    }
  }
}
