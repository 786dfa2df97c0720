/** Multiples by repeated addition, so that proofs about them stay linear. */
module Multiples {
  /** `k` times `unit`. */
  function Times(k: nat, unit: nat): nat { if k == 0 then 0 else Times(k - 1, unit) + unit }

  lemma {:induction false} TimesIsProduct(k: nat, unit: nat)
    ensures Times(k, unit) == k * unit
    decreases k
  {
    if k > 0 {
      TimesIsProduct(k - 1, unit);
      assert k * unit == (k - 1) * unit + unit;
    }
  }

  lemma {:induction false} TimesAdds(a: nat, b: nat, unit: nat)
    ensures Times(a + b, unit) == Times(a, unit) + Times(b, unit)
    decreases b
  {
    if b > 0 { TimesAdds(a, b - 1, unit); }
  }

  lemma {:induction false} TimesMonotone(a: nat, b: nat, unit: nat)
    requires a <= b
    ensures Times(a, unit) <= Times(b, unit)
  {
    TimesAdds(a, b - a, unit);
  }
}
