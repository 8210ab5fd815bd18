/** Whole numbers of periods. */
module Periods {

  /** `k` times `r`, by addition. */
  function Times(k: nat, r: real): (p: real)
    ensures r >= 0.0 ==> p >= 0.0
  {
    if k == 0 then 0.0 else r + Times(k - 1, r)
  }

  lemma {:induction false} TimesIs(k: nat, r: real)
    ensures Times(k, r) == k as real * r
  {
    if k > 0 {
      TimesIs(k - 1, r);
      assert k as real == 1.0 + (k - 1) as real;
    }
  }

  lemma {:induction false} TimesGrows(a: nat, b: nat, r: real)
    requires a <= b && r >= 0.0
    ensures Times(a, r) <= Times(b, r)
    decreases b
  {
    if a < b {
      TimesGrows(a, b - 1, r);
    }
  }
}
