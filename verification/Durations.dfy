/** Repeated durations, kept linear for the proofs about schedules. */
module Durations {

  /** `n` times `d`. */
  function Times(n: nat, d: real): real {
    if n == 0 then 0.0 else Times(n - 1, d) + d
  }

  lemma {:induction false} TimesIsProduct(n: nat, d: real)
    ensures Times(n, d) == n as real * d
  {
    if n > 0 {
      TimesIsProduct(n - 1, d);
      assert n as real * d == (n - 1) as real * d + d;
    }
  }

  lemma {:induction false} TimesGrows(m: nat, n: nat, d: real)
    requires m <= n && d >= 0.0
    ensures 0.0 <= Times(m, d) <= Times(n, d)
    decreases n
  {
    if m < n {
      TimesGrows(m, n - 1, d);
    } else if n > 0 {
      TimesGrows(n - 1, n - 1, d);
    }
  }

  lemma TimesOfSum(k: nat, f: real, i: real)
    ensures f + i + Times(k, f + i) + f == (k + 1) as real * i + (k + 2) as real * f
  {
    TimesIsProduct(k, f + i);
    assert f + i + k as real * (f + i) + f == (k + 1) as real * i + (k + 2) as real * f;
  }
}
