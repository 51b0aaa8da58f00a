// Whole multiples of a real.
module Multiples {

  // n * x, as the sum of n terms.
  function Times(n: int, x: real): real
    decreases n
  {
    if n <= 0 then 0.0 else Times(n - 1, x) + x
  }

  lemma {:induction false} TimesGrows(n: nat, m: nat, x: real)
    requires n <= m && x >= 0.0
    ensures 0.0 <= Times(n, x) <= Times(m, x)
  {
    if m > 0 {
      TimesGrows(if n < m then n else n - 1, m - 1, x);
    }
  }
}
