/** Sums over finite maps, to measure what a set of concurrent activities has left to do. */
module Totals {
  function Total<T>(m: map<nat, T>, w: T -> nat, n: nat): nat {
    if n == 0 then 0 else Total(m, w, n - 1) + if n - 1 in m then w(m[n - 1]) else 0
  }

  /** Changing or adding one entry below n. */
  lemma {:induction false} TotalUpdate<T>(m: map<nat, T>, w: T -> nat, n: nat, k: nat, v: T)
    ensures k >= n ==> Total(m[k := v], w, n) == Total(m, w, n)
    ensures k < n ==> Total(m[k := v], w, n) + (if k in m then w(m[k]) else 0) == Total(m, w, n) + w(v)
  {
    if n > 0 { TotalUpdate(m, w, n - 1, k, v); }
  }
}
