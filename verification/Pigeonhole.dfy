/** Counting by injection, used for every bound on how many requests pass. */
module Pigeonhole {
  /** A set of indices that some code sends into 0..n-1 without collisions has at most n members. */
  lemma {:induction false} Bound(indices: set<nat>, code: nat -> int, n: nat)
    requires forall i :: i in indices ==> 0 <= code(i) < n
    requires forall i, j :: i in indices && j in indices && code(i) == code(j) ==> i == j
    ensures |indices| <= n
  {
    if n == 0 {
      assert indices == {};
    } else if i :| i in indices && code(i) == n - 1 {
      Bound(indices - {i}, code, n - 1);
    } else {
      Bound(indices, code, n - 1);
    }
  }
}
