/** Predicates the solver opens only on request. */
module Folding {

  /**
    A key for folded predicates. `forall k {:trigger Unfold(k)} :: Unfold(k) ==> body` is the same
    statement as `body`, but the solver looks inside only where `Unfold(0)` is mentioned. A second
    key, `Unfold(1)`, opens predicates folded with `k == 1`.
   */
  predicate Unfold(k: nat) {
    k == k
  }
}
