/** What every other module shares: the optional value, when a list repeats nothing, and steps taken one by one. */
module Wrappers {
  datatype Option<+T> = None | Some(value: T)

  predicate Distinct<T(==)>(xs: seq<T>) { forall i, j | 0 <= i < j < |xs| :: xs[i] != xs[j] }

  /** What holds at `k` holds one step on. */
  ghost predicate Carries(p: nat -> bool, k: nat) { p(k) ==> p(k + 1) }

  lemma {:induction false} StepByStep(p: nat -> bool, n: nat)
    requires p(0) && forall k: nat | k < n :: Carries(p, k)
    ensures p(n)
  {
    if n > 0 {
      StepByStep(p, n - 1);
      assert Carries(p, n - 1);
    }
  }
}
