/** Runs of any state machine: events one by one, and one run after another. */
module Reach {
  /** A way to run events one by one. */
  ghost predicate IsRunOf<S(!new), E(!new)>(run: (S, seq<E>) -> S, step: (S, E) -> S) {
    && (forall s :: run(s, []) == s)
    && (forall s, es: seq<E> | es != [] :: run(s, es) == run(step(s, es[0]), es[1..]))
  }

  lemma {:induction false} RunConcat<S(!new), E(!new)>(run: (S, seq<E>) -> S, step: (S, E) -> S, s: S, a: seq<E>, b: seq<E>)
    requires IsRunOf(run, step)
    ensures run(s, a + b) == run(run(s, a), b)
    decreases |a|
  {
    if a == [] {
      assert a + b == b;
    } else {
      assert (a + b)[0] == a[0] && (a + b)[1..] == a[1..] + b;
      RunConcat(run, step, step(s, a[0]), a[1..], b);
    }
  }
}
