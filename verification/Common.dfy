/** Failure-compatible datatypes shared by every module. */
module Wrappers {

  datatype Option<+T> = None | Some(value: T)

  /** The outcome of an operation that the source reports through an `error` result. */
  datatype Result<+T> = Ok(value: T) | Err
}

/**
 Runs of a state machine: finite sequences of states in which the first is
 initial and every two neighbours are related by one atomic step. A protocol
 with several threads is one machine whose step relation is the union of the
 threads' steps, so a run is an arbitrary interleaving of them.
 */
module Runs {

  ghost predicate IsRun<S(!new)>(init: S -> bool, next: (S, S) -> bool, run: seq<S>) {
    && |run| > 0
    && init(run[0])
    && forall i :: 0 < i < |run| ==> next(run[i - 1], run[i])
  }

  /** `inv` holds at the start and no step leaves it. */
  ghost predicate Inductive<S(!new)>(init: S -> bool, next: (S, S) -> bool, inv: S -> bool) {
    && (forall s :: init(s) ==> inv(s))
    && (forall s, t :: inv(s) && next(s, t) ==> inv(t))
  }

  lemma {:induction false} InvariantAt<S(!new)>(init: S -> bool, next: (S, S) -> bool, inv: S -> bool, run: seq<S>,
                                                i: nat)
    requires IsRun(init, next, run) && Inductive(init, next, inv) && i < |run|
    ensures inv(run[i])
  {
    if i > 0 {
      InvariantAt(init, next, inv, run, i - 1);
    }
  }

  lemma InvariantHolds<S(!new)>(init: S -> bool, next: (S, S) -> bool, inv: S -> bool, run: seq<S>)
    requires IsRun(init, next, run) && Inductive(init, next, inv)
    ensures forall s :: s in run ==> inv(s)
  {
    forall i | 0 <= i < |run| ensures inv(run[i]) {
      InvariantAt(init, next, inv, run, i);
    }
  }

  ghost function Last<S>(run: seq<S>): S
    requires |run| > 0
  {
    run[|run| - 1]
  }

  lemma Extend<S(!new)>(init: S -> bool, next: (S, S) -> bool, run: seq<S>, t: S)
    requires IsRun(init, next, run) && next(Last(run), t)
    ensures IsRun(init, next, run + [t]) && Last(run + [t]) == t
  {
  }
}
