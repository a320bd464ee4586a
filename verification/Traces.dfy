/** Runs of a single actor while everything else stands still. */
module Traces {

  /** Every element is the step of the one before it. */
  ghost predicate Path<S(!new)>(step: S -> S, path: seq<S>) {
    |path| > 0 && forall i {:trigger StepAt(step, path, i)} :: 0 < i < |path| ==> StepAt(step, path, i)
  }

  ghost predicate StepAt<S(!new)>(step: S -> S, path: seq<S>, i: int)
    requires 0 < i < |path|
  {
    path[i] == step(path[i - 1])
  }

  lemma Then<S(!new)>(step: S -> S, path: seq<S>, x: S) returns (next: seq<S>)
    requires Path(step, path) && x == step(path[|path| - 1])
    ensures Path(step, next) && next[0] == path[0] && next[|next| - 1] == x && |next| == |path| + 1
  {
    next := path + [x];
    forall i | 0 < i < |next| ensures StepAt(step, next, i) {
      assert i < |path| ==> StepAt(step, path, i);
    }
  }
}
