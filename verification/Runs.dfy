/** Runs of a step function. */
module Runs {
  /** The states a run goes through and the steps between them. */
  datatype Trace<S, T> = Trace(states: seq<S>, steps: seq<T>)

  predicate Shaped<S, T>(t: Trace<S, T>) {
    |t.states| == |t.steps| + 1
  }

  ghost predicate IsRun<S, T>(apply: (S, T) -> S, t: Trace<S, T>) {
    Shaped(t) && forall k: nat :: k < |t.steps| ==> IsStep(apply, t, k)
  }

  ghost predicate IsStep<S, T>(apply: (S, T) -> S, t: Trace<S, T>, k: nat)
    requires Shaped(t) && k < |t.steps|
  {
    t.states[k + 1] == apply(t.states[k], t.steps[k])
  }

  function Begin<S, T>(s: S): Trace<S, T> {
    Trace([s], [])
  }

  function Last<S, T>(t: Trace<S, T>): S
    requires t.states != []
  {
    t.states[|t.states| - 1]
  }

  function Then<S, T>(apply: (S, T) -> S, t: Trace<S, T>, step: T): Trace<S, T>
    requires t.states != []
  {
    Trace(t.states + [apply(Last(t), step)], t.steps + [step])
  }

  lemma BeginIsRun<S, T>(apply: (S, T) -> S, s: S)
    ensures IsRun(apply, Begin<S, T>(s))
  {
  }

  lemma ThenIsRun<S, T>(apply: (S, T) -> S, t: Trace<S, T>, step: T)
    requires IsRun(apply, t)
    ensures var t' := Then(apply, t, step);
            IsRun(apply, t') && t.states <= t'.states && t.steps <= t'.steps && Last(t') == apply(Last(t), step)
  {
    var t' := Then(apply, t, step);
    forall k: nat | k < |t'.steps| ensures IsStep(apply, t', k) {
      assert k < |t.steps| ==> IsStep(apply, t, k);
    }
  }
}
