/** Stretches of behaviour whose picks all see the same acceptable upstreams. */
module Stretches {
  import opened Config
  import opened LoadBalancer
  import opened PickLaws
  import opened Gateway

  /** Every pick of the stretch finds exactly the upstreams of `pass` acceptable. */
  ghost predicate PassesExactly(states: seq<State>, steps: seq<Step>, pass: set<nat>)
    requires |states| == |steps| + 1
  {
    forall k {:trigger SeesExactly(states[k], steps[k], pass)} ::
      0 <= k < |steps| ==> SeesExactly(states[k], steps[k], pass)
  }

  predicate SeesExactly(s: State, step: Step, pass: set<nat>) {
    step.PickFor? && step.req in s.reqs ==> Passing(s.bal.ups, s.reqs[step.req].excluded, s.clock) == pass
  }

  /** A stretch of a round-robin route on which picks always see `pass`, away from the seam. */
  ghost predicate FairStretch(states: seq<State>, steps: seq<Step>, pass: set<nat>) {
    && Stretch(states, steps) && InRange(states[0])
    && states[0].bal.strategy == RoundRobin
    && NoSeam(states[0].bal.cursor, |states[0].bal.order|)
    && PassesExactly(states, steps, pass)
  }

  function PickCount(steps: seq<Step>): nat {
    if steps == [] then 0 else PickCount(steps[..|steps| - 1]) + (if steps[|steps| - 1].PickFor? then 1 else 0)
  }

  lemma {:induction false} PickCountGrows(steps: seq<Step>, k: nat)
    requires k <= |steps|
    ensures PickCount(steps[..k]) <= PickCount(steps)
    decreases |steps|
  {
    if k < |steps| {
      PickCountGrows(steps[..|steps| - 1], k);
      assert steps[..|steps| - 1][..k] == steps[..k];
    } else {
      assert steps[..k] == steps;
    }
  }

  lemma PickCountSteps(steps: seq<Step>, k: nat)
    requires 0 < k <= |steps|
    ensures PickCount(steps[..k]) == PickCount(steps[..k - 1]) + (if steps[k - 1].PickFor? then 1 else 0)
    ensures PickCount(steps[..k]) <= PickCount(steps)
  {
    assert steps[..k][..k - 1] == steps[..k - 1];
    PickCountGrows(steps, k);
  }

  lemma {:induction false} StretchKeepsShape(states: seq<State>, steps: seq<Step>, k: nat)
    requires Stretch(states, steps) && InRange(states[0]) && k < |states|
    ensures SameShape(states[0], states[k])
  {
    if k > 0 {
      StretchKeepsShape(states, steps, k - 1);
      assert Moves(states, steps, k - 1);
      StepKeepsShape(states[k - 1], steps[k - 1]);
    }
  }

  lemma FairStep(states: seq<State>, steps: seq<Step>, k: nat, pass: set<nat>)
    requires FairStretch(states, steps, pass) && k < |steps|
    ensures WellFormed(states[0].bal) && NoSeam(states[0].bal.cursor, |states[0].bal.order|)
    ensures InRange(states[k]) && Enabled(states[k], steps[k]) && states[k + 1] == Apply(states[k], steps[k])
    ensures SeesExactly(states[k], steps[k], pass)
  {
    StretchKeepsShape(states, steps, k);
    assert Moves(states, steps, k);
    assert SeesExactly(states[k], steps[k], pass);
  }
}
