/** An upstream that has recovered serves again, at the latest one cooldown later. */
module Recovery {
  import opened LoadBalancer
  import opened Gateway
  import opened RetryLaws
  import opened Shedding

  /** From state `j` on, probes do not mark `g` down and no answer of `g` is a failure. */
  ghost predicate ReliableFrom(states: seq<State>, steps: seq<Step>, j: nat, g: nat)
    requires |states| == |steps| + 1
  {
    forall i {:trigger ReliableStep(states[i], steps[i], g)} ::
      j <= i < |steps| ==> ReliableStep(states[i], steps[i], g)
  }

  /** Healthy, with no deadline later than `due`. */
  predicate Recovering(u: Up, due: nat) {
    u.healthy && (u.cb.openUntil.Some? ==> u.cb.openUntil.value <= due)
  }

  lemma StepKeepsRecovering(s: State, step: Step, g: nat, due: nat)
    requires InRange(s) && Enabled(s, step) && g < |s.bal.ups| && ReliableStep(s, step, g)
    requires Recovering(s.bal.ups[g], due)
    ensures g < |Apply(s, step).bal.ups| && Recovering(Apply(s, step).bal.ups[g], due)
  {
    BreakerAfter(s, step, g);
  }

  lemma {:induction false} StaysRecovering(states: seq<State>, steps: seq<Step>, j: nat, k: nat, g: nat)
    requires Run(states, steps) && j <= k < |states| && g < |states[0].bal.ups| && g < |states[j].bal.ups|
    requires states[j].bal.ups[g].healthy && ReliableFrom(states, steps, j, g)
    ensures g < |states[k].bal.ups|
    ensures Recovering(states[k].bal.ups[g], states[j].clock + states[0].bal.ups[g].cb.openFor)
    decreases k - j
  {
    if k == j {
      RunsKeepTimely(states, steps, j, g);
      BreakerConstants(states, steps, j, g);
    } else {
      StaysRecovering(states, steps, j, k - 1, g);
      assert Moves(states, steps, k - 1);
      assert ReliableStep(states[k - 1], steps[k - 1], g);
      StepKeepsRecovering(states[k - 1], steps[k - 1], g, states[j].clock + states[0].bal.ups[g].cb.openFor);
    }
  }

  lemma StepKeepsRequests(s: State, step: Step, r: nat)
    requires InRange(s) && Enabled(s, step) && r in s.reqs
    ensures r in Apply(s, step).reqs
  {
    if !Touches(step, r) {
      OthersUntouched(s, step, r);
    }
  }

  /** Time passes and requests are remembered. */
  lemma {:induction false} LaterStates(states: seq<State>, steps: seq<Step>, j: nat, k: nat, r: nat)
    requires Run(states, steps) && j <= k < |states|
    ensures states[j].clock <= states[k].clock
    ensures r in states[j].reqs ==> r in states[k].reqs
    decreases k - j
  {
    if j < k {
      LaterStates(states, steps, j, k - 1, r);
      assert Moves(states, steps, k - 1);
      ClockAdvances(states[k - 1], steps[k - 1]);
      if r in states[k - 1].reqs {
        StepKeepsRequests(states[k - 1], steps[k - 1], r);
      }
    }
  }

  lemma RequestCountsOnRecovered(states: seq<State>, steps: seq<Step>, j: nat, m: nat, i: nat, r: nat, g: nat)
    requires Run(states, steps) && j <= m < |states| && i < |steps|
    requires g < |states[0].bal.ups| && g < |states[j].bal.ups|
    requires states[j].bal.ups[g].healthy && ReliableFrom(states, steps, j, g)
    requires states[m].clock >= states[j].clock + states[0].bal.ups[g].cb.openFor && r !in states[m].reqs
    ensures CountsOnIn(states[i], steps[i], r, g)
  {
    assert Moves(states, steps, i);
    if r in states[i].reqs {
      if i <= m {
        LaterStates(states, steps, i, m, r);
      }
      LaterStates(states, steps, m, i, r);
      StaysRecovering(states, steps, j, i, g);
      assert ReliableStep(states[i], steps[i], g);
    }
  }

  /**
   Whatever upstream `g` did before, if it is healthy at state `j`, and from then on is not marked
   down and does not fail, then every idempotent request that arrives at least one cooldown later is
   served: it ends in no 502, 503 or server error, given as many attempts as upstreams.
   */
  lemma RecoveredUpstreamServes(states: seq<State>, steps: seq<Step>, j: nat, m: nat, k: nat, r: nat, g: nat)
    requires Run(states, steps) && j <= m < |states| && k < |states|
    requires g < |states[0].bal.ups| <= states[0].maxAttempts && g < |states[j].bal.ups|
    requires states[j].bal.ups[g].healthy && ReliableFrom(states, steps, j, g)
    requires states[m].clock >= states[j].clock + states[0].bal.ups[g].cb.openFor
    requires r !in states[m].reqs && r in states[k].reqs
    ensures Served(states[k].reqs[r], g)
  {
    forall i | 0 <= i < |steps|
      ensures CountsOnIn(states[i], steps[i], r, g)
    {
      RequestCountsOnRecovered(states, steps, j, m, i, r, g);
    }
    RetriesAreComplete(states, steps, k, r, g);
  }
}
