/** Why the bound on a failing upstream's traffic needs a term for cancelled calls. */
module CancelledTrials {
  import opened Basics
  import opened CircuitBreakers
  import opened LoadBalancer
  import opened Gateway
  import opened Shedding
  import opened FailingRuns

  /** A call to upstream `i` was dropped: its guard given back, its breaker as it was. */
  ghost predicate CalledOff(s: State, t: State, i: nat)
    requires i < |s.bal.ups|
  {
    && SameShape(s, t) && t.clock == s.clock && t.reqs.Keys == s.reqs.Keys
    && t.bal.ups[i].(active := s.bal.ups[i].active) == s.bal.ups[i]
    && t.bal.ups[i].active == s.bal.ups[i].active - 1
    && InFlight(t.reqs, i) == InFlight(s.reqs, i) - 1
    && Picks(t.events, i) == Picks(s.events, i) && Abandons(t.events, i) == Abandons(s.events, i) + 1
  }

  lemma CallCancelled(s: State, r: nat, i: nat)
    requires InRange(s) && i < |s.bal.ups| && r in s.reqs && s.reqs[r].phase == Calling(i)
    ensures CalledOff(s, Apply(s, Cancel(r)), i)
  {
    StepKeepsShape(s, Cancel(r));
    TallySnoc(s.events, Abandoned(i, s.clock), i);
    ThoseAfter(s.reqs, r, ApplyCancel(s, r).reqs[r], CallingOn(i));
  }

  lemma OutAndOff(s: State, t: State, u: State, r: nat, i: nat)
    requires i < |s.bal.ups| && CalledOut(s, t, r, i) && CalledOff(t, u, i) && s.bal.ups[i].cb.state != Open
    ensures |u.bal.ups| == |s.bal.ups| && u.bal.ups[i] == s.bal.ups[i] && u.clock == s.clock
    ensures InFlight(u.reqs, i) == InFlight(s.reqs, i)
    ensures Picks(u.events, i) == Picks(s.events, i) + 1 && Abandons(u.events, i) == Abandons(s.events, i) + 1
  {
  }

  /** A trial picked and cancelled on a HalfOpen breaker leaves upstream and clock as they were. */
  lemma CancelledTrialIsFree(s: State, r: nat, i: nat)
    requires InRange(s) && Enabled(s, PickFor(r)) && i < |s.bal.ups|
    requires s.bal.ups[i].cb.state == HalfOpen
    requires PickFrom(s.bal, s.reqs[r].excluded, s.clock).idx == Some(i)
    ensures InRange(Apply(s, PickFor(r))) && Enabled(Apply(s, PickFor(r)), Cancel(r))
    ensures var t := Apply(Apply(s, PickFor(r)), Cancel(r));
      && |t.bal.ups| == |s.bal.ups| && t.bal.ups[i] == s.bal.ups[i] && t.clock == s.clock
      && InFlight(t.reqs, i) == InFlight(s.reqs, i)
      && Picks(t.events, i) == Picks(s.events, i) + 1
      && Abandons(t.events, i) == Abandons(s.events, i) + 1
  {
    CallPicked(s, r, i);
    var t := Apply(s, PickFor(r));
    CallCancelled(t, r, i);
    OutAndOff(s, t, Apply(t, Cancel(r)), r, i);
  }

  /** Arrive, be picked for, be cancelled: one more pick, and the next trial is due as before. */
  lemma OneMoreTrial(states: seq<State>, steps: seq<Step>, r: nat)
    returns (states': seq<State>, steps': seq<Step>)
    requires Failing(states, steps, 1) && Due(Last(states), 0) && forall q :: q in Last(states).reqs ==> q < r
    ensures Failing(states', steps', 1) && states'[0] == states[0] && Due(Last(states'), 0)
    ensures Last(states').clock == Last(states).clock && forall q :: q in Last(states').reqs ==> q < r + 1
    ensures Picks(Last(states').events, 0) == Picks(Last(states).events, 0) + 1
  {
    states', steps' := OneMoreCall(states, steps, r, 0, 1);
    CallCancelled(Last(states'), r, 0);
    states', steps' := Longer(states', steps', Cancel(r), 1);
  }

  lemma {:induction false} ManyTrials(states: seq<State>, steps: seq<Step>, r: nat, n: nat)
    returns (states': seq<State>, steps': seq<Step>)
    requires Failing(states, steps, 1) && Due(Last(states), 0) && forall q :: q in Last(states).reqs ==> q < r
    ensures Failing(states', steps', 1) && states'[0] == states[0]
    ensures Last(states').clock == Last(states).clock
    ensures Picks(Last(states').events, 0) == Picks(Last(states).events, 0) + n
    decreases n
  {
    if n == 0 {
      states', steps' := states, steps;
    } else {
      states', steps' := OneMoreTrial(states, steps, r);
      states', steps' := ManyTrials(states', steps', r + 1, n - 1);
    }
  }

  /** A refused first call opens the breaker, and a cooldown later a trial is due. */
  lemma CooldownOver(s: State, t: State)
    requires Out(s, t, 0) && s.reqs == map[] && InFlight(s.reqs, 0) == 0
    requires s.bal.ups[0].cb == NewCb(1, s.bal.ups[0].cb.openFor)
    ensures var refused := Apply(t, Answer(0, ConnectError)); var tick := Tick(s.bal.ups[0].cb.openFor);
      && InRange(refused) && InFlight(refused.reqs, 0) == 0
      && Due(Apply(refused, tick), 0) && Apply(refused, tick).clock == s.clock + s.bal.ups[0].cb.openFor
      && Apply(refused, tick).reqs.Keys == {0}
  {
    Refused(t, 0);
  }

  lemma FirstCooldown(s: State) returns (states: seq<State>, steps: seq<Step>)
    requires Initial(s) && |s.bal.ups| == 1 && s.bal.ups[0].cb.threshold == 1
    ensures Failing(states, steps, 1) && states[0] == s && Due(Last(states), 0)
    ensures Last(states).clock == s.clock + s.bal.ups[0].cb.openFor
    ensures Last(states).reqs.Keys == {0}
  {
    NothingYet(s, 1);
    states, steps := OneMoreCall([s], [], 0, 0, 1);
    CooldownOver(s, Last(states));
    states, steps := Longer(states, steps, Answer(0, ConnectError), 1);
    states, steps := Longer(states, steps, Tick(s.bal.ups[0].cb.openFor), 1);
  }

  /**
   Cancelled trials are not bounded by time: from any start on one upstream that opens at its first
   failure, and for every `n`, some run fails every answered call, never has two calls in flight,
   lasts one cooldown, and yet picks the upstream at least `n` times.
   */
  lemma CancelledTrialsAreUnbounded(s: State, n: nat) returns (states: seq<State>, steps: seq<Step>)
    requires Initial(s) && |s.bal.ups| == 1 && s.bal.ups[0].cb.threshold == 1
    ensures Run(states, steps) && states[0] == s
    ensures FailsBetween(states, steps, 0, |steps|, 0) && AtMostInFlight(states, 0, |steps|, 0, 1)
    ensures Last(states).clock - s.clock == s.bal.ups[0].cb.openFor
    ensures Picks(Last(states).events, 0) >= n
  {
    states, steps := FirstCooldown(s);
    states, steps := ManyTrials(states, steps, 1, n);
  }
}
