/** Runs against a lone upstream that never succeeds, built step by step. */
module FailingRuns {
  import opened Basics
  import opened CircuitBreakers
  import opened LoadBalancer
  import opened PickLaws
  import opened Gateway
  import opened Shedding

  /** A run so far: upstream 0 has not succeeded and had `width` calls in flight at most. */
  ghost predicate Failing(states: seq<State>, steps: seq<Step>, width: nat) {
    && Run(states, steps)
    && FailsBetween(states, steps, 0, |steps|, 0)
    && AtMostInFlight(states, 0, |steps|, 0, width)
  }

  function Last(states: seq<State>): State
    requires states != []
  {
    states[|states| - 1]
  }

  /** A step that is no success and keeps to the width makes the run longer. */
  lemma Longer(states: seq<State>, steps: seq<Step>, step: Step, width: nat)
    returns (states': seq<State>, steps': seq<Step>)
    requires Failing(states, steps, width) && InRange(Last(states)) && Enabled(Last(states), step)
    requires step.Answer? ==> IsFailure(step.outcome)
    requires InFlight(Apply(Last(states), step).reqs, 0) <= width
    ensures Failing(states', steps', width) && states'[0] == states[0] && Last(states') == Apply(Last(states), step)
  {
    states', steps' := states + [Apply(Last(states), step)], steps + [step];
    forall i | 0 <= i < |steps'|
      ensures Moves(states', steps', i)
    {
      assert i < |steps| ==> Moves(states, steps, i);
    }
    forall m | 0 <= m < |steps'| && Answers(states'[m], steps'[m], 0)
      ensures IsFailure(steps'[m].outcome)
    {
      assert m < |steps| ==> Answers(states[m], steps[m], 0);
    }
  }

  // ----- One call -----

  /** Upstream `i` was chosen: its breaker probed and one more call to it in the air. */
  ghost predicate CalledOut(s: State, t: State, r: nat, i: nat)
    requires i < |s.bal.ups|
  {
    && SameShape(s, t) && t.clock == s.clock && r in s.reqs && t.reqs.Keys == s.reqs.Keys
    && t.reqs[r].phase == Calling(i)
    && t.bal.ups[i].(active := s.bal.ups[i].active) == ProbeUp(s.bal.ups[i], s.clock)
    && t.bal.ups[i].active == s.bal.ups[i].active + 1
    && InFlight(t.reqs, i) == InFlight(s.reqs, i) + 1
    && Picks(t.events, i) == Picks(s.events, i) + 1 && Abandons(t.events, i) == Abandons(s.events, i)
  }

  lemma CallPicked(s: State, r: nat, i: nat)
    requires InRange(s) && Enabled(s, PickFor(r)) && i < |s.bal.ups|
    requires PickFrom(s.bal, s.reqs[r].excluded, s.clock).idx == Some(i)
    ensures CalledOut(s, Apply(s, PickFor(r)), r, i) && s.bal.ups[i].healthy
  {
    PickKeepsShape(s, r);
    PickIsComplete(s.bal, s.reqs[r].excluded, s.clock);
    PickEffect(s.bal, s.reqs[r].excluded, s.clock);
    PickProbesChosen(s.bal, s.reqs[r].excluded, s.clock);
    TallySnoc(s.events, Picked(i, s.clock), i);
    ThoseAfter(s.reqs, r, ApplyPick(s, r).reqs[r], CallingOn(i));
  }

  lemma Arrived(s: State, r: nat)
    requires InRange(s) && r !in s.reqs
    ensures var t := Apply(s, Arrive(r, true));
      && SameShape(s, t) && t.bal == s.bal && t.clock == s.clock && t.events == s.events
      && t.reqs == s.reqs[r := Request(true, 0, [], Ready, [])] && InFlight(t.reqs, 0) == InFlight(s.reqs, 0)
  {
    ThoseAfter(s.reqs, r, Request(true, 0, [], Ready, []), CallingOn(0));
  }

  /** The lone upstream lets the next call through, with `flying` calls in the air. */
  ghost predicate Due(s: State, flying: nat) {
    && InRange(s) && |s.bal.ups| == 1
    && s.bal.ups[0].healthy && Allows(s.bal.ups[0].cb, s.clock)
    && InFlight(s.reqs, 0) == flying
  }

  /** Request `r` is out on one more call; the breaker was probed and goes on admitting. */
  ghost predicate Out(s: State, t: State, r: nat) {
    && |s.bal.ups| == 1 && Due(t, InFlight(s.reqs, 0) + 1) && t.clock == s.clock
    && t.bal.ups[0].cb == Probed(s.bal.ups[0].cb, s.clock)
    && Picks(t.events, 0) == Picks(s.events, 0) + 1 && Abandons(t.events, 0) == Abandons(s.events, 0)
    && t.reqs.Keys == s.reqs.Keys + {r} && t.reqs[r].phase == Calling(0)
    && forall q :: q in s.reqs && q != r ==> t.reqs[q] == s.reqs[q]
  }

  /** A pick from a route whose upstream is due is a call to it. */
  lemma DuePicked(s: State, r: nat, flying: nat)
    requires Due(s, flying) && Enabled(s, PickFor(r)) && s.reqs[r].excluded == []
    ensures Out(s, Apply(s, PickFor(r)), r)
  {
    PickIsComplete(s.bal, [], s.clock);
    assert 0 in Passing(s.bal.ups, [], s.clock);
    CallPicked(s, r, 0);
    OthersKept(s, PickFor(r));
  }

  lemma OthersKept(s: State, step: Step)
    requires InRange(s) && Enabled(s, step) && step.PickFor?
    ensures forall q :: q in s.reqs && q != step.req ==> q in Apply(s, step).reqs && Apply(s, step).reqs[q] == s.reqs[q]
  {
    forall q | q in s.reqs && q != step.req
      ensures q in Apply(s, step).reqs && Apply(s, step).reqs[q] == s.reqs[q]
    {
      OthersUntouched(s, step, q);
    }
  }

  lemma ArrivedAndPicked(s: State, r: nat, flying: nat)
    requires Due(s, flying) && r !in s.reqs
    ensures var t := Apply(s, Arrive(r, true));
      InRange(t) && InFlight(t.reqs, 0) == flying && Enabled(t, PickFor(r)) && Out(s, Apply(t, PickFor(r)), r)
  {
    Arrived(s, r);
    DuePicked(Apply(s, Arrive(r, true)), r, flying);
  }

  /** Arrive and be picked for. */
  lemma OneMoreCall(states: seq<State>, steps: seq<Step>, r: nat, flying: nat, width: nat)
    returns (states': seq<State>, steps': seq<Step>)
    requires Failing(states, steps, width) && Due(Last(states), flying) && r !in Last(states).reqs && flying < width
    ensures Failing(states', steps', width) && states'[0] == states[0] && Out(Last(states), Last(states'), r)
  {
    ArrivedAndPicked(Last(states), r, flying);
    states', steps' := Longer(states, steps, Arrive(r, true), width);
    states', steps' := Longer(states', steps', PickFor(r), width);
  }

  /** A refused call counts as one failure, now. */
  lemma Refused(s: State, r: nat)
    requires InRange(s) && |s.bal.ups| == 1 && r in s.reqs && s.reqs[r].phase == Calling(0)
    ensures var t := Apply(s, Answer(r, ConnectError));
      && SameShape(s, t) && t.clock == s.clock && t.bal.ups[0].healthy == s.bal.ups[0].healthy
      && t.bal.ups[0].cb == Failed(s.bal.ups[0].cb, s.clock)
      && InFlight(t.reqs, 0) == InFlight(s.reqs, 0) - 1 && Picks(t.events, 0) == Picks(s.events, 0)
      && t.reqs.Keys == s.reqs.Keys && Abandons(t.events, 0) == Abandons(s.events, 0)
      && forall q :: q in s.reqs && q != r ==> t.reqs[q] == s.reqs[q]
  {
    AnswerKeepsShape(s, r, ConnectError);
    AnswerBalanced(s, r, ConnectError, 0);
    NoPickOrDropInAnswer(s, Answer(r, ConnectError), 0);
    BreakerAfter(s, Answer(r, ConnectError), 0);
    AnswerLands(s, r, ConnectError);
  }

  lemma NothingYet(s: State, width: nat)
    requires Initial(s) && |s.bal.ups| == 1
    ensures Failing([s], [], width) && Due(s, 0) && Sound(s.bal.ups[0].cb)
    ensures s.bal.ups[0].cb == NewCb(s.bal.ups[0].cb.threshold, s.bal.ups[0].cb.openFor)
  {
    assert s.bal.ups[0] in s.bal.ups;
    assert Those(s.reqs, CallingOn(0)) == {};
  }
}
