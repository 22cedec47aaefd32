/** No upstream that keeps passing is starved, whatever happens to the others. */
module Starvation {
  import opened Basics
  import opened Config
  import opened LoadBalancer
  import opened PickLaws
  import opened Gateway
  import opened Shedding
  import opened Stretches
  import opened Fairness

  /** Upstream `i` is acceptable to the request, if this step picks for one. */
  predicate Admits(s: State, step: Step, i: nat) {
    step.PickFor? && step.req in s.reqs ==> i in Passing(s.bal.ups, s.reqs[step.req].excluded, s.clock)
  }

  /** Every pick of the stretch finds upstream `i` acceptable. */
  ghost predicate AlwaysAdmits(states: seq<State>, steps: seq<Step>, i: nat)
    requires |states| == |steps| + 1
  {
    forall k {:trigger Admits(states[k], steps[k], i)} :: 0 <= k < |steps| ==> Admits(states[k], steps[k], i)
  }

  /** Of the cycle of tickets from `base` on, `drawn` are used up, at least one by each of `picks` picks. */
  ghost predicate InCycle(base: Bal, b: Bal, drawn: nat, picks: nat) {
    && b.order == base.order && b.strategy == RoundRobin && drawn <= |base.order|
    && (drawn < |base.order| ==> b.cursor == Advance(base.cursor, drawn) && picks <= drawn)
  }

  /** How many of those tickets name upstream `i`. */
  ghost function Due(base: Bal, drawn: nat, i: nat): nat
    requires base.order != []
  {
    Hits(base.order, base.cursor, base.cursor + drawn, {i})
  }

  /** Tickets drawn in vain, as long as they lie in the cycle, do not name a passing upstream. */
  lemma VainTicketsAreNotMine(order: seq<nat>, start: nat, drawn: nat, m: nat, i: nat, pass: set<nat>)
    requires order != [] && start < USIZE && NoSeam(start, |order|) && i in pass && drawn + m <= |order|
    requires m <= Misses(order, Advance(start, drawn), |order|, pass)
    ensures Hits(order, start, start + drawn + m, {i}) == Hits(order, start, start + drawn, {i})
  {
    forall t | start + drawn <= t < start + drawn + m
      ensures Ticket(order, t) !in {i}
    {
      var k := t - start - drawn;
      ScanSkipsOthers(order, Advance(start, drawn), |order|, pass, k);
      AdvanceAdds(start, drawn, k);
      TicketsReadTheCycle(order, start, drawn + k);
    }
    NoHits(order, start + drawn, start + drawn + m, {i});
    HitsSplit(order, start, start + drawn, start + drawn + m, {i});
  }

  /** A pick whose scan finds a ticket takes it. */
  lemma PickTakesTicket(b: Bal, exclude: seq<nat>, now: nat)
    requires WellFormed(b) && b.strategy == RoundRobin
    ensures var m := Misses(b.order, b.cursor, |b.order|, Passing(b.ups, exclude, now));
      m < |b.order| ==>
        && PickFrom(b, exclude, now).idx == Some(Ticket(b.order, Advance(b.cursor, m)))
        && PickFrom(b, exclude, now).bal.cursor == Advance(b.cursor, m + 1)
  {
    var m := Misses(b.order, b.cursor, |b.order|, Passing(b.ups, exclude, now));
    assert Ticket(b.order, Advance(b.cursor, m)) in b.order;
  }

  lemma TicketAhead(order: seq<nat>, start: nat, drawn: nat, m: nat)
    requires order != [] && start < USIZE && NoSeam(start, |order|) && drawn + m < |order|
    ensures Ticket(order, Advance(Advance(start, drawn), m)) == Ticket(order, start + drawn + m)
    ensures Advance(Advance(start, drawn), m + 1) == Advance(start, drawn + m + 1)
  {
    AdvanceAdds(start, drawn, m);
    AdvanceAdds(start, drawn, m + 1);
    TicketsReadTheCycle(order, start, drawn + m);
  }

  /** What one pick of `idx` uses up of the cycle, and what of it names `i`. */
  lemma PickUsesTickets(b: Bal, exclude: seq<nat>, now: nat, start: nat, drawn: nat, i: nat, idx: nat)
    returns (drawn': nat)
    requires WellFormed(b) && b.strategy == RoundRobin && start < USIZE && NoSeam(start, |b.order|)
    requires drawn < |b.order| && b.cursor == Advance(start, drawn)
    requires i in Passing(b.ups, exclude, now) && PickFrom(b, exclude, now).idx == Some(idx)
    ensures drawn < drawn' <= |b.order|
    ensures drawn' < |b.order| ==> PickFrom(b, exclude, now).bal.cursor == Advance(start, drawn')
    ensures Hits(b.order, start, start + drawn', {i})
            <= Hits(b.order, start, start + drawn, {i}) + (if idx == i then 1 else 0)
  {
    var n, pass := |b.order|, Passing(b.ups, exclude, now);
    var m := Misses(b.order, b.cursor, n, pass);
    PickTakesTicket(b, exclude, now);
    if drawn + m < n {
      drawn' := drawn + m + 1;
      VainTicketsAreNotMine(b.order, start, drawn, m, i, pass);
      TicketAhead(b.order, start, drawn, m);
    } else {
      drawn' := n;
      VainTicketsAreNotMine(b.order, start, drawn, n - drawn, i, pass);
    }
  }

  /** The same once the cycle may be used up. */
  lemma PickUsesWhatIsLeft(b: Bal, exclude: seq<nat>, now: nat, start: nat, drawn: nat, i: nat, idx: nat)
    returns (drawn': nat)
    requires WellFormed(b) && b.strategy == RoundRobin && start < USIZE && NoSeam(start, |b.order|)
    requires drawn <= |b.order| && (drawn < |b.order| ==> b.cursor == Advance(start, drawn))
    requires i in Passing(b.ups, exclude, now) && PickFrom(b, exclude, now).idx == Some(idx)
    ensures drawn <= drawn' <= |b.order| && (drawn < |b.order| ==> drawn < drawn')
    ensures drawn' < |b.order| ==> PickFrom(b, exclude, now).bal.cursor == Advance(start, drawn')
    ensures Hits(b.order, start, start + drawn', {i})
            <= Hits(b.order, start, start + drawn, {i}) + (if idx == i then 1 else 0)
  {
    drawn' := drawn;
    if drawn < |b.order| {
      drawn' := PickUsesTickets(b, exclude, now, start, drawn, i, idx);
    }
  }

  /** With an acceptable upstream a pick finds one, and is recorded. */
  lemma PickFinds(s: State, r: nat, i: nat) returns (idx: nat)
    requires InRange(s) && Enabled(s, PickFor(r)) && Admits(s, PickFor(r), i)
    ensures var c := PickFrom(s.bal, s.reqs[r].excluded, s.clock);
      && c.idx == Some(idx) && ApplyPick(s, r).bal == c.bal
      && c.bal.order == s.bal.order && c.bal.strategy == s.bal.strategy
    ensures Picks(ApplyPick(s, r).events, i) == Picks(s.events, i) + (if idx == i then 1 else 0)
  {
    PickIsComplete(s.bal, s.reqs[r].excluded, s.clock);
    PickEffect(s.bal, s.reqs[r].excluded, s.clock);
    idx := PickFrom(s.bal, s.reqs[r].excluded, s.clock).idx.value;
    PickRecorded(s, r, i, idx);
  }

  /** A pick uses up tickets of the cycle, and gives `i` those that name it. */
  lemma PickIsFair(base: Bal, s: State, r: nat, drawn: nat, picks: nat, i: nat) returns (drawn': nat)
    requires base.cursor < USIZE && NoSeam(base.cursor, |base.order|) && base.order != []
    requires InRange(s) && Enabled(s, PickFor(r)) && Admits(s, PickFor(r), i) && InCycle(base, s.bal, drawn, picks)
    ensures InCycle(base, ApplyPick(s, r).bal, drawn', picks + 1)
    ensures Due(base, drawn', i) + Picks(s.events, i) <= Due(base, drawn, i) + Picks(ApplyPick(s, r).events, i)
  {
    var idx := PickFinds(s, r, i);
    drawn' := PickUsesWhatIsLeft(s.bal, s.reqs[r].excluded, s.clock, base.cursor, drawn, i, idx);
  }

  lemma StepIsFair(base: Bal, s: State, step: Step, drawn: nat, picks: nat, i: nat) returns (drawn': nat)
    requires base.cursor < USIZE && NoSeam(base.cursor, |base.order|) && base.order != []
    requires InRange(s) && Enabled(s, step) && Admits(s, step, i) && InCycle(base, s.bal, drawn, picks)
    ensures InCycle(base, Apply(s, step).bal, drawn', picks + (if step.PickFor? then 1 else 0))
    ensures Due(base, drawn', i) + Picks(s.events, i) <= Due(base, drawn, i) + Picks(Apply(s, step).events, i)
  {
    if step.PickFor? {
      drawn' := PickIsFair(base, s, step.req, drawn, picks, i);
    } else {
      drawn' := drawn;
      StepKeepsShape(s, step);
      OtherStepsPickNothing(s, step, i);
    }
  }

  lemma {:induction false} FairAlongStretch(states: seq<State>, steps: seq<Step>, k: nat, i: nat) returns (drawn: nat)
    requires Stretch(states, steps) && InRange(states[0]) && k < |states|
    requires states[0].bal.strategy == RoundRobin && NoSeam(states[0].bal.cursor, |states[0].bal.order|)
    requires AlwaysAdmits(states, steps, i)
    ensures InCycle(states[0].bal, states[k].bal, drawn, PickCount(steps[..k]))
    ensures Due(states[0].bal, drawn, i) + Picks(states[0].events, i) <= Picks(states[k].events, i)
  {
    if k == 0 {
      drawn := 0;
    } else {
      var s, step := states[k - 1], steps[k - 1];
      drawn := FairAlongStretch(states, steps, k - 1, i);
      assert Moves(states, steps, k - 1);
      assert Admits(s, step, i);
      PickCountSteps(steps, k);
      drawn := StepIsFair(states[0].bal, s, step, drawn, PickCount(steps[..k - 1]), i);
    }
  }

  /**
   Over any stretch of a round-robin route, concurrent steps included, that has at least as many
   picks as the order has tickets, an upstream that every pick finds acceptable is picked at least
   weight times: whatever the others do and whatever the requests exclude, it is not starved. The
   cursor must not meet the machine-word seam within one cycle.
   */
  lemma NoStarvation(states: seq<State>, steps: seq<Step>, i: nat)
    requires Stretch(states, steps) && InRange(states[0]) && i < |states[0].bal.ups|
    requires states[0].bal.strategy == RoundRobin && NoSeam(states[0].bal.cursor, |states[0].bal.order|)
    requires AlwaysAdmits(states, steps, i)
    requires PickCount(steps) >= |states[0].bal.order|
    ensures Picks(states[|steps|].events, i) - Picks(states[0].events, i) >= states[0].bal.ups[i].weight
  {
    var drawn := FairAlongStretch(states, steps, |steps|, i);
    assert steps[..|steps|] == steps;
    CycleCountIsWeight(states[0].bal, {i}, i);
  }
}
