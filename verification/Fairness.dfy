/** How round robin shares picks, and how least connections spreads load, over stretches of a run. */
module Fairness {
  import opened Basics
  import opened Arithmetic
  import opened Config
  import opened LoadBalancer
  import opened PickLaws
  import opened Gateway
  import opened Stretches
  import opened Shedding

  // ----- Weighted fairness -----

  /** `drawn` tickets after `start`, the picks so far are the tickets that name a member of `pass`. */
  ghost predicate AtTicket(b: Bal, start: nat, drawn: nat, picks: nat, pass: set<nat>)
    requires b.order != []
  {
    && b.strategy == RoundRobin && drawn <= |b.order|
    && b.cursor == Advance(start, drawn)
    && picks == Hits(b.order, start, start + drawn, pass)
  }

  /** What those tickets give upstream `i`. */
  function Given(order: seq<nat>, start: nat, drawn: nat, i: nat, pass: set<nat>): nat
    requires order != []
  {
    if i in pass then Hits(order, start, start + drawn, {i}) else 0
  }

  /** The next pick of a stretch lands on the next ticket of the cycle that names a member of `pass`. */
  lemma RoundRobinPickInCycle(b: Bal, exclude: seq<nat>, now: nat, start: nat, drawn: nat, pass: set<nat>)
    returns (m: nat)
    requires WellFormed(b) && b.strategy == RoundRobin && start < USIZE && NoSeam(start, |b.order|)
    requires drawn <= |b.order| && b.cursor == Advance(start, drawn)
    requires Passing(b.ups, exclude, now) == pass
    requires Hits(b.order, start + drawn, start + |b.order|, pass) > 0
    ensures drawn + m < |b.order|
    ensures var idx := Ticket(b.order, start + drawn + m); var c := PickFrom(b, exclude, now);
      idx in pass && c.idx == Some(idx) && c.bal.cursor == Advance(start, drawn + m + 1)
    ensures Hits(b.order, start + drawn, start + drawn + m, pass) == 0
  {
    m := Misses(b.order, b.cursor, |b.order|, pass);
    ScanStaysInCycle(b.order, start, drawn, pass);
    assert Ticket(b.order, start + drawn + m) < |b.ups|;
  }

  lemma NoHitsAtAll(order: seq<nat>, lo: nat, hi: nat, i: nat, pass: set<nat>)
    requires order != [] && lo <= hi && i in pass && Hits(order, lo, hi, pass) == 0
    ensures Hits(order, lo, hi, {i}) == 0
  {
    FewerChosenFewerHits(order, lo, hi, i, pass);
  }

  /** A window without hits followed by one ticket of `pass` gives exactly that one. */
  lemma WindowGives(order: seq<nat>, start: nat, drawn: nat, m: nat, i: nat, pass: set<nat>)
    requires order != [] && Hits(order, start + drawn, start + drawn + m, pass) == 0
    requires Ticket(order, start + drawn + m) in pass
    ensures Hits(order, start, start + drawn + m + 1, pass) == Hits(order, start, start + drawn, pass) + 1
    ensures Given(order, start, drawn + m + 1, i, pass)
            == Given(order, start, drawn, i, pass) + (if Ticket(order, start + drawn + m) == i then 1 else 0)
  {
    HitsSplit(order, start, start + drawn, start + drawn + m, pass);
    if i in pass {
      HitsSplit(order, start, start + drawn, start + drawn + m, {i});
      NoHitsAtAll(order, start + drawn, start + drawn + m, i, pass);
    }
  }

  /** So a pick takes the next such ticket, and the counts move on by it. */
  lemma TicketTaken(b: Bal, exclude: seq<nat>, now: nat, start: nat, drawn: nat, picks: nat, i: nat, pass: set<nat>)
    returns (drawn': nat, idx: nat)
    requires WellFormed(b) && AtTicket(b, start, drawn, picks, pass)
    requires start < USIZE && NoSeam(start, |b.order|)
    requires Passing(b.ups, exclude, now) == pass
    requires picks < Hits(b.order, start, start + |b.order|, pass)
    ensures var c := PickFrom(b, exclude, now);
      c.idx == Some(idx) && c.bal.order == b.order && AtTicket(c.bal, start, drawn', picks + 1, pass)
    ensures Given(b.order, start, drawn', i, pass)
            == Given(b.order, start, drawn, i, pass) + (if idx == i then 1 else 0)
  {
    HitsSplit(b.order, start, start + drawn, start + |b.order|, pass);
    var m := RoundRobinPickInCycle(b, exclude, now, start, drawn, pass);
    drawn', idx := drawn + m + 1, Ticket(b.order, start + drawn + m);
    PickEffect(b, exclude, now);
    WindowGives(b.order, start, drawn, m, i, pass);
  }

  lemma PickRecorded(s: State, r: nat, i: nat, idx: nat)
    requires InRange(s) && r in s.reqs && PickFrom(s.bal, s.reqs[r].excluded, s.clock).idx == Some(idx)
    ensures ApplyPick(s, r).bal == PickFrom(s.bal, s.reqs[r].excluded, s.clock).bal
    ensures Picks(ApplyPick(s, r).events, i) == Picks(s.events, i) + (if idx == i then 1 else 0)
  {
    TallySnoc(s.events, Picked(idx, s.clock), i);
  }

  lemma PickKeepsSharing(s: State, r: nat, start: nat, drawn: nat, picks: nat, i: nat, pass: set<nat>)
    returns (drawn': nat)
    requires InRange(s) && Enabled(s, PickFor(r)) && AtTicket(s.bal, start, drawn, picks, pass)
    requires start < USIZE && NoSeam(start, |s.bal.order|)
    requires SeesExactly(s, PickFor(r), pass)
    requires picks < Hits(s.bal.order, start, start + |s.bal.order|, pass)
    ensures ApplyPick(s, r).bal.order == s.bal.order
    ensures AtTicket(ApplyPick(s, r).bal, start, drawn', picks + 1, pass)
    ensures Picks(ApplyPick(s, r).events, i) - Picks(s.events, i)
            == Given(s.bal.order, start, drawn', i, pass) - Given(s.bal.order, start, drawn, i, pass)
  {
    var idx;
    drawn', idx := TicketTaken(s.bal, s.reqs[r].excluded, s.clock, start, drawn, picks, i, pass);
    PickRecorded(s, r, i, idx);
  }

  lemma OtherStepsPickNothing(s: State, step: Step, i: nat)
    requires InRange(s) && Enabled(s, step) && !step.PickFor?
    ensures Picks(Apply(s, step).events, i) == Picks(s.events, i)
    ensures Apply(s, step).bal.cursor == s.bal.cursor
  {
    match step
    case Answer(r, o) =>
      AnswerLands(s, r, o);
      TallySnoc(s.events, Answered(s.reqs[r].phase.idx, o, s.clock), i);
    case Cancel(r) =>
      if s.reqs[r].phase.Calling? {
        TallySnoc(s.events, Abandoned(s.reqs[r].phase.idx, s.clock), i);
      }
    case Tick(_) =>
    case SetHealth(_, _) =>
    case Arrive(_, _) =>
    case Finish(_) =>
  }

  /** The tickets of one cycle from the cursor that name a member of `chosen`. */
  function CycleCount(b: Bal, chosen: set<nat>): nat
    requires b.order != []
  {
    Hits(b.order, b.cursor, b.cursor + |b.order|, chosen)
  }

  /** Since `base`, the picks were the tickets of `pass` among the next `drawn`, and `i` got its own. */
  ghost predicate SharedSince(base: State, s: State, drawn: nat, picks: nat, i: nat, pass: set<nat>)
    requires base.bal.order != []
  {
    && s.bal.order == base.bal.order
    && AtTicket(s.bal, base.bal.cursor, drawn, picks, pass)
    && Picks(s.events, i) - Picks(base.events, i) == Given(base.bal.order, base.bal.cursor, drawn, i, pass)
  }

  lemma StepKeepsSharing(base: State, s: State, step: Step, drawn: nat, picks: nat, i: nat, pass: set<nat>)
    returns (drawn': nat)
    requires WellFormed(base.bal) && NoSeam(base.bal.cursor, |base.bal.order|)
    requires InRange(s) && Enabled(s, step) && SharedSince(base, s, drawn, picks, i, pass)
    requires SeesExactly(s, step, pass) && (step.PickFor? ==> picks < CycleCount(base.bal, pass))
    ensures SharedSince(base, Apply(s, step), drawn', picks + (if step.PickFor? then 1 else 0), i, pass)
  {
    StepKeepsShape(s, step);
    if step.PickFor? {
      drawn' := PickKeepsSharing(s, step.req, base.bal.cursor, drawn, picks, i, pass);
    } else {
      drawn' := drawn;
      OtherStepsPickNothing(s, step, i);
    }
  }

  lemma SharedAtFirst(s: State, i: nat, pass: set<nat>)
    requires s.bal.order != [] && s.bal.strategy == RoundRobin
    ensures SharedSince(s, s, 0, 0, i, pass)
  {
  }

  lemma {:induction false} SharedAlongStretch(states: seq<State>, steps: seq<Step>, k: nat, i: nat, pass: set<nat>)
    returns (drawn: nat)
    requires FairStretch(states, steps, pass) && k < |states|
    requires PickCount(steps) <= CycleCount(states[0].bal, pass)
    ensures SharedSince(states[0], states[k], drawn, PickCount(steps[..k]), i, pass)
  {
    if k == 0 {
      drawn := 0;
      SharedAtFirst(states[0], i, pass);
    } else {
      drawn := SharedAlongStretch(states, steps, k - 1, i, pass);
      FairStep(states, steps, k - 1, pass);
      PickCountSteps(steps, k);
      drawn := StepKeepsSharing(states[0], states[k - 1], steps[k - 1], drawn, PickCount(steps[..k - 1]), i, pass);
    }
  }

  /** A window that holds all hits of its cycle holds each member's. */
  lemma FullWindow(order: seq<nat>, start: nat, drawn: nat, i: nat, pass: set<nat>)
    requires order != [] && drawn <= |order|
    requires Hits(order, start, start + drawn, pass) == Hits(order, start, start + |order|, pass)
    ensures Given(order, start, drawn, i, pass) == if i in pass then Hits(order, start, start + |order|, {i}) else 0
  {
    if i in pass {
      HitsSplit(order, start, start + drawn, start + |order|, pass);
      NoHitsAtAll(order, start + drawn, start + |order|, i, pass);
      HitsSplit(order, start, start + drawn, start + |order|, {i});
    }
  }

  /** When as many picks were made as the cycle has tickets for `pass`, each member got all of its own. */
  lemma CycleGivesAll(base: State, s: State, drawn: nat, picks: nat, i: nat, pass: set<nat>)
    requires base.bal.order != [] && SharedSince(base, s, drawn, picks, i, pass)
    requires picks == CycleCount(base.bal, pass)
    ensures Picks(s.events, i) - Picks(base.events, i) == if i in pass then CycleCount(base.bal, {i}) else 0
  {
    FullWindow(base.bal.order, base.bal.cursor, drawn, i, pass);
  }

  /** As many picks as one cycle has tickets for `pass` are those tickets. */
  lemma OneCycleOfPicks(states: seq<State>, steps: seq<Step>, i: nat, pass: set<nat>)
    requires FairStretch(states, steps, pass) && PickCount(steps) == CycleCount(states[0].bal, pass)
    ensures Picks(states[|steps|].events, i) - Picks(states[0].events, i)
            == if i in pass then CycleCount(states[0].bal, {i}) else 0
  {
    var drawn := SharedAlongStretch(states, steps, |steps|, i, pass);
    assert steps[..|steps|] == steps;
    CycleGivesAll(states[0], states[|steps|], drawn, PickCount(steps), i, pass);
  }

  lemma CycleCountIsWeight(b: Bal, chosen: set<nat>, i: nat)
    requires WellFormed(b)
    ensures CycleCount(b, chosen) == TotalWeight(Weights(b.ups), chosen)
    ensures i < |b.ups| ==> CycleCount(b, {i}) == b.ups[i].weight
  {
    CycleHitsAreWeights(b, b.cursor, chosen);
    CycleHitsAreWeights(b, b.cursor, {i});
    TotalWeightOfOne(Weights(b.ups), i);
  }

  /**
   Over any stretch of a round-robin route, concurrent steps included, whose picks all find the
   same set of upstreams acceptable and number as many as that set weighs, every member is picked
   exactly weight times and nothing else is picked. The cursor must not meet the machine-word seam
   within one cycle.
   */
  lemma WeightedFairness(states: seq<State>, steps: seq<Step>, pass: set<nat>, i: nat)
    requires FairStretch(states, steps, pass)
    requires PickCount(steps) == TotalWeight(Weights(states[0].bal.ups), pass)
    requires i in pass ==> i < |states[0].bal.ups|
    ensures Picks(states[|steps|].events, i) - Picks(states[0].events, i)
            == if i in pass then states[0].bal.ups[i].weight else 0
  {
    CycleCountIsWeight(states[0].bal, pass, i);
    OneCycleOfPicks(states, steps, i, pass);
  }

  // ----- Least connections -----

  function Load(ups: seq<Up>): int {
    if ups == [] then 0 else Load(ups[..|ups| - 1]) + ups[|ups| - 1].active
  }

  lemma {:induction false} LoadAtLeast(ups: seq<Up>, low: int)
    requires forall i :: 0 <= i < |ups| ==> ups[i].active >= low
    ensures Load(ups) >= |ups| * low
  {
    if ups != [] {
      LoadAtLeast(ups[..|ups| - 1], low);
      assert (|ups| - 1) * low + low == |ups| * low;
    }
  }

  ghost predicate AtMostEach(ups: seq<Up>, cap: int) {
    forall i :: 0 <= i < |ups| ==> ups[i].active <= cap
  }

  ghost predicate AllAcceptable(states: seq<State>, steps: seq<Step>)
    requires |states| == |steps| + 1
  {
    forall k {:trigger SeesAll(states[k], steps[k])} :: 0 <= k < |steps| ==> SeesAll(states[k], steps[k])
  }

  predicate SeesAll(s: State, step: Step) {
    step.PickFor? && step.req in s.reqs ==>
      forall i :: 0 <= i < |s.bal.ups| ==> i in Passing(s.bal.ups, s.reqs[step.req].excluded, s.clock)
  }

  lemma {:induction false} LoadAfter(before: seq<Up>, after: seq<Up>, chosen: nat)
    requires |before| == |after|
    requires forall i :: 0 <= i < |before| ==>
                           after[i].active == before[i].active + (if i == chosen then 1 else 0)
    ensures Load(after) == Load(before) + (if chosen < |before| then 1 else 0)
  {
    if before != [] {
      LoadAfter(before[..|before| - 1], after[..|after| - 1], chosen);
    }
  }

  lemma PickKeepsCap(b: Bal, exclude: seq<nat>, now: nat, cap: int)
    requires WellFormed(b) && b.strategy == LeastConnections && AtMostEach(b.ups, cap)
    requires forall i :: 0 <= i < |b.ups| ==> i in Passing(b.ups, exclude, now)
    requires Load(PickFrom(b, exclude, now).bal.ups) <= |b.ups| * cap
    ensures AtMostEach(PickFrom(b, exclude, now).bal.ups, cap)
  {
    var idx := PickTakesLightest(b, exclude, now);
    LoadAfter(b.ups, PickFrom(b, exclude, now).bal.ups, idx);
    LightestHasRoom(b.ups, b.ups[idx].active, cap);
  }

  lemma PickTakesLightest(b: Bal, exclude: seq<nat>, now: nat) returns (idx: nat)
    requires WellFormed(b) && b.strategy == LeastConnections
    requires forall i :: 0 <= i < |b.ups| ==> i in Passing(b.ups, exclude, now)
    ensures idx < |b.ups| && forall i :: 0 <= i < |b.ups| ==> b.ups[i].active >= b.ups[idx].active
    ensures var after := PickFrom(b, exclude, now).bal.ups;
      && |after| == |b.ups|
      && forall i :: 0 <= i < |after| ==> after[i].active == b.ups[i].active + (if i == idx then 1 else 0)
  {
    PickEffect(b, exclude, now);
    LeastLoadedIsFirstMinimum(b.ups, Passing(b.ups, exclude, now), |b.ups|);
    assert 0 in Passing(b.ups, exclude, now);
    idx := PickFrom(b, exclude, now).idx.value;
  }

  lemma LightestHasRoom(ups: seq<Up>, low: int, cap: int)
    requires forall i :: 0 <= i < |ups| ==> ups[i].active >= low
    requires Load(ups) + 1 <= |ups| * cap
    ensures low < cap
  {
    LoadAtLeast(ups, low);
    SmallerFactor(|ups|, low, cap);
  }

  lemma StepKeepsCap(s: State, step: Step, cap: int)
    requires InRange(s) && Enabled(s, step) && s.bal.strategy == LeastConnections
    requires AtMostEach(s.bal.ups, cap) && SeesAll(s, step)
    requires Load(Apply(s, step).bal.ups) <= |s.bal.ups| * cap
    ensures AtMostEach(Apply(s, step).bal.ups, cap)
  {
    if step.PickFor? {
      PickKeepsCap(s.bal, s.reqs[step.req].excluded, s.clock, cap);
    } else {
      forall i | 0 <= i < |s.bal.ups|
        ensures |Apply(s, step).bal.ups| == |s.bal.ups|
        ensures Apply(s, step).bal.ups[i].active <= s.bal.ups[i].active
      {
        ActiveAfter(s, step, i);
      }
    }
  }

  lemma ActiveAfter(s: State, step: Step, i: nat)
    requires InRange(s) && Enabled(s, step) && !step.PickFor? && i < |s.bal.ups|
    ensures |Apply(s, step).bal.ups| == |s.bal.ups|
    ensures Apply(s, step).bal.ups[i].active <= s.bal.ups[i].active
  {
  }

  lemma {:induction false} CapHolds(states: seq<State>, steps: seq<Step>, k: nat, cap: nat)
    requires Run(states, steps) && k < |states| && states[0].bal.strategy == LeastConnections
    requires AllAcceptable(states, steps)
    requires forall j :: 0 <= j < |states| ==> Load(states[j].bal.ups) <= |states[0].bal.ups| * cap
    ensures SameShape(states[0], states[k]) && AtMostEach(states[k].bal.ups, cap)
  {
    if k == 0 {
      forall i | 0 <= i < |states[0].bal.ups|
        ensures states[0].bal.ups[i].active == 0
      {
        assert states[0].bal.ups[i] in states[0].bal.ups;
      }
    } else {
      var s, step := states[k - 1], steps[k - 1];
      CapHolds(states, steps, k - 1, cap);
      assert SeesAll(s, step);
      assert Load(states[k].bal.ups) <= |states[0].bal.ups| * cap;
      assert Moves(states, steps, k - 1);
      StepKeepsShape(s, step);
      StepKeepsCap(s, step, cap);
    }
  }

  /** `peak` guards shared out evenly over `k` upstreams, rounded up. */
  function EvenShare(peak: nat, k: nat): nat
    requires k > 0
  {
    (peak + k - 1) / k
  }

  lemma EvenShareCovers(peak: nat, k: nat)
    requires k > 0
    ensures k * EvenShare(peak, k) >= peak
  {
  }

  /**
   Least connections is optimal for its load: with every upstream acceptable at every pick, no
   active count ever exceeds the peak number of guards shared out evenly.
   */
  lemma LeastConnectionsStaysEven(states: seq<State>, steps: seq<Step>, k: nat, i: nat, peak: nat)
    requires Run(states, steps) && k < |states| && states[0].bal.strategy == LeastConnections
    requires AllAcceptable(states, steps)
    requires forall j :: 0 <= j < |states| ==> Load(states[j].bal.ups) <= peak
    requires i < |states[0].bal.ups|
    ensures i < |states[k].bal.ups|
    ensures states[k].bal.ups[i].active <= EvenShare(peak, |states[0].bal.ups|)
  {
    EvenShareCovers(peak, |states[0].bal.ups|);
    CapHolds(states, steps, k, EvenShare(peak, |states[0].bal.ups|));
  }
}
