/** How much traffic a failing upstream can still attract over a whole run. */
module Shedding {
  import opened Arithmetic
  import opened CircuitBreakers
  import opened LoadBalancer
  import opened PickLaws
  import opened Gateway

  // ----- Counting what happened to one upstream -----

  function Picks(events: seq<RouteEvent>, i: nat): nat {
    if events == [] then 0
    else
      var e := events[|events| - 1];
      Picks(events[..|events| - 1], i) + (if e.Picked? && e.idx == i then 1 else 0)
  }

  function Abandons(events: seq<RouteEvent>, i: nat): nat {
    if events == [] then 0
    else
      var e := events[|events| - 1];
      Abandons(events[..|events| - 1], i) + (if e.Abandoned? && e.idx == i then 1 else 0)
  }

  function Replies(events: seq<RouteEvent>, i: nat): nat {
    if events == [] then 0
    else
      var e := events[|events| - 1];
      Replies(events[..|events| - 1], i) + (if e.Answered? && e.idx == i then 1 else 0)
  }

  /** The change from `s` to `t` in calls in flight is picks less answers less abandoned calls. */
  ghost predicate Balanced(s: State, t: State, i: nat, answers: nat) {
    && Replies(t.events, i) == Replies(s.events, i) + answers
    && InFlight(t.reqs, i) - InFlight(s.reqs, i)
       == Picks(t.events, i) - Picks(s.events, i) - answers - (Abandons(t.events, i) - Abandons(s.events, i))
  }

  lemma PickBalanced(s: State, r: nat, i: nat)
    requires InRange(s) && Enabled(s, PickFor(r))
    ensures Balanced(s, ApplyPick(s, r), i, 0)
  {
    var c := PickFrom(s.bal, s.reqs[r].excluded, s.clock);
    if c.idx.Some? {
      TallySnoc(s.events, Picked(c.idx.value, s.clock), i);
    }
    ThoseAfter(s.reqs, r, ApplyPick(s, r).reqs[r], CallingOn(i));
  }

  lemma AnswerBalanced(s: State, r: nat, o: Outcome, i: nat)
    requires InRange(s) && Enabled(s, Answer(r, o))
    ensures Balanced(s, ApplyAnswer(s, r, o), i, if s.reqs[r].phase == Calling(i) then 1 else 0)
  {
    AnswerLands(s, r, o);
    TallySnoc(s.events, Answered(s.reqs[r].phase.idx, o, s.clock), i);
    ThoseAfter(s.reqs, r, ApplyAnswer(s, r, o).reqs[r], CallingOn(i));
  }

  lemma AnswerLands(s: State, r: nat, o: Outcome)
    requires InRange(s) && Enabled(s, Answer(r, o))
    ensures var t := ApplyAnswer(s, r, o);
      && r in t.reqs && t.reqs == s.reqs[r := t.reqs[r]] && !t.reqs[r].phase.Calling?
      && t.events == s.events + [Answered(s.reqs[r].phase.idx, o, s.clock)]
  {
  }

  lemma CancelBalanced(s: State, r: nat, i: nat)
    requires InRange(s) && Enabled(s, Cancel(r))
    ensures Balanced(s, ApplyCancel(s, r), i, 0)
  {
    if s.reqs[r].phase.Calling? {
      TallySnoc(s.events, Abandoned(s.reqs[r].phase.idx, s.clock), i);
    }
    ThoseAfter(s.reqs, r, ApplyCancel(s, r).reqs[r], CallingOn(i));
  }

  lemma StepBalanced(s: State, step: Step, i: nat)
    requires InRange(s) && Enabled(s, step)
    ensures Balanced(s, Apply(s, step), i, if Answers(s, step, i) then 1 else 0)
  {
    match step
    case Tick(_) =>
    case SetHealth(_, _) =>
    case PickFor(r) => PickBalanced(s, r, i);
    case Answer(r, o) => AnswerBalanced(s, r, o, i);
    case Cancel(r) => CancelBalanced(s, r, i);
    case Arrive(r, _) => ThoseAfter(s.reqs, r, Apply(s, step).reqs[r], CallingOn(i));
    case Finish(r) => ThoseAfter(s.reqs, r, Apply(s, step).reqs[r], CallingOn(i));
  }

  lemma TallySnoc(events: seq<RouteEvent>, e: RouteEvent, i: nat)
    ensures Picks(events + [e], i) == Picks(events, i) + (if e.Picked? && e.idx == i then 1 else 0)
    ensures Replies(events + [e], i) == Replies(events, i) + (if e.Answered? && e.idx == i then 1 else 0)
    ensures Abandons(events + [e], i) == Abandons(events, i) + (if e.Abandoned? && e.idx == i then 1 else 0)
  {
    assert (events + [e])[..|events|] == events;
  }

  /** Every pick of an upstream has been answered, abandoned, or is still in flight. */
  lemma {:induction false} CallsBalance(states: seq<State>, steps: seq<Step>, k: nat, i: nat)
    requires Run(states, steps) && k < |states| && i < |states[0].bal.ups|
    ensures var s := states[k];
      Picks(s.events, i) == Replies(s.events, i) + Abandons(s.events, i) + InFlight(s.reqs, i)
  {
    if k == 0 {
      assert Those(states[0].reqs, CallingOn(i)) == {};
    } else {
      CallsBalance(states, steps, k - 1, i);
      RunsKeepShape(states, steps, k - 1);
      assert Moves(states, steps, k - 1);
      StepBalanced(states[k - 1], steps[k - 1], i);
    }
  }

  lemma PicksBetween(states: seq<State>, steps: seq<Step>, j: nat, k: nat, i: nat)
    requires Run(states, steps) && j <= k < |states| && i < |states[0].bal.ups|
    ensures var s, t := states[j], states[k];
      Picks(t.events, i) - Picks(s.events, i)
      == Replies(t.events, i) - Replies(s.events, i) + Abandons(t.events, i) - Abandons(s.events, i)
         + InFlight(t.reqs, i) - InFlight(s.reqs, i)
  {
    CallsBalance(states, steps, j, i);
    CallsBalance(states, steps, k, i);
  }

  // ----- The ledger of a failing upstream -----

  /** What `width` calls per full cooldown add up to after `elapsed`. */
  function Room(width: nat, elapsed: nat, openFor: nat): nat
    requires openFor > 0
    decreases elapsed
  {
    if elapsed < openFor then 0 else width + Room(width, elapsed - openFor, openFor)
  }

  lemma {:induction false} RoomInClosedForm(width: nat, elapsed: nat, openFor: nat)
    requires openFor > 0
    ensures Room(width, elapsed, openFor) == width * (elapsed / openFor)
    decreases elapsed
  {
    if elapsed < openFor {
      DivModUnique(elapsed, openFor, 0, elapsed);
    } else {
      var rest: nat := elapsed - openFor;
      RoomInClosedForm(width, rest, openFor);
      DivModUnique(elapsed, openFor, rest / openFor + 1, rest % openFor);
      assert width * (rest / openFor + 1) == width * (rest / openFor) + width;
    }
  }

  lemma {:induction false} RoomGrows(width: nat, x: nat, y: nat, openFor: nat)
    requires x <= y && openFor > 0
    ensures Room(width, x, openFor) <= Room(width, y, openFor)
    decreases y
  {
    if y >= openFor && x >= openFor {
      RoomGrows(width, x - openFor, y - openFor, openFor);
    }
  }

  /** A breaker as a run with an ordered clock leaves it: no failure lies in the future. */
  ghost predicate Timely(c: Cb, now: nat) {
    && Sound(c) && c.openFor > 0
    && (c.state == Open ==> c.openUntil.value <= now + c.openFor)
    && (c.state == HalfOpen ==> c.openUntil.value <= now)
  }

  /** The full cooldowns' room between `start` and a later deadline; none before `start`. */
  function RoomUntil(width: nat, start: nat, due: nat, openFor: nat): nat
    requires openFor > 0
  {
    if due < start then 0 else Room(width, due - start, openFor)
  }

  /**
   Since `start`, `answered` calls of an upstream have been answered, all by failures, and
   `flying` are in the air: the room left by the cooldowns seen since.
   */
  ghost predicate Ledger(c: Cb, answered: nat, flying: nat, width: nat, start: nat, now: nat) {
    && Timely(c, now) && start <= now
    && match c.state
       case Closed => answered <= c.failures
       case Open =>
         var at := c.openUntil.value - c.openFor;
         if at < start then answered == 0
         else answered + flying <= c.threshold - 1 + width + Room(width, at - start, c.openFor)
       case HalfOpen => answered <= c.threshold - 1 + RoomUntil(width, start, c.openUntil.value, c.openFor)
  }

  lemma LedgerAtProbe(c: Cb, answered: nat, flying: nat, width: nat, start: nat, now: nat)
    requires Ledger(c, answered, flying, width, start, now)
    ensures Ledger(Probed(c, now), answered, flying, width, start, now)
  {
    if c.state == Open && Allows(c, now) && c.openUntil.value - c.openFor >= start {
      var elapsed: nat := c.openUntil.value - c.openFor - start;
      assert Room(width, elapsed + c.openFor, c.openFor) == width + Room(width, elapsed, c.openFor);
    }
  }

  lemma LedgerAtPick(c: Cb, answered: nat, flying: nat, width: nat, start: nat, now: nat)
    requires Ledger(c, answered, flying, width, start, now) && c.state != Open
    ensures Ledger(c, answered, flying + 1, width, start, now)
  {
  }

  lemma LedgerAtFailure(c: Cb, answered: nat, flying: nat, width: nat, start: nat, now: nat)
    requires Ledger(c, answered, flying, width, start, now) && 1 <= flying <= width
    ensures Ledger(Failed(c, now), answered + 1, flying - 1, width, start, now)
  {
    LedgerBounds(c, answered, flying, width, start, now);
  }

  lemma LedgerAtTick(c: Cb, answered: nat, flying: nat, width: nat, start: nat, now: nat, later: nat)
    requires Ledger(c, answered, flying, width, start, now) && now <= later
    ensures Ledger(c, answered, flying, width, start, later)
  {
  }

  lemma LedgerBounds(c: Cb, answered: nat, flying: nat, width: nat, start: nat, now: nat)
    requires Ledger(c, answered, flying, width, start, now) && flying <= width
    ensures answered + flying <= c.threshold - 1 + width + Room(width, now - start, c.openFor)
  {
    if c.state == Open && c.openUntil.value - c.openFor >= start {
      RoomGrows(width, c.openUntil.value - c.openFor - start, now - start, c.openFor);
    } else if c.state == HalfOpen && c.openUntil.value >= start {
      RoomGrows(width, c.openUntil.value - start, now - start, c.openFor);
    }
  }

  // ----- Runs -----

  /** Every answer of upstream `i` between states `j` and `k` is a failure. */
  ghost predicate FailsBetween(states: seq<State>, steps: seq<Step>, j: nat, k: nat, i: nat)
    requires |states| == |steps| + 1 && k < |states|
  {
    forall m {:trigger Answers(states[m], steps[m], i)} ::
      j <= m < k && Answers(states[m], steps[m], i) ==> IsFailure(steps[m].outcome)
  }

  /** Upstream `i` never has more than `width` calls in flight from state `j` to state `k`. */
  ghost predicate AtMostInFlight(states: seq<State>, j: nat, k: nat, i: nat, width: nat)
    requires k < |states|
  {
    forall m :: j <= m <= k ==> InFlight(states[m].reqs, i) <= width
  }

  /** The ledger of upstream `i` since it had given `base` answers. */
  ghost predicate UpLedger(s: State, i: nat, width: nat, base: nat, start: nat)
    requires i < |s.bal.ups|
  {
    && Replies(s.events, i) >= base
    && Ledger(s.bal.ups[i].cb, Replies(s.events, i) - base, InFlight(s.reqs, i), width, start, s.clock)
  }

  lemma StepKeepsLedger(s: State, step: Step, i: nat, width: nat, base: nat, start: nat)
    requires InRange(s) && Enabled(s, step) && i < |s.bal.ups| && UpLedger(s, i, width, base, start)
    requires InFlight(s.reqs, i) <= width
    requires Answers(s, step, i) ==> IsFailure(step.outcome)
    ensures i < |Apply(s, step).bal.ups| && UpLedger(Apply(s, step), i, width, base, start)
  {
    var t := Apply(s, step);
    var c, answered, flying := s.bal.ups[i].cb, Replies(s.events, i) - base, InFlight(s.reqs, i);
    BreakerAfter(s, step, i);
    StepBalanced(s, step, i);
    if Answers(s, step, i) {
      FlyingCallIsCounted(s, step.req, i);
      NoPickOrDropInAnswer(s, step, i);
      LedgerAtFailure(c, answered, flying, width, start, s.clock);
    } else if step.PickFor? {
      LedgerAtProbe(c, answered, flying, width, start, s.clock);
      PickFlies(s, step.req, i);
      if InFlight(t.reqs, i) == flying + 1 {
        LedgerAtPick(t.bal.ups[i].cb, answered, flying, width, start, s.clock);
      }
    } else {
      QuietStepsOnlyLand(s, step, i);
      LedgerAtTick(c, answered, flying, width, start, s.clock, t.clock);
    }
  }

  lemma FlyingCallIsCounted(s: State, r: nat, i: nat)
    requires r in s.reqs && s.reqs[r].phase == Calling(i)
    ensures InFlight(s.reqs, i) >= 1
  {
    assert r in Those(s.reqs, CallingOn(i));
  }

  lemma NoPickOrDropInAnswer(s: State, step: Step, i: nat)
    requires InRange(s) && Enabled(s, step) && step.Answer? && i < |s.bal.ups|
    ensures Apply(s, step).clock == s.clock
    ensures Picks(Apply(s, step).events, i) == Picks(s.events, i)
    ensures Abandons(Apply(s, step).events, i) == Abandons(s.events, i)
  {
    var t := Apply(s, step);
    assert t.events[..|t.events| - 1] == s.events;
  }

  /** A pick puts a call in the air only when the breaker, once probed, is not Open. */
  lemma PickFlies(s: State, r: nat, i: nat)
    requires InRange(s) && Enabled(s, PickFor(r)) && i < |s.bal.ups|
    ensures var t := ApplyPick(s, r);
      && t.clock == s.clock && i < |t.bal.ups|
      && InFlight(s.reqs, i) <= InFlight(t.reqs, i) <= InFlight(s.reqs, i) + 1
      && (InFlight(t.reqs, i) == InFlight(s.reqs, i) + 1 ==> t.bal.ups[i].cb == Probed(s.bal.ups[i].cb, s.clock))
      && (InFlight(t.reqs, i) == InFlight(s.reqs, i) + 1 ==> Allows(s.bal.ups[i].cb, s.clock))
  {
    var q := s.reqs[r];
    PickEffect(s.bal, q.excluded, s.clock);
    PickIsComplete(s.bal, q.excluded, s.clock);
    ThoseAfter(s.reqs, r, ApplyPick(s, r).reqs[r], CallingOn(i));
    PickProbesChosen(s.bal, q.excluded, s.clock);
  }

  lemma PickProbesChosen(b: Bal, exclude: seq<nat>, now: nat)
    requires WellFormed(b)
    ensures var c := PickFrom(b, exclude, now);
      c.idx.Some? ==> c.idx.value < |b.ups| && |c.bal.ups| == |b.ups|
                      && c.bal.ups[c.idx.value].cb == Probed(b.ups[c.idx.value].cb, now)
  {
    ProbeAllAt(b.ups, Passing(b.ups, exclude, now), now, |b.ups|);
    PickIsComplete(b, exclude, now);
  }

  /** Steps that neither pick nor answer can only bring calls down, by dropping them. */
  lemma QuietStepsOnlyLand(s: State, step: Step, i: nat)
    requires InRange(s) && Enabled(s, step) && i < |s.bal.ups|
    requires !step.PickFor? && !Answers(s, step, i)
    ensures InFlight(Apply(s, step).reqs, i) <= InFlight(s.reqs, i)
    ensures Apply(s, step).clock >= s.clock
  {
    if !step.Tick? && !step.SetHealth? {
      ThoseAfter(s.reqs, step.req, Apply(s, step).reqs[step.req], CallingOn(i));
    }
  }

  lemma {:induction false} BreakerConstants(states: seq<State>, steps: seq<Step>, k: nat, i: nat)
    requires Run(states, steps) && k < |states| && i < |states[0].bal.ups|
    ensures i < |states[k].bal.ups|
    ensures states[k].bal.ups[i].cb.threshold == states[0].bal.ups[i].cb.threshold
    ensures states[k].bal.ups[i].cb.openFor == states[0].bal.ups[i].cb.openFor
  {
    if k > 0 {
      BreakerConstants(states, steps, k - 1, i);
      assert Moves(states, steps, k - 1);
      BreakerAfter(states[k - 1], steps[k - 1], i);
    }
  }

  lemma StepKeepsTimely(s: State, step: Step, i: nat)
    requires InRange(s) && Enabled(s, step) && i < |s.bal.ups| && Timely(s.bal.ups[i].cb, s.clock)
    ensures i < |Apply(s, step).bal.ups| && Timely(Apply(s, step).bal.ups[i].cb, Apply(s, step).clock)
  {
    BreakerAfter(s, step, i);
    ClockAdvances(s, step);
  }

  lemma ClockAdvances(s: State, step: Step)
    requires InRange(s) && Enabled(s, step)
    ensures Apply(s, step).clock >= s.clock
    ensures !step.Tick? ==> Apply(s, step).clock == s.clock
  {
  }

  lemma {:induction false} RunsKeepTimely(states: seq<State>, steps: seq<Step>, k: nat, i: nat)
    requires Run(states, steps) && k < |states| && i < |states[0].bal.ups|
    ensures i < |states[k].bal.ups| && Timely(states[k].bal.ups[i].cb, states[k].clock)
  {
    if k == 0 {
      assert states[0].bal.ups[i] in states[0].bal.ups;
    } else {
      RunsKeepTimely(states, steps, k - 1, i);
      assert Moves(states, steps, k - 1);
      StepKeepsTimely(states[k - 1], steps[k - 1], i);
    }
  }

  lemma FollowingKeepsLedger(s: State, step: Step, t: State, i: nat, width: nat, base: nat, start: nat)
    requires Follows(s, step, t) && i < |s.bal.ups|
    requires UpLedger(s, i, width, base, start) && InFlight(s.reqs, i) <= width
    requires Answers(s, step, i) ==> IsFailure(step.outcome)
    ensures i < |t.bal.ups| && UpLedger(t, i, width, base, start)
  {
    StepKeepsLedger(s, step, i, width, base, start);
  }

  lemma {:induction false} LedgerHolds(states: seq<State>, steps: seq<Step>, j: nat, k: nat, i: nat, width: nat)
    requires Run(states, steps) && j <= k < |states| && i < |states[0].bal.ups|
    requires FailsBetween(states, steps, j, k, i) && AtMostInFlight(states, j, k, i, width)
    ensures i < |states[k].bal.ups|
    ensures UpLedger(states[k], i, width, Replies(states[j].events, i), states[j].clock)
    decreases k - j
  {
    if k == j {
      RunsKeepTimely(states, steps, j, i);
    } else {
      var s, step := states[k - 1], steps[k - 1];
      LedgerHolds(states, steps, j, k - 1, i, width);
      assert Answers(s, step, i) ==> IsFailure(step.outcome);
      assert Moves(states, steps, k - 1);
      FollowingKeepsLedger(s, step, states[k], i, width, Replies(states[j].events, i), states[j].clock);
    }
  }

  /**
   From any reachable state on, as long as upstream `i` does not succeed and never has more than
   `width` calls in flight, it is picked at most (threshold - 1 + width) times, less the calls
   already in flight, plus `width` times per elapsed cooldown, plus once for every call cancelled
   before its answer.
   */
  lemma SheddingBound(states: seq<State>, steps: seq<Step>, j: nat, k: nat, i: nat, width: nat)
    requires Run(states, steps) && j <= k < |states| && i < |states[0].bal.ups|
    requires FailsBetween(states, steps, j, k, i) && AtMostInFlight(states, j, k, i, width)
    ensures var c, s, t := states[0].bal.ups[i].cb, states[j], states[k];
      && c.openFor > 0 && t.clock >= s.clock
      && Picks(t.events, i) - Picks(s.events, i)
         <= c.threshold - 1 + width - InFlight(s.reqs, i) + width * ((t.clock - s.clock) / c.openFor)
            + Abandons(t.events, i) - Abandons(s.events, i)
  {
    LedgerHolds(states, steps, j, k, i, width);
    BreakerConstants(states, steps, k, i);
    PicksBetween(states, steps, j, k, i);
    LedgerBounds(states[k].bal.ups[i].cb, Replies(states[k].events, i) - Replies(states[j].events, i),
                 InFlight(states[k].reqs, i), width, states[j].clock, states[k].clock);
    RoomInClosedForm(width, states[k].clock - states[j].clock, states[0].bal.ups[i].cb.openFor);
  }

  /** One call at a time and no cancellation: threshold calls, then one per cooldown. */
  lemma SheddingBoundSequential(states: seq<State>, steps: seq<Step>, j: nat, k: nat, i: nat)
    requires Run(states, steps) && j <= k < |states| && i < |states[0].bal.ups|
    requires FailsBetween(states, steps, j, k, i) && AtMostInFlight(states, j, k, i, 1)
    requires Abandons(states[k].events, i) == Abandons(states[j].events, i)
    ensures var c, s, t := states[0].bal.ups[i].cb, states[j], states[k];
      && c.openFor > 0 && t.clock >= s.clock
      && Picks(t.events, i) - Picks(s.events, i) <= c.threshold + (t.clock - s.clock) / c.openFor
  {
    SheddingBound(states, steps, j, k, i, 1);
  }
}
