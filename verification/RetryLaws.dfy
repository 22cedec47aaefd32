/** What the retry loop guarantees for each request, whatever the other requests do. */
module RetryLaws {
  import opened Basics
  import opened CircuitBreakers
  import opened LoadBalancer
  import opened PickLaws
  import opened Gateway

  predicate Distinct(s: seq<nat>) {
    forall i, j :: 0 <= i < j < |s| ==> s[i] != s[j]
  }

  function Tried(log: seq<Attempt>): seq<nat> {
    seq(|log|, i requires 0 <= i < |log| => log[i].idx)
  }

  /** Every upstream the request has called, the unanswered call included. */
  function Calls(q: Request): seq<nat> {
    Tried(q.log) + (if q.phase.Calling? then [q.phase.idx] else [])
  }

  predicate AllRetryable(idempotent: bool, log: seq<Attempt>) {
    forall a :: a in log ==> Retryable(idempotent, a.outcome)
  }

  /** The last answer ended the loop: it may not be retried, or no attempt is left. */
  predicate Final(idempotent: bool, log: seq<Attempt>, max: nat) {
    && log != []
    && AllRetryable(idempotent, log[..|log| - 1])
    && (!Retryable(idempotent, log[|log| - 1].outcome) || |log| == max)
  }

  predicate ReplyExplained(idempotent: bool, log: seq<Attempt>, max: nat, reply: Reply) {
    match reply
    case FromUpstream(status) => Final(idempotent, log, max) && log[|log| - 1].outcome == Response(status)
    case BadGateway => Final(idempotent, log, max) && !log[|log| - 1].outcome.Response?
    case Unavailable => |log| < max && AllRetryable(idempotent, log)
  }

  /** The invariant of one request on a route of `n` upstreams. */
  predicate RequestOk(q: Request, n: nat, max: nat) {
    && Distinct(Calls(q)) && (forall i :: i in Calls(q) ==> i < n)
    && |Calls(q)| <= max
    && match q.phase
       case Ready => q.attempt == |q.log| < max && q.excluded == Tried(q.log) && AllRetryable(q.idempotent, q.log)
       case Calling(i) => q.attempt == |q.log| < max && q.excluded == Tried(q.log) && AllRetryable(q.idempotent, q.log)
       case Finishing(i, status) =>
         ReplyExplained(q.idempotent, q.log, max, FromUpstream(status)) && q.log[|q.log| - 1].idx == i
       case Done(reply) => ReplyExplained(q.idempotent, q.log, max, reply)
       case Cancelled => q.log == [] || AllRetryable(q.idempotent, q.log[..|q.log| - 1])
  }

  lemma PickKeepsRequestOk(s: State, r: nat)
    requires InRange(s) && Enabled(s, PickFor(r)) && RequestOk(s.reqs[r], |s.bal.ups|, s.maxAttempts)
    ensures RequestOk(ApplyPick(s, r).reqs[r], |s.bal.ups|, s.maxAttempts)
  {
    PickIsComplete(s.bal, s.reqs[r].excluded, s.clock);
    var q, t := s.reqs[r], ApplyPick(s, r).reqs[r];
    assert Calls(q) == Tried(q.log);
    if t.phase.Calling? {
      DistinctSnoc(Tried(q.log), t.phase.idx, |s.bal.ups|);
      assert Calls(t) == Tried(q.log) + [t.phase.idx];
    } else {
      assert Calls(t) == Tried(q.log);
    }
  }

  lemma DistinctSnoc(s: seq<nat>, x: nat, n: nat)
    requires Distinct(s) && x !in s && x < n && forall i :: i in s ==> i < n
    ensures Distinct(s + [x]) && forall i :: i in s + [x] ==> i < n
  {
    forall i, j | 0 <= i < j < |s + [x]|
      ensures (s + [x])[i] != (s + [x])[j]
    {
      assert s[i] in s;
    }
  }

  lemma AnswerKeepsRequestOk(s: State, r: nat, o: Outcome)
    requires InRange(s) && Enabled(s, Answer(r, o)) && RequestOk(s.reqs[r], |s.bal.ups|, s.maxAttempts)
    ensures RequestOk(ApplyAnswer(s, r, o).reqs[r], |s.bal.ups|, s.maxAttempts)
  {
    var q, t := s.reqs[r], ApplyAnswer(s, r, o).reqs[r];
    assert t.log == q.log + [Attempt(q.phase.idx, o)];
    assert Tried(t.log) == Tried(q.log) + [q.phase.idx];
    assert Calls(t) == Calls(q);
    assert t.log[..|t.log| - 1] == q.log;
  }

  lemma StepKeepsRequestOk(s: State, step: Step, r: nat)
    requires InRange(s) && Enabled(s, step)
    requires r in s.reqs ==> RequestOk(s.reqs[r], |s.bal.ups|, s.maxAttempts)
    requires s.maxAttempts >= 1 && r in Apply(s, step).reqs
    ensures RequestOk(Apply(s, step).reqs[r], |s.bal.ups|, s.maxAttempts)
  {
    if !Touches(step, r) {
      OthersUntouched(s, step, r);
    } else {
      match step
      case PickFor(_) => PickKeepsRequestOk(s, r);
      case Answer(_, o) => AnswerKeepsRequestOk(s, r, o);
      case Arrive(_, _) =>
      case Finish(_) =>
      case Cancel(_) => CancelKeepsRequestOk(s.reqs[r], |s.bal.ups|, s.maxAttempts);
    }
  }

  lemma CancelKeepsRequestOk(q: Request, n: nat, max: nat)
    requires RequestOk(q, n, max)
    requires q.phase.Ready? || q.phase.Calling? || q.phase.Finishing?
    ensures RequestOk(q.(phase := Cancelled), n, max)
  {
    var t := q.(phase := Cancelled);
    assert Calls(t) == Calls(q)[..|q.log|];
    assert forall k :: 0 <= k < |Calls(t)| ==> Calls(t)[k] == Calls(q)[k] && Calls(q)[k] in Calls(q);
    if q.log != [] {
      assert forall a :: a in q.log[..|q.log| - 1] ==> a in q.log;
    }
  }

  lemma {:induction false} RunsKeepRequestsOk(states: seq<State>, steps: seq<Step>, k: nat, r: nat)
    requires Run(states, steps) && k < |states| && r in states[k].reqs
    ensures RequestOk(states[k].reqs[r], |states[0].bal.ups|, states[0].maxAttempts)
  {
    if k > 0 {
      var s, step := states[k - 1], steps[k - 1];
      RunsKeepShape(states, steps, k - 1);
      if r in s.reqs {
        RunsKeepRequestsOk(states, steps, k - 1, r);
      }
      assert Moves(states, steps, k - 1);
      StepKeepsRequestOk(s, step, r);
    }
  }

  lemma {:induction false} DistinctFit(s: seq<nat>, n: nat)
    requires Distinct(s) && forall i :: i in s ==> i < n
    ensures |s| <= n
  {
    if s != [] {
      assert s[0] in s;
      if k :| 0 <= k < |s| && s[k] == n - 1 {
        var rest := s[..k] + s[k + 1..];
        forall i | i in rest
          ensures i < n - 1
        {
          var j :| 0 <= j < |rest| && rest[j] == i;
          assert i == s[if j < k then j else j + 1] && i in s;
        }
        assert forall j :: 0 <= j < |rest| ==> rest[j] == s[if j < k then j else j + 1];
        DistinctFit(rest, n - 1);
      } else {
        assert forall i :: i in s ==> i != n - 1;
        DistinctFit(s, n - 1);
      }
    }
  }

  /**
   One request calls pairwise distinct upstreams, at most as many as there are attempts and
   upstreams; every answer but the last was retryable, so a request that is not idempotent saw
   nothing but refused connections before its last answer; and the loop never runs out of
   attempts while asking for another one.
   */
  lemma RetriesAreSafe(states: seq<State>, steps: seq<Step>, k: nat, r: nat)
    requires Run(states, steps) && k < |states| && r in states[k].reqs
    ensures var q := states[k].reqs[r];
      && Distinct(Calls(q))
      && |Calls(q)| <= Min(states[0].maxAttempts, |states[0].bal.ups|)
      && (forall j :: 0 <= j < |q.log| - 1 ==> Retryable(q.idempotent, q.log[j].outcome))
      && (!q.idempotent ==> forall j :: 0 <= j < |q.log| - 1 ==> q.log[j].outcome == ConnectError)
      && (q.phase.Ready? ==> q.attempt < states[0].maxAttempts)
      && (q.phase.Done? ==> ReplyExplained(q.idempotent, q.log, states[0].maxAttempts, q.phase.reply))
  {
    RunsKeepRequestsOk(states, steps, k, r);
    var q := states[k].reqs[r];
    DistinctFit(Calls(q), |states[0].bal.ups|);
    forall j | 0 <= j < |q.log| - 1
      ensures Retryable(q.idempotent, q.log[j].outcome)
    {
      assert q.log[j] in q.log;
      assert q.log[..|q.log| - 1][j] in q.log[..|q.log| - 1];
    }
  }

  // ----- Bounded progress -----

  /** How many of its own steps a request has left at most. */
  function Fuel(q: Request, max: nat): int {
    match q.phase
    case Ready => 2 * (max - q.attempt) + 1
    case Calling(_) => 2 * (max - q.attempt)
    case Finishing(_, _) => 1
    case Done(_) => 0
    case Cancelled => 0
  }

  /** A request that is not over can always move, each own step burns fuel, and no other step touches it. */
  lemma LoopTerminates(s: State, step: Step, r: nat)
    requires InRange(s) && Enabled(s, step)
    requires r in s.reqs && RequestOk(s.reqs[r], |s.bal.ups|, s.maxAttempts)
    ensures 0 <= Fuel(s.reqs[r], s.maxAttempts) <= 2 * s.maxAttempts + 1
    ensures Over(s.reqs[r]) || Enabled(s, PickFor(r)) || Enabled(s, Finish(r))
            || forall o :: Enabled(s, Answer(r, o))
    ensures r in Apply(s, step).reqs
    ensures if Touches(step, r) then
              Fuel(Apply(s, step).reqs[r], s.maxAttempts) < Fuel(s.reqs[r], s.maxAttempts)
            else
              Apply(s, step).reqs[r] == s.reqs[r]
  {
  }

  /** How many steps of a run are request `r`'s own. */
  function OwnSteps(steps: seq<Step>, r: nat): nat {
    if steps == [] then 0
    else OwnSteps(steps[..|steps| - 1], r) + (if Touches(steps[|steps| - 1], r) then 1 else 0)
  }

  /** A request not yet arrived has made no step, and any other leaves fuel for those it has made. */
  predicate FuelLeft(s: State, r: nat, own: nat) {
    if r in s.reqs then own + Fuel(s.reqs[r], s.maxAttempts) <= 2 * s.maxAttempts + 2 else own == 0
  }

  lemma StepBurnsFuel(s: State, step: Step, r: nat, own: nat)
    requires InRange(s) && Enabled(s, step) && FuelLeft(s, r, own)
    requires r in s.reqs ==> RequestOk(s.reqs[r], |s.bal.ups|, s.maxAttempts)
    ensures FuelLeft(Apply(s, step), r, own + (if Touches(step, r) then 1 else 0))
  {
    StepKeepsShape(s, step);
    if r in s.reqs {
      LoopTerminates(s, step, r);
    } else if !Touches(step, r) {
      OthersUntouched(s, step, r);
    }
  }

  lemma {:induction false} RunsLeaveFuel(states: seq<State>, steps: seq<Step>, k: nat, r: nat)
    requires Run(states, steps) && k < |states|
    ensures FuelLeft(states[k], r, OwnSteps(steps[..k], r))
  {
    if k > 0 {
      RunsLeaveFuel(states, steps, k - 1, r);
      assert steps[..k][..k - 1] == steps[..k - 1];
      assert Moves(states, steps, k - 1);
      if r in states[k - 1].reqs {
        RunsKeepShape(states, steps, k - 1);
        RunsKeepRequestsOk(states, steps, k - 1, r);
      }
      StepBurnsFuel(states[k - 1], steps[k - 1], r, OwnSteps(steps[..k - 1], r));
    }
  }

  /** Over any run a request makes at most 2 * attempts + 2 steps of its own, its arrival included. */
  lemma OwnStepsAreBounded(states: seq<State>, steps: seq<Step>, r: nat)
    requires Run(states, steps)
    ensures OwnSteps(steps, r) <= 2 * states[0].maxAttempts + 2
  {
    var k := |steps|;
    RunsLeaveFuel(states, steps, k, r);
    RunsKeepShape(states, steps, k);
    assert steps[..k] == steps;
    if r in states[k].reqs {
      RunsKeepRequestsOk(states, steps, k, r);
    }
  }

  // ----- Completeness -----

  /**
   What request `r` needs of upstream `g`, step by step: `g` is eligible whenever `r` picks, and no
   call of `r` to `g` fails. What `g` does to other requests, or at other times, does not matter.
   */
  ghost predicate CountsOn(states: seq<State>, steps: seq<Step>, r: nat, g: nat)
    requires |states| == |steps| + 1
  {
    forall i {:trigger CountsOnIn(states[i], steps[i], r, g)} ::
      0 <= i < |steps| ==> CountsOnIn(states[i], steps[i], r, g)
  }

  predicate CountsOnIn(s: State, step: Step, r: nat, g: nat) {
    && (step == PickFor(r) ==> g < |s.bal.ups| && EligibleUp(s.bal.ups[g], s.clock))
    && (Touches(step, r) && Answers(s, step, g) ==> !IsFailure(step.outcome))
  }

  /** A request that can count on upstream `g` has not been failed. */
  predicate Served(q: Request, g: nat) {
    q.idempotent ==>
      match q.phase
      case Ready => g !in q.excluded
      case Calling(_) => g !in q.excluded
      case Finishing(_, status) => status < 500 || status > 599
      case Done(reply) => reply.FromUpstream? && (reply.status < 500 || reply.status > 599)
      case Cancelled => true
  }

  lemma PickKeepsServed(s: State, r: nat, g: nat)
    requires InRange(s) && Enabled(s, PickFor(r)) && g < |s.bal.ups|
    requires EligibleUp(s.bal.ups[g], s.clock) && Served(s.reqs[r], g)
    ensures Served(ApplyPick(s, r).reqs[r], g)
  {
    var q := s.reqs[r];
    PickIsComplete(s.bal, q.excluded, s.clock);
    if g !in q.excluded {
      assert g in Passing(s.bal.ups, q.excluded, s.clock);
    }
  }

  lemma AnswerKeepsServed(s: State, r: nat, o: Outcome, g: nat)
    requires InRange(s) && Enabled(s, Answer(r, o)) && g < |s.bal.ups| <= s.maxAttempts
    requires CountsOnIn(s, Answer(r, o), r, g)
    requires RequestOk(s.reqs[r], |s.bal.ups|, s.maxAttempts) && Served(s.reqs[r], g)
    ensures Served(ApplyAnswer(s, r, o).reqs[r], g)
  {
    var q := s.reqs[r];
    if q.idempotent && IsFailure(o) {
      var others := Calls(q) + [g];
      forall k | 0 <= k < |Calls(q)|
        ensures Calls(q)[k] != g
      {
        if k < |q.log| {
          assert Tried(q.log)[k] in q.excluded;
        }
      }
      DistinctFit(others, |s.bal.ups|);
      assert q.attempt + 1 < s.maxAttempts;
    }
  }

  lemma StepKeepsServed(s: State, step: Step, r: nat, g: nat)
    requires InRange(s) && Enabled(s, step) && g < |s.bal.ups| <= s.maxAttempts
    requires CountsOnIn(s, step, r, g)
    requires r in s.reqs ==> RequestOk(s.reqs[r], |s.bal.ups|, s.maxAttempts)
    requires r in s.reqs ==> Served(s.reqs[r], g)
    requires r in Apply(s, step).reqs
    ensures Served(Apply(s, step).reqs[r], g)
  {
    if !Touches(step, r) {
      OthersUntouched(s, step, r);
    } else {
      match step
      case PickFor(_) => PickKeepsServed(s, r, g);
      case Answer(_, o) => AnswerKeepsServed(s, r, o, g);
      case Arrive(_, _) =>
      case Finish(_) =>
      case Cancel(_) =>
    }
  }

  /**
   With at least as many attempts as upstreams, one upstream that is eligible when an idempotent
   request picks and does not fail it saves that request: it never ends in 502, 503 or a server
   error, whatever concurrent requests do to the cursor, to the load and to the breakers.
   */
  lemma {:induction false} RetriesAreComplete(states: seq<State>, steps: seq<Step>, k: nat, r: nat, g: nat)
    requires Run(states, steps) && k < |states| && r in states[k].reqs
    requires g < |states[0].bal.ups| <= states[0].maxAttempts
    requires CountsOn(states, steps, r, g)
    ensures Served(states[k].reqs[r], g)
  {
    if k > 0 {
      var s, step := states[k - 1], steps[k - 1];
      RunsKeepShape(states, steps, k - 1);
      if r in s.reqs {
        RetriesAreComplete(states, steps, k - 1, r, g);
        RunsKeepRequestsOk(states, steps, k - 1, r);
      }
      assert Moves(states, steps, k - 1);
      assert CountsOnIn(s, step, r, g);
      StepKeepsServed(s, step, r, g);
    }
  }

  // ----- An upstream every request can count on -----

  /** Probes never mark `g` down and every answer of `g` is below 500 or above 599. */
  ghost predicate Reliable(states: seq<State>, steps: seq<Step>, g: nat)
    requires |states| == |steps| + 1
  {
    forall i {:trigger ReliableStep(states[i], steps[i], g)} ::
      0 <= i < |steps| ==> ReliableStep(states[i], steps[i], g)
  }

  predicate ReliableStep(s: State, step: Step, g: nat) {
    && step != SetHealth(g, false)
    && (Answers(s, step, g) ==> !IsFailure(step.outcome))
  }

  predicate GoodUp(u: Up) {
    u.healthy && u.cb.state == Closed && u.cb.failures == 0
  }

  lemma StepKeepsGoodUp(s: State, step: Step, g: nat)
    requires InRange(s) && Enabled(s, step) && g < |s.bal.ups| && ReliableStep(s, step, g)
    requires GoodUp(s.bal.ups[g])
    ensures g < |Apply(s, step).bal.ups| && GoodUp(Apply(s, step).bal.ups[g])
  {
    BreakerAfter(s, step, g);
  }

  lemma {:induction false} ReliableUpstreamStaysGood(states: seq<State>, steps: seq<Step>, k: nat, g: nat)
    requires Run(states, steps) && k < |states|
    requires g < |states[0].bal.ups| && Reliable(states, steps, g)
    ensures g < |states[k].bal.ups| && GoodUp(states[k].bal.ups[g])
  {
    if k == 0 {
      assert states[0].bal.ups[g] in states[0].bal.ups;
    } else {
      var s, step := states[k - 1], steps[k - 1];
      ReliableUpstreamStaysGood(states, steps, k - 1, g);
      assert Moves(states, steps, k - 1);
      assert ReliableStep(s, step, g);
      StepKeepsGoodUp(s, step, g);
    }
  }

  /** An upstream that never fails and is never marked down saves every idempotent request. */
  lemma ReliableUpstreamServesAll(states: seq<State>, steps: seq<Step>, k: nat, r: nat, g: nat)
    requires Run(states, steps) && k < |states| && r in states[k].reqs
    requires g < |states[0].bal.ups| <= states[0].maxAttempts
    requires Reliable(states, steps, g)
    ensures Served(states[k].reqs[r], g)
  {
    forall i | 0 <= i < |steps|
      ensures CountsOnIn(states[i], steps[i], r, g)
    {
      ReliableUpstreamStaysGood(states, steps, i, g);
      assert ReliableStep(states[i], steps[i], g);
    }
    RetriesAreComplete(states, steps, k, r, g);
  }
}
