/**
 One route of the gateway as a transition system: any number of concurrent requests run the
 retry loop against one balancer while health probes flip flags and the clock advances.

 `Apply` is what a step does, `Enabled` when it may happen. A step of a request is everything
 between two suspension points that touches the balancer: an atomic pick, or the arrival of an
 upstream's answer together with the decision of the loop.
 */
module Gateway {
  import opened Basics
  import opened CircuitBreakers
  import opened Config
  import opened LoadBalancer
  import opened PickLaws

  /** How an upstream call ends: any HTTP response, a refused connection, another client error. */
  datatype Outcome = Response(status: nat) | ConnectError | OtherError

  /** What the loop hands back: an upstream's response, 502 or 503. */
  datatype Reply = FromUpstream(status: nat) | BadGateway | Unavailable

  datatype Attempt = Attempt(idx: nat, outcome: Outcome)

  /** Where a request stands; `Calling` and `Finishing` hold an active guard. */
  datatype Phase = Ready | Calling(idx: nat) | Finishing(idx: nat, status: nat) | Done(reply: Reply) | Cancelled

  datatype Request = Request(idempotent: bool, attempt: nat, excluded: seq<nat>, phase: Phase, log: seq<Attempt>)

  datatype RouteEvent =
    | Picked(idx: nat, at: nat)
    | Answered(idx: nat, outcome: Outcome, at: nat)
    | Abandoned(idx: nat, at: nat)

  datatype State = State(clock: nat, bal: Bal, maxAttempts: nat, reqs: map<nat, Request>, events: seq<RouteEvent>)

  datatype Step =
    | Tick(elapsed: nat)
    | SetHealth(idx: nat, healthy: bool)
    | Arrive(req: nat, idempotent: bool)
    | PickFor(req: nat)
    | Answer(req: nat, outcome: Outcome)
    | Finish(req: nat)
    | Cancel(req: nat)

  predicate ServerError(status: nat) {
    500 <= status < 600
  }

  predicate IsFailure(o: Outcome) {
    o.Response? ==> ServerError(o.status)
  }

  /** `retries.saturating_add(1).max(1)`. */
  function MaxAttempts(retries: nat): (m: nat)
    ensures m >= 1
    ensures m == if retries < 4294967295 then retries + 1 else 4294967295
  {
    Max(Min(retries + 1, U32_MAX), 1)
  }

  /** May this outcome be tried again elsewhere, attempts permitting? */
  predicate Retryable(idempotent: bool, o: Outcome) {
    match o
    case Response(status) => idempotent && ServerError(status)
    case ConnectError => true
    case OtherError => idempotent
  }

  function Record(b: Bal, i: nat, o: Outcome, now: nat): Bal
    requires i < |b.ups|
  {
    b.(ups := b.ups[i := b.ups[i].(cb := if IsFailure(o) then Failed(b.ups[i].cb, now) else Succeeded(b.ups[i].cb))])
  }

  predicate Enabled(s: State, step: Step) {
    match step
    case Tick(_) => true
    case SetHealth(i, _) => i < |s.bal.ups|
    case Arrive(r, _) => r !in s.reqs
    case PickFor(r) => r in s.reqs && s.reqs[r].phase.Ready?
    case Answer(r, _) => r in s.reqs && s.reqs[r].phase.Calling?
    case Finish(r) => r in s.reqs && s.reqs[r].phase.Finishing?
    case Cancel(r) => r in s.reqs && !s.reqs[r].phase.Done? && !s.reqs[r].phase.Cancelled?
  }

  /** The indices a state mentions are indices of upstreams. */
  predicate InRange(s: State) {
    && WellFormed(s.bal)
    && forall r :: r in s.reqs ==>
                     match s.reqs[r].phase
                     case Calling(i) => i < |s.bal.ups|
                     case Finishing(i, _) => i < |s.bal.ups|
                     case _ => true
  }

  function ApplyPick(s: State, r: nat): State
    requires InRange(s) && r in s.reqs
  {
    var q := s.reqs[r];
    var c := PickFrom(s.bal, q.excluded, s.clock);
    if c.idx.None? then
      s.(bal := c.bal, reqs := s.reqs[r := q.(phase := Done(Unavailable))])
    else
      s.(bal := c.bal,
         reqs := s.reqs[r := q.(phase := Calling(c.idx.value))],
         events := s.events + [Picked(c.idx.value, s.clock)])
  }

  function ApplyAnswer(s: State, r: nat, o: Outcome): State
    requires InRange(s) && r in s.reqs && s.reqs[r].phase.Calling?
  {
    var q := s.reqs[r];
    var i := q.phase.idx;
    var recorded := Record(s.bal, i, o, s.clock);
    var logged := q.(log := q.log + [Attempt(i, o)]);
    var s' := s.(events := s.events + [Answered(i, o, s.clock)]);
    if Retryable(q.idempotent, o) && q.attempt + 1 < s.maxAttempts then
      s'.(bal := AddActive(recorded, i, -1),
          reqs := s.reqs[r := logged.(phase := Ready, attempt := q.attempt + 1, excluded := q.excluded + [i])])
    else if o.Response? then
      s'.(bal := recorded, reqs := s.reqs[r := logged.(phase := Finishing(i, o.status))])
    else
      s'.(bal := AddActive(recorded, i, -1), reqs := s.reqs[r := logged.(phase := Done(BadGateway))])
  }

  function ApplyCancel(s: State, r: nat): State
    requires InRange(s) && r in s.reqs
  {
    var q := s.reqs[r];
    var s' := s.(reqs := s.reqs[r := q.(phase := Cancelled)]);
    match q.phase
    case Calling(i) => s'.(bal := AddActive(s.bal, i, -1), events := s.events + [Abandoned(i, s.clock)])
    case Finishing(i, _) => s'.(bal := AddActive(s.bal, i, -1))
    case _ => s'
  }

  function Apply(s: State, step: Step): State
    requires InRange(s) && Enabled(s, step)
  {
    match step
    case Tick(elapsed) => s.(clock := s.clock + elapsed)
    case SetHealth(i, healthy) => s.(bal := s.bal.(ups := s.bal.ups[i := s.bal.ups[i].(healthy := healthy)]))
    case Arrive(r, idempotent) => s.(reqs := s.reqs[r := Request(idempotent, 0, [], Ready, [])])
    case PickFor(r) => ApplyPick(s, r)
    case Answer(r, o) => ApplyAnswer(s, r, o)
    case Finish(r) =>
      var q := s.reqs[r];
      s.(bal := AddActive(s.bal, q.phase.idx, -1),
         reqs := s.reqs[r := q.(phase := Done(FromUpstream(q.phase.status)))])
    case Cancel(r) => ApplyCancel(s, r)
  }

  // ----- Runs -----

  ghost predicate Initial(s: State) {
    && WellFormed(s.bal)
    && s.maxAttempts >= 1
    && s.reqs == map[] && s.events == []
    && forall u :: u in s.bal.ups ==>
         u.active == 0 && u.healthy && u.cb.threshold >= 1 && u.cb.openFor >= 1
         && u.cb == NewCb(u.cb.threshold, u.cb.openFor)
  }

  /** A freshly built balancer of a valid route makes an initial state. */
  lemma NewBalancerIsInitial(route: RouteConfig, clock: nat)
    requires WellFormedRoute(route)
    ensures Initial(State(clock, NewBal(route), MaxAttempts(route.retries), map[], []))
  {
    var b := NewBal(route);
    var weights := Weights(b.ups);
    assert WellFormedUpstream(route.upstreams[0]);
    assert weights[0] == b.ups[0].weight && weights[0] in weights;
    ExpandedOrderIsInRange(weights);
  }

  ghost predicate Follows(s: State, step: Step, t: State) {
    InRange(s) && Enabled(s, step) && t == Apply(s, step)
  }

  ghost predicate Moves(states: seq<State>, steps: seq<Step>, i: nat)
    requires i < |steps| && |states| == |steps| + 1
  {
    Follows(states[i], steps[i], states[i + 1])
  }

  /** A finite stretch of behaviour: `states[i + 1]` follows from `states[i]` by `steps[i]`. */
  ghost predicate Stretch(states: seq<State>, steps: seq<Step>) {
    && |states| == |steps| + 1
    && forall i {:trigger Moves(states, steps, i)} :: 0 <= i < |steps| ==> Moves(states, steps, i)
  }

  ghost predicate Run(states: seq<State>, steps: seq<Step>) {
    Stretch(states, steps) && Initial(states[0])
  }

  /** The surroundings are free in every state: time, probes, arrivals, and cancellation until the end. */
  lemma SurroundingsAreFree(s: State, elapsed: nat, i: nat, healthy: bool, r: nat, idempotent: bool)
    ensures Enabled(s, Tick(elapsed))
    ensures i < |s.bal.ups| ==> Enabled(s, SetHealth(i, healthy))
    ensures r !in s.reqs ==> Enabled(s, Arrive(r, idempotent))
    ensures r in s.reqs && !Over(s.reqs[r]) ==> Enabled(s, Cancel(r))
  {
  }

  // ----- Guards -----

  function Holding(i: nat): Request -> bool {
    (q: Request) => (q.phase.Calling? || q.phase.Finishing?) && q.phase.idx == i
  }

  function CallingOn(i: nat): Request -> bool {
    (q: Request) => q.phase == Calling(i)
  }

  function Those(reqs: map<nat, Request>, p: Request -> bool): set<nat> {
    set r | r in reqs && p(reqs[r])
  }

  /** How many requests hold an active guard on upstream `i`. */
  function Guards(reqs: map<nat, Request>, i: nat): nat {
    |Those(reqs, Holding(i))|
  }

  /** How many calls to upstream `i` are waiting for their answer. */
  function InFlight(reqs: map<nat, Request>, i: nat): nat {
    |Those(reqs, CallingOn(i))|
  }

  lemma SizeWithout(s: set<nat>, r: nat)
    ensures |s| == |s - {r}| + (if r in s then 1 else 0)
  {
    if r in s {
      assert s == (s - {r}) + {r};
    } else {
      assert s == s - {r};
    }
  }

  lemma OthersOfThose(reqs: map<nat, Request>, r: nat, q: Request, p: Request -> bool)
    ensures Those(reqs[r := q], p) - {r} == Those(reqs, p) - {r}
  {
    forall x: nat | x != r
      ensures x in Those(reqs, p) <==> x in Those(reqs[r := q], p)
    {
      assert x in reqs[r := q] <==> x in reqs;
    }
  }

  lemma ThoseAfter(reqs: map<nat, Request>, r: nat, q: Request, p: Request -> bool)
    ensures |Those(reqs[r := q], p)| ==
            |Those(reqs, p)| - (if r in reqs && p(reqs[r]) then 1 else 0) + (if p(q) then 1 else 0)
  {
    OthersOfThose(reqs, r, q, p);
    SizeWithout(Those(reqs, p), r);
    SizeWithout(Those(reqs[r := q], p), r);
  }

  // ----- Conservation of active counts -----

  /** Upstream `i` counts exactly the guards on it, and its breaker is sound. */
  ghost predicate Counted(s: State, i: nat)
    requires i < |s.bal.ups|
  {
    s.bal.ups[i].active == Guards(s.reqs, i) && Sound(s.bal.ups[i].cb)
  }

  lemma InitialCounted(s: State, i: nat)
    requires Initial(s) && i < |s.bal.ups|
    ensures Counted(s, i)
  {
    assert s.bal.ups[i] in s.bal.ups;
    assert Those(s.reqs, Holding(i)) == {};
  }

  lemma UpdateKeepsWellFormed(b: Bal, i: nat, u: Up)
    requires WellFormed(b) && i < |b.ups| && u.weight == b.ups[i].weight
    ensures WellFormed(b.(ups := b.ups[i := u]))
  {
    KeepsWellFormed(b, b.ups[i := u], b.cursor);
  }

  lemma AddActiveKeepsWellFormed(b: Bal, i: nat, delta: int)
    requires WellFormed(b) && i < |b.ups|
    ensures WellFormed(AddActive(b, i, delta))
  {
    UpdateKeepsWellFormed(b, i, b.ups[i].(active := b.ups[i].active + delta));
  }

  lemma RecordKeepsWellFormed(b: Bal, i: nat, o: Outcome, now: nat)
    requires WellFormed(b) && i < |b.ups|
    ensures WellFormed(Record(b, i, o, now))
  {
    UpdateKeepsWellFormed(b, i, Record(b, i, o, now).ups[i]);
  }

  /** What no step changes, beside well-formedness. */
  ghost predicate SameShape(s: State, t: State) {
    && InRange(t)
    && |t.bal.ups| == |s.bal.ups| && t.bal.order == s.bal.order && t.bal.strategy == s.bal.strategy
    && t.maxAttempts == s.maxAttempts
  }

  lemma PickKeepsShape(s: State, r: nat)
    requires InRange(s) && Enabled(s, PickFor(r))
    ensures SameShape(s, ApplyPick(s, r))
  {
    PickEffect(s.bal, s.reqs[r].excluded, s.clock);
    PickIsComplete(s.bal, s.reqs[r].excluded, s.clock);
  }

  lemma AnswerKeepsShape(s: State, r: nat, o: Outcome)
    requires InRange(s) && Enabled(s, Answer(r, o))
    ensures SameShape(s, ApplyAnswer(s, r, o))
  {
    var k := s.reqs[r].phase.idx;
    RecordKeepsWellFormed(s.bal, k, o, s.clock);
    AddActiveKeepsWellFormed(Record(s.bal, k, o, s.clock), k, -1);
  }

  lemma ReleaseKeepsShape(s: State, step: Step)
    requires InRange(s) && Enabled(s, step) && (step.Finish? || step.Cancel?)
    ensures SameShape(s, Apply(s, step))
  {
    var q := s.reqs[step.req];
    if q.phase.Calling? || q.phase.Finishing? {
      AddActiveKeepsWellFormed(s.bal, q.phase.idx, -1);
    }
  }

  lemma StepKeepsShape(s: State, step: Step)
    requires InRange(s) && Enabled(s, step)
    ensures SameShape(s, Apply(s, step))
  {
    match step
    case Tick(_) =>
    case SetHealth(k, healthy) => UpdateKeepsWellFormed(s.bal, k, s.bal.ups[k].(healthy := healthy));
    case Arrive(r, _) =>
    case PickFor(r) => PickKeepsShape(s, r);
    case Answer(r, o) => AnswerKeepsShape(s, r, o);
    case Finish(_) => ReleaseKeepsShape(s, step);
    case Cancel(_) => ReleaseKeepsShape(s, step);
  }

  lemma PickKeepsCounted(s: State, r: nat, i: nat)
    requires InRange(s) && Enabled(s, PickFor(r)) && i < |s.bal.ups| && Counted(s, i)
    ensures i < |ApplyPick(s, r).bal.ups| && Counted(ApplyPick(s, r), i)
  {
    PickEffect(s.bal, s.reqs[r].excluded, s.clock);
    ThoseAfter(s.reqs, r, ApplyPick(s, r).reqs[r], Holding(i));
  }

  lemma AnswerKeepsCounted(s: State, r: nat, o: Outcome, i: nat)
    requires InRange(s) && Enabled(s, Answer(r, o)) && i < |s.bal.ups| && Counted(s, i)
    ensures i < |ApplyAnswer(s, r, o).bal.ups| && Counted(ApplyAnswer(s, r, o), i)
  {
    ThoseAfter(s.reqs, r, ApplyAnswer(s, r, o).reqs[r], Holding(i));
  }

  lemma StepKeepsCounted(s: State, step: Step, i: nat)
    requires InRange(s) && Enabled(s, step) && i < |s.bal.ups| && Counted(s, i)
    ensures i < |Apply(s, step).bal.ups| && Counted(Apply(s, step), i)
  {
    match step
    case Tick(_) =>
    case SetHealth(_, _) =>
    case PickFor(r) => PickKeepsCounted(s, r, i);
    case Answer(r, o) => AnswerKeepsCounted(s, r, o, i);
    case Arrive(r, _) => ThoseAfter(s.reqs, r, Apply(s, step).reqs[r], Holding(i));
    case Finish(r) => ThoseAfter(s.reqs, r, Apply(s, step).reqs[r], Holding(i));
    case Cancel(r) => ThoseAfter(s.reqs, r, Apply(s, step).reqs[r], Holding(i));
  }

  /** The step belongs to request `r`. */
  predicate Touches(step: Step, r: nat) {
    !step.Tick? && !step.SetHealth? && step.req == r
  }

  lemma OthersUntouched(s: State, step: Step, r: nat)
    requires InRange(s) && Enabled(s, step) && !Touches(step, r)
    ensures r in s.reqs <==> r in Apply(s, step).reqs
    ensures r in s.reqs ==> Apply(s, step).reqs[r] == s.reqs[r]
  {
  }

  /** The step delivers the answer of a call to upstream `i`. */
  predicate Answers(s: State, step: Step, i: nat) {
    step.Answer? && step.req in s.reqs && s.reqs[step.req].phase == Calling(i)
  }

  /** What a step may do to the breaker and the health flag of upstream `i`. */
  lemma BreakerAfter(s: State, step: Step, i: nat)
    requires InRange(s) && Enabled(s, step) && i < |s.bal.ups|
    ensures i < |Apply(s, step).bal.ups|
    ensures var u, u' := s.bal.ups[i], Apply(s, step).bal.ups[i];
      && u'.healthy == (if step == SetHealth(i, true) then true
                        else if step == SetHealth(i, false) then false else u.healthy)
      && (Answers(s, step, i) ==>
            u'.cb == if IsFailure(step.outcome) then Failed(u.cb, s.clock) else Succeeded(u.cb))
      && (!Answers(s, step, i) ==> u'.cb == u.cb || (step.PickFor? && u'.cb == Probed(u.cb, s.clock)))
  {
    match step
    case PickFor(r) => PickEffect(s.bal, s.reqs[r].excluded, s.clock);
    case Tick(_) =>
    case SetHealth(_, _) =>
    case Arrive(_, _) =>
    case Answer(_, _) =>
    case Finish(_) =>
    case Cancel(_) =>
  }

  lemma {:induction false} RunsKeepShape(states: seq<State>, steps: seq<Step>, k: nat)
    requires Run(states, steps) && k < |states|
    ensures SameShape(states[0], states[k])
  {
    if k > 0 {
      RunsKeepShape(states, steps, k - 1);
      assert Moves(states, steps, k - 1);
      StepKeepsShape(states[k - 1], steps[k - 1]);
    }
  }

  lemma {:induction false} RunsKeepCounted(states: seq<State>, steps: seq<Step>, k: nat, i: nat)
    requires Run(states, steps) && k < |states| && i < |states[0].bal.ups|
    ensures i < |states[k].bal.ups| && Counted(states[k], i)
  {
    if k == 0 {
      InitialCounted(states[0], i);
    } else {
      RunsKeepCounted(states, steps, k - 1, i);
      assert Moves(states, steps, k - 1);
      StepKeepsCounted(states[k - 1], steps[k - 1], i);
    }
  }

  predicate Over(q: Request) {
    q.phase.Done? || q.phase.Cancelled?
  }

  /**
   In every reachable state an upstream's active count is the number of live guards on it, hence
   never negative, and it is zero once every request is over.
   */
  lemma ActiveCountsConserved(states: seq<State>, steps: seq<Step>, k: nat, i: nat)
    requires Run(states, steps) && k < |states| && i < |states[0].bal.ups|
    ensures i < |states[k].bal.ups|
    ensures states[k].bal.ups[i].active == Guards(states[k].reqs, i) >= 0
    ensures (forall r :: r in states[k].reqs ==> Over(states[k].reqs[r])) ==> states[k].bal.ups[i].active == 0
  {
    RunsKeepCounted(states, steps, k, i);
    if forall r :: r in states[k].reqs ==> Over(states[k].reqs[r]) {
      assert Those(states[k].reqs, Holding(i)) == {};
    }
  }
}
