/**
 The retry loop of one request over the balancer's objects, proved against the transition system:
 what it leaves behind is what the steps of the system leave behind.
 */
module RetryLoop {
  import opened Basics
  import opened CircuitBreakers
  import opened LoadBalancer
  import opened Gateway
  import opened RetryLaws

  /** What the world contributes to one attempt: two clock readings and the answer. */
  datatype Moment = Moment(pickAt: nat, outcome: Outcome, answerAt: nat)

  /** One attempt of request `r`: a pick, and the answer if an upstream was found. */
  ghost function Once(s: State, r: nat, moment: Moment): (t: State)
    requires InRange(s) && r in s.reqs && s.reqs[r].phase.Ready?
    ensures SameShape(s, t) && r in t.reqs
  {
    var ready := s.(clock := moment.pickAt);
    PickKeepsShape(ready, r);
    var picked := ApplyPick(ready, r).(clock := moment.answerAt);
    if !picked.reqs[r].phase.Calling? then picked
    else
      AnswerKeepsShape(picked, r, moment.outcome);
      ApplyAnswer(picked, r, moment.outcome)
  }

  /** The attempts of request `r` alone, one per moment, until its loop ends. */
  ghost function Drive(s: State, r: nat, world: seq<Moment>): (t: State)
    requires InRange(s) && r in s.reqs
    ensures SameShape(s, t) && r in t.reqs
    decreases |world|
  {
    if world == [] || !s.reqs[r].phase.Ready? then s else Drive(Once(s, r, world[0]), r, world[1..])
  }

  /** The response, if any, has been delivered and its guard dropped. */
  ghost function Settle(s: State, r: nat): (t: State)
    requires InRange(s) && r in s.reqs
    ensures r in t.reqs
  {
    if s.reqs[r].phase.Finishing? then Apply(s, Finish(r)) else s
  }

  /** The state in which request 0 enters the loop on its own. */
  ghost function Entry(b: Bal, idempotent: bool, retries: nat): State {
    State(0, b, MaxAttempts(retries), map[0 := Request(idempotent, 0, [], Ready, [])], [])
  }

  /** `after`, `reply` and `log` are what the system leaves when driven through `world` from `before`. */
  ghost predicate LeftBehind(before: Bal, idempotent: bool, retries: nat, world: seq<Moment>,
                             after: Bal, reply: Reply, log: seq<Attempt>)
    requires WellFormed(before)
  {
    Ended(Drive(Entry(before, idempotent, retries), 0, world), after, reply, log)
  }

  ghost predicate Ended(s: State, after: Bal, reply: Reply, log: seq<Attempt>) {
    && InRange(s) && 0 in s.reqs
    && var end := Settle(s, 0);
       after == end.bal && end.reqs[0].phase == Done(reply) && end.reqs[0].log == log
  }

  lemma RecordMeans(b: Bal, i: nat, o: Outcome, now: nat)
    requires i < |b.ups|
    ensures var before, after := b.ups[i].cb, Record(b, i, o, now).ups[i].cb;
      match o
      case Response(status) => after == if 500 <= status <= 599 then Failed(before, now) else Succeeded(before)
      case ConnectError => after == Failed(before, now)
      case OtherError => after == Failed(before, now)
  {
  }

  /** An answer is recorded on the breaker of the upstream that gave it. */
  method RecordOutcome(balancer: Balancer, i: nat, o: Outcome, now: nat)
    requires balancer.Valid() && i < |balancer.upstreams|
    modifies balancer.upstreams[i].breaker
    ensures balancer.Valid() && balancer.Model() == Record(old(balancer.Model()), i, o, now)
    ensures var before, after := old(balancer.Model()).ups[i].cb, balancer.Model().ups[i].cb;
      match o
      case Response(status) => after == if 500 <= status <= 599 then Failed(before, now) else Succeeded(before)
      case ConnectError => after == Failed(before, now)
      case OtherError => after == Failed(before, now)
  {
    var breaker := balancer.upstreams[i].breaker;
    match o {
      case Response(status) =>
        if ServerError(status) {
          breaker.RecordFailureAt(now);
        } else {
          breaker.RecordSuccess();
        }
      case ConnectError =>
        breaker.RecordFailureAt(now);
      case OtherError =>
        breaker.RecordFailureAt(now);
    }
    assert balancer.Models() == Record(old(balancer.Model()), i, o, now).ups;
    RecordMeans(old(balancer.Model()), i, o, now);
  }

  /** What the health prober does to the route is the health step of the system. */
  method MarkHealth(balancer: Balancer, i: nat, healthy: bool, ghost s: State)
    requires balancer.Valid() && i < |balancer.upstreams|
    requires InRange(s) && s.bal == balancer.Model()
    modifies balancer.upstreams[i]
    ensures balancer.Valid() && Enabled(s, SetHealth(i, healthy))
    ensures balancer.Model() == Apply(s, SetHealth(i, healthy)).bal
  {
    balancer.upstreams[i].SetHealthy(healthy);
    assert balancer.Models() == Apply(s, SetHealth(i, healthy)).bal.ups;
  }

  method Release(balancer: Balancer, i: nat, guard: ActiveGuard)
    requires balancer.Valid() && i < |balancer.upstreams| && guard.upstream == balancer.upstreams[i]
    modifies balancer.upstreams[i]
    ensures balancer.Valid() && balancer.Model() == AddActive(old(balancer.Model()), i, -1)
  {
    guard.Drop();
    assert balancer.Models() == AddActive(old(balancer.Model()), i, -1).ups;
  }

  lemma ValidIsWellFormed(balancer: Balancer)
    requires balancer.Valid() && balancer.upstreams != []
    ensures WellFormed(balancer.Model())
  {
    var b := balancer.Model();
    assert Weights(b.ups)
           == seq(|balancer.upstreams|, i requires 0 <= i < |balancer.upstreams| => balancer.upstreams[i].weight);
    forall u | u in b.ups
      ensures u.weight >= 1
    {
      var i :| 0 <= i < |b.ups| && b.ups[i] == u;
      assert balancer.upstreams[i] in balancer.upstreams;
    }
  }

  /** The answer is recorded and the guard of its call dropped. */
  method Land(balancer: Balancer, i: nat, guard: ActiveGuard, o: Outcome, now: nat)
    requires balancer.Valid() && i < |balancer.upstreams| && guard.upstream == balancer.upstreams[i]
    modifies balancer.upstreams, balancer.Breakers()
    ensures balancer.Valid() && balancer.Model() == AddActive(Record(old(balancer.Model()), i, o, now), i, -1)
  {
    RecordOutcome(balancer, i, o, now);
    Release(balancer, i, guard);
  }

  /** What the loop decides once an answer is in. */
  datatype Verdict = Retry | Stop(reply: Reply)

  /** A call that got no response may be tried again if it is idempotent or was refused outright. */
  function AfterError(idempotent: bool, refused: bool, attempt: nat, maxAttempts: nat): Verdict {
    var canRetry := (idempotent || refused) && attempt + 1 < maxAttempts;
    if canRetry then Retry else Stop(BadGateway)
  }

  /** The decision of the loop after an answer, in the branches of the handler. */
  method Decide(idempotent: bool, attempt: nat, maxAttempts: nat, o: Outcome) returns (v: Verdict)
    ensures v.Retry? <==> Retryable(idempotent, o) && attempt + 1 < maxAttempts
    ensures match o
      case Response(status) => v.Retry? <==> idempotent && 500 <= status <= 599 && attempt + 1 < maxAttempts
      case ConnectError => v.Retry? <==> attempt + 1 < maxAttempts
      case OtherError => v.Retry? <==> idempotent && attempt + 1 < maxAttempts
    ensures v.Stop? ==> v.reply == if o.Response? then FromUpstream(o.status) else BadGateway
  {
    match o {
      case Response(status) =>
        if ServerError(status) {
          var canRetry := idempotent && attempt + 1 < maxAttempts;
          if canRetry {
            return Retry;
          }
        }
        return Stop(FromUpstream(status));
      case ConnectError =>
        return AfterError(idempotent, true, attempt, maxAttempts);
      case OtherError =>
        return AfterError(idempotent, false, attempt, maxAttempts);
    }
  }

  lemma OnceInAir(s: State, r: nat, moment: Moment, c: Choice)
    requires InRange(s) && r in s.reqs && s.reqs[r].phase.Ready?
    requires c == PickFrom(s.bal, s.reqs[r].excluded, moment.pickAt) && c.idx.Some?
    ensures c.idx.value < |c.bal.ups|
    ensures var i, q, o := c.idx.value, s.reqs[r], moment.outcome;
      var released := AddActive(Record(c.bal, i, o, moment.answerAt), i, -1);
      var again := Retryable(q.idempotent, o) && q.attempt + 1 < s.maxAttempts;
      var t := Once(s, r, moment);
      && Settle(t, r).bal == released
      && t.reqs[r].log == q.log + [Attempt(i, o)]
      && (again ==> t.bal == released && t.reqs[r]
                    == Request(q.idempotent, q.attempt + 1, q.excluded + [i], Ready, q.log + [Attempt(i, o)]))
      && (!again ==> !t.reqs[r].phase.Ready? && Settle(t, r).reqs[r].log == t.reqs[r].log
                     && Settle(t, r).reqs[r].phase == Done(if o.Response? then FromUpstream(o.status) else BadGateway))
  {
    PickKeepsShape(s.(clock := moment.pickAt), r);
  }

  lemma OnceGrounded(s: State, r: nat, moment: Moment, c: Choice)
    requires InRange(s) && r in s.reqs && s.reqs[r].phase.Ready?
    requires c == PickFrom(s.bal, s.reqs[r].excluded, moment.pickAt) && c.idx.None?
    ensures var t := Once(s, r, moment);
      && t.bal == c.bal && t.reqs[r].log == s.reqs[r].log && t.reqs[r].phase == Done(Unavailable)
      && Settle(t, r) == t
  {
    PickKeepsShape(s.(clock := moment.pickAt), r);
  }

  /** What one turn of the loop does to the balancer, and what it decides. */
  ghost predicate Turned(before: Bal, idempotent: bool, attempt: nat, maxAttempts: nat, excluded: seq<nat>,
                         moment: Moment, after: Bal, v: Verdict, idx: Option<nat>)
  {
    && before.order != []
    && var c, o := PickFrom(before, excluded, moment.pickAt), moment.outcome;
       && idx == c.idx
       && (idx.Some? ==> idx.value < |c.bal.ups|)
       && after == (if idx.None? then c.bal
                    else AddActive(Record(c.bal, idx.value, o, moment.answerAt), idx.value, -1))
       && (v.Retry? <==> idx.Some? && Retryable(idempotent, o) && attempt + 1 < maxAttempts)
       && (v.Stop? ==> v.reply == if idx.None? then Unavailable
                                  else if o.Response? then FromUpstream(o.status) else BadGateway)
  }

  /** The loop is about to make attempt `attempt`, and the rest of the world is still to come. */
  ghost predicate AtTop(s: State, bal: Bal, idempotent: bool, maxAttempts: nat, attempt: nat,
                        excluded: seq<nat>, log: seq<Attempt>)
  {
    && InRange(s) && s.bal == bal && s.maxAttempts == maxAttempts
    && 0 in s.reqs && s.reqs[0] == Request(idempotent, attempt, excluded, Ready, log)
  }

  lemma TurnSimulated(s: State, bal: Bal, idempotent: bool, maxAttempts: nat, attempt: nat, excluded: seq<nat>,
                      log: seq<Attempt>, moment: Moment, after: Bal, v: Verdict, idx: Option<nat>)
    requires AtTop(s, bal, idempotent, maxAttempts, attempt, excluded, log)
    requires Turned(bal, idempotent, attempt, maxAttempts, excluded, moment, after, v, idx)
    ensures var t := Once(s, 0, moment);
      if v.Retry? then
        && idx.Some? && attempt + 1 < maxAttempts
        && AtTop(t, after, idempotent, maxAttempts, attempt + 1, excluded + [idx.value],
                 log + [Attempt(idx.value, moment.outcome)])
      else
        && !t.reqs[0].phase.Ready?
        && Ended(t, after, v.reply, if idx.None? then log else log + [Attempt(idx.value, moment.outcome)])
  {
    var c := PickFrom(s.bal, excluded, moment.pickAt);
    if idx.Some? {
      OnceInAir(s, 0, moment, c);
    } else {
      OnceGrounded(s, 0, moment, c);
    }
  }

  /** After `attempt` attempts of the loop, the system is where the rest of the world takes it to the same end. */
  ghost predicate OnCourse(before: Bal, idempotent: bool, retries: nat, world: seq<Moment>,
                           bal: Bal, attempt: nat, excluded: seq<nat>, log: seq<Attempt>)
    requires attempt <= |world|
  {
    WellFormed(before) &&
    exists s ::
      && AtTop(s, bal, idempotent, MaxAttempts(retries), attempt, excluded, log)
      && Drive(Entry(before, idempotent, retries), 0, world) == Drive(s, 0, world[attempt..])
  }

  lemma SetsOut(before: Bal, idempotent: bool, retries: nat, world: seq<Moment>)
    requires WellFormed(before)
    ensures OnCourse(before, idempotent, retries, world, before, 0, [], [])
  {
    assert world[0..] == world;
    assert AtTop(Entry(before, idempotent, retries), before, idempotent, MaxAttempts(retries), 0, [], []);
  }

  lemma KeepsCourse(before: Bal, idempotent: bool, retries: nat, world: seq<Moment>,
                    bal: Bal, attempt: nat, excluded: seq<nat>, log: seq<Attempt>,
                    after: Bal, v: Verdict, idx: Option<nat>)
    requires attempt < |world| && OnCourse(before, idempotent, retries, world, bal, attempt, excluded, log)
    requires Turned(bal, idempotent, attempt, MaxAttempts(retries), excluded, world[attempt], after, v, idx)
    ensures var log' := if idx.None? then log else log + [Attempt(idx.value, world[attempt].outcome)];
      if v.Retry? then
        && idx.Some? && attempt + 1 < MaxAttempts(retries)
        && OnCourse(before, idempotent, retries, world, after, attempt + 1, excluded + [idx.value], log')
      else
        LeftBehind(before, idempotent, retries, world, after, v.reply, log')
  {
    var s :| && AtTop(s, bal, idempotent, MaxAttempts(retries), attempt, excluded, log)
             && Drive(Entry(before, idempotent, retries), 0, world) == Drive(s, 0, world[attempt..]);
    TurnSimulated(s, bal, idempotent, MaxAttempts(retries), attempt, excluded, log, world[attempt], after, v, idx);
    DriveStep(s, 0, world, attempt);
  }

  /** One turn of the loop. */
  method TryOnce(balancer: Balancer, idempotent: bool, attempt: nat, maxAttempts: nat, excluded: seq<nat>,
                 moment: Moment)
    returns (v: Verdict, idx: Option<nat>)
    requires balancer.Valid() && balancer.upstreams != []
    modifies balancer`rrCursor, balancer.upstreams, balancer.Breakers()
    ensures balancer.Valid()
    ensures Turned(old(balancer.Model()), idempotent, attempt, maxAttempts, excluded, moment, balancer.Model(), v, idx)
  {
    var guard;
    idx, guard := balancer.Pick(excluded, moment.pickAt);
    if idx.None? {
      return Stop(Unavailable), idx;
    }
    v := Decide(idempotent, attempt, maxAttempts, moment.outcome);
    Land(balancer, idx.value, guard, moment.outcome, moment.answerAt);
  }

  /**
   Attempt with retries over distinct upstreams. The reply, the calls made and every counter,
   cursor and breaker left behind are those of the system driven through the same moments.
   */
  method ProxyWithRetries(balancer: Balancer, idempotent: bool, retries: nat, world: seq<Moment>)
    returns (reply: Reply, log: seq<Attempt>)
    requires balancer.Valid() && balancer.upstreams != [] && |world| >= MaxAttempts(retries)
    modifies balancer`rrCursor, balancer.upstreams, balancer.Breakers()
    ensures balancer.Valid() && WellFormed(old(balancer.Model()))
    ensures LeftBehind(old(balancer.Model()), idempotent, retries, world, balancer.Model(), reply, log)
  {
    ValidIsWellFormed(balancer);
    var maxAttempts := MaxAttempts(retries);
    var excluded: seq<nat> := [];
    log := [];
    ghost var entry := balancer.Model();
    SetsOut(entry, idempotent, retries, world);
    for attempt := 0 to maxAttempts
      invariant attempt < maxAttempts
      invariant balancer.Valid()
      invariant OnCourse(entry, idempotent, retries, world, balancer.Model(), attempt, excluded, log)
    {
      var moment := world[attempt];
      ghost var bal := balancer.Model();
      var verdict, idx := TryOnce(balancer, idempotent, attempt, maxAttempts, excluded, moment);
      KeepsCourse(entry, idempotent, retries, world, bal, attempt, excluded, log, balancer.Model(), verdict, idx);
      if idx.Some? {
        log := log + [Attempt(idx.value, moment.outcome)];
      }
      if verdict.Stop? {
        return verdict.reply, log;
      }
      excluded := excluded + [idx.value];
    }
    reply := BadGateway;
    assert false;
  }

  lemma {:induction false} DriveKeepsRequestOk(s: State, r: nat, world: seq<Moment>)
    requires InRange(s) && r in s.reqs && RequestOk(s.reqs[r], |s.bal.ups|, s.maxAttempts)
    ensures RequestOk(Drive(s, r, world).reqs[r], |s.bal.ups|, s.maxAttempts)
    decreases |world|
  {
    if world != [] && s.reqs[r].phase.Ready? {
      var ready := s.(clock := world[0].pickAt);
      PickKeepsShape(ready, r);
      PickKeepsRequestOk(ready, r);
      var picked := ApplyPick(ready, r).(clock := world[0].answerAt);
      if picked.reqs[r].phase.Calling? {
        AnswerKeepsRequestOk(picked, r, world[0].outcome);
      }
      DriveKeepsRequestOk(Once(s, r, world[0]), r, world[1..]);
    }
  }

  /**
   So the loop of the handler makes distinct calls, no more than attempts or upstreams allow,
   retries only what may be retried, and its reply is explained by its last answer.
   */
  lemma LoopIsSafe(before: Bal, idempotent: bool, retries: nat, world: seq<Moment>,
                   after: Bal, reply: Reply, log: seq<Attempt>)
    requires WellFormed(before) && LeftBehind(before, idempotent, retries, world, after, reply, log)
    ensures Distinct(Tried(log)) && |log| <= Min(MaxAttempts(retries), |before.ups|)
    ensures forall j :: 0 <= j < |log| - 1 ==> Retryable(idempotent, log[j].outcome)
    ensures ReplyExplained(idempotent, log, MaxAttempts(retries), reply)
  {
    var entry := Entry(before, idempotent, retries);
    DriveKeepsRequestOk(entry, 0, world);
    DriveKeepsIdempotence(entry, 0, world);
    EndedMeansOver(Drive(entry, 0, world), after, reply, log);
    OverRequestIsSafe(Drive(entry, 0, world).reqs[0], |before.ups|, MaxAttempts(retries), reply);
  }

  lemma EndedMeansOver(s: State, after: Bal, reply: Reply, log: seq<Attempt>)
    requires Ended(s, after, reply, log)
    ensures s.reqs[0].log == log && OverWith(s.reqs[0], reply)
  {
  }

  predicate OverWith(q: Request, reply: Reply) {
    q.phase == Done(reply) || (q.phase.Finishing? && reply == FromUpstream(q.phase.status))
  }

  lemma OverRequestIsSafe(q: Request, n: nat, max: nat, reply: Reply)
    requires RequestOk(q, n, max) && OverWith(q, reply)
    ensures Distinct(Tried(q.log)) && |q.log| <= Min(max, n)
    ensures forall j :: 0 <= j < |q.log| - 1 ==> Retryable(q.idempotent, q.log[j].outcome)
    ensures ReplyExplained(q.idempotent, q.log, max, reply)
  {
    assert Calls(q) == Tried(q.log);
    DistinctFit(Calls(q), n);
    forall j | 0 <= j < |q.log| - 1
      ensures Retryable(q.idempotent, q.log[j].outcome)
    {
      assert q.log[j] in q.log;
      assert q.log[..|q.log| - 1][j] in q.log[..|q.log| - 1];
    }
  }

  lemma {:induction false} DriveKeepsIdempotence(s: State, r: nat, world: seq<Moment>)
    requires InRange(s) && r in s.reqs
    ensures Drive(s, r, world).reqs[r].idempotent == s.reqs[r].idempotent
    decreases |world|
  {
    if world != [] && s.reqs[r].phase.Ready? {
      DriveKeepsIdempotence(Once(s, r, world[0]), r, world[1..]);
    }
  }

  lemma DriveStep(s: State, r: nat, world: seq<Moment>, k: nat)
    requires InRange(s) && r in s.reqs && s.reqs[r].phase.Ready? && k < |world|
    ensures var t := Once(s, r, world[k]);
      && Drive(s, r, world[k..]) == Drive(t, r, world[k + 1..])
      && (!t.reqs[r].phase.Ready? ==> Drive(s, r, world[k..]) == t)
  {
    assert world[k..][0] == world[k] && world[k..][1..] == world[k + 1..];
  }
}
