/** The retry rules read off the request that arrived. */
module Arrivals {
  import opened Gateway
  import opened RetryLaws

  /** `is_idempotent`. */
  predicate Idempotent(method': string) {
    method' in ["GET", "HEAD", "PUT", "DELETE", "OPTIONS", "TRACE"]
  }

  lemma StepKeepsFlag(s: State, step: Step, r: nat)
    requires InRange(s) && Enabled(s, step) && r in s.reqs
    ensures r in Apply(s, step).reqs && Apply(s, step).reqs[r].idempotent == s.reqs[r].idempotent
  {
    if !Touches(step, r) {
      OthersUntouched(s, step, r);
    }
  }

  /** A request is treated for good as what it was when it arrived. */
  lemma {:induction false} FlagIsOfArrival(states: seq<State>, steps: seq<Step>, j: nat, k: nat, r: nat, b: bool)
    requires Run(states, steps) && j < k < |states| && steps[j] == Arrive(r, b)
    ensures r in states[k].reqs && states[k].reqs[r].idempotent == b
    decreases k
  {
    assert Moves(states, steps, k - 1);
    if j < k - 1 {
      FlagIsOfArrival(states, steps, j, k - 1, r, b);
      StepKeepsFlag(states[k - 1], steps[k - 1], r);
    }
  }

  /** Nothing but refused connections is behind a request that is still to be answered. */
  predicate OnlyRefusedSoFar(q: Request) {
    && (forall i :: 0 <= i < |q.log| - 1 ==> q.log[i].outcome == ConnectError)
    && (q.phase.Ready? || q.phase.Calling? ==> forall i :: 0 <= i < |q.log| ==> q.log[i].outcome == ConnectError)
  }

  /**
   A request that arrived as not idempotent is sent again only after refused connections: any other
   answer, of whatever status, was its last and ended the loop. One that arrived as idempotent is
   sent again only after errors and statuses from 500 to 599.
   */
  lemma RetriesFollowArrival(states: seq<State>, steps: seq<Step>, j: nat, k: nat, r: nat, b: bool)
    requires Run(states, steps) && j < k < |states| && steps[j] == Arrive(r, b)
    ensures r in states[k].reqs
    ensures var q := states[k].reqs[r];
      && (!b ==> OnlyRefusedSoFar(q))
      && (b ==> forall i :: 0 <= i < |q.log| - 1 && q.log[i].outcome.Response? ==>
                              500 <= q.log[i].outcome.status <= 599)
  {
    FlagIsOfArrival(states, steps, j, k, r, b);
    RetriesAreSafe(states, steps, k, r);
    RunsKeepRequestsOk(states, steps, k, r);
    var q := states[k].reqs[r];
    if q.phase.Ready? || q.phase.Calling? {
      forall i | 0 <= i < |q.log|
        ensures Retryable(q.idempotent, q.log[i].outcome)
      {
        assert q.log[i] in q.log;
      }
    }
  }

  /** So an unsafe method reaches a second upstream only if all before it refused the connection. */
  lemma UnsafeMethodsAreSentOnce(states: seq<State>, steps: seq<Step>, j: nat, k: nat, r: nat, method': string)
    requires Run(states, steps) && j < k < |states| && steps[j] == Arrive(r, Idempotent(method'))
    requires method' in ["POST", "PATCH", "CONNECT"]
    ensures r in states[k].reqs && OnlyRefusedSoFar(states[k].reqs[r])
  {
    assert method'[0] != 'G' && method'[0] != 'H' && method' != "PUT" && method'[0] != 'D';
    RetriesFollowArrival(states, steps, j, k, r, false);
  }

  /**
   A request that arrived with a safe or repeatable method, on a route with as many attempts as
   upstreams and an upstream it can count on, ends in no 502, 503 or status from 500 to 599.
   */
  lemma SafeMethodsAreServed(states: seq<State>, steps: seq<Step>, j: nat, k: nat, r: nat, g: nat, method': string)
    requires Run(states, steps) && j < k < |states| && steps[j] == Arrive(r, Idempotent(method'))
    requires method' in ["GET", "HEAD", "PUT", "DELETE", "OPTIONS", "TRACE"]
    requires g < |states[0].bal.ups| <= states[0].maxAttempts && CountsOn(states, steps, r, g)
    ensures r in states[k].reqs
    ensures var phase := states[k].reqs[r].phase;
      && (phase.Finishing? ==> phase.status < 500 || phase.status > 599)
      && (phase.Done? ==> phase.reply.FromUpstream? && (phase.reply.status < 500 || phase.reply.status > 599))
  {
    FlagIsOfArrival(states, steps, j, k, r, true);
    RetriesAreComplete(states, steps, k, r, g);
  }

  // ----- One answer -----

  /**
   What one answer makes of a request, status by status: a 5xx to an idempotent request, a refused
   connection of any request, or any other error of an idempotent one sends it back to the loop as
   long as attempts are left, without the upstream that gave it; everything else ends the loop.
   */
  lemma AnswerDecides(s: State, r: nat, o: Outcome)
    requires InRange(s) && Enabled(s, Answer(r, o))
    ensures r in Apply(s, Answer(r, o)).reqs
    ensures var q, q' := s.reqs[r], Apply(s, Answer(r, o)).reqs[r];
      var i, left := q.phase.idx, q.attempt + 1 < s.maxAttempts;
      && q'.log == q.log + [Attempt(i, o)] && q'.idempotent == q.idempotent
      && match o
         case Response(status) =>
           if 500 <= status <= 599 && q.idempotent && left then SentBack(q, q', i)
           else q'.phase == Finishing(i, status)
         case ConnectError => if left then SentBack(q, q', i) else q'.phase == Done(BadGateway)
         case OtherError => if q.idempotent && left then SentBack(q, q', i) else q'.phase == Done(BadGateway)
  {
  }

  predicate SentBack(q: Request, q': Request, i: nat) {
    q'.phase == Ready && q'.attempt == q.attempt + 1 && q'.excluded == q.excluded + [i]
  }
}
