/** The bound on a failing upstream's traffic is reached: for every threshold, width and run length. */
module SheddingTight {
  import opened Basics
  import opened Arithmetic
  import opened CircuitBreakers
  import opened LoadBalancer
  import opened Gateway
  import opened Shedding
  import opened FailingRuns

  /** The calls of requests `lo` to `hi` are in the air and no other; later numbers are free. */
  ghost predicate Flying(s: State, lo: nat, hi: nat) {
    && lo <= hi && InRange(s) && |s.bal.ups| == 1 && s.bal.ups[0].healthy && Sound(s.bal.ups[0].cb)
    && InFlight(s.reqs, 0) == hi - lo
    && (forall q :: q in s.reqs ==> q < hi)
    && forall q :: lo <= q < hi ==> q in s.reqs && s.reqs[q].phase == Calling(0)
  }

  /** What a batch of steps leaves alone, and by how much it raises picks and failures. */
  ghost predicate Raised(s: State, t: State, picks: nat, failures: nat) {
    && |s.bal.ups| == |t.bal.ups| == 1 && t.clock == s.clock
    && t.bal.ups[0].cb.threshold == s.bal.ups[0].cb.threshold && t.bal.ups[0].cb.openFor == s.bal.ups[0].cb.openFor
    && t.bal.ups[0].cb.failures == s.bal.ups[0].cb.failures + failures
    && Picks(t.events, 0) == Picks(s.events, 0) + picks && Abandons(t.events, 0) == Abandons(s.events, 0)
  }

  lemma RaisedTwice(s: State, t: State, u: State, p: nat, f: nat, p': nat, f': nat)
    requires Raised(s, t, p, f) && Raised(t, u, p', f')
    ensures Raised(s, u, p + p', f + f')
  {
  }

  lemma ProbedKeepsSound(c: Cb, now: nat)
    requires Sound(c)
    ensures Sound(Probed(c, now)) && Probed(c, now).failures == c.failures
    ensures Probed(c, now).threshold == c.threshold && Probed(c, now).openFor == c.openFor
  {
  }

  lemma {:induction false} SendBatch(states: seq<State>, steps: seq<Step>, lo: nat, hi: nat, n: nat, width: nat)
    returns (states': seq<State>, steps': seq<Step>)
    requires Failing(states, steps, width) && Flying(Last(states), lo, hi) && hi - lo + n <= width
    requires n > 0 ==> Allows(Last(states).bal.ups[0].cb, Last(states).clock)
    ensures Failing(states', steps', width) && states'[0] == states[0] && Flying(Last(states'), lo, hi + n)
    ensures Raised(Last(states), Last(states'), n, 0)
    decreases n
  {
    if n == 0 {
      states', steps' := states, steps;
    } else {
      states', steps' := OneMoreCall(states, steps, hi, hi - lo, width);
      ProbedKeepsSound(Last(states).bal.ups[0].cb, Last(states).clock);
      var once := Last(states');
      states', steps' := SendBatch(states', steps', lo, hi + 1, n - 1, width);
      RaisedTwice(Last(states), once, Last(states'), 1, 0, n - 1, 0);
    }
  }

  /** At or past the threshold a failure at `now` leaves the breaker open for a full cooldown. */
  predicate JustOpened(c: Cb, now: nat) {
    c.failures >= c.threshold ==> c.state == Open && c.openUntil == Some(now + c.openFor)
  }

  lemma FailedCounts(c: Cb, now: nat)
    requires Sound(c)
    ensures var d := Failed(c, now);
      && Sound(d) && JustOpened(d, now)
      && d.failures == c.failures + 1 && d.threshold == c.threshold && d.openFor == c.openFor
  {
  }

  lemma OneRefused(s: State, lo: nat, hi: nat)
    requires Flying(s, lo, hi) && lo < hi
    ensures InFlight(Apply(s, Answer(lo, ConnectError)).reqs, 0) == hi - lo - 1
    ensures var t := Apply(s, Answer(lo, ConnectError));
      && Flying(t, lo + 1, hi) && Raised(s, t, 0, 1) && JustOpened(t.bal.ups[0].cb, t.clock)
  {
    Refused(s, lo);
    FailedCounts(s.bal.ups[0].cb, s.clock);
  }

  lemma {:induction false} FailBatch(states: seq<State>, steps: seq<Step>, lo: nat, hi: nat, width: nat)
    returns (states': seq<State>, steps': seq<Step>)
    requires Failing(states, steps, width) && Flying(Last(states), lo, hi) && hi - lo <= width
    ensures Failing(states', steps', width) && states'[0] == states[0] && Flying(Last(states'), hi, hi)
    ensures Raised(Last(states), Last(states'), 0, hi - lo)
    ensures lo < hi || JustOpened(Last(states).bal.ups[0].cb, Last(states).clock) ==>
              JustOpened(Last(states').bal.ups[0].cb, Last(states').clock)
    decreases hi - lo
  {
    if lo == hi {
      states', steps' := states, steps;
    } else {
      OneRefused(Last(states), lo, hi);
      states', steps' := Longer(states, steps, Answer(lo, ConnectError), width);
      var once := Last(states');
      states', steps' := FailBatch(states', steps', lo + 1, hi, width);
      RaisedTwice(Last(states), once, Last(states'), 0, 1, 0, hi - lo - 1);
    }
  }

  /** `n` calls go out together and all of them fail. */
  lemma Volley(states: seq<State>, steps: seq<Step>, hi: nat, n: nat, width: nat)
    returns (states': seq<State>, steps': seq<Step>)
    requires Failing(states, steps, width) && Flying(Last(states), hi, hi) && 0 < n <= width
    requires Allows(Last(states).bal.ups[0].cb, Last(states).clock)
    ensures Failing(states', steps', width) && states'[0] == states[0] && Flying(Last(states'), hi + n, hi + n)
    ensures Raised(Last(states), Last(states'), n, n)
    ensures JustOpened(Last(states').bal.ups[0].cb, Last(states').clock)
  {
    states', steps' := SendBatch(states, steps, hi, hi, n, width);
    states', steps' := FailBatch(states', steps', hi, hi + n, width);
  }

  /** Failures one by one, as long as they stay below the threshold. */
  lemma {:induction false} WarmUp(states: seq<State>, steps: seq<Step>, hi: nat, n: nat, width: nat)
    returns (states': seq<State>, steps': seq<Step>)
    requires Failing(states, steps, width) && Flying(Last(states), hi, hi) && width > 0
    requires Last(states).bal.ups[0].cb.failures + n < Last(states).bal.ups[0].cb.threshold
    ensures Failing(states', steps', width) && states'[0] == states[0] && Flying(Last(states'), hi + n, hi + n)
    ensures Raised(Last(states), Last(states'), n, n)
    decreases n
  {
    if n == 0 {
      states', steps' := states, steps;
    } else {
      states', steps' := Volley(states, steps, hi, 1, width);
      states', steps' := WarmUp(states', steps', hi + 1, n - 1, width);
    }
  }

  /** The breaker has just opened, with all calls down. */
  ghost predicate Tripped(s: State, hi: nat) {
    Flying(s, hi, hi) && s.bal.ups[0].cb.state == Open
    && s.bal.ups[0].cb.openUntil == Some(s.clock + s.bal.ups[0].cb.openFor)
  }

  /** A full cooldown later the same again. */
  lemma OneCooldown(states: seq<State>, steps: seq<Step>, hi: nat, width: nat)
    returns (states': seq<State>, steps': seq<Step>)
    requires Failing(states, steps, width) && Tripped(Last(states), hi) && width > 0
    ensures Failing(states', steps', width) && states'[0] == states[0] && Tripped(Last(states'), hi + width)
    ensures var s, t := Last(states), Last(states');
      && t.clock == s.clock + s.bal.ups[0].cb.openFor && t.bal.ups[0].cb.openFor == s.bal.ups[0].cb.openFor
      && Picks(t.events, 0) == Picks(s.events, 0) + width && Abandons(t.events, 0) == Abandons(s.events, 0)
  {
    states', steps' := Longer(states, steps, Tick(Last(states).bal.ups[0].cb.openFor), width);
    states', steps' := Volley(states', steps', hi, width, width);
  }

  lemma {:induction false} Cooldowns(states: seq<State>, steps: seq<Step>, hi: nat, width: nat, n: nat)
    returns (states': seq<State>, steps': seq<Step>)
    requires Failing(states, steps, width) && Tripped(Last(states), hi) && width > 0
    ensures Failing(states', steps', width) && states'[0] == states[0]
    ensures var s, t := Last(states), Last(states');
      && t.clock == s.clock + n * s.bal.ups[0].cb.openFor
      && Picks(t.events, 0) == Picks(s.events, 0) + n * width && Abandons(t.events, 0) == Abandons(s.events, 0)
    decreases n
  {
    if n == 0 {
      states', steps' := states, steps;
    } else {
      var openFor := Last(states).bal.ups[0].cb.openFor;
      states', steps' := OneCooldown(states, steps, hi, width);
      states', steps' := Cooldowns(states', steps', hi + width, width, n - 1);
      assert n * openFor == (n - 1) * openFor + openFor && n * width == (n - 1) * width + width;
    }
  }

  /** From the start until the breaker has tripped with the whole width in the air. */
  lemma FirstTrip(s: State, width: nat) returns (states: seq<State>, steps: seq<Step>, hi: nat)
    requires Initial(s) && |s.bal.ups| == 1 && width > 0
    ensures Failing(states, steps, width) && states[0] == s && Tripped(Last(states), hi)
    ensures var c, t := s.bal.ups[0].cb, Last(states);
      && t.clock == s.clock && t.bal.ups[0].cb.openFor == c.openFor > 0 && Abandons(t.events, 0) == 0
      && Picks(t.events, 0) == c.threshold - 1 + width
  {
    NothingYet(s, width);
    assert s.bal.ups[0] in s.bal.ups;
    hi := s.bal.ups[0].cb.threshold - 1;
    states, steps := WarmUp([s], [], 0, hi, width);
    states, steps := Volley(states, steps, hi, width, width);
    hi := hi + width;
  }

  /**
   `SheddingBound` cannot be improved: from any start on one upstream, for every width and number of
   cooldowns, some run without a success or a cancellation keeps to the width and is picked exactly
   as often as the bound allows.
   */
  lemma SheddingBoundIsReached(s: State, width: nat, cooldowns: nat) returns (states: seq<State>, steps: seq<Step>)
    requires Initial(s) && |s.bal.ups| == 1 && width > 0
    ensures Run(states, steps) && states[0] == s
    ensures FailsBetween(states, steps, 0, |steps|, 0) && AtMostInFlight(states, 0, |steps|, 0, width)
    ensures var c, t := s.bal.ups[0].cb, Last(states);
      && c.openFor > 0 && t.clock >= s.clock && (t.clock - s.clock) / c.openFor == cooldowns
      && Abandons(t.events, 0) == 0
      && Picks(t.events, 0) == c.threshold - 1 + width + width * ((t.clock - s.clock) / c.openFor)
  {
    var hi;
    states, steps, hi := FirstTrip(s, width);
    states, steps := Cooldowns(states, steps, hi, width, cooldowns);
    var elapsed := cooldowns * s.bal.ups[0].cb.openFor;
    DivModUnique(elapsed, s.bal.ups[0].cb.openFor, cooldowns, 0);
  }
}
