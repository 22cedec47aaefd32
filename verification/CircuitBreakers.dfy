/**
 The per-upstream circuit breaker: a timed three-state machine.

 `Cb` is the value guarded by the breaker's mutex and `Probed`, `Succeeded` and `Failed`
 are its three transitions. `FailuresSinceSuccess`, `LastFailure` and `ProbedSince` read the
 event history alone and know nothing of the machine; the lemmas tie the two together.
 */
module CircuitBreakers {
  import opened Basics

  datatype BreakerState = Closed | Open | HalfOpen

  datatype Cb = Cb(threshold: nat, openFor: nat, state: BreakerState, failures: nat, openUntil: Option<nat>)

  function NewCb(threshold: nat, openFor: nat): Cb {
    Cb(threshold, openFor, Closed, 0, None)
  }

  /** The answer of `allow_at`; an Open breaker without a deadline lets the call through. */
  predicate Allows(c: Cb, now: nat) {
    c.state != Open || c.openUntil.None? || now >= c.openUntil.value
  }

  /** The side effect of `allow_at`. */
  function Probed(c: Cb, now: nat): Cb {
    if c.state == Open && Allows(c, now) then c.(state := HalfOpen) else c
  }

  function Succeeded(c: Cb): Cb {
    c.(state := Closed, failures := 0, openUntil := None)
  }

  function Failed(c: Cb, now: nat): Cb {
    var counted := c.(failures := c.failures + 1);
    if counted.state == HalfOpen || counted.failures >= counted.threshold then
      counted.(state := Open, openUntil := Some(now + c.openFor))
    else
      counted
  }

  // ----- Histories -----

  datatype Event = Probe(at: nat) | Success | Failure(at: nat)

  function After(c: Cb, e: Event): Cb {
    match e
    case Probe(at) => Probed(c, at)
    case Success => Succeeded(c)
    case Failure(at) => Failed(c, at)
  }

  function Replay(c: Cb, h: seq<Event>): Cb {
    if h == [] then c else After(Replay(c, h[..|h| - 1]), h[|h| - 1])
  }

  function FailuresSinceSuccess(h: seq<Event>): nat {
    if h == [] then 0
    else match h[|h| - 1]
      case Success => 0
      case Failure(_) => FailuresSinceSuccess(h[..|h| - 1]) + 1
      case Probe(_) => FailuresSinceSuccess(h[..|h| - 1])
  }

  /** The instant of the latest failure that no success has followed. */
  function LastFailure(h: seq<Event>): Option<nat> {
    if h == [] then None
    else match h[|h| - 1]
      case Success => None
      case Failure(at) => Some(at)
      case Probe(_) => LastFailure(h[..|h| - 1])
  }

  /** Some probe after the latest outcome carried a clock value of at least `deadline`. */
  predicate ProbedSince(h: seq<Event>, deadline: nat) {
    h != [] && h[|h| - 1].Probe? && (h[|h| - 1].at >= deadline || ProbedSince(h[..|h| - 1], deadline))
  }

  /** The two-variable reading of a breaker: few enough failures, or the cooldown is over. */
  predicate HistoryAllows(threshold: nat, openFor: nat, h: seq<Event>, now: nat) {
    FailuresSinceSuccess(h) < threshold || (LastFailure(h).Some? && now >= LastFailure(h).value + openFor)
  }

  /** No event is stamped later than `now`, and the stamps never go backwards. */
  predicate Monotone(h: seq<Event>, now: nat) {
    h != [] ==>
      var last := h[|h| - 1];
      if last.Success? then Monotone(h[..|h| - 1], now) else last.at <= now && Monotone(h[..|h| - 1], last.at)
  }

  /** Invariant of every breaker value a history can lead to. */
  predicate Sound(c: Cb) {
    && c.threshold >= 1
    && (c.state == Closed <==> c.failures < c.threshold)
    && (c.state == Closed <==> c.openUntil.None?)
    && (c.openUntil.Some? ==> c.openUntil.value >= c.openFor)
  }

  lemma {:induction false} SoundAfterAnyHistory(threshold: nat, openFor: nat, h: seq<Event>)
    requires threshold >= 1
    ensures var c := Replay(NewCb(threshold, openFor), h);
      && Sound(c) && c.threshold == threshold && c.openFor == openFor
      && c.failures == FailuresSinceSuccess(h)
      && (c.failures > 0 <==> LastFailure(h).Some?)
      && (c.state != Closed ==> c.openUntil == Some(LastFailure(h).value + openFor))
      && (c.state == HalfOpen <==>
            c.failures >= threshold && ProbedSince(h, LastFailure(h).value + openFor))
  {
    if h != [] {
      SoundAfterAnyHistory(threshold, openFor, h[..|h| - 1]);
    }
  }

  /**
   For every history, ordered clock or not: the breaker answers yes exactly when the failures
   since the last success are below the threshold, the cooldown of the last failure is over, or
   an earlier probe already saw it over.
   */
  lemma AllowsCharacterised(threshold: nat, openFor: nat, h: seq<Event>, now: nat)
    requires threshold >= 1
    ensures Allows(Replay(NewCb(threshold, openFor), h), now) <==>
            || HistoryAllows(threshold, openFor, h, now)
            || (LastFailure(h).Some? && ProbedSince(h, LastFailure(h).value + openFor))
  {
    SoundAfterAnyHistory(threshold, openFor, h);
  }

  lemma {:induction false} LateProbeMeansLateNow(h: seq<Event>, deadline: nat, now: nat)
    requires Monotone(h, now) && ProbedSince(h, deadline)
    ensures now >= deadline
  {
    var last := h[|h| - 1];
    if last.at < deadline {
      LateProbeMeansLateNow(h[..|h| - 1], deadline, last.at);
    }
  }

  /** With a clock that never runs backwards the machine is the two-variable predicate. */
  lemma BreakerRefinesHistory(threshold: nat, openFor: nat, h: seq<Event>, now: nat)
    requires threshold >= 1 && Monotone(h, now)
    ensures Allows(Replay(NewCb(threshold, openFor), h), now) <==> HistoryAllows(threshold, openFor, h, now)
  {
    AllowsCharacterised(threshold, openFor, h, now);
    if LastFailure(h).Some? && ProbedSince(h, LastFailure(h).value + openFor) {
      LateProbeMeansLateNow(h, LastFailure(h).value + openFor, now);
    }
  }

  /** Without an ordered clock the two-variable reading fails: HalfOpen is a latch. */
  lemma RefinementNeedsMonotoneClock(openFor: nat)
    requires openFor >= 1
    ensures var h := [Failure(0), Probe(openFor)];
      && Allows(Replay(NewCb(1, openFor), h), 0)
      && !HistoryAllows(1, openFor, h, 0)
  {
    var h := [Failure(0), Probe(openFor)];
    assert h[..1] == [Failure(0)] && h[..1][..0] == [];
    assert Replay(NewCb(1, openFor), h[..1]) == Failed(NewCb(1, openFor), 0);
    assert FailuresSinceSuccess(h[..1]) == 1;
  }

  /**
   Two guards in the source never decide anything: an Open breaker always has a deadline, and a
   failure in HalfOpen is always at or past the threshold.
   */
  lemma DefensiveGuardsAreDead(threshold: nat, openFor: nat, h: seq<Event>, now: nat)
    requires threshold >= 1
    ensures var c := Replay(NewCb(threshold, openFor), h);
      && (c.state == Open ==> c.openUntil.Some?)
      && (Failed(c, now).state == Open <==> c.failures + 1 >= threshold)
      && (Failed(c, now).state != Open ==> Failed(c, now) == c.(failures := c.failures + 1))
  {
    SoundAfterAnyHistory(threshold, openFor, h);
  }

  /**
   The trial after a cooldown is not single: once a call is let through, every later one is let
   through as well, at any clock reading, until an outcome is recorded.
   */
  lemma {:induction false} AdmittedUntilOutcome(c: Cb, now: nat, later: seq<nat>, last: nat)
    requires Allows(c, now)
    ensures Allows(Replay(Probed(c, now), Probes(later)), last)
    ensures Replay(Probed(c, now), Probes(later)).state != Open
  {
    if later != [] {
      AdmittedUntilOutcome(c, now, later[..|later| - 1], later[|later| - 1]);
      assert Probes(later)[..|later| - 1] == Probes(later[..|later| - 1]);
    }
  }

  function Probes(times: seq<nat>): (h: seq<Event>)
    ensures |h| == |times|
  {
    seq(|times|, i requires 0 <= i < |times| => Probe(times[i]))
  }

  // ----- The mutex-guarded object -----

  class CircuitBreaker {
    const threshold: nat
    const openFor: nat
    var state: BreakerState
    var consecutiveFailures: nat
    var openUntil: Option<nat>
    ghost var history: seq<Event>

    function Model(): Cb
      reads this
    {
      Cb(threshold, openFor, state, consecutiveFailures, openUntil)
    }

    ghost predicate Valid()
      reads this
    {
      threshold >= 1 && openFor >= 1 && Model() == Replay(NewCb(threshold, openFor), history)
    }

    constructor (failureThreshold: nat, openSecs: nat)
      ensures Valid() && history == []
      ensures threshold == Max(failureThreshold, 1) && openFor == Max(openSecs, 1) * 1_000_000_000
      ensures Model() == NewCb(threshold, openFor)
    {
      threshold := Max(failureThreshold, 1);
      openFor := Max(openSecs, 1) * NANOS_PER_SEC;
      state, consecutiveFailures, openUntil := Closed, 0, None;
      history := [];
    }

    method AllowAt(now: nat) returns (ok: bool)
      requires Valid()
      modifies this
      ensures Valid() && history == old(history) + [Probe(now)]
      ensures Model() == Probed(old(Model()), now)
      ensures ok == Allows(old(Model()), now)
      ensures Monotone(old(history), now) ==> ok == HistoryAllows(threshold, openFor, old(history), now)
    {
      if Monotone(history, now) {
        BreakerRefinesHistory(threshold, openFor, history, now);
      }
      ghost var before := history;
      history := history + [Probe(now)];
      assert history[..|history| - 1] == before;
      match state
      case Closed => ok := true;
      case HalfOpen => ok := true;
      case Open =>
        if openUntil.None? || now >= openUntil.value {
          state := HalfOpen;
          ok := true;
        } else {
          ok := false;
        }
    }

    method RecordSuccess()
      requires Valid()
      modifies this
      ensures Valid() && history == old(history) + [Success]
      ensures Model() == Succeeded(old(Model()))
    {
      state, consecutiveFailures, openUntil := Closed, 0, None;
      ghost var before := history;
      history := history + [Success];
      assert history[..|history| - 1] == before;
    }

    method RecordFailureAt(now: nat)
      requires Valid()
      modifies this
      ensures Valid() && history == old(history) + [Failure(now)]
      ensures Model() == Failed(old(Model()), now)
    {
      consecutiveFailures := consecutiveFailures + 1;
      if state == HalfOpen || consecutiveFailures >= threshold {
        state := Open;
        openUntil := Some(now + openFor);
      }
      ghost var before := history;
      history := history + [Failure(now)];
      assert history[..|history| - 1] == before;
    }
  }
}
