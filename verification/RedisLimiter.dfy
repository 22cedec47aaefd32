/**
 The shared limiter as a protocol: any number of gateway instances run INCR, then EXPIRE when the
 count came back as 1, then TTL, as separate commands against one store.

 The store may forget a key at any moment from its deadline on, never before, and never a key
 without a deadline. An EXPIRE may fail or its instance may die; the caller ignores the failure.
 */
module RedisLimiter {
  import opened Basics
  import opened RateWindows

  const MILLIS_PER_SEC: nat := 1000

  /** The limit and window configured for a key. */
  datatype Policy = Policy(limit: nat, windowSecs: nat)

  /** Windows last at least one second. */
  function Width(policy: Policy): (w: nat)
    ensures w > 0
  {
    Max(policy.windowSecs, 1) * MILLIS_PER_SEC
  }

  /**
   A live key: its count, its deadline once EXPIRE has landed, and three notes kept for the proof:
   which generation of the key it is, when that began, and whether its EXPIRE was lost.
   */
  datatype Cell = Cell(count: nat, deadline: Option<nat>, generation: nat, born: nat, lost: bool)

  /** Where one check stands; `entry` is a note of its place in the key's log. */
  datatype Check =
    | Expiring(key: string, entry: nat, generation: nat)
    | Reading(key: string, entry: nat, count: nat)
    | Decided(key: string, entry: nat, answer: RateDecision)

  datatype State = State(clock: nat, store: map<string, Cell>, checks: map<nat, Check>, generations: nat,
                         logs: map<string, seq<Entry>>)

  datatype Step =
    | Tick(elapsed: nat)
    | Incr(check: nat, key: string)
    | Expire(check: nat)
    | LoseExpire(check: nat)
    | Ttl(check: nat)
    | LoseTtl(check: nat)
    | Forget(key: string)

  function Log(s: State, key: string): seq<Entry> {
    if key in s.logs then s.logs[key] else []
  }

  predicate Enabled(s: State, step: Step) {
    match step
    case Tick(_) => true
    case Incr(c, _) => c !in s.checks
    case Expire(c) => c in s.checks && s.checks[c].Expiring?
    case LoseExpire(c) => c in s.checks && s.checks[c].Expiring?
    case Ttl(c) => c in s.checks && s.checks[c].Reading?
    case LoseTtl(c) => c in s.checks && s.checks[c].Reading?
    case Forget(key) => key in s.store && s.store[key].deadline.Some? && s.clock >= s.store[key].deadline.value
  }

  function Incremented(s: State, key: string): Cell {
    if key in s.store then s.store[key].(count := s.store[key].count + 1)
    else Cell(1, None, s.generations, s.clock, false)
  }

  /** The answer to a check that saw `count`. */
  function Answer(policy: Policy, count: nat, resetSecs: nat): RateDecision {
    RateDecision(count <= policy.limit, policy.limit, policy.limit - Min(count, policy.limit), resetSecs)
  }

  /** The seconds the store reports as left to a key. */
  function SecondsLeft(s: State, key: string): nat {
    if key in s.store && s.store[key].deadline.Some?
    then (Max(s.store[key].deadline.value - s.clock, 0) + MILLIS_PER_SEC / 2) / MILLIS_PER_SEC else 0
  }

  function Apply(policy: string -> Policy, s: State, step: Step): State
    requires Enabled(s, step)
  {
    match step
    case Tick(elapsed) => s.(clock := s.clock + elapsed)
    case Incr(c, key) =>
      var cell := Incremented(s, key);
      var allowed := cell.count <= policy(key).limit;
      var entry := |Log(s, key)|;
      s.(store := s.store[key := cell],
         generations := s.generations + 1,
         checks := s.checks[c := if cell.count == 1 then Expiring(key, entry, cell.generation)
                                 else Reading(key, entry, cell.count)],
         logs := s.logs[key := Log(s, key) + [Entry(s.clock, cell.born, cell.count, allowed)]])
    case Expire(c) =>
      var key := s.checks[c].key;
      s.(store := if key in s.store
                  then s.store[key := s.store[key].(deadline := Some(s.clock + Width(policy(key))))] else s.store,
         checks := s.checks[c := Reading(key, s.checks[c].entry, 1)])
    case LoseExpire(c) =>
      var key := s.checks[c].key;
      s.(store := if key in s.store then s.store[key := s.store[key].(lost := true)] else s.store,
         checks := s.checks[c := Reading(key, s.checks[c].entry, 1)])
    case Ttl(c) =>
      var Reading(key, entry, count) := s.checks[c];
      s.(checks := s.checks[c := Decided(key, entry, Answer(policy(key), count, SecondsLeft(s, key)))])
    case LoseTtl(c) =>
      var Reading(key, entry, count) := s.checks[c];
      s.(checks := s.checks[c := Decided(key, entry, Answer(policy(key), count, Max(policy(key).windowSecs, 1)))])
    case Forget(key) => s.(store := s.store - {key})
  }

  ghost predicate Initial(s: State) {
    s.store == map[] && s.checks == map[] && s.logs == map[]
  }

  ghost predicate Moves(policy: string -> Policy, states: seq<State>, steps: seq<Step>, i: nat)
    requires i < |steps| && |states| == |steps| + 1
  {
    Enabled(states[i], steps[i]) && states[i + 1] == Apply(policy, states[i], steps[i])
  }

  ghost predicate Run(policy: string -> Policy, states: seq<State>, steps: seq<Step>) {
    && |states| == |steps| + 1 && Initial(states[0])
    && forall i {:trigger Moves(policy, states, steps, i)} :: 0 <= i < |steps| ==> Moves(policy, states, steps, i)
  }

  // ----- Invariants -----

  predicate Owes(s: State, c: nat, key: string) {
    c in s.checks && s.checks[c].Expiring? && s.checks[c].key == key
  }

  /**
   Whoever owes an EXPIRE for a key owes it to the live generation, which has no deadline and has
   not lost its EXPIRE; nobody else owes one; and a live key without a deadline is owed one unless
   it was lost.
   */
  ghost predicate OneOwner(s: State, key: string) {
    && (forall c :: Owes(s, c, key) ==>
          && key in s.store && s.store[key].generation == s.checks[c].generation
          && s.store[key].deadline.None? && !s.store[key].lost)
    && (forall c, c' :: Owes(s, c, key) && Owes(s, c', key) ==> c == c')
    && (key in s.store && s.store[key].deadline.None? && !s.store[key].lost ==> exists c :: Owes(s, c, key))
    && (key in s.store && s.store[key].lost ==> s.store[key].deadline.None?)
  }

  /** The log of a key agrees with its live cell, or its last window is over. */
  ghost predicate Logged(policy: string -> Policy, s: State, key: string) {
    var log, width := Log(s, key), Width(policy(key));
    && Windowed(log, policy(key).limit, width)
    && (log != [] ==> log[|log| - 1].at <= s.clock)
    && if key in s.store then
         var cell := s.store[key];
         && log != [] && cell.count >= 1
         && log[|log| - 1].window == cell.born && log[|log| - 1].used == cell.count
         && (cell.deadline.Some? ==> cell.born + width <= cell.deadline.value <= s.clock + width)
       else
         log != [] ==> log[|log| - 1].window + width <= s.clock
  }

  lemma StepKeepsOneOwner(policy: string -> Policy, s: State, step: Step, key: string)
    requires Enabled(s, step) && OneOwner(s, key) && Logged(policy, s, key)
    ensures OneOwner(Apply(policy, s, step), key)
  {
    var t := Apply(policy, s, step);
    if (step.Expire? || step.LoseExpire?) && s.checks[step.check].key == key {
      assert Owes(s, step.check, key);
    }
    forall c | Owes(t, c, key)
      ensures Owes(s, c, key) || (step.Incr? && c == step.check && key !in s.store)
    {
    }
    if key in t.store && t.store[key].deadline.None? && !t.store[key].lost {
      if step.Incr? && step.key == key && key !in s.store {
        assert Owes(t, step.check, key);
      } else {
        var c :| Owes(s, c, key);
        assert Owes(t, c, key);
      }
    }
  }

  /** What a step leaves of a key's cell and log when it is not a command for that key. */
  lemma OtherKeysUntouched(policy: string -> Policy, s: State, step: Step, key: string)
    requires Enabled(s, step)
    requires match step
             case Tick(_) => true
             case Incr(_, k) => k != key
             case Expire(c) => s.checks[c].key != key
             case LoseExpire(c) => s.checks[c].key != key
             case Ttl(_) => true
             case LoseTtl(_) => true
             case Forget(k) => k != key
    ensures var t := Apply(policy, s, step);
      && Log(t, key) == Log(s, key) && t.clock >= s.clock
      && (key in t.store <==> key in s.store) && (key in s.store ==> t.store[key] == s.store[key])
  {
  }

  lemma IncrKeepsLogged(policy: string -> Policy, s: State, c: nat, key: string)
    requires c !in s.checks && Logged(policy, s, key)
    ensures Logged(policy, Apply(policy, s, Incr(c, key)), key)
  {
    var log := Log(Apply(policy, s, Incr(c, key)), key);
    assert log[..|log| - 1] == Log(s, key);
  }

  lemma StepKeepsLogged(policy: string -> Policy, s: State, step: Step, key: string)
    requires Enabled(s, step) && OneOwner(s, key) && Logged(policy, s, key)
    ensures Logged(policy, Apply(policy, s, step), key)
  {
    match step
    case Tick(_) => OtherKeysUntouched(policy, s, step, key);
    case Incr(c, k) =>
      if k == key {
        IncrKeepsLogged(policy, s, c, key);
      } else {
        OtherKeysUntouched(policy, s, step, key);
      }
    case Expire(c) =>
      if s.checks[c].key == key {
        assert Owes(s, c, key);
      } else {
        OtherKeysUntouched(policy, s, step, key);
      }
    case LoseExpire(c) =>
      if s.checks[c].key == key {
        assert Owes(s, c, key);
      } else {
        OtherKeysUntouched(policy, s, step, key);
      }
    case Ttl(_) => OtherKeysUntouched(policy, s, step, key);
    case LoseTtl(_) => OtherKeysUntouched(policy, s, step, key);
    case Forget(k) =>
      if k != key {
        OtherKeysUntouched(policy, s, step, key);
      }
  }

  lemma {:induction false} ProtocolInvariant(policy: string -> Policy, states: seq<State>, steps: seq<Step>,
                                             k: nat, key: string)
    requires Run(policy, states, steps) && k < |states|
    ensures OneOwner(states[k], key) && Logged(policy, states[k], key)
  {
    if k > 0 {
      ProtocolInvariant(policy, states, steps, k - 1, key);
      assert Moves(policy, states, steps, k - 1);
      StepKeepsOneOwner(policy, states[k - 1], steps[k - 1], key);
      StepKeepsLogged(policy, states[k - 1], steps[k - 1], key);
    }
  }

  /**
   For every interleaving: a live key has a deadline, or exactly one check owes it one, or its
   EXPIRE was lost, and never two of these; and whoever owes an EXPIRE owes it to a live key of that
   generation, so it lands where it was owed.
   */
  lemma TtlOrOneOwner(policy: string -> Policy, states: seq<State>, steps: seq<Step>, k: nat, key: string)
    requires Run(policy, states, steps) && k < |states|
    ensures var s := states[k];
      && (forall c :: Owes(s, c, key) ==> key in s.store && s.checks[c].generation == s.store[key].generation)
      && (key in s.store ==>
            var cell := s.store[key];
            && (cell.deadline.Some? ==> !cell.lost && !exists c :: Owes(s, c, key))
            && (cell.deadline.Some? ==> cell.deadline.value <= s.clock + Max(policy(key).windowSecs, 1) * 1000)
            && (cell.lost ==> !exists c :: Owes(s, c, key))
            && (cell.deadline.None? && !cell.lost ==>
                  exists c :: Owes(s, c, key) && s.checks[c].generation == cell.generation
                              && forall c' :: Owes(s, c', key) ==> c' == c))
  {
    ProtocolInvariant(policy, states, steps, k, key);
  }

  /**
   Across all instances, any half-open interval as long as the window admits fewer than twice the
   limit; in general `limit` for each window spanned and one less for the window under way. Lost
   EXPIREs and slow instances never raise the bound.
   */
  lemma GlobalLimit(policy: string -> Policy, states: seq<State>, steps: seq<Step>, k: nat, key: string,
                    lo: nat, length: nat)
    requires Run(policy, states, steps) && k < |states|
    ensures var log, limit, width := Log(states[k], key), policy(key).limit, Width(policy(key));
      && AllowedWithin(log, lo, lo + length) <= limit * Spans(length, width) + Carry(limit)
      && AllowedWithin(log, lo, lo + width) <= limit + Carry(limit) <= 2 * limit
      && width == 1000 * (if policy(key).windowSecs == 0 then 1 else policy(key).windowSecs)
  {
    ProtocolInvariant(policy, states, steps, k, key);
    IntervalBound(Log(states[k], key), policy(key).limit, Width(policy(key)), lo, length);
    LessThanTwiceTheLimit(Log(states[k], key), policy(key).limit, Width(policy(key)), lo);
  }

  // ----- What a lost EXPIRE costs -----

  /** Every entry from index `n` on counts above `floor`. */
  predicate CountsAbove(log: seq<Entry>, n: nat, floor: nat) {
    forall i :: n <= i < |log| ==> log[i].used > floor
  }

  lemma StepKeepsLost(policy: string -> Policy, s: State, step: Step, key: string, n: nat, floor: nat)
    requires Enabled(s, step) && OneOwner(s, key) && key in s.store && s.store[key].lost
    requires s.store[key].count >= floor && CountsAbove(Log(s, key), n, floor)
    ensures var t := Apply(policy, s, step);
      key in t.store && t.store[key].lost && t.store[key].count >= floor && CountsAbove(Log(t, key), n, floor)
  {
    if step.Expire? || step.LoseExpire? {
      assert Owes(s, step.check, s.checks[step.check].key);
    }
  }

  /**
   Once the EXPIRE of a key is lost the key lives for ever and its count only grows: every request
   from then on counts above the count it had, so once that reached the limit all are rejected.
   */
  lemma {:induction false} LostExpireStarves(policy: string -> Policy, states: seq<State>, steps: seq<Step>,
                                             j: nat, k: nat, key: string)
    requires Run(policy, states, steps) && j <= k < |states|
    requires key in states[j].store && states[j].store[key].lost
    ensures key in states[k].store && states[k].store[key].lost
    ensures states[k].store[key].count >= states[j].store[key].count
    ensures CountsAbove(Log(states[k], key), |Log(states[j], key)|, states[j].store[key].count)
    ensures policy(key).limit <= states[j].store[key].count ==>
              forall i :: |Log(states[j], key)| <= i < |Log(states[k], key)| ==> !Log(states[k], key)[i].allowed
    decreases k - j
  {
    if j < k {
      LostExpireStarves(policy, states, steps, j, k - 1, key);
      ProtocolInvariant(policy, states, steps, k - 1, key);
      assert Moves(policy, states, steps, k - 1);
      StepKeepsLost(policy, states[k - 1], steps[k - 1], key, |Log(states[j], key)|, states[j].store[key].count);
    }
    ProtocolInvariant(policy, states, steps, k, key);
    forall i | 0 <= i < |Log(states[k], key)|
      ensures Log(states[k], key)[i].allowed <==> Log(states[k], key)[i].used <= policy(key).limit
    {
      WindowedAnswers(Log(states[k], key), policy(key).limit, Width(policy(key)), i);
    }
  }

  /** A key is lost in two steps from any start: one check counts it and its EXPIRE fails. */
  lemma KeysGetLost(policy: string -> Policy, s: State, c: nat, key: string)
    returns (states: seq<State>, steps: seq<Step>)
    requires Initial(s)
    ensures Run(policy, states, steps) && |steps| == 2 && states[0] == s
    ensures key in states[2].store && states[2].store[key].lost && states[2].store[key].count == 1
  {
    var counted := Apply(policy, s, Incr(c, key));
    steps := [Incr(c, key), LoseExpire(c)];
    states := [s, counted, Apply(policy, counted, LoseExpire(c))];
  }

  lemma {:induction false} WindowedAnswers(log: seq<Entry>, limit: nat, width: nat, i: nat)
    requires Windowed(log, limit, width) && i < |log|
    ensures log[i].allowed <==> log[i].used <= limit
  {
    if i < |log| - 1 {
      WindowedAnswers(log[..|log| - 1], limit, width, i);
    }
  }
}
