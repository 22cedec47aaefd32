/** What the callers of the shared limiter are told: each answer is that of its own log entry. */
module RedisAnswers {
  import opened Basics
  import opened RateWindows
  import opened RedisLimiter

  /**
   A check owns one entry of its key's log, and its answer is read off that entry: allowed as the
   entry is, with what the limit leaves over the entry's count, and a reset no later than a window.
   */
  ghost predicate Owned(policy: string -> Policy, s: State, c: nat)
    requires c in s.checks
  {
    var check := s.checks[c];
    var log, limit := Log(s, check.key), policy(check.key).limit;
    && check.entry < |log|
    && var e := log[check.entry];
       && (e.allowed <==> e.used <= limit)
       && match check
          case Expiring(_, _, _) => e.used == 1
          case Reading(_, _, count) => e.used == count
          case Decided(_, _, answer) =>
            && answer.allowed == e.allowed && answer.limit == limit
            && answer.remaining == Max(limit - e.used, 0)
            && answer.resetSecs <= Max(policy(check.key).windowSecs, 1)
  }

  /** No two checks own the same entry, and every entry is owned. */
  ghost predicate OneToOne(s: State) {
    && (forall c, c' :: c in s.checks && c' in s.checks && c != c' && s.checks[c].key == s.checks[c'].key ==>
          s.checks[c].entry != s.checks[c'].entry)
    && (forall key, i :: 0 <= i < |Log(s, key)| ==> HasOwner(s, key, i))
  }

  ghost predicate HasOwner(s: State, key: string, i: nat) {
    exists c :: c in s.checks && s.checks[c].key == key && s.checks[c].entry == i
  }

  lemma SecondsLeftFit(policy: string -> Policy, s: State, key: string)
    requires Logged(policy, s, key)
    ensures SecondsLeft(s, key) <= Max(policy(key).windowSecs, 1)
  {
  }

  /** Logs only grow, and entries once written stay. */
  lemma LogsGrow(policy: string -> Policy, s: State, step: Step, key: string)
    requires Enabled(s, step)
    ensures Log(s, key) <= Log(Apply(policy, s, step), key)
  {
  }

  /** The check a step belongs to, if any. */
  predicate Moved(step: Step, c: nat) {
    !step.Tick? && !step.Forget? && step.check == c
  }

  lemma OthersStay(policy: string -> Policy, s: State, step: Step, c: nat)
    requires Enabled(s, step) && !Moved(step, c)
    ensures c in Apply(policy, s, step).checks <==> c in s.checks
    ensures c in s.checks ==> Apply(policy, s, step).checks[c] == s.checks[c]
  {
  }

  /** The check that moves keeps its key and entry; a new one takes the entry it has just written. */
  lemma MoverKeepsEntry(policy: string -> Policy, s: State, step: Step, c: nat)
    requires Enabled(s, step) && Moved(step, c)
    ensures var t := Apply(policy, s, step);
      && c in t.checks
      && (c in s.checks ==> t.checks[c].key == s.checks[c].key && t.checks[c].entry == s.checks[c].entry)
      && (c !in s.checks ==> step.Incr? && t.checks[c].key == step.key && t.checks[c].entry == |Log(s, step.key)|)
  {
  }

  lemma StepKeepsOwned(policy: string -> Policy, s: State, step: Step, c: nat)
    requires Enabled(s, step) && c in Apply(policy, s, step).checks
    requires c in s.checks ==> Owned(policy, s, c)
    requires c in s.checks ==> Logged(policy, s, s.checks[c].key)
    ensures Owned(policy, Apply(policy, s, step), c)
  {
    if c in s.checks {
      LogsGrow(policy, s, step, s.checks[c].key);
      SecondsLeftFit(policy, s, s.checks[c].key);
    }
    if Moved(step, c) {
      MoverKeepsEntry(policy, s, step, c);
    } else {
      OthersStay(policy, s, step, c);
    }
  }

  lemma StepKeepsOneToOne(policy: string -> Policy, s: State, step: Step)
    requires Enabled(s, step) && OneToOne(s) && forall c :: c in s.checks ==> Owned(policy, s, c)
    ensures OneToOne(Apply(policy, s, step))
  {
    var t := Apply(policy, s, step);
    forall c | c in t.checks
      ensures c in s.checks ==> t.checks[c].key == s.checks[c].key && t.checks[c].entry == s.checks[c].entry
      ensures c !in s.checks ==> step.Incr? && Moved(step, c) && t.checks[c].key == step.key
                                 && t.checks[c].entry == |Log(s, step.key)|
    {
      if Moved(step, c) {
        MoverKeepsEntry(policy, s, step, c);
      } else {
        OthersStay(policy, s, step, c);
      }
    }
    forall key, i | 0 <= i < |Log(t, key)|
      ensures HasOwner(t, key, i)
    {
      EntryHasOwner(policy, s, step, key, i);
    }
  }

  lemma EntryHasOwner(policy: string -> Policy, s: State, step: Step, key: string, i: nat)
    requires Enabled(s, step) && i < |Log(Apply(policy, s, step), key)|
    requires i < |Log(s, key)| ==> HasOwner(s, key, i)
    ensures HasOwner(Apply(policy, s, step), key, i)
  {
    var t := Apply(policy, s, step);
    if i < |Log(s, key)| {
      var c :| c in s.checks && s.checks[c].key == key && s.checks[c].entry == i;
      if Moved(step, c) {
        MoverKeepsEntry(policy, s, step, c);
      } else {
        OthersStay(policy, s, step, c);
      }
      assert c in t.checks && t.checks[c].key == key && t.checks[c].entry == i;
    } else {
      assert step.Incr? && step.key == key && i == |Log(s, key)|;
      MoverKeepsEntry(policy, s, step, step.check);
    }
  }

  /**
   Over every run each check owns an entry of its own, every entry belongs to a check, and every
   answer is the one of the entry it owns.
   */
  lemma {:induction false} AnswersAreEntries(policy: string -> Policy, states: seq<State>, steps: seq<Step>, k: nat)
    requires Run(policy, states, steps) && k < |states|
    ensures OneToOne(states[k]) && forall c :: c in states[k].checks ==> Owned(policy, states[k], c)
  {
    if k > 0 {
      AnswersAreEntries(policy, states, steps, k - 1);
      assert Moves(policy, states, steps, k - 1);
      var s, step := states[k - 1], steps[k - 1];
      StepKeepsOneToOne(policy, s, step);
      forall c | c in states[k].checks
        ensures Owned(policy, states[k], c)
      {
        if c in s.checks {
          ProtocolInvariant(policy, states, steps, k - 1, s.checks[c].key);
        }
        StepKeepsOwned(policy, s, step, c);
      }
    }
  }

  /** A new check can always begin, and one under way can always go on. */
  lemma ChecksCanMove(s: State, c: nat, key: string)
    ensures c !in s.checks ==> Enabled(s, Incr(c, key))
    ensures c in s.checks && s.checks[c].Expiring? ==> Enabled(s, Expire(c)) && Enabled(s, LoseExpire(c))
    ensures c in s.checks && s.checks[c].Reading? ==> Enabled(s, Ttl(c)) && Enabled(s, LoseTtl(c))
  {
  }

  /**
   The last command ends a check. The reset it reports is the time left to the key to the nearest
   second, zero for a key that is gone or has no deadline, and a whole window if TTL fails.
   */
  lemma LastCommandAnswers(policy: string -> Policy, s: State, c: nat)
    requires c in s.checks && s.checks[c].Reading?
    ensures var key := s.checks[c].key;
      var t, u := Apply(policy, s, Ttl(c)), Apply(policy, s, LoseTtl(c));
      && t.checks[c].Decided? && u.checks[c].Decided?
      && u.checks[c].answer.resetSecs == (if policy(key).windowSecs == 0 then 1 else policy(key).windowSecs)
      && var reset := t.checks[c].answer.resetSecs;
         if key in s.store && s.store[key].deadline.Some? && s.store[key].deadline.value >= s.clock then
           var left := s.store[key].deadline.value - s.clock;
           left - 500 < 1000 * reset <= left + 500
         else
           reset == 0
  {
  }

  // ----- The bound on what callers are told -----

  /** The checks of `key` counted in the interval whose callers were told to go ahead. */
  function LetThrough(s: State, key: string, lo: nat, hi: nat): set<nat> {
    set c | && c in s.checks && s.checks[c].key == key && s.checks[c].Decided? && s.checks[c].answer.allowed
            && s.checks[c].entry < |Log(s, key)| && lo <= Log(s, key)[s.checks[c].entry].at < hi
  }

  /** Different allowed entries of the interval are no more than there are such entries. */
  lemma {:induction false} EntriesFit(entries: set<nat>, log: seq<Entry>, lo: nat, hi: nat)
    requires forall i :: i in entries ==> i < |log| && log[i].allowed && lo <= log[i].at < hi
    ensures |entries| <= AllowedWithin(log, lo, hi)
    decreases |log|
  {
    if log == [] {
      assert entries == {};
    } else {
      var last := |log| - 1;
      assert forall i :: 0 <= i < last ==> log[..last][i] == log[i];
      EntriesFit(entries - {last}, log[..last], lo, hi);
      if last in entries {
        assert entries == (entries - {last}) + {last};
      } else {
        assert entries == entries - {last};
      }
    }
  }

  /** Checks that own different entries are as many as the entries. */
  lemma {:induction false} AsManyEntries(s: State, cs: set<nat>)
    requires forall c :: c in cs ==> c in s.checks
    requires forall c, c' :: c in cs && c' in cs && c != c' ==> s.checks[c].entry != s.checks[c'].entry
    ensures |set c | c in cs :: s.checks[c].entry| == |cs|
  {
    if c :| c in cs {
      var others := cs - {c};
      AsManyEntries(s, others);
      var all, rest := set d | d in cs :: s.checks[d].entry, set d | d in others :: s.checks[d].entry;
      assert all == rest + {s.checks[c].entry} && s.checks[c].entry !in rest;
    }
  }

  lemma LetThroughFit(policy: string -> Policy, s: State, key: string, lo: nat, hi: nat)
    requires OneToOne(s) && forall c :: c in s.checks ==> Owned(policy, s, c)
    ensures |LetThrough(s, key, lo, hi)| <= AllowedWithin(Log(s, key), lo, hi)
  {
    var cs := LetThrough(s, key, lo, hi);
    var entries := set c | c in cs :: s.checks[c].entry;
    forall i | i in entries
      ensures i < |Log(s, key)| && Log(s, key)[i].allowed && lo <= Log(s, key)[i].at < hi
    {
      var c :| c in cs && s.checks[c].entry == i;
      assert Owned(policy, s, c);
    }
    AsManyEntries(s, cs);
    EntriesFit(entries, Log(s, key), lo, hi);
  }

  /**
   Across all instances, of the checks counted in any half-open interval at most `limit` for each
   window spanned, and one less for the window under way, are told to go ahead.
   */
  lemma CallersLetThrough(policy: string -> Policy, states: seq<State>, steps: seq<Step>, k: nat, key: string,
                          lo: nat, length: nat)
    requires Run(policy, states, steps) && k < |states|
    ensures |LetThrough(states[k], key, lo, lo + length)|
            <= policy(key).limit * Spans(length, Width(policy(key))) + Carry(policy(key).limit)
  {
    AnswersAreEntries(policy, states, steps, k);
    GlobalLimit(policy, states, steps, k, key, lo, length);
    LetThroughFit(policy, states[k], key, lo, lo + length);
  }

  // ----- After a lost EXPIRE -----

  /** A check that begins after state `j` owns an entry written after it. */
  lemma {:induction false} LaterChecksOwnLaterEntries(policy: string -> Policy, states: seq<State>, steps: seq<Step>,
                                                      j: nat, k: nat, key: string, c: nat)
    requires Run(policy, states, steps) && j <= k < |states|
    requires c !in states[j].checks && c in states[k].checks && states[k].checks[c].key == key
    ensures states[k].checks[c].entry >= |Log(states[j], key)|
    decreases k - j
  {
    var s, step := states[k - 1], steps[k - 1];
    assert Moves(policy, states, steps, k - 1);
    if c in s.checks {
      if Moved(step, c) {
        MoverKeepsEntry(policy, s, step, c);
      } else {
        OthersStay(policy, s, step, c);
      }
      LaterChecksOwnLaterEntries(policy, states, steps, j, k - 1, key, c);
    } else {
      if !Moved(step, c) {
        OthersStay(policy, s, step, c);
      }
      MoverKeepsEntry(policy, s, step, c);
      LogsNeverShrink(policy, states, steps, j, k - 1, key);
    }
  }

  lemma {:induction false} LogsNeverShrink(policy: string -> Policy, states: seq<State>, steps: seq<Step>,
                                           j: nat, k: nat, key: string)
    requires Run(policy, states, steps) && j <= k < |states|
    ensures |Log(states[j], key)| <= |Log(states[k], key)|
    decreases k - j
  {
    if j < k {
      LogsNeverShrink(policy, states, steps, j, k - 1, key);
      assert Moves(policy, states, steps, k - 1);
      LogsGrow(policy, states[k - 1], steps[k - 1], key);
    }
  }

  /**
   Once the EXPIRE of a key is lost and its count is at the limit, every check that begins later and
   gets an answer is told that it is rejected, with nothing remaining.
   */
  lemma LostExpireRejects(policy: string -> Policy, states: seq<State>, steps: seq<Step>, j: nat, k: nat,
                          key: string, c: nat)
    requires Run(policy, states, steps) && j <= k < |states|
    requires key in states[j].store && states[j].store[key].lost && policy(key).limit <= states[j].store[key].count
    requires c !in states[j].checks && c in states[k].checks && states[k].checks[c].key == key
    requires states[k].checks[c].Decided?
    ensures !states[k].checks[c].answer.allowed && states[k].checks[c].answer.remaining == 0
  {
    LostExpireStarves(policy, states, steps, j, k, key);
    LaterChecksOwnLaterEntries(policy, states, steps, j, k, key, c);
    AnswersAreEntries(policy, states, steps, k);
    assert Owned(policy, states[k], c);
  }
}
