/** The per-process fixed-window limiter. */
module InMemoryLimiter {
  import opened Basics
  import opened Arithmetic
  import opened RateWindows

  /** `duration_since` saturates at zero when the clock reading is older. */
  function Since(now: nat, start: nat): nat {
    if now >= start then now - start else 0
  }

  /** The entry one more check of a key adds to its log. */
  function NextEntry(log: seq<Entry>, now: nat, limit: nat, width: nat): Entry {
    if log == [] || Since(now, log[|log| - 1].window) >= width then Entry(now, now, 1, 1 <= limit)
    else
      var last := log[|log| - 1];
      Entry(now, last.window, last.used + 1, last.used + 1 <= limit)
  }

  /**
   A check opens a window exactly when its key has none or at least a whole width has passed since
   the last began; a clock reading from before that counts as no time at all.
   */
  lemma WindowOpensExactly(log: seq<Entry>, now: nat, limit: nat, width: nat)
    requires width > 0
    ensures var e := NextEntry(log, now, limit, width);
      && e.at == now && (e.allowed <==> e.used <= limit)
      && if log == [] || log[|log| - 1].window + width <= now then e.window == now && e.used == 1
         else e.window == log[|log| - 1].window && e.used == log[|log| - 1].used + 1
  {
  }

  /** The log of a key checked at the given instants with one limit and one width. */
  function LogOf(times: seq<nat>, limit: nat, width: nat): (log: seq<Entry>)
    ensures |log| == |times|
  {
    if times == [] then []
    else
      var before := LogOf(times[..|times| - 1], limit, width);
      before + [NextEntry(before, times[|times| - 1], limit, width)]
  }

  /** Checking a key once more extends its log as the limiter object does. */
  lemma LogGrows(times: seq<nat>, now: nat, limit: nat, width: nat)
    ensures var log := LogOf(times, limit, width);
      LogOf(times + [now], limit, width) == log + [NextEntry(log, now, limit, width)]
  {
    assert (times + [now])[..|times|] == times;
  }

  predicate InOrder(times: seq<nat>) {
    forall i, j :: 0 <= i < j < |times| ==> times[i] <= times[j]
  }

  lemma {:induction false} LogIsWindowed(times: seq<nat>, limit: nat, width: nat)
    requires InOrder(times) && width > 0
    ensures Windowed(LogOf(times, limit, width), limit, width)
    ensures forall i :: 0 <= i < |times| ==> LogOf(times, limit, width)[i].at == times[i]
  {
    if times != [] {
      var before := times[..|times| - 1];
      LogIsWindowed(before, limit, width);
      var log := LogOf(times, limit, width);
      assert log[..|log| - 1] == LogOf(before, limit, width);
      UsedIsPositive(LogOf(before, limit, width), limit, width);
    }
  }

  lemma UsedIsPositive(log: seq<Entry>, limit: nat, width: nat)
    requires width > 0 && Windowed(log, limit, width)
    ensures log != [] ==> log[|log| - 1].used >= 1
  {
    if log != [] {
      BoundedAlways(log, limit, width, 0, 0);
    }
  }

  /**
   For requests counted in order of time, any half-open interval admits at most
   (windows spanned + 1) * limit of them, and one fewer when the limit is not zero.
   */
  lemma SlidingWindowBound(times: seq<nat>, limit: nat, width: nat, lo: nat, length: nat)
    requires InOrder(times) && width > 0
    ensures var admitted := AllowedWithin(LogOf(times, limit, width), lo, lo + length);
      && admitted <= limit * Spans(length, width) + Carry(limit)
      && admitted <= (Spans(length, width) + 1) * limit
  {
    LogIsWindowed(times, limit, width);
    IntervalBound(LogOf(times, limit, width), limit, width, lo, length);
    OneMore(limit, Spans(length, width));
  }

  /** How many requests fell into the window that starts at `w`, and how many of them were allowed. */
  function Arrivals(log: seq<Entry>, w: nat): nat {
    if log == [] then 0 else Arrivals(log[..|log| - 1], w) + (if log[|log| - 1].window == w then 1 else 0)
  }

  function Admitted(log: seq<Entry>, w: nat): nat {
    if log == [] then 0
    else
      var e := log[|log| - 1];
      Admitted(log[..|log| - 1], w) + (if e.window == w && e.allowed then 1 else 0)
  }

  /** Every window admits exactly the first `limit` of its arrivals. */
  lemma {:induction false} WindowAdmitsFirst(log: seq<Entry>, limit: nat, width: nat, w: nat)
    requires width > 0 && Windowed(log, limit, width)
    ensures Admitted(log, w) == Min(limit, Arrivals(log, w))
    ensures log != [] && w > log[|log| - 1].window ==> Arrivals(log, w) == 0
    ensures log != [] && w == log[|log| - 1].window ==> Arrivals(log, w) == log[|log| - 1].used
  {
    if log != [] {
      WindowAdmitsFirst(log[..|log| - 1], limit, width, w);
    }
  }

  /** Rejections delay nothing: where windows begin does not depend on the limit. */
  lemma {:induction false} WindowsIgnoreLimit(times: seq<nat>, limit: nat, other: nat, width: nat, i: nat)
    requires i < |times|
    ensures LogOf(times, limit, width)[i].window == LogOf(times, other, width)[i].window
    ensures LogOf(times, limit, width)[i].used == LogOf(times, other, width)[i].used
  {
    var before := times[..|times| - 1];
    if i < |before| {
      WindowsIgnoreLimit(before, limit, other, width, i);
    } else if before != [] {
      WindowsIgnoreLimit(before, limit, other, width, |before| - 1);
    }
  }

  /** The limiter object: one window start and count per key, behind a mutex. */
  class Limiter {
    var windows: map<string, (nat, nat)>
    ghost var logs: map<string, seq<Entry>>

    ghost function Log(key: string): seq<Entry>
      reads this
    {
      if key in logs then logs[key] else []
    }

    ghost predicate Valid()
      reads this
    {
      && windows.Keys == logs.Keys
      && forall k :: k in logs ==>
           && logs[k] != []
           && windows[k] == (logs[k][|logs[k]| - 1].window, logs[k][|logs[k]| - 1].used)
    }

    /** `key` has been checked at the given instants, with one limit and one window, and not otherwise. */
    ghost predicate Serves(key: string, times: seq<nat>, limit: nat, width: nat)
      reads this
    {
      Valid() && Log(key) == LogOf(times, limit, width)
    }

    /**
     What a limiter has admitted for such a key is bounded in every interval, and each of its windows
     admitted exactly the first `limit` arrivals.
     */
    lemma ServedKeyIsBounded(key: string, times: seq<nat>, limit: nat, width: nat, lo: nat, length: nat)
      requires Serves(key, times, limit, width) && InOrder(times) && width > 0
      ensures Windowed(Log(key), limit, width)
      ensures AllowedWithin(Log(key), lo, lo + length) <= limit * Spans(length, width) + Carry(limit)
      ensures AllowedWithin(Log(key), lo, lo + width) <= limit + Carry(limit)
      ensures Admitted(Log(key), lo) == Min(limit, Arrivals(Log(key), lo))
    {
      LogIsWindowed(times, limit, width);
      SlidingWindowBound(times, limit, width, lo, length);
      LessThanTwiceTheLimit(Log(key), limit, width, lo);
      WindowAdmitsFirst(Log(key), limit, width, lo);
    }

    constructor ()
      ensures Valid() && logs == map[]
      ensures forall key, limit, width :: Serves(key, [], limit, width)
    {
      windows := map[];
      logs := map[];
    }

    /** Write back a key's window and count, and note the entry they stand for. */
    method Keep(key: string, start: nat, used: nat, ghost entry: Entry)
      requires Valid() && entry.window == start && entry.used == used
      modifies this
      ensures Valid() && Log(key) == old(Log(key)) + [entry]
      ensures forall k :: k != key ==> Log(k) == old(Log(k))
    {
      windows := windows[key := (start, used)];
      logs := logs[key := Log(key) + [entry]];
    }

    /** Count one request against `key` and decide if it is allowed. */
    method Check(key: string, limit: nat, window: nat, now: nat) returns (d: RateDecision)
      requires Valid()
      modifies this
      ensures Valid()
      ensures Log(key) == old(Log(key)) + [NextEntry(old(Log(key)), now, limit, window)]
      ensures forall k :: k != key ==> Log(k) == old(Log(k))
      ensures forall times :: old(Serves(key, times, limit, window)) ==> Serves(key, times + [now], limit, window)
      ensures var e := NextEntry(old(Log(key)), now, limit, window);
        && d.allowed == e.allowed && d.limit == limit
        && d.remaining == Max(limit - e.used, 0)
        && d.resetSecs == Max(window - Since(now, e.window), 0) / 1_000_000_000
    {
      ghost var entry := NextEntry(Log(key), now, limit, window);
      var (start, used) := if key in windows then windows[key] else (now, 0);
      if Since(now, start) >= window {
        start, used := now, 0;
      }
      used := used + 1;
      assert entry.window == start && entry.used == used;
      Keep(key, start, used, entry);
      var elapsed := Since(now, start);
      var reset := if elapsed <= window then window - elapsed else 0;
      d := RateDecision(used <= limit, limit, limit - Min(used, limit), reset / NANOS_PER_SEC);
      forall times | old(Serves(key, times, limit, window))
        ensures Log(key) == LogOf(times + [now], limit, window)
      {
        LogGrows(times, now, limit, window);
      }
    }
  }
}
