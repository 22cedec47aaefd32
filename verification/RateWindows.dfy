/**
 The arithmetic both rate limiters share. A limiter's log for one key lists its decisions in
 order; each names the window it fell into by that window's first instant. Windows are at least
 `width` apart, and none admits more than `limit` requests: that alone bounds every interval.
 */
module RateWindows {
  import opened Basics
  import opened Arithmetic

  /** What a limiter tells its caller. */
  datatype RateDecision = RateDecision(allowed: bool, limit: nat, remaining: nat, resetSecs: nat)

  /** One decision: when the request was counted, in which window, and the answer. */
  datatype Entry = Entry(at: nat, window: nat, used: nat, allowed: bool)

  /**
   Entries come in order of time. Each is the next count of the current window or the first count
   of a new one that starts at least `width` later, and is allowed exactly while the count is
   within `limit`.
   */
  predicate Windowed(log: seq<Entry>, limit: nat, width: nat) {
    log != [] ==>
      var before, e := log[..|log| - 1], log[|log| - 1];
      && Windowed(before, limit, width)
      && e.window <= e.at && (before != [] ==> before[|before| - 1].at <= e.at)
      && (e.allowed <==> e.used <= limit)
      && if e.used == 1 then
           e.window == e.at && (before != [] ==> before[|before| - 1].window + width <= e.window)
         else
           && before != [] && e.used == before[|before| - 1].used + 1
           && e.window == before[|before| - 1].window
  }

  /** How many requests counted in the half-open interval were allowed. */
  function AllowedWithin(log: seq<Entry>, lo: nat, hi: nat): nat {
    if log == [] then 0
    else
      var e := log[|log| - 1];
      AllowedWithin(log[..|log| - 1], lo, hi) + (if lo <= e.at < hi && e.allowed then 1 else 0)
  }

  /** The number of windows of `width` that a span needs, rounded up. */
  function Spans(length: nat, width: nat): nat
    requires width > 0
  {
    (length + width - 1) / width
  }

  /** How many whole windows fit before `elapsed`. */
  function Earlier(elapsed: nat, width: nat): nat
    requires width > 0
    decreases elapsed
  {
    if elapsed < width then 0 else 1 + Earlier(elapsed - width, width)
  }

  lemma {:induction false} EarlierGrows(x: nat, y: nat, width: nat)
    requires width > 0 && x <= y
    ensures Earlier(x, width) <= Earlier(y, width)
    decreases y
  {
    if x >= width {
      EarlierGrows(x - width, y - width, width);
    }
  }

  lemma {:induction false} EarlierIsSpans(length: nat, width: nat)
    requires width > 0 && length > 0
    ensures Earlier(length - 1, width) + 1 == Spans(length, width)
    decreases length
  {
    if length - 1 >= width {
      EarlierIsSpans(length - width, width);
      ModStep(length - 1, width);
    } else {
      DivModUnique(length - 1, width, 0, length - 1);
      ModStep(length - 1, width);
    }
  }

  /** What the window already under way at the start of an interval can still admit inside it. */
  function Carry(limit: nat): nat {
    if limit == 0 then 0 else limit - 1
  }

  /** The running bound: the carry, the windows begun since `lo`, and what the current one admitted. */
  ghost predicate Bounded(log: seq<Entry>, limit: nat, width: nat, lo: nat, hi: nat)
    requires width > 0 && log != []
  {
    var e := log[|log| - 1];
    AllowedWithin(log, lo, hi) <=
    if e.window < lo then Max(Min(e.used, limit) - 1, 0)
    else limit * Earlier(e.window - lo, width) + Carry(limit) + Min(e.used, limit)
  }

  lemma {:induction false} NothingYet(log: seq<Entry>, limit: nat, width: nat, lo: nat, hi: nat)
    requires Windowed(log, limit, width) && (log != [] ==> log[|log| - 1].at < lo)
    ensures AllowedWithin(log, lo, hi) == 0
  {
    if log != [] {
      NothingYet(log[..|log| - 1], limit, width, lo, hi);
    }
  }

  lemma {:induction false} BoundedAlways(log: seq<Entry>, limit: nat, width: nat, lo: nat, hi: nat)
    requires width > 0 && log != [] && Windowed(log, limit, width)
    ensures Bounded(log, limit, width, lo, hi)
    ensures log[|log| - 1].used >= 1
  {
    var before, e := log[..|log| - 1], log[|log| - 1];
    if before == [] {
      assert AllowedWithin(before, lo, hi) == 0;
      if e.window >= lo {
        ProductGrows(limit, 0, Earlier(e.window - lo, width));
      }
    } else {
      BoundedAlways(before, limit, width, lo, hi);
      if e.used == 1 {
        if e.window >= lo {
          NewWindow(limit, width, lo, before[|before| - 1].window, e.window);
        } else {
          NothingYet(log, limit, width, lo, hi);
        }
      }
    }
  }

  /** A new window makes room for what the one before it admitted. */
  lemma NewWindow(limit: nat, width: nat, lo: nat, previous: nat, next: nat)
    requires width > 0 && next >= lo && previous + width <= next
    ensures limit * Earlier(next - lo, width) >=
            if previous < lo then 0 else limit * Earlier(previous - lo, width) + limit
  {
    if previous < lo {
      ProductGrows(limit, 0, Earlier(next - lo, width));
    } else {
      EarlierGrows(previous - lo + width, next - lo, width);
      OneMore(limit, Earlier(previous - lo, width));
      ProductGrows(limit, Earlier(previous - lo, width) + 1, Earlier(next - lo, width));
    }
  }

  lemma {:induction false} EmptyInterval(log: seq<Entry>, lo: nat)
    ensures AllowedWithin(log, lo, lo) == 0
  {
    if log != [] {
      EmptyInterval(log[..|log| - 1], lo);
    }
  }

  /**
   Any half-open interval admits at most `limit` requests for every window it spans, and one less
   than `limit` for the window under way when it starts.
   */
  lemma {:induction false} IntervalBound(log: seq<Entry>, limit: nat, width: nat, lo: nat, length: nat)
    requires width > 0 && Windowed(log, limit, width)
    ensures AllowedWithin(log, lo, lo + length) <= limit * Spans(length, width) + Carry(limit)
    decreases |log|
  {
    ProductGrows(limit, 0, Spans(length, width));
    if length == 0 {
      EmptyInterval(log, lo);
    } else if log != [] {
      var e := log[|log| - 1];
      if e.window >= lo + length {
        IntervalBound(log[..|log| - 1], limit, width, lo, length);
      } else {
        BoundedAlways(log, limit, width, lo, lo + length);
        if e.window >= lo {
          EarlierGrows(e.window - lo, length - 1, width);
          EarlierIsSpans(length, width);
          OneMore(limit, Earlier(e.window - lo, width));
          ProductGrows(limit, Earlier(e.window - lo, width) + 1, Spans(length, width));
        }
      }
    }
  }

  /** An interval no longer than the window admits fewer than twice the limit. */
  lemma LessThanTwiceTheLimit(log: seq<Entry>, limit: nat, width: nat, lo: nat)
    requires width > 0 && Windowed(log, limit, width)
    ensures AllowedWithin(log, lo, lo + width) <= limit + Carry(limit)
  {
    IntervalBound(log, limit, width, lo, width);
    EarlierIsSpans(width, width);
    EarlierOfOne(width);
  }

  lemma EarlierOfOne(width: nat)
    requires width > 0
    ensures Earlier(width - 1, width) == 0
  {
  }

  /** An allowed entry that follows the rules makes a longer log. */
  lemma OneMoreEntry(log: seq<Entry>, e: Entry, limit: nat, width: nat, lo: nat, hi: nat)
    requires Windowed(log, limit, width)
    requires e.window <= e.at && e.allowed && e.used <= limit
    requires log != [] ==> log[|log| - 1].at <= e.at
    requires if e.used == 1 then
               e.window == e.at && (log != [] ==> log[|log| - 1].window + width <= e.window)
             else
               log != [] && e.used == log[|log| - 1].used + 1 && e.window == log[|log| - 1].window
    ensures Windowed(log + [e], limit, width)
    ensures AllowedWithin(log + [e], lo, hi) == AllowedWithin(log, lo, hi) + (if lo <= e.at < hi then 1 else 0)
  {
    assert (log + [e])[..|log|] == log;
  }
}
