/** The most a window limiter can admit in an interval, exactly. */
module WindowMaximum {
  import opened Basics
  import opened Arithmetic
  import opened RateWindows
  import opened InMemoryLimiter

  // ----- Logs of the limiter -----

  /** Every entry falls into its window while that lasts. */
  predicate Prompt(log: seq<Entry>, width: nat) {
    forall i :: 0 <= i < |log| ==> log[i].at < log[i].window + width
  }

  function TimesOf(log: seq<Entry>): seq<nat> {
    seq(|log|, i requires 0 <= i < |log| => log[i].at)
  }

  /** The windowed, prompt logs are those of keys checked in order of time, and no others. */
  lemma {:induction false} PromptLogsAreLogs(log: seq<Entry>, limit: nat, width: nat)
    requires width > 0 && Windowed(log, limit, width) && Prompt(log, width)
    ensures log == LogOf(TimesOf(log), limit, width)
  {
    if log != [] {
      var before, e := log[..|log| - 1], log[|log| - 1];
      PromptLogsAreLogs(before, limit, width);
      assert log == before + [e] && TimesOf(log) == TimesOf(before) + [e.at];
      PromptEntryIsNext(before, e, limit, width);
      LogGrows(TimesOf(before), e.at, limit, width);
    }
  }

  lemma {:induction false} WindowedTimesAreInOrder(log: seq<Entry>, limit: nat, width: nat)
    requires Windowed(log, limit, width)
    ensures InOrder(TimesOf(log))
  {
    if log != [] {
      var last := |log| - 1;
      var times := TimesOf(log[..last]);
      WindowedTimesAreInOrder(log[..last], limit, width);
      forall i, j | 0 <= i < j <= last
        ensures TimesOf(log)[i] <= TimesOf(log)[j]
      {
        assert TimesOf(log)[i] == times[i] <= times[last - 1] == log[last - 1].at;
        assert j < last ==> TimesOf(log)[j] == times[j];
      }
    }
  }

  lemma PromptEntryIsNext(before: seq<Entry>, e: Entry, limit: nat, width: nat)
    requires width > 0 && Windowed(before + [e], limit, width) && e.at < e.window + width
    ensures e == NextEntry(before, e.at, limit, width)
  {
    assert (before + [e])[..|before|] == before;
    UsedIsPositive(before, limit, width);
  }

  lemma {:induction false} LogsArePrompt(times: seq<nat>, limit: nat, width: nat)
    requires width > 0
    ensures Prompt(LogOf(times, limit, width), width)
  {
    if times != [] {
      var init, now := times[..|times| - 1], times[|times| - 1];
      LogsArePrompt(init, limit, width);
      NextIsPrompt(LogOf(init, limit, width), now, limit, width);
    }
  }

  lemma NextIsPrompt(before: seq<Entry>, now: nat, limit: nat, width: nat)
    requires width > 0
    ensures var e := NextEntry(before, now, limit, width); e.at < e.window + width
  {
  }

  // ----- No more than this -----

  /** Own windows only, or one carried over and those that begin after the first instant. */
  function Most(limit: nat, width: nat, length: nat): nat
    requires width > 0 && length > 0
  {
    Max(limit * Spans(length, width), limit * Spans(length - 1, width) + Carry(limit))
  }

  /**
   The running bound: before the interval's first own window, only a window that reaches into it
   counts; after that, either nothing was carried over or the own windows began later.
   */
  ghost predicate Tight(log: seq<Entry>, limit: nat, width: nat, lo: nat, hi: nat)
    requires width > 0 && log != []
  {
    var e, n := log[|log| - 1], AllowedWithin(log, lo, hi);
    if e.window < lo then
      n <= Max(Min(e.used, limit) - 1, 0) && (n > 0 ==> lo < e.window + width)
    else
      || n <= limit * Earlier(e.window - lo, width) + Min(e.used, limit)
      || (lo < e.window && n <= limit * Earlier(e.window - lo - 1, width) + Carry(limit) + Min(e.used, limit))
  }

  lemma {:induction false} TightAlways(log: seq<Entry>, limit: nat, width: nat, lo: nat, hi: nat)
    requires width > 0 && log != [] && Windowed(log, limit, width) && Prompt(log, width)
    ensures Tight(log, limit, width, lo, hi) && log[|log| - 1].used >= 1
  {
    var before, e := log[..|log| - 1], log[|log| - 1];
    if before == [] {
      assert AllowedWithin(before, lo, hi) == 0;
      if e.window >= lo {
        ProductGrows(limit, 0, Earlier(e.window - lo, width));
      }
    } else {
      TightAlways(before, limit, width, lo, hi);
      if e.used == 1 {
        if e.window < lo {
          NothingYet(log, limit, width, lo, hi);
        } else {
          TightInNewWindow(before[|before| - 1], AllowedWithin(before, lo, hi), limit, width, lo, e.window);
        }
      }
    }
  }

  lemma TightInNewWindow(last: Entry, n: nat, limit: nat, width: nat, lo: nat, next: nat)
    requires width > 0 && last.used >= 1 && lo <= next && last.window + width <= next
    requires if last.window < lo then
               n <= Max(Min(last.used, limit) - 1, 0) && (n > 0 ==> lo < last.window + width)
             else
               || n <= limit * Earlier(last.window - lo, width) + Min(last.used, limit)
               || (lo < last.window
                   && n <= limit * Earlier(last.window - lo - 1, width) + Carry(limit) + Min(last.used, limit))
    ensures || n <= limit * Earlier(next - lo, width)
            || (lo < next && n <= limit * Earlier(next - lo - 1, width) + Carry(limit))
  {
    NewWindow(limit, width, lo, last.window, next);
    if lo < next {
      NewWindow(limit, width, lo + 1, last.window, next);
      ProductGrows(limit, 0, Earlier(next - lo - 1, width));
    }
    ProductGrows(limit, 0, Earlier(next - lo, width));
  }

  lemma OneSpanLess(length: nat, width: nat)
    requires 0 < width <= length
    ensures Spans(length, width) == Spans(length - width, width) + 1
  {
    ModStep(length - 1, width);
  }

  lemma OneSpan(length: nat, width: nat)
    requires 0 < length <= width
    ensures Spans(length, width) == 1 && Spans(0, width) == 0
  {
    DivModUnique(length + width - 1, width, 1, length - 1);
    DivModUnique(width - 1, width, 0, width - 1);
  }

  /** One instant more takes one window more exactly when the shorter interval is all whole windows. */
  lemma {:induction false} SpansStep(length: nat, width: nat)
    requires width > 0 && length > 0
    ensures Spans(length, width) == Spans(length - 1, width) + (if (length - 1) % width == 0 then 1 else 0)
  {
    if length <= width {
      OneSpan(length, width);
      DivModUnique(length - 1, width, 0, length - 1);
      if length > 1 {
        OneSpan(length - 1, width);
      }
    } else {
      SpansStep(length - width, width);
      OneSpanLess(length, width);
      OneSpanLess(length - 1, width);
      ModStep(length - 1 - width, width);
    }
  }

  lemma {:induction false} WindowsFit(elapsed: nat, limit: nat, width: nat, length: nat)
    requires width > 0 && elapsed < length
    ensures limit * Earlier(elapsed, width) + limit <= limit * Spans(length, width)
  {
    EarlierGrows(elapsed, length - 1, width);
    EarlierIsSpans(length, width);
    OneMore(limit, Earlier(elapsed, width));
    ProductGrows(limit, Earlier(elapsed, width) + 1, Spans(length, width));
  }

  lemma {:induction false} PromptBound(log: seq<Entry>, limit: nat, width: nat, lo: nat, length: nat)
    requires width > 0 && length > 0 && Windowed(log, limit, width) && Prompt(log, width)
    ensures AllowedWithin(log, lo, lo + length) <= Most(limit, width, length)
    decreases |log|
  {
    ProductGrows(limit, 0, Spans(length, width));
    if log != [] {
      var e := log[|log| - 1];
      if e.window >= lo + length {
        PromptBound(log[..|log| - 1], limit, width, lo, length);
      } else {
        TightAlways(log, limit, width, lo, lo + length);
        if e.window >= lo {
          WindowsFit(e.window - lo, limit, width, length);
          if e.window > lo {
            WindowsFit(e.window - lo - 1, limit, width, length - 1);
          }
        }
      }
    }
  }

  // ----- As many as this -----

  /** A longer log by allowed entries; `n` of them in the interval. */
  ghost predicate Extends(log: seq<Entry>, log': seq<Entry>, limit: nat, width: nat, lo: nat, hi: nat, n: nat) {
    && Windowed(log', limit, width) && log' != []
    && AllowedWithin(log', lo, hi) == AllowedWithin(log, lo, hi) + n
    && (Prompt(log, width) ==> Prompt(log', width))
  }

  /** More requests in the current window, all at one instant. */
  lemma {:induction false} Repeated(log: seq<Entry>, at: nat, n: nat, limit: nat, width: nat, lo: nat, hi: nat)
    returns (log': seq<Entry>)
    requires Windowed(log, limit, width) && log != [] && log[|log| - 1].at <= at && lo <= at < hi
    requires log[|log| - 1].window <= at && 1 <= log[|log| - 1].used <= log[|log| - 1].used + n <= limit
    ensures Windowed(log', limit, width) && log' != []
    ensures AllowedWithin(log', lo, hi) == AllowedWithin(log, lo, hi) + n
    ensures Prompt(log, width) && at < log[|log| - 1].window + width ==> Prompt(log', width)
    ensures log'[|log'| - 1].window == log[|log| - 1].window && log'[|log'| - 1].at <= at
    decreases n
  {
    log' := log;
    if n > 0 {
      var last := log[|log| - 1];
      var e := Entry(at, last.window, last.used + 1, true);
      OneMoreEntry(log, e, limit, width, lo, hi);
      log' := Repeated(log + [e], at, n - 1, limit, width, lo, hi);
    }
  }

  /** A new window that is used up at its first instant. */
  lemma UsedUp(log: seq<Entry>, at: nat, limit: nat, width: nat, lo: nat, hi: nat) returns (log': seq<Entry>)
    requires width > 0 && limit > 0 && Windowed(log, limit, width) && lo <= at < hi
    requires log != [] ==> log[|log| - 1].at <= at && log[|log| - 1].window + width <= at
    ensures Extends(log, log', limit, width, lo, hi, limit)
    ensures log'[|log'| - 1].window == at && log'[|log'| - 1].at <= at
  {
    var e := Entry(at, at, 1, true);
    OneMoreEntry(log, e, limit, width, lo, hi);
    log' := Repeated(log + [e], at, limit - 1, limit, width, lo, hi);
  }

  /** Window after window, from `at` to the end of the interval. */
  lemma {:induction false} AllUsedUp(log: seq<Entry>, at: nat, limit: nat, width: nat, lo: nat, hi: nat)
    returns (log': seq<Entry>)
    requires width > 0 && limit > 0 && Windowed(log, limit, width) && lo <= at < hi
    requires log != [] ==> log[|log| - 1].at <= at && log[|log| - 1].window + width <= at
    ensures Extends(log, log', limit, width, lo, hi, limit * Spans(hi - at, width))
    decreases hi - at
  {
    log' := UsedUp(log, at, limit, width, lo, hi);
    EarlierIsSpans(hi - at, width);
    OneMore(limit, Earlier(hi - at - 1, width));
    if at + width < hi {
      EarlierIsSpans(hi - at - width, width);
      log' := AllUsedUp(log', at + width, limit, width, lo, hi);
    } else {
      assert Spans(hi - at, width) == 1;
    }
  }

  /**
   The bound on windowed logs is reached for every limit, width and length: a window used up late,
   at the instant at which the next one begins.
   */
  lemma BoundIsReached(limit: nat, width: nat, length: nat) returns (log: seq<Entry>, lo: nat)
    requires width > 0 && length > 0
    ensures Windowed(log, limit, width)
    ensures AllowedWithin(log, lo, lo + length) == limit * Spans(length, width) + Carry(limit)
  {
    log, lo := [], width;
    if limit > 0 {
      log := [Entry(0, 0, 1, true)];
      OneMoreEntry([], log[0], limit, width, lo, lo + length);
      log := Repeated(log, lo, limit - 1, limit, width, lo, lo + length);
      log := AllUsedUp(log, lo, limit, width, lo, lo + length);
    }
  }

  /**
   The in-memory limiter's exact maximum: no key checked in order of time is admitted more often in
   an interval, and for every limit, width and length some key is admitted that often. When the
   interval is one instant longer than whole windows nothing can be carried into it.
   */
  lemma MostIsMaximum(times: seq<nat>, limit: nat, width: nat, lo: nat, length: nat)
    requires InOrder(times) && width > 0 && length > 0
    ensures AllowedWithin(LogOf(times, limit, width), lo, lo + length) <= Most(limit, width, length)
  {
    LogIsWindowed(times, limit, width);
    LogsArePrompt(times, limit, width);
    PromptBound(LogOf(times, limit, width), limit, width, lo, length);
  }

  /** Only an interval that is one instant longer than whole windows leaves no room to carry over. */
  lemma MostInClosedForm(limit: nat, width: nat, length: nat)
    requires width > 0 && length > 0
    ensures Most(limit, width, length)
            == limit * Spans(length, width) + (if (length - 1) % width == 0 then 0 else Carry(limit))
    ensures Most(limit, width, length) > limit * Spans(length, width) ==> width > 1 && length > 1
  {
    SpansStep(length, width);
    OneMore(limit, Spans(length - 1, width));
    DivModUnique(length - 1, 1, length - 1, 0);
    DivModUnique(0, width, 0, 0);
  }

  lemma MostIsReached(limit: nat, width: nat, length: nat) returns (times: seq<nat>, lo: nat)
    requires width > 0 && length > 0
    ensures InOrder(times)
    ensures AllowedWithin(LogOf(times, limit, width), lo, lo + length) == Most(limit, width, length)
  {
    var log: seq<Entry>;
    if limit == 0 {
      log, lo := [], 0;
    } else if limit * Spans(length, width) >= limit * Spans(length - 1, width) + Carry(limit) {
      lo := 0;
      log := AllUsedUp([], 0, limit, width, 0, length);
    } else {
      MostInClosedForm(limit, width, length);
      log, lo := CarriedOver(limit, width, length);
    }
    PromptLogsAreLogs(log, limit, width);
    WindowedTimesAreInOrder(log, limit, width);
    times := TimesOf(log);
  }

  /** A window used up at its last instant, and then all that follow. */
  lemma CarriedOver(limit: nat, width: nat, length: nat) returns (log: seq<Entry>, lo: nat)
    requires width > 1 && length > 1 && limit > 0
    ensures Windowed(log, limit, width) && Prompt(log, width)
    ensures AllowedWithin(log, lo, lo + length) == limit * Spans(length - 1, width) + Carry(limit)
  {
    lo := width - 1;
    log := [Entry(0, 0, 1, true)];
    OneMoreEntry([], log[0], limit, width, lo, lo + length);
    log := Repeated(log, lo, limit - 1, limit, width, lo, lo + length);
    log := AllUsedUp(log, width, limit, width, lo, lo + length);
  }
}
