/** Exactly when the ticket scan needs its fallback: the seam where the cursor wraps. */
module Seams {
  import opened Basics
  import opened Arithmetic
  import opened CircuitBreakers
  import opened Config
  import opened LoadBalancer
  import opened PickLaws

  /** The scan of a balancer finds an upstream whenever one passes. */
  ghost predicate ScanSuffices(b: Bal, exclude: seq<nat>, now: nat)
    requires b.order != []
  {
    var pass := Passing(b.ups, exclude, now);
    pass != {} ==> Misses(b.order, b.cursor, |b.order|, pass) < |b.order|
  }

  function Iota(n: nat): seq<nat> {
    seq(n, i requires 0 <= i < n => i)
  }

  function Ones(n: nat): seq<nat> {
    seq(n, _ => 1)
  }

  /** Weights of one expand to the upstreams in order. */
  lemma {:induction false} OnesExpandInOrder(n: nat)
    ensures Expand(Ones(n)) == Iota(n)
  {
    if n > 0 {
      assert Ones(n)[..n - 1] == Ones(n - 1);
      OnesExpandInOrder(n - 1);
      assert Iota(n) == Iota(n - 1) + [n - 1];
    }
  }

  /** `n` upstreams of weight one, all marked down but upstream `up`. */
  function LoneUpstream(n: nat, up: nat, cursor: nat): Bal {
    Bal(RoundRobin, seq(n, i requires 0 <= i < n => Up(1, 0, i == up, NewCb(1, 1))), Iota(n), cursor)
  }

  lemma LoneUpstreamPasses(n: nat, up: nat, cursor: nat)
    requires up < n && cursor < USIZE
    ensures WellFormed(LoneUpstream(n, up, cursor))
    ensures Passing(LoneUpstream(n, up, cursor).ups, [], 0) == {up}
  {
    var b := LoneUpstream(n, up, cursor);
    OnesExpandInOrder(n);
    assert Weights(b.ups) == Ones(n);
    forall i: nat
      ensures i in Passing(b.ups, [], 0) <==> i == up
    {
      assert i < n ==> b.ups[i] == Up(1, 0, i == up, NewCb(1, 1));
    }
  }

  lemma {:induction false} AllMissed(order: seq<nat>, cursor: nat, limit: nat, pass: set<nat>)
    requires order != []
    requires forall k :: 0 <= k < limit ==> Ticket(order, Advance(cursor, k)) !in pass
    ensures Misses(order, cursor, limit, pass) == limit
    decreases limit
  {
    if limit > 0 {
      assert Advance(cursor, 0) == cursor;
      forall k | 0 <= k < limit - 1
        ensures Ticket(order, Advance(Next(cursor), k)) !in pass
      {
        AdvanceFromNext(cursor, k);
      }
      AllMissed(order, Next(cursor), limit - 1, pass);
    }
  }

  /** On the seam, an upstream that none of the next `n` tickets over `n` upstreams names. */
  function Skipped(cursor: nat, n: nat): nat
    requires n > 0 && cursor < USIZE < cursor + n
  {
    Max(n - (USIZE - cursor), USIZE % n)
  }

  lemma SeamSkips(cursor: nat, n: nat, k: nat)
    requires n > 0 && cursor < USIZE && !NoSeam(cursor, n) && k < n
    ensures Skipped(cursor, n) < n
    ensures Advance(cursor, k) % n != Skipped(cursor, n)
  {
    var before, rest := USIZE - cursor, USIZE % n;
    var q := WholeCyclesAreMultiples(USIZE, n);
    assert 0 < rest < n && 0 < before < n;
    if n > USIZE {
      CursorStaysInRange(cursor, k);
      DivModUnique(Advance(cursor, k), n, 0, Advance(cursor, k));
      DivModUnique(USIZE, n, 0, USIZE);
    } else {
      AdvanceInClosedForm(cursor, k);
      if k >= before {
        DivModUnique(k - before, n, 0, k - before);
      } else {
        BelowSeam(n, before - k);
      }
    }
  }

  /** The tickets just below the machine word read the order backwards from its remainder. */
  lemma BelowSeam(n: nat, j: nat)
    requires 0 < j < n <= USIZE
    ensures (USIZE - j) % n == if j <= USIZE % n then USIZE % n - j else n + USIZE % n - j
  {
    var q, rest := USIZE / n, USIZE % n;
    if j <= rest {
      DivModUnique(USIZE - j, n, q, rest - j);
    } else {
      assert q >= 1;
      assert q * n == (q - 1) * n + n;
      DivModUnique(USIZE - j, n, q - 1, n + rest - j);
    }
  }

  /**
   For every cursor and every length of the ticket order: the scan of a whole cycle finds a passing
   upstream in every balancer exactly when the cycle does not meet the seam, that is, when it ends
   before the cursor wraps or the length divides the machine word.
   */
  lemma ScanSufficesIffNoSeam(cursor: nat, n: nat)
    requires n > 0 && cursor < USIZE
    ensures NoSeam(cursor, n) <==>
            forall b, exclude, now ::
              WellFormed(b) && b.cursor == cursor && |b.order| == n ==> ScanSuffices(b, exclude, now)
    ensures NoSeam(cursor, n) <==> cursor + n <= 0x1_0000_0000_0000_0000 || 0x1_0000_0000_0000_0000 % n == 0
  {
    var q := WholeCyclesAreMultiples(USIZE, n);
    if NoSeam(cursor, n) {
      forall b, exclude, now | WellFormed(b) && b.cursor == cursor && |b.order| == n
        ensures ScanSuffices(b, exclude, now)
      {
        if Passing(b.ups, exclude, now) != {} {
          ScanFindsWhateverPasses(b, exclude, now);
        }
      }
    } else {
      SeamSkips(cursor, n, 0);
      var up := Skipped(cursor, n);
      var b := LoneUpstream(n, up, cursor);
      LoneUpstreamPasses(n, up, cursor);
      forall k | 0 <= k < n
        ensures Ticket(b.order, Advance(cursor, k)) !in {up}
      {
        SeamSkips(cursor, n, k);
      }
      AllMissed(b.order, cursor, n, {up});
      assert !ScanSuffices(b, [], 0);
    }
  }
}
