/** What one pick, and any window of tickets, guarantee. */
module PickLaws {
  import opened Basics
  import opened Arithmetic
  import opened CircuitBreakers
  import opened Config
  import opened LoadBalancer

  // ----- Completeness and effect of a pick -----

  /**
   A pick gives up exactly when no upstream passes, whatever the cursor, wrap-around included;
   and what it returns does pass.
   */
  lemma PickIsComplete(b: Bal, exclude: seq<nat>, now: nat)
    requires WellFormed(b)
    ensures var r := PickFrom(b, exclude, now).idx; var pass := Passing(b.ups, exclude, now);
      && (r.None? <==> pass == {})
      && (r.Some? ==> r.value in pass)
  {
    var pass := Passing(b.ups, exclude, now);
    var missed := Misses(b.order, b.cursor, |b.order|, pass);
    PickedIsPassing(b, exclude, now);
    LeastLoadedIsFirstMinimum(b.ups, pass, |b.ups|);
    assert Ticket(b.order, Advance(b.cursor, missed)) in b.order;
    if PickFrom(b, exclude, now).idx.None? {
      assert forall i :: 0 <= i < |b.ups| ==> i !in pass;
      assert pass == {};
    }
  }

  /** The state of one upstream after a pick: probed or untouched, and counted if chosen. */
  predicate PickedUp(before: Up, after: Up, chosen: bool, now: nat) {
    && after.weight == before.weight
    && after.healthy == before.healthy
    && after.active == before.active + (if chosen then 1 else 0)
    && (after.cb == before.cb || after.cb == Probed(before.cb, now))
  }

  predicate PickKeeps(b: Bal, c: Choice, now: nat) {
    && WellFormed(c.bal)
    && |c.bal.ups| == |b.ups| && c.bal.order == b.order && c.bal.strategy == b.strategy
    && forall i :: 0 <= i < |b.ups| ==> PickedUp(b.ups[i], c.bal.ups[i], c.idx == Some(i), now)
  }

  lemma PickEffect(b: Bal, exclude: seq<nat>, now: nat)
    requires WellFormed(b)
    ensures PickKeeps(b, PickFrom(b, exclude, now), now)
  {
    match b.strategy
    case RoundRobin => RoundRobinEffect(b, exclude, now);
    case LeastConnections => LeastConnEffect(b, exclude, now);
  }

  lemma KeepsWellFormed(b: Bal, ups: seq<Up>, cursor: nat)
    requires WellFormed(b) && |ups| == |b.ups| && cursor < USIZE
    requires forall i :: 0 <= i < |ups| ==> ups[i].weight == b.ups[i].weight
    ensures WellFormed(b.(ups := ups, cursor := cursor))
  {
    assert Weights(ups) == Weights(b.ups);
    forall u | u in ups
      ensures u.weight >= 1
    {
      var i :| 0 <= i < |ups| && ups[i] == u;
      assert b.ups[i] in b.ups;
    }
  }

  lemma RoundRobinEffect(b: Bal, exclude: seq<nat>, now: nat)
    requires WellFormed(b) && b.strategy == RoundRobin
    ensures PickKeeps(b, PickFrom(b, exclude, now), now)
  {
    var c := PickFrom(b, exclude, now);
    var missed := Misses(b.order, b.cursor, |b.order|, Passing(b.ups, exclude, now));
    assert Ticket(b.order, Advance(b.cursor, missed)) in b.order;
    CursorStaysInRange(b.cursor, missed + 1);
    CursorStaysInRange(b.cursor, |b.order|);
    KeepsWellFormed(b, c.bal.ups, c.bal.cursor);
  }

  lemma LeastConnEffect(b: Bal, exclude: seq<nat>, now: nat)
    requires WellFormed(b) && b.strategy == LeastConnections
    ensures PickKeeps(b, PickFrom(b, exclude, now), now)
  {
    var c := PickFrom(b, exclude, now);
    var pass := Passing(b.ups, exclude, now);
    ProbeAllAt(b.ups, pass, now, |b.ups|);
    KeepsWellFormed(b, c.bal.ups, c.bal.cursor);
  }

  /**
   Least connections takes the first of the least loaded passing upstreams, draws no ticket, and in
   looking for it probes every passing upstream and no other.
   */
  lemma LeastConnectionsPick(b: Bal, exclude: seq<nat>, now: nat)
    requires WellFormed(b) && b.strategy == LeastConnections
    ensures var c, pass := PickFrom(b, exclude, now), Passing(b.ups, exclude, now);
      && c.bal.cursor == b.cursor && |c.bal.ups| == |b.ups|
      && (c.idx.Some? ==>
            && c.idx.value in pass
            && forall j :: j in pass ==>
                 && b.ups[c.idx.value].active <= b.ups[j].active
                 && (b.ups[c.idx.value].active == b.ups[j].active ==> c.idx.value <= j))
      && forall j :: 0 <= j < |b.ups| ==>
           c.bal.ups[j].cb == if j in pass then Probed(b.ups[j].cb, now) else b.ups[j].cb
  {
    var pass := Passing(b.ups, exclude, now);
    ProbeAllAt(b.ups, pass, now, |b.ups|);
    LeastLoadedIsFirstMinimum(b.ups, pass, |b.ups|);
  }

  /**
   Round robin takes the first ticket that names a passing upstream, or, after a whole order of
   tickets in vain, the passing upstream of least index. It draws the tickets it looked at and probes
   the upstream it takes and no other.
   */
  lemma RoundRobinPick(b: Bal, exclude: seq<nat>, now: nat)
    requires WellFormed(b) && b.strategy == RoundRobin
    ensures var c, pass, n := PickFrom(b, exclude, now), Passing(b.ups, exclude, now), |b.order|;
      var m := Misses(b.order, b.cursor, n, pass);
      && |c.bal.ups| == |b.ups| && c.bal.cursor == Advance(b.cursor, if m < n then m + 1 else n)
      && (m < n ==> c.idx == Some(Ticket(b.order, Advance(b.cursor, m))))
      && (m == n && c.idx.Some? ==> forall j :: j in pass ==> c.idx.value <= j)
      && forall j :: 0 <= j < |b.ups| ==>
           c.bal.ups[j].cb == if c.idx == Some(j) then Probed(b.ups[j].cb, now) else b.ups[j].cb
  {
    var pass := Passing(b.ups, exclude, now);
    var m := Misses(b.order, b.cursor, |b.order|, pass);
    PickIsComplete(b, exclude, now);
    assert Ticket(b.order, Advance(b.cursor, m)) in b.order;
  }

  lemma {:induction false} CursorStaysInRange(cursor: nat, k: nat)
    requires cursor < USIZE
    ensures Advance(cursor, k) < USIZE
  {
    if k > 0 {
      CursorStaysInRange(cursor, k - 1);
    }
  }

  lemma {:induction false} AdvanceAdds(cursor: nat, a: nat, k: nat)
    ensures Advance(Advance(cursor, a), k) == Advance(cursor, a + k)
  {
    if k > 0 {
      AdvanceAdds(cursor, a, k - 1);
    }
  }

  // ----- Tickets before the machine word wraps -----

  /** `words` is a multiple of `n`. */
  predicate WholeCycles(words: nat, n: nat)
    requires n > 0
    decreases words
  {
    words == 0 || (words >= n && WholeCycles(words - n, n))
  }

  lemma {:induction false} WholeCyclesAreMultiples(words: nat, n: nat) returns (q: nat)
    requires n > 0
    ensures WholeCycles(words, n) <==> words % n == 0
    ensures WholeCycles(words, n) ==> words == q * n
    decreases words
  {
    q := 0;
    if words >= n {
      q := WholeCyclesAreMultiples(words - n, n);
      q := q + 1;
      ModStep(words - n, n);
    } else {
      DivModUnique(words, n, 0, words);
    }
  }

  /** The next `n` tickets read the order cyclically: no wrap, or a wrap on a whole cycle. */
  predicate NoSeam(cursor: nat, n: nat) {
    n > 0 && (cursor + n <= USIZE || WholeCycles(USIZE, n))
  }

  lemma {:induction false} AdvanceInClosedForm(cursor: nat, k: nat)
    requires cursor < USIZE && k <= USIZE
    ensures Advance(cursor, k) == if cursor + k < USIZE then cursor + k else cursor + k - USIZE
  {
    if k > 0 {
      AdvanceInClosedForm(cursor, k - 1);
    }
  }

  lemma TicketsReadTheCycle(order: seq<nat>, cursor: nat, k: nat)
    requires order != [] && cursor < USIZE && k < |order| && NoSeam(cursor, |order|)
    ensures Ticket(order, Advance(cursor, k)) == Ticket(order, cursor + k)
  {
    var n := |order|;
    if cursor + n <= USIZE {
      AdvanceInClosedForm(cursor, k);
    } else {
      var q := WholeCyclesAreMultiples(USIZE, n);
      AtLeastOnce(q, n);
      AdvanceInClosedForm(cursor, k);
      if cursor + k >= USIZE {
        ModDropsMultiples(cursor + k - USIZE, q, n);
      }
    }
  }

  // ----- Counting tickets -----

  /** How many tickets of the half-open window name a member of `set`. */
  function Hits(order: seq<nat>, lo: nat, hi: nat, chosen: set<nat>): nat
    requires order != [] && lo <= hi
    decreases hi
  {
    if lo == hi then 0
    else Hits(order, lo, hi - 1, chosen) + (if Ticket(order, hi - 1) in chosen then 1 else 0)
  }

  function CountIn(s: seq<nat>, chosen: set<nat>): nat {
    if s == [] then 0 else CountIn(s[..|s| - 1], chosen) + (if s[|s| - 1] in chosen then 1 else 0)
  }

  /** The weights of the members of `chosen`, added up. */
  function TotalWeight(weights: seq<nat>, chosen: set<nat>): nat {
    if weights == [] then 0
    else TotalWeight(weights[..|weights| - 1], chosen)
         + (if |weights| - 1 in chosen then weights[|weights| - 1] else 0)
  }

  lemma {:induction false} HitsSplit(order: seq<nat>, lo: nat, mid: nat, hi: nat, chosen: set<nat>)
    requires order != [] && lo <= mid <= hi
    ensures Hits(order, lo, hi, chosen) == Hits(order, lo, mid, chosen) + Hits(order, mid, hi, chosen)
    decreases hi
  {
    if mid < hi {
      HitsSplit(order, lo, mid, hi - 1, chosen);
    }
  }

  lemma {:induction false} NoHits(order: seq<nat>, lo: nat, hi: nat, chosen: set<nat>)
    requires order != [] && lo <= hi
    requires forall t :: lo <= t < hi ==> Ticket(order, t) !in chosen
    ensures Hits(order, lo, hi, chosen) == 0
    decreases hi
  {
    if lo < hi {
      NoHits(order, lo, hi - 1, chosen);
    }
  }

  lemma {:induction false} FewerChosenFewerHits(order: seq<nat>, lo: nat, hi: nat, i: nat, chosen: set<nat>)
    requires order != [] && lo <= hi && i in chosen
    ensures Hits(order, lo, hi, {i}) <= Hits(order, lo, hi, chosen)
    decreases hi
  {
    if lo < hi {
      FewerChosenFewerHits(order, lo, hi - 1, i, chosen);
    }
  }

  /** Every window of one cycle's length has the same hits, wherever it starts. */
  lemma {:induction false} CycleHits(order: seq<nat>, start: nat, chosen: set<nat>)
    requires order != []
    ensures Hits(order, start, start + |order|, chosen) == CountIn(order, chosen)
  {
    var n := |order|;
    if start == 0 {
      PrefixHits(order, n, chosen);
      assert order[..n] == order;
    } else {
      CycleHits(order, start - 1, chosen);
      HitsSplit(order, start - 1, start, start - 1 + n, chosen);
      assert Hits(order, start - 1, start, chosen) == if Ticket(order, start - 1) in chosen then 1 else 0;
      ModDropsMultiples(start - 1, 1, n);
      assert Ticket(order, start - 1 + n) == Ticket(order, start - 1);
    }
  }

  lemma {:induction false} PrefixHits(order: seq<nat>, k: nat, chosen: set<nat>)
    requires order != [] && k <= |order|
    ensures Hits(order, 0, k, chosen) == CountIn(order[..k], chosen)
  {
    if k > 0 {
      PrefixHits(order, k - 1, chosen);
      assert order[..k][..k - 1] == order[..k - 1];
      DivModUnique(k - 1, |order|, 0, k - 1);
    }
  }

  lemma {:induction false} CountInConcat(a: seq<nat>, b: seq<nat>, chosen: set<nat>)
    ensures CountIn(a + b, chosen) == CountIn(a, chosen) + CountIn(b, chosen)
  {
    if b == [] {
      assert a + b == a;
    } else {
      CountInConcat(a, b[..|b| - 1], chosen);
      assert (a + b)[..|a + b| - 1] == a + b[..|b| - 1];
    }
  }

  lemma {:induction false} CountInBlock(k: nat, i: nat, chosen: set<nat>)
    ensures CountIn(seq(k, _ => i), chosen) == if i in chosen then k else 0
  {
    if k > 0 {
      CountInBlock(k - 1, i, chosen);
      assert seq(k, _ => i)[..k - 1] == seq(k - 1, _ => i);
    }
  }

  lemma {:induction false} ExpandCounts(weights: seq<nat>, chosen: set<nat>)
    ensures CountIn(Expand(weights), chosen) == TotalWeight(weights, chosen)
  {
    if weights != [] {
      var last := |weights| - 1;
      ExpandCounts(weights[..last], chosen);
      CountInConcat(Expand(weights[..last]), seq(weights[last], _ => last), chosen);
      CountInBlock(weights[last], last, chosen);
    }
  }

  lemma {:induction false} TotalWeightOfOne(weights: seq<nat>, i: nat)
    ensures TotalWeight(weights, {i}) == if i < |weights| then weights[i] else 0
  {
    if weights != [] {
      TotalWeightOfOne(weights[..|weights| - 1], i);
    }
  }

  lemma {:induction false} CountInIsMultiplicity(s: seq<nat>, i: nat)
    ensures CountIn(s, {i}) == multiset(s)[i]
  {
    if s != [] {
      CountInIsMultiplicity(s[..|s| - 1], i);
      assert s == s[..|s| - 1] + [s[|s| - 1]];
    }
  }

  /** The ticket order names each upstream exactly weight times and nothing else. */
  lemma OrderHoldsWeights(weights: seq<nat>, i: nat)
    requires exists w :: w in weights && w >= 1
    ensures multiset(OrderFor(weights))[i] == if i < |weights| then weights[i] else 0
    ensures forall t :: t in OrderFor(weights) ==> t < |weights|
  {
    ExpandedOrderIsInRange(weights);
    ExpandCounts(weights, {i});
    TotalWeightOfOne(weights, i);
    CountInIsMultiplicity(OrderFor(weights), i);
  }

  /** And it names them block by block, in the order in which they are configured. */
  lemma {:induction false} OrderIsAscending(weights: seq<nat>)
    ensures forall i, j :: 0 <= i < j < |OrderFor(weights)| ==> OrderFor(weights)[i] <= OrderFor(weights)[j]
    ensures forall i, j :: 0 <= i < j < |Expand(weights)| ==> Expand(weights)[i] <= Expand(weights)[j]
  {
    if weights != [] {
      var init := weights[..|weights| - 1];
      OrderIsAscending(init);
      ExpandedOrderIsInRange(init);
      assert forall i :: 0 <= i < |Expand(init)| ==> Expand(init)[i] in Expand(init);
    }
  }

  lemma CycleHitsAreWeights(b: Bal, start: nat, chosen: set<nat>)
    requires WellFormed(b)
    ensures Hits(b.order, start, start + |b.order|, chosen) == TotalWeight(Weights(b.ups), chosen)
  {
    var weights := Weights(b.ups);
    assert weights[0] == b.ups[0].weight && weights[0] in weights;
    ExpandedOrderIsInRange(weights);
    CycleHits(b.order, start, chosen);
    ExpandCounts(weights, chosen);
  }

  // ----- Scanning inside one cycle -----

  /**
   `drawn` tickets into a cycle that still holds a member of `pass`, the scan finds the next one
   inside the cycle.
   */
  lemma ScanStaysInCycle(order: seq<nat>, start: nat, drawn: nat, pass: set<nat>)
    requires order != [] && start < USIZE && NoSeam(start, |order|) && drawn <= |order|
    requires Hits(order, start + drawn, start + |order|, pass) > 0
    ensures var m := Misses(order, Advance(start, drawn), |order|, pass);
      && drawn + m < |order|
      && Ticket(order, Advance(Advance(start, drawn), m)) == Ticket(order, start + drawn + m)
      && Ticket(order, start + drawn + m) in pass
      && Hits(order, start + drawn, start + drawn + m, pass) == 0
      && Advance(Advance(start, drawn), m + 1) == Advance(start, drawn + m + 1)
  {
    var n := |order|;
    var c := Advance(start, drawn);
    var m := Misses(order, c, n, pass);
    forall t | start + drawn <= t < start + drawn + m && t < start + n
      ensures Ticket(order, t) !in pass
    {
      var k := t - start - drawn;
      ScanSkipsOthers(order, c, n, pass, k);
      AdvanceAdds(start, drawn, k);
      TicketsReadTheCycle(order, start, drawn + k);
    }
    if drawn + m >= n {
      NoHits(order, start + drawn, start + n, pass);
    }
    NoHits(order, start + drawn, start + drawn + m, pass);
    AdvanceAdds(start, drawn, m);
    AdvanceAdds(start, drawn, m + 1);
    TicketsReadTheCycle(order, start, drawn + m);
    ScanStopsOnPass(order, c, n, pass);
  }

  /** Away from the seam the fallback never finds what the ticket scan missed. */
  lemma ScanFindsWhateverPasses(b: Bal, exclude: seq<nat>, now: nat)
    requires WellFormed(b) && NoSeam(b.cursor, |b.order|)
    requires Passing(b.ups, exclude, now) != {}
    ensures Misses(b.order, b.cursor, |b.order|, Passing(b.ups, exclude, now)) < |b.order|
  {
    var pass := Passing(b.ups, exclude, now);
    var i :| i in pass;
    CycleHitsAreWeights(b, b.cursor, {i});
    TotalWeightOfOne(Weights(b.ups), i);
    assert b.ups[i] in b.ups;
    FewerChosenFewerHits(b.order, b.cursor, b.cursor + |b.order|, i, pass);
    ScanStaysInCycle(b.order, b.cursor, 0, pass);
  }

  /** On the seam it can: three upstreams, only the last one passing, cursor at the last word. */
  lemma FallbackNeededOnSeam(healthy: Up, down: Up)
    requires healthy.weight == 1 && healthy.healthy && healthy.cb == NewCb(1, 1)
    requires down.weight == 1 && !down.healthy
    ensures var b := Bal(RoundRobin, [down, down, healthy], [0, 1, 2], USIZE - 1);
      && !NoSeam(b.cursor, |b.order|)
      && Misses(b.order, b.cursor, 3, Passing(b.ups, [], 0)) == 3
      && PickFrom(b, [], 0).idx == Some(2)
  {
    var b := Bal(RoundRobin, [down, down, healthy], [0, 1, 2], USIZE - 1);
    var pass := Passing(b.ups, [], 0);
    assert pass == {2};
    var q := WholeCyclesAreMultiples(USIZE, 3);
    assert Ticket(b.order, USIZE - 1) == 0 && Next(USIZE - 1) == 0;
    assert Ticket(b.order, 0) == 0 && Ticket(b.order, 1) == 1;
    assert Misses(b.order, 1, 1, pass) == 1;
    assert Misses(b.order, 0, 2, pass) == 2;
  }
}
