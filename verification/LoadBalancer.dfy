/**
 Upstream selection: eligibility, weighted round-robin over a ticket counter, least
 connections, and the guard that counts a request in flight.

 `PickFrom` says what one atomic `pick` does to the value of a balancer; the classes below
 reach it by the loops of the implementation.
 */
module LoadBalancer {
  import opened Basics
  import opened CircuitBreakers
  import opened Config
  import opened Text

  /** The observable state of one upstream. */
  datatype Up = Up(weight: nat, active: int, healthy: bool, cb: Cb)

  /** The observable state of a route's balancer. */
  datatype Bal = Bal(strategy: Strategy, ups: seq<Up>, order: seq<nat>, cursor: nat)

  predicate EligibleUp(u: Up, now: nat) {
    u.healthy && Allows(u.cb, now)
  }

  /** Asking an upstream whether it is eligible consults the breaker only when it is healthy. */
  function ProbeUp(u: Up, now: nat): Up {
    if u.healthy then u.(cb := Probed(u.cb, now)) else u
  }

  /** The upstreams a pick may return: not excluded by the retry loop and eligible. */
  function Passing(ups: seq<Up>, exclude: seq<nat>, now: nat): set<nat> {
    set i | 0 <= i < |ups| && i !in exclude && EligibleUp(ups[i], now)
  }

  // ----- Weighted order -----

  function Expand(weights: seq<nat>): seq<nat> {
    if weights == [] then []
    else Expand(weights[..|weights| - 1]) + seq(weights[|weights| - 1], _ => |weights| - 1)
  }

  /** The ticket order of a route; a route without upstreams gets the single ticket 0. */
  function OrderFor(weights: seq<nat>): seq<nat> {
    if Expand(weights) == [] then [0] else Expand(weights)
  }

  function Weights(ups: seq<Up>): seq<nat> {
    seq(|ups|, i requires 0 <= i < |ups| => ups[i].weight)
  }

  /** What `from_route` establishes for a route that has upstreams. */
  predicate WellFormed(b: Bal) {
    && b.ups != []
    && (forall u :: u in b.ups ==> u.weight >= 1)
    && b.order == OrderFor(Weights(b.ups))
    && b.order != []
    && (forall t :: t in b.order ==> t < |b.ups|)
    && b.cursor < USIZE
  }

  // ----- Round robin -----

  /** The upstream the next ticket names. */
  function Ticket(order: seq<nat>, cursor: nat): nat
    requires order != []
  {
    order[cursor % |order|]
  }

  /** `fetch_add` on the cursor wraps at the machine word. */
  function Next(cursor: nat): nat {
    if cursor + 1 >= USIZE then 0 else cursor + 1
  }

  /** The cursor after a number of tickets have been drawn. */
  function Advance(cursor: nat, tickets: nat): nat {
    if tickets == 0 then cursor else Next(Advance(cursor, tickets - 1))
  }

  /** How many of the next `limit` tickets are drawn in vain before one lands in `pass`. */
  function Misses(order: seq<nat>, cursor: nat, limit: nat, pass: set<nat>): (m: nat)
    requires order != []
    ensures m <= limit
    decreases limit
  {
    if limit == 0 || Ticket(order, cursor) in pass then 0
    else 1 + Misses(order, Next(cursor), limit - 1, pass)
  }

  /** The least index in `pass` that is at least `from`. */
  function FirstFrom(n: nat, from: nat, pass: set<nat>): (r: Option<nat>)
    requires from <= n
    ensures r.Some? ==> from <= r.value < n && r.value in pass && forall i :: from <= i < r.value ==> i !in pass
    ensures r.None? ==> forall i :: from <= i < n ==> i !in pass
    decreases n - from
  {
    if from == n then None
    else if from in pass then Some(from)
    else FirstFrom(n, from + 1, pass)
  }

  datatype Choice = Choice(idx: Option<nat>, bal: Bal)

  function PickRoundRobin(b: Bal, exclude: seq<nat>, now: nat): Choice
    requires b.order != []
  {
    var pass := Passing(b.ups, exclude, now);
    var n := |b.order|;
    var missed := Misses(b.order, b.cursor, n, pass);
    if missed < n then
      var idx := Ticket(b.order, Advance(b.cursor, missed));
      if idx < |b.ups| then
        Choice(Some(idx), b.(cursor := Advance(b.cursor, missed + 1), ups := b.ups[idx := ProbeUp(b.ups[idx], now)]))
      else
        Choice(None, b)
    else
      var idx := FirstFrom(|b.ups|, 0, pass);
      var b' := b.(cursor := Advance(b.cursor, n));
      Choice(idx, if idx.None? then b' else b'.(ups := b.ups[idx.value := ProbeUp(b.ups[idx.value], now)]))
  }

  // ----- Least connections -----

  /** The running minimum of `min_by_key` over the upstreams of `pass` below `k`. */
  function LeastLoaded(ups: seq<Up>, pass: set<nat>, k: nat): (r: Option<nat>)
    requires k <= |ups|
    ensures r.Some? ==> r.value < k
  {
    if k == 0 then None
    else
      var best := LeastLoaded(ups, pass, k - 1);
      if k - 1 in pass && (best.None? || ups[k - 1].active < ups[best.value].active) then Some(k - 1) else best
  }

  /** It is the first of the least loaded ones. */
  lemma {:induction false} LeastLoadedIsFirstMinimum(ups: seq<Up>, pass: set<nat>, k: nat)
    requires k <= |ups|
    ensures var r := LeastLoaded(ups, pass, k);
      && (r.None? <==> forall i :: 0 <= i < k ==> i !in pass)
      && (r.Some? ==>
            && r.value in pass
            && (forall i :: 0 <= i < k && i in pass ==> ups[r.value].active <= ups[i].active)
            && (forall i :: 0 <= i < r.value && i in pass ==> ups[r.value].active < ups[i].active))
  {
    if k > 0 {
      LeastLoadedIsFirstMinimum(ups, pass, k - 1);
    }
  }

  /**
   The filter of the iterator chain probes every upstream that is not excluded; the probe only
   changes those that pass.
   */
  function ProbeAll(ups: seq<Up>, pass: set<nat>, now: nat, k: nat): (r: seq<Up>)
    requires k <= |ups|
    ensures |r| == |ups|
  {
    if k == 0 then ups
    else
      var r := ProbeAll(ups, pass, now, k - 1);
      if k - 1 in pass then r[k - 1 := ProbeUp(r[k - 1], now)] else r
  }

  lemma {:induction false} ProbeAllAt(ups: seq<Up>, pass: set<nat>, now: nat, k: nat)
    requires k <= |ups|
    ensures forall i :: 0 <= i < |ups| ==>
                          ProbeAll(ups, pass, now, k)[i] == if i < k && i in pass then ProbeUp(ups[i], now) else ups[i]
  {
    if k > 0 {
      ProbeAllAt(ups, pass, now, k - 1);
    }
  }

  function PickLeastConn(b: Bal, exclude: seq<nat>, now: nat): Choice {
    var pass := Passing(b.ups, exclude, now);
    Choice(LeastLoaded(b.ups, pass, |b.ups|), b.(ups := ProbeAll(b.ups, pass, now, |b.ups|)))
  }

  /** Upstream `i` has been probed and the lighter of it and `best` kept. */
  predicate Weighed(b: Bal, i: nat, exclude: seq<nat>, now: nat, best: Option<nat>, b': Bal, best': Option<nat>)
    requires i < |b.ups| && (best.Some? ==> best.value < |b.ups|)
  {
    if i in Passing(b.ups, exclude, now) then
      && b' == b.(ups := b.ups[i := ProbeUp(b.ups[i], now)])
      && best' == if best.None? || b.ups[i].active < b.ups[best.value].active then Some(i) else best
    else
      b' == b && best' == best
  }

  /** The upstreams before `i` have been weighed and `best` is the lightest of them. */
  predicate WeighedUpTo(b: Bal, exclude: seq<nat>, now: nat, i: nat, best: Option<nat>, b': Bal) {
    && i <= |b.ups|
    && var pass := Passing(b.ups, exclude, now);
       b' == b.(ups := ProbeAll(b.ups, pass, now, i)) && best == LeastLoaded(b.ups, pass, i)
  }

  lemma NothingWeighed(b: Bal, exclude: seq<nat>, now: nat)
    ensures WeighedUpTo(b, exclude, now, 0, None, b)
  {
  }

  lemma WeighedAll(b: Bal, exclude: seq<nat>, now: nat, best: Option<nat>, after: Bal)
    requires WeighedUpTo(b, exclude, now, |b.ups|, best, after)
    ensures Choice(best, after) == PickLeastConn(b, exclude, now)
  {
  }

  /** Probing the upstreams before `i` does not disturb the decision at `i`. */
  lemma WeighedAdvances(b: Bal, exclude: seq<nat>, now: nat, i: nat, before: Bal, best: Option<nat>,
                        after: Bal, best': Option<nat>)
    requires WeighedUpTo(b, exclude, now, i, best, before) && i < |b.ups|
    requires Weighed(before, i, exclude, now, best, after, best')
    ensures WeighedUpTo(b, exclude, now, i + 1, best', after)
  {
    ProbeAllAt(b.ups, Passing(b.ups, exclude, now), now, i);
  }

  // ----- Pick -----

  function AddActive(b: Bal, i: nat, delta: int): Bal
    requires i < |b.ups|
  {
    b.(ups := b.ups[i := b.ups[i].(active := b.ups[i].active + delta)])
  }

  /** One atomic pick: choose by strategy and, on success, count the request in flight. */
  function PickFrom(b: Bal, exclude: seq<nat>, now: nat): Choice
    requires b.order != []
  {
    var c := match b.strategy
      case RoundRobin => PickRoundRobin(b, exclude, now)
      case LeastConnections => PickLeastConn(b, exclude, now);
    if c.idx.Some? && c.idx.value < |c.bal.ups| then c.(bal := AddActive(c.bal, c.idx.value, 1)) else c
  }

  // ----- The objects -----

  class Upstream {
    const url: string
    const weight: nat
    var active: int
    var healthy: bool
    const breaker: CircuitBreaker

    function Model(): Up
      reads this, breaker
    {
      Up(weight, active, healthy, breaker.Model())
    }

    /** As `from_route` makes it of its configuration. */
    ghost predicate StandsFor(config: UpstreamConfig, cb: CircuitBreakerConfig)
      reads this, breaker
    {
      breaker.Valid() && url == TrimSlashes(config.url) && Model() == NewUp(config, cb)
    }

    constructor (config: UpstreamConfig, cb: CircuitBreakerConfig)
      ensures fresh(breaker) && StandsFor(config, cb)
      ensures url == TrimSlashes(config.url) && weight == Max(config.weight, 1)
      ensures Model() == Up(Max(config.weight, 1), 0, true,
                            NewCb(Max(cb.failureThreshold, 1), Max(cb.openSecs, 1) * NANOS_PER_SEC))
    {
      url := TrimSlashes(config.url);
      weight := Max(config.weight, 1);
      active, healthy := 0, true;
      breaker := new CircuitBreaker(cb.failureThreshold, cb.openSecs);
    }

    method SetHealthy(v: bool)
      modifies this`healthy
      ensures Model() == old(Model()).(healthy := v)
    {
      healthy := v;
    }

    method Eligible(now: nat) returns (ok: bool)
      requires breaker.Valid()
      modifies breaker
      ensures breaker.Valid()
      ensures ok == EligibleUp(old(Model()), now)
      ensures Model() == ProbeUp(old(Model()), now)
    {
      if healthy {
        ok := breaker.AllowAt(now);
      } else {
        ok := false;
      }
    }
  }

  /** Counts one request in flight on an upstream from construction to drop. */
  class ActiveGuard {
    const upstream: Upstream

    constructor (upstream: Upstream)
      modifies upstream`active
      ensures this.upstream == upstream
      ensures upstream.Model() == old(upstream.Model()).(active := old(upstream.active) + 1)
    {
      this.upstream := upstream;
      new;
      upstream.active := upstream.active + 1;
    }

    method Drop()
      modifies upstream`active
      ensures upstream.Model() == old(upstream.Model()).(active := old(upstream.active) - 1)
    {
      upstream.active := upstream.active - 1;
    }
  }

  method BuildUpstreams(route: RouteConfig) returns (us: seq<Upstream>)
    ensures |us| == |route.upstreams| && fresh(us)
    ensures forall i :: 0 <= i < |us| ==>
              fresh(us[i].breaker) && us[i].StandsFor(route.upstreams[i], route.circuitBreaker)
    ensures forall i, j :: 0 <= i < j < |us| ==> us[i] != us[j] && us[i].breaker != us[j].breaker
  {
    us := [];
    for k := 0 to |route.upstreams|
      invariant |us| == k && fresh(us)
      invariant forall i :: 0 <= i < k ==>
                  fresh(us[i].breaker) && us[i].StandsFor(route.upstreams[i], route.circuitBreaker)
      invariant forall i, j :: 0 <= i < j < k ==> us[i] != us[j] && us[i].breaker != us[j].breaker
    {
      var u := new Upstream(route.upstreams[k], route.circuitBreaker);
      us := us + [u];
    }
  }

  /** Expand indices by weight, falling back to the single ticket 0. */
  method ExpandOrder(weights: seq<nat>) returns (order: seq<nat>)
    ensures order == OrderFor(weights) && order != []
    ensures weights != [] && (forall w :: w in weights ==> w >= 1) ==> forall t :: t in order ==> t < |weights|
  {
    order := [];
    for i := 0 to |weights|
      invariant order == Expand(weights[..i])
    {
      ghost var before := order;
      for j := 0 to weights[i]
        invariant order == before + seq(j, _ => i)
      {
        order := order + [i];
        assert seq(j + 1, _ => i) == seq(j, _ => i) + [i];
      }
      assert weights[..i + 1][..i] == weights[..i];
    }
    assert weights[..|weights|] == weights;
    ExpandedOrderIsInRange(weights);
    if order == [] {
      order := [0];
    }
  }

  /** One ticket has been drawn: `r` is the upstream it names if that one passes. */
  predicate Drawn(b: Bal, exclude: seq<nat>, now: nat, r: Option<nat>, b': Bal) {
    && b.order != []
    && var idx := Ticket(b.order, b.cursor);
       && idx < |b.ups|
       && if idx in Passing(b.ups, exclude, now) then
            r == Some(idx) && b' == b.(cursor := Next(b.cursor), ups := b.ups[idx := ProbeUp(b.ups[idx], now)])
          else
            r == None && b' == b.(cursor := Next(b.cursor))
  }

  /** `k` tickets have been drawn and none of them passed. */
  predicate DrawnInVain(b: Bal, exclude: seq<nat>, now: nat, k: nat, b': Bal) {
    && b.order != [] && k <= |b.order| && b' == b.(cursor := Advance(b.cursor, k))
    && var pass := Passing(b.ups, exclude, now);
       Misses(b.order, b.cursor, |b.order|, pass) == k + Misses(b.order, b'.cursor, |b.order| - k, pass)
  }

  /** The first ticket that passes is the round-robin pick. */
  lemma DrawAdvances(b: Bal, exclude: seq<nat>, now: nat, k: nat, before: Bal, r: Option<nat>, after: Bal)
    requires DrawnInVain(b, exclude, now, k, before) && k < |b.order| && Drawn(before, exclude, now, r, after)
    ensures if r.Some? then Choice(r, after) == PickRoundRobin(b, exclude, now)
            else DrawnInVain(b, exclude, now, k + 1, after)
  {
  }

  lemma RoundRobinMiss(b: Bal, exclude: seq<nat>, now: nat)
    requires b.order != [] && forall t :: t in b.order ==> t < |b.ups|
    ensures Misses(b.order, b.cursor, |b.order|, Passing(b.ups, exclude, now)) < |b.order|
            ==> PickRoundRobin(b, exclude, now).idx.Some?
    ensures Misses(b.order, b.cursor, |b.order|, Passing(b.ups, exclude, now)) == |b.order| ==>
      var idx := FirstFrom(|b.ups|, 0, Passing(b.ups, exclude, now));
      var b' := b.(cursor := Advance(b.cursor, |b.order|));
      PickRoundRobin(b, exclude, now)
      == Choice(idx, if idx.None? then b' else b'.(ups := b.ups[idx.value := ProbeUp(b.ups[idx.value], now)]))
  {
    var missed := Misses(b.order, b.cursor, |b.order|, Passing(b.ups, exclude, now));
    assert Ticket(b.order, Advance(b.cursor, missed)) in b.order;
  }

  class Balancer {
    const upstreams: seq<Upstream>
    const strategy: Strategy
    const rrOrder: seq<nat>
    var rrCursor: nat

    ghost function Breakers(): set<CircuitBreaker> {
      set u | u in upstreams :: u.breaker
    }

    ghost function UpWeights(): seq<nat> {
      seq(|upstreams|, i requires 0 <= i < |upstreams| => upstreams[i].weight)
    }

    /** Fixed at construction: distinct parts, and the ticket order of the weights. */
    ghost predicate Shape() {
      && (forall i, j :: 0 <= i < j < |upstreams| ==>
                           upstreams[i] != upstreams[j] && upstreams[i].breaker != upstreams[j].breaker)
      && (forall u :: u in upstreams ==> u.weight >= 1)
      && rrOrder == OrderFor(UpWeights())
      && rrOrder != []
      && (upstreams != [] ==> forall t :: t in rrOrder ==> t < |upstreams|)
    }

    ghost predicate Valid()
      reads this, Breakers()
    {
      Shape() && (forall u :: u in upstreams ==> u.breaker.Valid()) && rrCursor < USIZE
    }

    ghost function Models(): (r: seq<Up>)
      reads upstreams, Breakers()
      ensures |r| == |upstreams| && forall i :: 0 <= i < |upstreams| ==> r[i] == upstreams[i].Model()
    {
      seq(|upstreams|, i requires 0 <= i < |upstreams| reads upstreams, Breakers() => upstreams[i].Model())
    }

    ghost function Model(): Bal
      reads this, upstreams, Breakers()
    {
      Bal(strategy, Models(), rrOrder, rrCursor)
    }

    /** As `from_route` leaves it. */
    ghost predicate BuiltFor(route: RouteConfig)
      reads this, upstreams, Breakers()
    {
      Valid() && Model() == NewBal(route)
    }

    constructor (route: RouteConfig)
      ensures BuiltFor(route) && fresh(upstreams) && fresh(Breakers())
      ensures |upstreams| == |route.upstreams|
      ensures forall i :: 0 <= i < |upstreams| ==> upstreams[i].url == TrimSlashes(route.upstreams[i].url)
    {
      var us := BuildUpstreams(route);
      var weights := seq(|us|, i requires 0 <= i < |us| => us[i].weight);
      var order := ExpandOrder(weights);
      upstreams, strategy, rrOrder, rrCursor := us, route.strategy, order, 0;
      new;
      assert Models() == NewBal(route).ups;
      assert weights == Weights(Models());
    }

    /** The test both strategies apply: not excluded, and eligible. */
    method Test(i: nat, exclude: seq<nat>, now: nat) returns (ok: bool)
      requires Valid() && i < |upstreams|
      modifies upstreams[i].breaker
      ensures Valid() && rrCursor == old(rrCursor)
      ensures ok <==> i in Passing(old(Models()), exclude, now)
      ensures var ups := old(Models());
        Models() == if ok then ups[i := ProbeUp(ups[i], now)] else ups
    {
      ok := false;
      if i !in exclude {
        ok := upstreams[i].Eligible(now);
        assert Models() == old(Models())[i := ProbeUp(old(Models())[i], now)];
      }
      assert !ok ==> Models() == old(Models());
    }

    method FirstEligible(exclude: seq<nat>, now: nat) returns (r: Option<nat>)
      requires Valid()
      modifies Breakers()
      ensures Valid()
      ensures r == FirstFrom(|upstreams|, 0, Passing(old(Models()), exclude, now))
      ensures Model() == if r.None? then old(Model())
                         else old(Model()).(ups := old(Models())[r.value := ProbeUp(old(Models())[r.value], now)])
    {
      ghost var pass := Passing(Models(), exclude, now);
      for i := 0 to |upstreams|
        invariant Valid() && Model() == old(Model())
        invariant FirstFrom(|upstreams|, 0, pass) == FirstFrom(|upstreams|, i, pass)
      {
        var ok := Test(i, exclude, now);
        if ok {
          return Some(i);
        }
      }
      r := None;
    }

    /** Draw one ticket and test the upstream it names. */
    method Draw(exclude: seq<nat>, now: nat) returns (r: Option<nat>)
      requires Valid() && upstreams != []
      modifies this`rrCursor, Breakers()
      ensures Valid()
      ensures Drawn(old(Model()), exclude, now, r, Model())
    {
      var cursor := rrCursor;
      rrCursor := if cursor + 1 == USIZE then 0 else cursor + 1;
      var idx := rrOrder[cursor % |rrOrder|];
      assert idx in rrOrder;
      var ok := Test(idx, exclude, now);
      r := if ok then Some(idx) else None;
    }

    /** Draw up to one cycle of tickets until one passes. */
    method ScanTickets(exclude: seq<nat>, now: nat) returns (r: Option<nat>)
      requires Valid() && upstreams != []
      modifies this`rrCursor, Breakers()
      ensures Valid()
      ensures var b := old(Model());
        if r.Some? then
          Choice(r, Model()) == PickRoundRobin(b, exclude, now)
        else
          DrawnInVain(b, exclude, now, |b.order|, Model())
    {
      ghost var b := Model();
      for k := 0 to |rrOrder|
        invariant Valid() && DrawnInVain(b, exclude, now, k, Model())
      {
        ghost var before := Model();
        r := Draw(exclude, now);
        DrawAdvances(b, exclude, now, k, before, r, Model());
        if r.Some? {
          return;
        }
      }
      r := None;
    }

    method PickRoundRobinIn(exclude: seq<nat>, now: nat) returns (r: Option<nat>)
      requires Valid() && upstreams != []
      modifies this`rrCursor, Breakers()
      ensures Valid()
      ensures Choice(r, Model()) == PickRoundRobin(old(Model()), exclude, now)
    {
      ghost var b := Model();
      r := ScanTickets(exclude, now);
      if r.None? {
        RoundRobinMiss(b, exclude, now);
        r := FirstEligible(exclude, now);
      }
    }

    /** One step of the filtered minimum: probe an upstream and keep the lighter of two. */
    method Weigh(i: nat, exclude: seq<nat>, now: nat, best: Option<nat>) returns (best': Option<nat>)
      requires Valid() && i < |upstreams| && (best.Some? ==> best.value < |upstreams|)
      modifies Breakers()
      ensures Valid() && Weighed(old(Model()), i, exclude, now, best, Model(), best')
    {
      best' := best;
      var ok := Test(i, exclude, now);
      if ok && (best.None? || upstreams[i].active < upstreams[best.value].active) {
        best' := Some(i);
      }
    }

    method WeighNext(ghost b: Bal, i: nat, exclude: seq<nat>, now: nat, best: Option<nat>)
      returns (best': Option<nat>)
      requires Valid() && i < |upstreams| && WeighedUpTo(b, exclude, now, i, best, Model())
      modifies Breakers()
      ensures Valid() && WeighedUpTo(b, exclude, now, i + 1, best', Model())
    {
      ghost var before := Model();
      best' := Weigh(i, exclude, now, best);
      WeighedAdvances(b, exclude, now, i, before, best, Model(), best');
    }

    /** Weigh one upstream after the other. */
    method WeighEach(exclude: seq<nat>, now: nat) returns (r: Option<nat>)
      requires Valid()
      modifies Breakers()
      ensures Valid() && WeighedUpTo(old(Model()), exclude, now, |upstreams|, r, Model())
    {
      r := None;
      NothingWeighed(Model(), exclude, now);
      for i := 0 to |upstreams|
        invariant Valid() && WeighedUpTo(old(Model()), exclude, now, i, r, Model())
      {
        r := WeighNext(old(Model()), i, exclude, now, r);
      }
    }

    method PickLeastConnIn(exclude: seq<nat>, now: nat) returns (r: Option<nat>)
      requires Valid()
      modifies Breakers()
      ensures Valid()
      ensures Choice(r, Model()) == PickLeastConn(old(Model()), exclude, now)
    {
      r := WeighEach(exclude, now);
      WeighedAll(old(Model()), exclude, now, r, Model());
    }

    method Hold(i: nat) returns (guard: ActiveGuard)
      requires Valid() && i < |upstreams|
      modifies upstreams[i]
      ensures Valid() && Model() == AddActive(old(Model()), i, 1)
      ensures fresh(guard) && guard.upstream == upstreams[i]
    {
      guard := new ActiveGuard(upstreams[i]);
      assert Models() == AddActive(old(Model()), i, 1).ups;
    }

    /** Pick an eligible upstream that is not excluded and hold a guard on it. */
    method Pick(exclude: seq<nat>, now: nat) returns (r: Option<nat>, guard: ActiveGuard?)
      requires Valid() && upstreams != []
      modifies this`rrCursor, upstreams, Breakers()
      ensures Valid()
      ensures Choice(r, Model()) == PickFrom(old(Model()), exclude, now)
      ensures r.Some? ==> r.value < |upstreams| && r.value !in exclude
      ensures r.Some? <==> guard != null
      ensures guard != null ==> fresh(guard) && guard.upstream == upstreams[r.value]
    {
      match strategy {
        case RoundRobin =>
          r := PickRoundRobinIn(exclude, now);
        case LeastConnections =>
          r := PickLeastConnIn(exclude, now);
      }
      PickedIsPassing(old(Model()), exclude, now);
      guard := null;
      if r.Some? {
        guard := Hold(r.value);
      }
    }
  }

  function NewUp(u: UpstreamConfig, cb: CircuitBreakerConfig): Up {
    Up(Max(u.weight, 1), 0, true, NewCb(Max(cb.failureThreshold, 1), Max(cb.openSecs, 1) * NANOS_PER_SEC))
  }

  function NewBal(route: RouteConfig): Bal {
    var ups := seq(|route.upstreams|,
                   i requires 0 <= i < |route.upstreams| => NewUp(route.upstreams[i], route.circuitBreaker));
    Bal(route.strategy, ups, OrderFor(Weights(ups)), 0)
  }

  /** How a new balancer stands: configured, idle, healthy and closed, at the first ticket. */
  lemma NewBalancerStands(route: RouteConfig)
    ensures var b, cb := NewBal(route), route.circuitBreaker;
      && b.strategy == route.strategy && b.cursor == 0 && |b.ups| == |route.upstreams|
      && forall i :: 0 <= i < |b.ups| ==>
           && b.ups[i].weight == (if route.upstreams[i].weight == 0 then 1 else route.upstreams[i].weight)
           && b.ups[i].active == 0 && b.ups[i].healthy && b.ups[i].cb.state == Closed
           && b.ups[i].cb.threshold == (if cb.failureThreshold == 0 then 1 else cb.failureThreshold)
           && b.ups[i].cb.openFor == 1_000_000_000 * (if cb.openSecs == 0 then 1 else cb.openSecs)
  {
  }

  lemma {:induction false} ExpandedOrderIsInRange(weights: seq<nat>)
    ensures forall t :: t in Expand(weights) ==> t < |weights|
    ensures (exists w :: w in weights && w >= 1) ==> Expand(weights) != []
  {
    if weights != [] {
      var init := weights[..|weights| - 1];
      ExpandedOrderIsInRange(init);
      assert weights == init + [weights[|weights| - 1]];
    }
  }

  lemma {:induction false} AdvanceFromNext(cursor: nat, k: nat)
    ensures Advance(Next(cursor), k) == Advance(cursor, k + 1)
  {
    if k > 0 {
      AdvanceFromNext(cursor, k - 1);
    }
  }

  /** The scan only stops short on a ticket in `pass`. */
  lemma {:induction false} ScanStopsOnPass(order: seq<nat>, cursor: nat, limit: nat, pass: set<nat>)
    requires order != []
    ensures var m := Misses(order, cursor, limit, pass);
      m < limit ==> Ticket(order, Advance(cursor, m)) in pass
    decreases limit
  {
    if limit != 0 && Ticket(order, cursor) !in pass {
      ScanStopsOnPass(order, Next(cursor), limit - 1, pass);
      AdvanceFromNext(cursor, Misses(order, Next(cursor), limit - 1, pass));
    }
  }

  /** Every ticket the scan draws in vain names an upstream outside `pass`. */
  lemma {:induction false} ScanSkipsOthers(order: seq<nat>, cursor: nat, limit: nat, pass: set<nat>, k: nat)
    requires order != [] && k < Misses(order, cursor, limit, pass)
    ensures Ticket(order, Advance(cursor, k)) !in pass
    decreases k
  {
    if k > 0 {
      ScanSkipsOthers(order, Next(cursor), limit - 1, pass, k - 1);
      AdvanceFromNext(cursor, k - 1);
    }
  }

  lemma PickedIsPassing(b: Bal, exclude: seq<nat>, now: nat)
    requires b.order != []
    ensures var r := PickFrom(b, exclude, now).idx;
      r.Some? ==> r.value in Passing(b.ups, exclude, now)
  {
    ScanStopsOnPass(b.order, b.cursor, |b.order|, Passing(b.ups, exclude, now));
    LeastLoadedIsFirstMinimum(b.ups, Passing(b.ups, exclude, now), |b.ups|);
  }
}
