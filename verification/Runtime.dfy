/** The runtime table built from a configuration, and what validation guarantees about it. */
module Runtime {
  import opened Basics
  import opened Config
  import opened LoadBalancer
  import opened PickLaws
  import opened Gateway
  import opened Routing
  import opened RouteTables

  /** Building another runtime leaves the balancers in the table as they are. */
  twostate lemma OthersStand(table: map<string, RouteRuntime>)
    requires forall name :: name in table ==> old(table[name].balancer.BuiltFor(table[name].config))
    requires forall name :: name in table ==>
               var b := table[name].balancer; unchanged(b, b.upstreams, b.Breakers())
    ensures forall name :: name in table ==> table[name].balancer.BuiltFor(table[name].config)
  {
  }

  /** Put a new runtime under the name of its route. */
  method AddRoute(table: map<string, RouteRuntime>, route: RouteConfig)
    returns (grown: map<string, RouteRuntime>, runtime: RouteRuntime)
    requires forall name :: name in table ==> table[name].balancer.BuiltFor(table[name].config)
    ensures forall name :: name in grown ==> grown[name].balancer.BuiltFor(grown[name].config)
    ensures grown == table[route.name := runtime] && runtime.config == route
    ensures fresh(runtime) && fresh(runtime.balancer)
  {
    runtime := new RouteRuntime(route);
    OthersStand(table);
    grown := table[route.name := runtime];
  }

  method BuildRoutes(cfg: GatewayConfig) returns (table: map<string, RouteRuntime>)
    ensures TableOf(cfg.routes, table)
    ensures forall name :: name in table ==> table[name].balancer.BuiltFor(table[name].config)
  {
    table := map[];
    for k := 0 to |cfg.routes|
      invariant TableOf(cfg.routes[..k], table)
      invariant forall name :: name in table ==> table[name].balancer.BuiltFor(table[name].config)
    {
      ghost var before := table;
      var runtime;
      table, runtime := AddRoute(table, cfg.routes[k]);
      TableGrows(cfg.routes, k, before, runtime);
    }
    assert cfg.routes[..|cfg.routes|] == cfg.routes;
  }

  /** What resolving a request against the table can come to. */
  datatype Resolution = NotFound | RuntimeMissing | Found(runtime: RouteRuntime)

  method Resolve(cfg: GatewayConfig, table: map<string, RouteRuntime>, host: Option<string>, path: string)
    returns (r: Resolution, ghost route: Option<RouteConfig>)
    requires TableOf(cfg.routes, table)
    ensures Resolves(cfg.routes, host, path, route)
    ensures r == NotFound <==> route.None?
    ensures r != RuntimeMissing
    ensures r.Found? ==>
              exists last: nat ::
                LastNamed(cfg.routes, last, route.value.name) && r.runtime.config == cfg.routes[last]
    ensures ValidConfig(cfg) && r.Found? ==> r.runtime.config == route.value && r.runtime.config.upstreams != []
  {
    route := None;
    var best := MatchRoute(cfg.routes, host, path);
    if best.None? {
      return NotFound, None;
    }
    var matched := cfg.routes[best.value];
    route := Some(matched);
    assert matched in cfg.routes;
    ghost var last := EveryNameHasLast(cfg.routes, best.value);
    if matched.name !in table {
      return RuntimeMissing, route;
    }
    r := Found(table[matched.name]);
    assert ValidConfig(cfg) ==> last == best.value;
  }

  /** Every route finds its own runtime exactly when routes that share a name are the same route. */
  lemma OwnRuntimeIffNamesAgree(routes: seq<RouteConfig>)
    ensures (forall i :: 0 <= i < |routes| ==> FindsOwn(routes, routes[i]))
            <==>
            forall i, j :: 0 <= i < j < |routes| && routes[i].name == routes[j].name ==> routes[i] == routes[j]
  {
    if forall i :: 0 <= i < |routes| ==> FindsOwn(routes, routes[i]) {
      forall i, j | 0 <= i < j < |routes| && routes[i].name == routes[j].name
        ensures routes[i] == routes[j]
      {
        assert FindsOwn(routes, routes[i]) && FindsOwn(routes, routes[j]);
      }
    }
    if forall i, j :: 0 <= i < j < |routes| && routes[i].name == routes[j].name ==> routes[i] == routes[j] {
      forall i | 0 <= i < |routes|
        ensures FindsOwn(routes, routes[i])
      {
        var last := EveryNameHasLast(routes, i);
        assert routes[last] == routes[i];
      }
    }
  }

  predicate FindsOwn(routes: seq<RouteConfig>, route: RouteConfig) {
    route.name in LastByName(routes) && LastByName(routes)[route.name] == route
  }

  /**
   Validation establishes what the runtime relies on, for good: in every state a valid route's
   balancer can reach it is well formed, its ticket order names each upstream weight times and
   nothing else, and neither a ticket nor a pick leaves the range of upstreams.
   */
  lemma ValidRouteRuns(cfg: GatewayConfig, route: RouteConfig, states: seq<State>, steps: seq<Step>, k: nat,
                       exclude: seq<nat>, now: nat, i: nat, cursor: nat)
    requires ValidConfig(cfg) && route in cfg.routes
    requires Run(states, steps) && states[0].bal == NewBal(route) && k < |states|
    ensures var b := states[k].bal;
      && WellFormed(b) && |b.ups| == |route.upstreams|
      && multiset(b.order)[i] == (if i < |route.upstreams| then route.upstreams[i].weight else 0)
      && Ticket(b.order, cursor) < |b.ups|
      && (PickFrom(b, exclude, now).idx.Some? ==> PickFrom(b, exclude, now).idx.value < |b.ups|)
  {
    RunsKeepShape(states, steps, k);
    var b := states[k].bal;
    PickIsComplete(b, exclude, now);
    assert Ticket(b.order, cursor) in b.order;
    NewOrderHoldsWeights(route, i);
  }

  /** Such runs exist: a new balancer of a valid route is where one starts. */
  lemma NewOrderHoldsWeights(route: RouteConfig, i: nat)
    requires WellFormedRoute(route)
    ensures Initial(State(0, NewBal(route), MaxAttempts(route.retries), map[], []))
    ensures multiset(NewBal(route).order)[i] == if i < |route.upstreams| then route.upstreams[i].weight else 0
  {
    NewBalancerIsInitial(route, 0);
    var weights := Weights(NewBal(route).ups);
    assert weights[0] == NewBal(route).ups[0].weight && weights[0] in weights;
    OrderHoldsWeights(weights, i);
    if i < |route.upstreams| {
      assert WellFormedUpstream(route.upstreams[i]);
    }
  }

  /**
   Why validation asks for upstreams: every ticket of a new balancer names an upstream exactly when
   its route has any. Without one the only ticket is 0, which round robin would index with.
   */
  lemma TicketsPointIffUpstreams(route: RouteConfig)
    ensures NewBal(route).order != []
    ensures (forall cursor: nat :: Ticket(NewBal(route).order, cursor) < |NewBal(route).ups|)
            <==> route.upstreams != []
  {
    var b := NewBal(route);
    var weights := Weights(b.ups);
    ExpandedOrderIsInRange(weights);
    if route.upstreams == [] {
      assert b.order == [0];
      assert Ticket(b.order, 0) >= |b.ups|;
    } else {
      assert weights[0] == b.ups[0].weight && weights[0] in weights;
      forall cursor: nat
        ensures Ticket(b.order, cursor) < |b.ups|
      {
        assert Ticket(b.order, cursor) in b.order;
      }
    }
  }
}
