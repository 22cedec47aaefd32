/** A route at run time, and the table of runtimes by route name. */
module RouteTables {
  import opened Basics
  import opened Config
  import opened LoadBalancer
  import opened ResponseCaching

  /** One route at run time: its configuration, balancer and optional response cache. */
  class RouteRuntime {
    const config: RouteConfig
    const balancer: Balancer
    const cache: ResponseCache?

    constructor (route: RouteConfig)
      ensures config == route
      ensures fresh(balancer) && balancer.BuiltFor(route)
      ensures cache != null <==> route.cache.Some?
      ensures cache != null ==>
                && fresh(cache) && cache.Valid() && cache.history == []
                && cache.ttl == route.cache.value.ttlSecs * 1_000_000_000
                && cache.capacity == Max(route.cache.value.maxEntries, 1)
    {
      config := route;
      balancer := new Balancer(route);
      if route.cache.Some? {
        cache := new ResponseCache(route.cache.value.ttlSecs * NANOS_PER_SEC, route.cache.value.maxEntries);
      } else {
        cache := null;
      }
    }
  }

  /** Inserting the routes in order leaves, under every name, the last route of that name. */
  function LastByName(routes: seq<RouteConfig>): map<string, RouteConfig> {
    if routes == [] then map[]
    else
      var last := routes[|routes| - 1];
      LastByName(routes[..|routes| - 1])[last.name := last]
  }

  predicate LastNamed(routes: seq<RouteConfig>, i: nat, name: string) {
    i < |routes| && routes[i].name == name && forall j :: i < j < |routes| ==> routes[j].name != name
  }

  lemma {:induction false} LastByNameIsLast(routes: seq<RouteConfig>, name: string)
    ensures name in LastByName(routes) <==> exists i: nat :: LastNamed(routes, i, name)
    ensures forall i: nat :: LastNamed(routes, i, name) ==> LastByName(routes)[name] == routes[i]
  {
    if routes != [] {
      var init, last := routes[..|routes| - 1], |routes| - 1;
      LastByNameIsLast(init, name);
      if routes[last].name == name {
        assert LastNamed(routes, last, name);
      } else {
        assert forall i: nat :: LastNamed(routes, i, name) <==> LastNamed(init, i, name);
      }
    }
  }

  lemma {:induction false} EveryNameHasLast(routes: seq<RouteConfig>, i: nat) returns (last: nat)
    requires i < |routes|
    ensures i <= last && LastNamed(routes, last, routes[i].name)
    ensures routes[i].name in LastByName(routes) && LastByName(routes)[routes[i].name] == routes[last]
    decreases |routes| - i
  {
    if j: nat :| i < j < |routes| && routes[j].name == routes[i].name {
      last := EveryNameHasLast(routes, j);
    } else {
      last := i;
      LastByNameIsLast(routes, routes[i].name);
      assert LastNamed(routes, i, routes[i].name);
    }
  }

  /** The table has one runtime for every name, built from the last route of that name. */
  ghost predicate TableOf(routes: seq<RouteConfig>, table: map<string, RouteRuntime>) {
    && table.Keys == LastByName(routes).Keys
    && forall name :: name in table ==> table[name].config == LastByName(routes)[name]
  }

  lemma TableGrows(routes: seq<RouteConfig>, k: nat, table: map<string, RouteRuntime>, runtime: RouteRuntime)
    requires k < |routes| && TableOf(routes[..k], table) && runtime.config == routes[k]
    ensures TableOf(routes[..k + 1], table[routes[k].name := runtime])
  {
    assert routes[..k + 1][..k] == routes[..k];
  }
}
