/** The typed gateway configuration and its validation. */
module Config {
  import opened Basics

  datatype Strategy = RoundRobin | LeastConnections

  datatype UpstreamConfig = UpstreamConfig(url: string, weight: nat)

  datatype MatchConfig = MatchConfig(host: Option<string>, pathPrefix: string)

  datatype AuthPolicy = NoAuth | ApiKey(keys: seq<string>) | Jwt(secret: string)

  datatype CacheConfig = CacheConfig(ttlSecs: nat, maxEntries: nat)

  datatype CircuitBreakerConfig = CircuitBreakerConfig(failureThreshold: nat, openSecs: nat)

  /** `add` is listed in the fixed order in which the loaded hash map iterates. */
  datatype HeaderTransforms = HeaderTransforms(add: seq<(string, string)>, remove: seq<string>)

  datatype RouteConfig = RouteConfig(
    name: string,
    matches: MatchConfig,
    upstreams: seq<UpstreamConfig>,
    strategy: Strategy,
    stripPathPrefix: bool,
    retries: nat,
    auth: AuthPolicy,
    cache: Option<CacheConfig>,
    circuitBreaker: CircuitBreakerConfig,
    responseHeaders: HeaderTransforms)

  datatype GatewayConfig = GatewayConfig(routes: seq<RouteConfig>)

  datatype ConfigError =
    | NoRoutes
    | DuplicateName(name: string)
    | NoUpstreams(name: string)
    | BadUrl(name: string, url: string)
    | ZeroWeight(name: string)
    | BadPrefix(name: string)
    | NoKeys(name: string)

  // ----- What a usable configuration is -----

  predicate HttpUrl(url: string) {
    "http://" <= url || "https://" <= url
  }

  predicate WellFormedUpstream(u: UpstreamConfig) {
    HttpUrl(u.url) && u.weight >= 1
  }

  predicate WellFormedRoute(r: RouteConfig) {
    && r.upstreams != []
    && (forall u :: u in r.upstreams ==> WellFormedUpstream(u))
    && "/" <= r.matches.pathPrefix
    && (r.auth.ApiKey? ==> r.auth.keys != [])
  }

  predicate DistinctNames(routes: seq<RouteConfig>) {
    forall i, j :: 0 <= i < j < |routes| ==> routes[i].name != routes[j].name
  }

  predicate ValidConfig(cfg: GatewayConfig) {
    && cfg.routes != []
    && DistinctNames(cfg.routes)
    && forall r :: r in cfg.routes ==> WellFormedRoute(r)
  }

  predicate NameIsNew(routes: seq<RouteConfig>, i: nat)
    requires i < |routes|
  {
    forall k :: 0 <= k < i ==> routes[k].name != routes[i].name
  }

  /** Upstream `j` is the first malformed one. */
  predicate FirstMalformed(ups: seq<UpstreamConfig>, j: nat) {
    j < |ups| && !WellFormedUpstream(ups[j]) && forall k :: 0 <= k < j ==> WellFormedUpstream(ups[k])
  }

  /** The complaint a route whose name is new gets about its upstreams. */
  ghost predicate UpstreamFault(r: RouteConfig, e: ConfigError) {
    exists j: nat ::
      && FirstMalformed(r.upstreams, j)
      && e == if !HttpUrl(r.upstreams[j].url) then BadUrl(r.name, r.upstreams[j].url) else ZeroWeight(r.name)
  }

  /** Route `i` is the first at fault and `e` is its first fault, in the order of the tests. */
  ghost predicate FirstFault(routes: seq<RouteConfig>, i: nat, e: ConfigError) {
    && i < |routes|
    && DistinctNames(routes[..i])
    && (forall k :: 0 <= k < i ==> WellFormedRoute(routes[k]))
    && var r := routes[i];
       if !NameIsNew(routes, i) then e == DuplicateName(r.name)
       else if r.upstreams == [] then e == NoUpstreams(r.name)
       else if exists u :: u in r.upstreams && !WellFormedUpstream(u) then UpstreamFault(r, e)
       else if !("/" <= r.matches.pathPrefix) then e == BadPrefix(r.name)
       else r.auth == ApiKey([]) && e == NoKeys(r.name)
  }

  /** What each complaint says of the configuration, whatever the order of the tests. */
  ghost predicate TrueComplaint(routes: seq<RouteConfig>, e: ConfigError) {
    match e
    case NoRoutes => routes == []
    case DuplicateName(name) =>
      exists i, j :: 0 <= i < j < |routes| && routes[i].name == name == routes[j].name
    case NoUpstreams(name) => exists r :: r in routes && r.name == name && |r.upstreams| == 0
    case BadUrl(name, url) =>
      && !("http://" <= url) && !("https://" <= url)
      && exists r, u :: r in routes && r.name == name && u in r.upstreams && u.url == url
    case ZeroWeight(name) => exists r, u :: r in routes && r.name == name && u in r.upstreams && u.weight == 0
    case BadPrefix(name) =>
      exists r :: r in routes && r.name == name && !("/" <= r.matches.pathPrefix)
    case NoKeys(name) => exists r :: r in routes && r.name == name && r.auth == ApiKey([])
  }

  lemma FirstFaultIsTrue(routes: seq<RouteConfig>, i: nat, e: ConfigError)
    requires FirstFault(routes, i, e)
    ensures TrueComplaint(routes, e)
  {
    var r := routes[i];
    assert r in routes;
    if UpstreamFault(r, e) {
      var j: nat :| FirstMalformed(r.upstreams, j)
                    && e == if !HttpUrl(r.upstreams[j].url) then BadUrl(r.name, r.upstreams[j].url)
                            else ZeroWeight(r.name);
      assert r.upstreams[j] in r.upstreams;
    }
  }

  /** So a configuration has at most one complaint to make. */
  lemma FirstFaultIsUnique(routes: seq<RouteConfig>, i: nat, e: ConfigError, i': nat, e': ConfigError)
    requires FirstFault(routes, i, e) && FirstFault(routes, i', e')
    ensures i == i' && e == e'
  {
    if i < i' {
      FaultEndsIt(routes, i, e, i');
    } else if i' < i {
      FaultEndsIt(routes, i', e', i);
    } else if UpstreamFault(routes[i], e) && UpstreamFault(routes[i], e') {
      UpstreamFaultIsUnique(routes[i], e, e');
    }
  }

  lemma UpstreamFaultIsUnique(r: RouteConfig, e: ConfigError, e': ConfigError)
    requires UpstreamFault(r, e) && UpstreamFault(r, e')
    ensures e == e'
  {
    var j: nat :| FirstMalformed(r.upstreams, j)
                  && e == if !HttpUrl(r.upstreams[j].url) then BadUrl(r.name, r.upstreams[j].url)
                          else ZeroWeight(r.name);
    var j': nat :| FirstMalformed(r.upstreams, j')
                   && e' == if !HttpUrl(r.upstreams[j'].url) then BadUrl(r.name, r.upstreams[j'].url)
                            else ZeroWeight(r.name);
    assert j == j';
  }

  lemma FaultEndsIt(routes: seq<RouteConfig>, i: nat, e: ConfigError, later: nat)
    requires FirstFault(routes, i, e) && i < later <= |routes|
    ensures !(DistinctNames(routes[..later]) && WellFormedRoute(routes[i]))
  {
    if k :| 0 <= k < i && routes[k].name == routes[i].name {
      assert routes[..later][k].name == routes[..later][i].name;
    }
  }

  lemma DistinctNamesGrow(routes: seq<RouteConfig>, i: nat)
    requires i < |routes| && DistinctNames(routes[..i])
    ensures DistinctNames(routes[..i + 1]) <==> NameIsNew(routes, i)
    ensures DistinctNames(routes) ==> NameIsNew(routes, i)
  {
    assert routes[..i + 1][i] == routes[i];
    forall k | 0 <= k < i
      ensures routes[..i][k] == routes[k] == routes[..i + 1][k]
    {
    }
  }

  method ValidateUpstreams(r: RouteConfig) returns (fault: Option<ConfigError>)
    ensures fault.None? <==> forall u :: u in r.upstreams ==> WellFormedUpstream(u)
    ensures fault.Some? ==> UpstreamFault(r, fault.value)
  {
    for i := 0 to |r.upstreams|
      invariant forall k :: 0 <= k < i ==> WellFormedUpstream(r.upstreams[k])
    {
      var u := r.upstreams[i];
      assert !WellFormedUpstream(u) ==> FirstMalformed(r.upstreams, i) && u in r.upstreams;
      if !HttpUrl(u.url) {
        return Some(BadUrl(r.name, u.url));
      }
      if u.weight == 0 {
        return Some(ZeroWeight(r.name));
      }
    }
    fault := None;
  }

  /** Accepts exactly the valid configurations; otherwise it makes the first complaint there is to make. */
  method Validate(cfg: GatewayConfig) returns (fault: Option<ConfigError>)
    ensures fault.None? <==> ValidConfig(cfg)
    ensures fault.None? <==>
            && cfg.routes != []
            && (forall i, j :: 0 <= i < j < |cfg.routes| ==> cfg.routes[i].name != cfg.routes[j].name)
            && (forall r :: r in cfg.routes ==> r.upstreams != [])
            && (forall r, u :: r in cfg.routes && u in r.upstreams ==>
                                 ("http://" <= u.url || "https://" <= u.url) && u.weight != 0)
            && (forall r :: r in cfg.routes ==> r.matches.pathPrefix != "" && r.matches.pathPrefix[0] == '/')
            && (forall r :: r in cfg.routes && r.auth.ApiKey? ==> r.auth.keys != [])
    ensures fault == Some(NoRoutes) <==> cfg.routes == []
    ensures fault.Some? && cfg.routes != [] ==> exists i :: FirstFault(cfg.routes, i, fault.value)
    ensures fault.Some? ==> TrueComplaint(cfg.routes, fault.value)
  {
    if cfg.routes == [] {
      return Some(NoRoutes);
    }
    var names: set<string> := {};
    for i := 0 to |cfg.routes|
      invariant names == set k | 0 <= k < i :: cfg.routes[k].name
      invariant DistinctNames(cfg.routes[..i])
      invariant forall k :: 0 <= k < i ==> WellFormedRoute(cfg.routes[k])
    {
      var r := cfg.routes[i];
      if r.name in names {
        fault := Some(DuplicateName(r.name));
        assert FirstFault(cfg.routes, i, fault.value);
        FirstFaultIsTrue(cfg.routes, i, fault.value);
        return;
      }
      names := names + {r.name};
      assert r in cfg.routes;
      if r.upstreams == [] {
        fault := Some(NoUpstreams(r.name));
        assert FirstFault(cfg.routes, i, fault.value);
        FirstFaultIsTrue(cfg.routes, i, fault.value);
        return;
      }
      fault := ValidateUpstreams(r);
      if fault.Some? {
        assert FirstFault(cfg.routes, i, fault.value);
        FirstFaultIsTrue(cfg.routes, i, fault.value);
        return;
      }
      if !("/" <= r.matches.pathPrefix) {
        fault := Some(BadPrefix(r.name));
        assert FirstFault(cfg.routes, i, fault.value);
        FirstFaultIsTrue(cfg.routes, i, fault.value);
        return;
      }
      if r.auth.ApiKey? && r.auth.keys == [] {
        fault := Some(NoKeys(r.name));
        assert FirstFault(cfg.routes, i, fault.value);
        FirstFaultIsTrue(cfg.routes, i, fault.value);
        return;
      }
      assert NameIsNew(cfg.routes, i);
      DistinctNamesGrow(cfg.routes, i);
    }
    assert cfg.routes[..|cfg.routes|] == cfg.routes;
    fault := None;
  }
}
