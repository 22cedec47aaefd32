/** Host and path-prefix route matching, and prefix stripping. */
module Routing {
  import opened Basics
  import opened Text
  import opened Config

  // ----- The tests -----

  function StripPort(host: string): (r: string)
    ensures r <= host
  {
    if host == [] || host[0] == ':' then [] else [host[0]] + StripPort(host[1..])
  }

  predicate EqIgnoreCase(a: string, b: string) {
    Lower(a) == Lower(b)
  }

  predicate HostMatches(want: Option<string>, host: Option<string>) {
    want.Some? ==>
      var got := if host.Some? then StripPort(host.value) else "";
      EqIgnoreCase(got, StripPort(want.value))
  }

  /** `path` is the trimmed prefix or goes on with a slash right after it. */
  predicate AtBoundary(path: string, trimmed: string) {
    path == trimmed || (trimmed <= path && |trimmed| < |path| && path[|trimmed|] == '/')
  }

  predicate PathMatches(path: string, prefix: string) {
    prefix == "/" || AtBoundary(path, TrimSlashes(prefix))
  }

  predicate Matches(r: RouteConfig, host: Option<string>, path: string) {
    HostMatches(r.matches.host, host) && PathMatches(path, r.matches.pathPrefix)
  }

  /** What follows the host proper: nothing, or a colon and a port. */
  predicate PortSuffix(s: string) {
    s == "" || s[0] == ':'
  }

  lemma {:induction false} StripPortDropsSuffix(host: string, suffix: string)
    requires ':' !in host && PortSuffix(suffix)
    ensures StripPort(host + suffix) == host
  {
    if host != [] {
      assert (host + suffix)[1..] == host[1..] + suffix;
      StripPortDropsSuffix(host[1..], suffix);
    }
  }

  /**
   A host constraint is met exactly by the hosts that agree with it up to letter case, whatever
   ports either carries; a request without a host meets only the empty constraint, and every request
   meets a missing one.
   */
  lemma HostMatchesExactly(want: string, wantPort: string, host: string, port: string, any: Option<string>)
    requires ':' !in want && ':' !in host && PortSuffix(wantPort) && PortSuffix(port)
    ensures HostMatches(Some(want + wantPort), Some(host + port)) <==> SameLetters(host, want)
    ensures HostMatches(Some(want + wantPort), None) <==> want == ""
    ensures HostMatches(None, any)
  {
    StripPortDropsSuffix(want, wantPort);
    StripPortDropsSuffix(host, port);
    LowerIdentifiesCases(host, want);
    LowerIdentifiesCases("", want);
  }

  /** A longer prefix wins; between equal lengths a host constraint wins. */
  predicate Better(a: RouteConfig, b: RouteConfig) {
    || |a.matches.pathPrefix| > |b.matches.pathPrefix|
    || (|a.matches.pathPrefix| == |b.matches.pathPrefix| && a.matches.host.Some? && b.matches.host.None?)
  }

  // ----- Matching -----

  /** Route `i` is the first matching route that no matching route beats. */
  predicate IsBest(routes: seq<RouteConfig>, i: nat, host: Option<string>, path: string) {
    && i < |routes| && Matches(routes[i], host, path)
    && (forall j :: 0 <= j < |routes| && Matches(routes[j], host, path) ==> !Better(routes[j], routes[i]))
    && (forall j :: 0 <= j < i && Matches(routes[j], host, path) ==> Better(routes[i], routes[j]))
  }

  predicate NothingMatches(routes: seq<RouteConfig>, host: Option<string>, path: string) {
    forall r :: r in routes ==> !Matches(r, host, path)
  }

  /** Which routes match a request, in order. */
  function MatchList(routes: seq<RouteConfig>, host: Option<string>, path: string): (hits: seq<bool>)
    ensures |hits| == |routes| && forall i :: 0 <= i < |routes| ==> hits[i] == Matches(routes[i], host, path)
  {
    seq(|routes|, i requires 0 <= i < |routes| => Matches(routes[i], host, path))
  }

  /** The state of the single pass before route `k`: the first best hit below it. */
  predicate BestSoFar(routes: seq<RouteConfig>, hits: seq<bool>, k: nat, best: Option<nat>)
    requires k <= |routes| == |hits|
  {
    match best
    case None => forall j :: 0 <= j < k ==> !hits[j]
    case Some(i) =>
      && i < k && hits[i]
      && (forall j :: 0 <= j < k && hits[j] ==> !Better(routes[j], routes[i]))
      && (forall j :: 0 <= j < i && hits[j] ==> Better(routes[i], routes[j]))
  }

  lemma PassOver(routes: seq<RouteConfig>, hits: seq<bool>, k: nat, best: Option<nat>)
    requires k < |routes| == |hits| && BestSoFar(routes, hits, k, best)
    requires !hits[k] || (best.Some? && !Better(routes[k], routes[best.value]))
    ensures BestSoFar(routes, hits, k + 1, best)
  {
  }

  lemma TakeOver(routes: seq<RouteConfig>, hits: seq<bool>, k: nat, best: Option<nat>)
    requires k < |routes| == |hits| && BestSoFar(routes, hits, k, best)
    requires hits[k] && (best.None? || Better(routes[k], routes[best.value]))
    ensures BestSoFar(routes, hits, k + 1, Some(k))
  {
    if best.Some? {
      forall j | 0 <= j < k && hits[j]
        ensures Better(routes[k], routes[j]) && !Better(routes[j], routes[k])
      {
        assert !Better(routes[j], routes[best.value]);
      }
    }
  }

  lemma BestOverall(routes: seq<RouteConfig>, host: Option<string>, path: string, best: Option<nat>)
    requires BestSoFar(routes, MatchList(routes, host, path), |routes|, best)
    ensures best.None? ==> NothingMatches(routes, host, path)
    ensures best.Some? ==> IsBest(routes, best.value, host, path)
  {
  }

  /** So the best route has the longest prefix, then a host if any such route has one, then the first place. */
  lemma BestMeans(routes: seq<RouteConfig>, i: nat, host: Option<string>, path: string, j: nat)
    requires IsBest(routes, i, host, path) && j < |routes| && Matches(routes[j], host, path)
    ensures var p, q := routes[j].matches, routes[i].matches;
      && |p.pathPrefix| <= |q.pathPrefix|
      && (|p.pathPrefix| == |q.pathPrefix| && p.host.Some? ==> q.host.Some?)
      && (|p.pathPrefix| == |q.pathPrefix| && (p.host.Some? <==> q.host.Some?) ==> i <= j)
  {
    assert !Better(routes[j], routes[i]);
    assert j < i ==> Better(routes[i], routes[j]);
  }

  /** The single pass returns the first best route, and nothing only when nothing matches. */
  method MatchRoute(routes: seq<RouteConfig>, host: Option<string>, path: string) returns (best: Option<nat>)
    ensures best.None? ==> NothingMatches(routes, host, path)
    ensures best.Some? ==> IsBest(routes, best.value, host, path)
    ensures best.Some? ==> forall j :: 0 <= j < |routes| && Matches(routes[j], host, path) ==>
              var p, q := routes[j].matches, routes[best.value].matches;
              && |p.pathPrefix| <= |q.pathPrefix|
              && (|p.pathPrefix| == |q.pathPrefix| && p.host.Some? ==> q.host.Some?)
              && (|p.pathPrefix| == |q.pathPrefix| && (p.host.Some? <==> q.host.Some?) ==> best.value <= j)
  {
    ghost var hits := MatchList(routes, host, path);
    best := None;
    var bestLen := 0;
    for i := 0 to |routes|
      invariant BestSoFar(routes, hits, i, best)
      invariant best.Some? ==> bestLen == |routes[best.value].matches.pathPrefix|
      invariant best.None? ==> bestLen == 0
    {
      var route := routes[i];
      if route.matches.host.Some? {
        var got := if host.Some? then StripPort(host.value) else "";
        if !EqIgnoreCase(got, StripPort(route.matches.host.value)) {
          PassOver(routes, hits, i, best);
          continue;
        }
      }
      var prefix := route.matches.pathPrefix;
      if PathMatches(path, prefix) {
        var len := |prefix|;
        var moreSpecific :=
          len > bestLen
          || (len == bestLen && route.matches.host.Some? && best.Some? && routes[best.value].matches.host.None?);
        if best.None? || moreSpecific {
          TakeOver(routes, hits, i, best);
          best := Some(i);
          bestLen := len;
        } else {
          PassOver(routes, hits, i, best);
        }
      } else {
        PassOver(routes, hits, i, best);
      }
    }
    BestOverall(routes, host, path, best);
    if best.Some? {
      forall j | 0 <= j < |routes| && Matches(routes[j], host, path)
        ensures var p, q := routes[j].matches, routes[best.value].matches;
          && |p.pathPrefix| <= |q.pathPrefix|
          && (|p.pathPrefix| == |q.pathPrefix| && p.host.Some? ==> q.host.Some?)
          && (|p.pathPrefix| == |q.pathPrefix| && (p.host.Some? <==> q.host.Some?) ==> best.value <= j)
      {
        BestMeans(routes, best.value, host, path, j);
      }
    }
  }

  /** What a table of routes answers to a request. */
  ghost predicate Resolves(routes: seq<RouteConfig>, host: Option<string>, path: string, r: Option<RouteConfig>) {
    match r
    case None => NothingMatches(routes, host, path)
    case Some(route) => exists i: nat :: IsBest(routes, i, host, path) && routes[i] == route
  }

  // ----- Segments -----

  /** The segments of a path: what lies between its slashes. */
  function Split(s: string): (r: seq<string>)
    ensures r != []
  {
    if s == [] then [""]
    else
      var rest := Split(s[1..]);
      if s[0] == '/' then [""] + rest else [[s[0]] + rest[0]] + rest[1..]
  }

  function Join(segments: seq<string>): string
    requires segments != []
  {
    if |segments| == 1 then segments[0] else segments[0] + "/" + Join(segments[1..])
  }

  /** Splitting is the inverse of joining with slashes, into segments without slashes. */
  lemma {:induction false} SplitJoins(s: string)
    ensures Join(Split(s)) == s
    ensures forall g :: g in Split(s) ==> '/' !in g
  {
    if s != [] {
      SplitJoins(s[1..]);
      var rest := Split(s[1..]);
      assert s == [s[0]] + s[1..];
      if s[0] == '/' {
        assert Split(s)[1..] == rest;
        assert Join(Split(s)) == "" + "/" + Join(rest);
      } else {
        JoinWithLongerHead(s[0], rest);
        forall g | g in Split(s)
          ensures '/' !in g
        {
          assert rest[0] in rest && (g == [s[0]] + rest[0] || g in rest);
        }
      }
    }
  }

  lemma JoinWithLongerHead(c: char, segments: seq<string>)
    requires segments != []
    ensures Join([[c] + segments[0]] + segments[1..]) == [c] + Join(segments)
  {
    var longer := [[c] + segments[0]] + segments[1..];
    if |segments| > 1 {
      assert longer[1..] == segments[1..];
      var tail := Join(segments[1..]);
      assert ([c] + segments[0]) + "/" + tail == [c] + (segments[0] + "/" + tail);
    }
  }

  /** The byte test at a boundary is the test that one segment list begins the other. */
  lemma {:induction false} BoundaryIsSegmentPrefix(path: string, prefix: string)
    ensures AtBoundary(path, prefix) <==> Split(prefix) <= Split(path)
  {
    if prefix == [] {
      assert path != [] && path[0] != '/' ==> Split(path)[0] != "";
    } else if path != [] {
      BoundaryIsSegmentPrefix(path[1..], prefix[1..]);
      var p, q := Split(prefix[1..]), Split(path[1..]);
      assert prefix == [prefix[0]] + prefix[1..] && path == [path[0]] + path[1..];
      if path[0] == prefix[0] {
        assert AtBoundary(path, prefix) <==> AtBoundary(path[1..], prefix[1..]);
        SlashExtends(p, q);
        CharExtends(path[0], p, q);
      } else {
        assert !AtBoundary(path, prefix);
        if path[0] == '/' {
          assert Split(path)[0] == "" && Split(prefix)[0] != "";
        } else if prefix[0] == '/' {
          assert Split(prefix)[0] == "" && Split(path)[0] != "";
        } else {
          assert Split(path)[0][0] == path[0] && Split(prefix)[0][0] == prefix[0];
        }
      }
    }
  }

  lemma SlashExtends(p: seq<string>, q: seq<string>)
    ensures [""] + p <= [""] + q <==> p <= q
  {
    assert ([""] + p)[1..] == p && ([""] + q)[1..] == q;
    if [""] + p <= [""] + q {
      assert forall k :: 0 <= k < |p| ==> p[k] == ([""] + p)[k + 1] && q[k] == ([""] + q)[k + 1];
    }
  }

  lemma CharExtends(c: char, p: seq<string>, q: seq<string>)
    requires p != [] && q != []
    ensures [[c] + p[0]] + p[1..] <= [[c] + q[0]] + q[1..] <==> p <= q
  {
    var x, y := [[c] + p[0]] + p[1..], [[c] + q[0]] + q[1..];
    assert x[0][1..] == p[0] && y[0][1..] == q[0];
    assert forall k :: 1 <= k < |p| ==> p[k] == x[k];
    assert forall k :: 1 <= k < |q| ==> q[k] == y[k];
    if x <= y {
      assert forall k :: 0 <= k < |p| ==> p[k] == q[k];
    }
    if p <= q {
      assert forall k :: 0 <= k < |x| ==> x[k] == y[k];
    }
  }

  /** A path matches a prefix other than "/" exactly at segment boundaries; "/" matches everything. */
  lemma PathMatchesSegments(path: string, prefix: string)
    ensures PathMatches(path, prefix) <==> prefix == "/" || Split(TrimSlashes(prefix)) <= Split(path)
  {
    BoundaryIsSegmentPrefix(path, TrimSlashes(prefix));
  }

  // ----- Stripping -----

  function ForwardPath(path: string, route: RouteConfig): string {
    if !route.stripPathPrefix || route.matches.pathPrefix == "/" then path
    else
      var prefix := TrimSlashes(route.matches.pathPrefix);
      var stripped := if prefix <= path then path[|prefix|..] else path;
      if stripped == [] then "/" else stripped
  }

  /**
   For a matched request path the forwarded path starts with a slash, and the trimmed prefix put
   back in front rebuilds the request path; only the bare prefix itself becomes "/".
   */
  lemma StripRoundTrip(path: string, route: RouteConfig)
    requires "/" <= path && PathMatches(path, route.matches.pathPrefix)
    ensures var forwarded := ForwardPath(path, route);
      var prefix := if route.stripPathPrefix && route.matches.pathPrefix != "/"
                    then TrimSlashes(route.matches.pathPrefix) else "";
      && "/" <= forwarded
      && prefix + forwarded == (if path == prefix then path + "/" else path)
  {
  }

  /** Two matched paths are forwarded alike only if equal, or if they are the prefix with and without a slash. */
  lemma StripIsNearlyInjective(path: string, other: string, route: RouteConfig)
    requires "/" <= path && "/" <= other
    requires PathMatches(path, route.matches.pathPrefix) && PathMatches(other, route.matches.pathPrefix)
    requires ForwardPath(path, route) == ForwardPath(other, route)
    ensures path == other || path == other + "/" || other == path + "/"
  {
    StripRoundTrip(path, route);
    StripRoundTrip(other, route);
  }
}
