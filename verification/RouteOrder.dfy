/** When the order of the configured routes decides which one answers. */
module RouteOrder {
  import opened Basics
  import opened Text
  import opened Config
  import opened Routing

  function Norm(host: string): string {
    Lower(StripPort(host))
  }

  predicate SameHost(a: Option<string>, b: Option<string>) {
    match (a, b)
    case (None, None) => true
    case (Some(x), Some(y)) => Norm(x) == Norm(y)
    case _ => false
  }

  /** One prefix, trimmed, lies on the other: some path matches both. */
  predicate SharePath(p: string, q: string) {
    PathMatches(TrimSlashes(p), q) || PathMatches(TrimSlashes(q), p)
  }

  /** Two routes no rule prefers, that some request matches both. */
  predicate Ambiguous(a: RouteConfig, b: RouteConfig) {
    && |a.matches.pathPrefix| == |b.matches.pathPrefix|
    && SameHost(a.matches.host, b.matches.host)
    && SharePath(a.matches.pathPrefix, b.matches.pathPrefix)
  }

  lemma NestedPrefixes(path: string, p: string, q: string)
    requires AtBoundary(path, p) && AtBoundary(path, q) && |p| <= |q|
    ensures AtBoundary(q, p)
  {
    assert p == path[..|p|] && q == path[..|q|];
    assert q[..|p|] == p;
  }

  /** The static test is exact: it holds when and only when a request path matches both prefixes. */
  lemma SharePathIsExact(p: string, q: string)
    requires "/" <= p && "/" <= q
    ensures SharePath(p, q) <==> exists path: string :: "/" <= path && PathMatches(path, p) && PathMatches(path, q)
  {
    if SharePath(p, q) {
      var path := if PathMatches(TrimSlashes(p), q) then CommonPath(p, q) else CommonPath(q, p);
      assert "/" <= path && PathMatches(path, p) && PathMatches(path, q);
    }
    if path: string :| "/" <= path && PathMatches(path, p) && PathMatches(path, q) {
      if p != "/" && q != "/" {
        if |TrimSlashes(p)| <= |TrimSlashes(q)| {
          NestedPrefixes(path, TrimSlashes(p), TrimSlashes(q));
        } else {
          NestedPrefixes(path, TrimSlashes(q), TrimSlashes(p));
        }
      }
    }
  }

  /** A request path on both prefixes, the first one trimmed lying on the second. */
  function CommonPath(p: string, q: string): (path: string)
    requires "/" <= p && "/" <= q && PathMatches(TrimSlashes(p), q)
    ensures "/" <= path && PathMatches(path, p) && PathMatches(path, q)
  {
    if TrimSlashes(p) == [] then "/" else TrimSlashes(p)
  }

  lemma TieMeansAmbiguous(a: RouteConfig, b: RouteConfig, host: Option<string>, path: string)
    requires "/" <= a.matches.pathPrefix && "/" <= b.matches.pathPrefix && "/" <= path
    requires Matches(a, host, path) && Matches(b, host, path) && !Better(a, b) && !Better(b, a)
    ensures Ambiguous(a, b)
  {
    SharePathIsExact(a.matches.pathPrefix, b.matches.pathPrefix);
  }

  // ----- Requests on a pair of routes -----

  /** The shortest request path on two prefixes that share one: the longer of them, trimmed. */
  function Meet(p: string, q: string): string {
    var longer := if |TrimSlashes(p)| >= |TrimSlashes(q)| then TrimSlashes(p) else TrimSlashes(q);
    if longer == [] then "/" else longer
  }

  lemma BoundaryIsTransitive(path: string, middle: string, p: string)
    requires AtBoundary(path, middle) && AtBoundary(middle, p)
    ensures AtBoundary(path, p)
  {
    assert p <= middle <= path;
  }

  /** The meet of two prefixes lies on both. */
  lemma MeetLiesOnBoth(p: string, q: string)
    requires "/" <= p && "/" <= q && SharePath(p, q)
    ensures "/" <= Meet(p, q) && PathMatches(Meet(p, q), p) && PathMatches(Meet(p, q), q)
  {
    var tp, tq := TrimSlashes(p), TrimSlashes(q);
    assert |tp| >= |tq| || |tq| >= |tp|;
    if tp == [] && tq == [] {
    } else if q != "/" && p != "/" {
      assert AtBoundary(tp, tq) || AtBoundary(tq, tp);
    }
  }

  /** A prefix the meet lies on has every path on it that both prefixes have. */
  lemma MeetIsShortest(p: string, q: string, path: string, c: string)
    requires "/" <= p && "/" <= q && "/" <= c && "/" <= path
    requires PathMatches(path, p) && PathMatches(path, q) && PathMatches(Meet(p, q), c)
    ensures PathMatches(path, c)
  {
    if c != "/" && Meet(p, q) != "/" {
      BoundaryIsTransitive(path, Meet(p, q), TrimSlashes(c));
    }
  }

  /** A request host that meets exactly the routes with the constraint `want`, and those with none. */
  function HostFor(routes: seq<RouteConfig>, want: Option<string>): (host: string)
    ensures want.Some? ==> host == want.value
    ensures want.None? ==> forall r :: r in routes && r.matches.host.Some? ==> |host| > |r.matches.host.value|
    ensures want.None? ==> forall c :: c in host ==> c == 'a'
  {
    if want.Some? then want.value
    else if routes == [] then "a"
    else
      var init, last := routes[..|routes| - 1], routes[|routes| - 1].matches.host;
      assert forall r :: r in routes ==> r in init || r.matches.host == last;
      var host := HostFor(init, None);
      if last.Some? && |last.value| >= |host| then seq(|last.value| + 1, _ => 'a') else host
  }

  lemma {:induction false} NoPortToStrip(host: string)
    requires ':' !in host
    ensures StripPort(host) == host
  {
    if host != [] {
      NoPortToStrip(host[1..]);
    }
  }

  lemma HostForIsExact(routes: seq<RouteConfig>, want: Option<string>, c: RouteConfig)
    requires c in routes
    ensures HostMatches(c.matches.host, Some(HostFor(routes, want)))
            <==> c.matches.host.None? || SameHost(c.matches.host, want)
  {
    var host := HostFor(routes, want);
    if want.None? && c.matches.host.Some? {
      assert ':' !in host;
      NoPortToStrip(host);
      assert |Lower(StripPort(host))| > |Lower(StripPort(c.matches.host.value))|;
    }
  }

  // ----- The exact condition -----

  /** Every request that matches both routes of an ambiguous pair prefers `c` to either. */
  predicate Shadows(c: RouteConfig, a: RouteConfig, b: RouteConfig) {
    && Better(c, a)
    && (c.matches.host.None? || SameHost(c.matches.host, a.matches.host))
    && PathMatches(Meet(a.matches.pathPrefix, b.matches.pathPrefix), c.matches.pathPrefix)
  }

  /** Two different routes tie on some request on which no other route beats them. */
  ghost predicate OpenTie(routes: seq<RouteConfig>, a: RouteConfig, b: RouteConfig) {
    && a in routes && b in routes && a != b && Ambiguous(a, b)
    && forall c :: c in routes ==> !Shadows(c, a, b)
  }

  /** A rearrangement of the table answers some request differently. */
  ghost predicate OrderMatters(routes: seq<RouteConfig>) {
    exists permuted, host, path, r, r' ::
      Differ(routes, permuted, host, path, r, r')
  }

  ghost predicate Differ(routes: seq<RouteConfig>, permuted: seq<RouteConfig>, host: Option<string>, path: string,
                         r: Option<RouteConfig>, r': Option<RouteConfig>) {
    && multiset(permuted) == multiset(routes) && "/" <= path
    && Resolves(routes, host, path, r) && Resolves(permuted, host, path, r') && r != r'
  }

  ghost predicate Slashed(routes: seq<RouteConfig>) {
    forall a :: a in routes ==> "/" <= a.matches.pathPrefix
  }

  lemma ShadowBeatsBoth(c: RouteConfig, a: RouteConfig, b: RouteConfig, host: Option<string>, path: string)
    requires "/" <= a.matches.pathPrefix && "/" <= b.matches.pathPrefix && "/" <= c.matches.pathPrefix && "/" <= path
    requires Matches(a, host, path) && Matches(b, host, path) && Shadows(c, a, b)
    ensures Matches(c, host, path) && Better(c, a)
  {
    MeetIsShortest(a.matches.pathPrefix, b.matches.pathPrefix, path, c.matches.pathPrefix);
  }

  lemma SameMembers(routes: seq<RouteConfig>, permuted: seq<RouteConfig>)
    requires multiset(routes) == multiset(permuted)
    ensures forall a :: a in routes <==> a in permuted
  {
    forall a
      ensures a in routes <==> a in permuted
    {
      assert a in routes <==> a in multiset(routes);
      assert a in permuted <==> a in multiset(permuted);
    }
  }

  lemma BeatenByNone(routes: seq<RouteConfig>, host: Option<string>, path: string, a: RouteConfig, b: RouteConfig)
    requires Resolves(routes, host, path, Some(a)) && b in routes && Matches(b, host, path)
    ensures Matches(a, host, path) && !Better(b, a)
  {
    var j :| 0 <= j < |routes| && routes[j] == b;
    var i: nat :| IsBest(routes, i, host, path) && routes[i] == a;
  }

  /** Different answers come from a tie that nothing in the table beats. */
  lemma DifferenceIsOpenTie(routes: seq<RouteConfig>, permuted: seq<RouteConfig>, host: Option<string>, path: string,
                            r: Option<RouteConfig>, r': Option<RouteConfig>)
    requires Slashed(routes) && Differ(routes, permuted, host, path, r, r')
    ensures r.Some? && r'.Some? && OpenTie(routes, r.value, r'.value)
  {
    SameMembers(routes, permuted);
    if r.Some? {
      var i: nat :| IsBest(routes, i, host, path) && routes[i] == r.value;
      assert r.value in permuted;
    }
    if r'.Some? {
      var i: nat :| IsBest(permuted, i, host, path) && permuted[i] == r'.value;
      assert r'.value in routes;
    }
    var a, b := r.value, r'.value;
    BeatenByNone(routes, host, path, a, b);
    BeatenByNone(permuted, host, path, b, a);
    TieMeansAmbiguous(a, b, host, path);
    forall c | c in routes
      ensures !Shadows(c, a, b)
    {
      if Shadows(c, a, b) {
        ShadowBeatsBoth(c, a, b, host, path);
        BeatenByNone(routes, host, path, a, c);
      }
    }
  }

  /** The table with one of its routes moved to the front. */
  lemma MovedToFront(routes: seq<RouteConfig>, a: RouteConfig) returns (permuted: seq<RouteConfig>)
    requires a in routes
    ensures multiset(permuted) == multiset(routes) && permuted != [] && permuted[0] == a
  {
    var i :| 0 <= i < |routes| && routes[i] == a;
    assert routes == routes[..i] + [a] + routes[i + 1..];
    permuted := [a] + routes[..i] + routes[i + 1..];
  }

  /** A route that no matching route of the table beats answers from the front. */
  lemma FrontAnswers(routes: seq<RouteConfig>, permuted: seq<RouteConfig>, host: Option<string>, path: string,
                     a: RouteConfig)
    requires multiset(permuted) == multiset(routes) && permuted != [] && permuted[0] == a
    requires Matches(a, host, path)
    requires forall c :: c in routes && Matches(c, host, path) ==> !Better(c, a)
    ensures Resolves(permuted, host, path, Some(a))
  {
    SameMembers(routes, permuted);
    assert forall j :: 0 <= j < |permuted| ==> permuted[j] in permuted;
    assert IsBest(permuted, 0, host, path);
  }

  lemma SomeAnswer(routes: seq<RouteConfig>, host: Option<string>, path: string) returns (r: Option<RouteConfig>)
    ensures Resolves(routes, host, path, r)
  {
    var best: Option<nat> := None;
    var hits := MatchList(routes, host, path);
    for k := 0 to |routes|
      invariant BestSoFar(routes, hits, k, best)
    {
      if hits[k] && (best.None? || Better(routes[k], routes[best.value])) {
        TakeOver(routes, hits, k, best);
        best := Some(k);
      } else {
        PassOver(routes, hits, k, best);
      }
    }
    BestOverall(routes, host, path, best);
    r := if best.None? then None else Some(routes[best.value]);
  }

  lemma OpenTieDiffers(routes: seq<RouteConfig>, a: RouteConfig, b: RouteConfig)
    requires Slashed(routes) && OpenTie(routes, a, b)
    ensures OrderMatters(routes)
  {
    var p, q := a.matches.pathPrefix, b.matches.pathPrefix;
    var host, path := Some(HostFor(routes, a.matches.host)), Meet(p, q);
    MeetLiesOnBoth(p, q);
    forall c | c in routes
      ensures Matches(c, host, path) <==>
              && (c.matches.host.None? || SameHost(c.matches.host, a.matches.host))
              && PathMatches(path, c.matches.pathPrefix)
    {
      HostForIsExact(routes, a.matches.host, c);
    }
    forall c | c in routes && Matches(c, host, path)
      ensures !Better(c, a) && !Better(c, b)
    {
      assert !Shadows(c, a, b);
    }
    var r := SomeAnswer(routes, host, path);
    var other := if r == Some(a) then b else a;
    var permuted := MovedToFront(routes, other);
    FrontAnswers(routes, permuted, host, path, other);
    assert Differ(routes, permuted, host, path, r, Some(other));
  }

  /**
   The order of a table matters exactly when two of its routes tie on a request on which no route
   of the table beats them: a condition on the configured hosts and prefixes alone.
   */
  lemma OrderMattersIffOpenTie(routes: seq<RouteConfig>)
    requires Slashed(routes)
    ensures OrderMatters(routes) <==> exists a, b :: OpenTie(routes, a, b)
  {
    if OrderMatters(routes) {
      var permuted, host, path, r, r' :| Differ(routes, permuted, host, path, r, r');
      DifferenceIsOpenTie(routes, permuted, host, path, r, r');
    }
    if a, b :| OpenTie(routes, a, b) {
      OpenTieDiffers(routes, a, b);
    }
  }

  /** A table without such a pair answers every request the same in any order. */
  lemma OrderIndependence(routes: seq<RouteConfig>, permuted: seq<RouteConfig>)
    requires Slashed(routes) && multiset(permuted) == multiset(routes)
    requires forall a, b :: !OpenTie(routes, a, b)
    ensures forall host, path: string, r, r' ::
              "/" <= path && Resolves(routes, host, path, r) && Resolves(permuted, host, path, r') ==> r == r'
  {
    forall host, path: string, r, r' |
      "/" <= path && Resolves(routes, host, path, r) && Resolves(permuted, host, path, r')
      ensures r == r'
    {
      if r != r' {
        DifferenceIsOpenTie(routes, permuted, host, path, r, r');
      }
    }
  }

  /** Of two routes, swapping them changes the answer to some request exactly when they are ambiguous. */
  lemma OrderMattersIffAmbiguous(a: RouteConfig, b: RouteConfig)
    requires "/" <= a.matches.pathPrefix && "/" <= b.matches.pathPrefix && a != b
    ensures Ambiguous(a, b) <==> OrderMatters([a, b])
    ensures Ambiguous(a, b) <==>
            exists host, path: string, r, r' ::
              "/" <= path && Resolves([a, b], host, path, r) && Resolves([b, a], host, path, r') && r != r'
  {
    OrderMattersIffOpenTie([a, b]);
    OpenTieOfTwo(a, b);
    if Ambiguous(a, b) {
      SwapDiffers(a, b);
    } else {
      assert multiset([b, a]) == multiset([a, b]);
      OrderIndependence([a, b], [b, a]);
    }
  }

  lemma OpenTieOfTwo(a: RouteConfig, b: RouteConfig)
    requires a != b
    ensures Ambiguous(a, b) ==> OpenTie([a, b], a, b)
    ensures forall x, y :: OpenTie([a, b], x, y) ==> Ambiguous(a, b)
  {
    assert a in [a, b] && b in [a, b];
  }

  lemma SwapDiffers(a: RouteConfig, b: RouteConfig)
    requires "/" <= a.matches.pathPrefix && "/" <= b.matches.pathPrefix && Ambiguous(a, b)
    ensures exists host, path: string ::
              "/" <= path && Resolves([a, b], host, path, Some(a)) && Resolves([b, a], host, path, Some(b))
  {
    var host, path := a.matches.host, Meet(a.matches.pathPrefix, b.matches.pathPrefix);
    MeetLiesOnBoth(a.matches.pathPrefix, b.matches.pathPrefix);
    assert Matches(a, host, path) && Matches(b, host, path);
    assert IsBest([a, b], 0, host, path) && IsBest([b, a], 0, host, path);
    assert Resolves([a, b], host, path, Some(a)) && Resolves([b, a], host, path, Some(b));
  }

  predicate Unambiguous(routes: seq<RouteConfig>) {
    forall a, b :: a in routes && b in routes && a != b ==> !Ambiguous(a, b)
  }

  predicate NoTrailingSlash(prefix: string) {
    prefix == "/" || TrimSlashes(prefix) == prefix
  }

  /** Distinct (host, prefix) pairs and no trailing slashes leave no ambiguous pair, so no order to matter. */
  lemma TidyTablesAreUnambiguous(routes: seq<RouteConfig>)
    requires forall a :: a in routes ==> "/" <= a.matches.pathPrefix && NoTrailingSlash(a.matches.pathPrefix)
    requires forall a, b :: a in routes && b in routes && a != b ==>
                              !SameHost(a.matches.host, b.matches.host) || a.matches.pathPrefix != b.matches.pathPrefix
    ensures Unambiguous(routes) && !OrderMatters(routes)
  {
    OrderMattersIffOpenTie(routes);
  }

  /** With a trailing slash two different prefixes can tie: the answer then depends on the order. */
  lemma TrailingSlashBreaksOrder(a: RouteConfig, b: RouteConfig)
    requires a.matches == MatchConfig(None, "/a//") && b.matches == MatchConfig(None, "/a/b")
    ensures Ambiguous(a, b)
    ensures Resolves([a, b], None, "/a/b", Some(a)) && Resolves([b, a], None, "/a/b", Some(b))
  {
    assert "/a//"[..3] == "/a/" && "/a/"[..2] == "/a";
    assert TrimSlashes("/a/") == "/a";
    assert TrimSlashes("/a//") == "/a";
    assert TrimSlashes("/a/b") == "/a/b";
    assert Matches(a, None, "/a/b") && Matches(b, None, "/a/b");
    assert IsBest([a, b], 0, None, "/a/b") && IsBest([b, a], 0, None, "/a/b");
  }

  /** A tie that a third route always beats is harmless: ambiguous routes, and no order to matter. */
  lemma ShadowedTieIsHarmless(a: RouteConfig, b: RouteConfig, c: RouteConfig)
    requires a.matches == MatchConfig(None, "/a//") && b.matches == MatchConfig(None, "/a/b")
    requires c.matches == MatchConfig(None, "/a/b/")
    ensures !Unambiguous([a, b, c]) && !OrderMatters([a, b, c])
  {
    ShadowFacts(a, b, c);
    ThirdSettles(a, b, c);
  }

  lemma ThirdSettles(a: RouteConfig, b: RouteConfig, c: RouteConfig)
    requires Slashed([a, b, c]) && a != b && Ambiguous(a, b) && Shadows(c, a, b) && Shadows(c, b, a)
    requires !Ambiguous(a, c) && !Ambiguous(c, a) && !Ambiguous(b, c) && !Ambiguous(c, b)
    ensures !Unambiguous([a, b, c]) && !OrderMatters([a, b, c])
  {
    var routes := [a, b, c];
    assert a in routes && b in routes && c in routes && forall r :: r in routes ==> r == a || r == b || r == c;
    NoOpenTie(routes, a, b, c);
    OrderMattersIffOpenTie(routes);
  }

  lemma NoOpenTie(routes: seq<RouteConfig>, a: RouteConfig, b: RouteConfig, c: RouteConfig)
    requires forall r :: r in routes ==> r == a || r == b || r == c
    requires c in routes && Shadows(c, a, b) && Shadows(c, b, a)
    requires !Ambiguous(a, c) && !Ambiguous(c, a) && !Ambiguous(b, c) && !Ambiguous(c, b)
    ensures forall x, y :: !OpenTie(routes, x, y)
  {
  }

  lemma ShadowFacts(a: RouteConfig, b: RouteConfig, c: RouteConfig)
    requires a.matches == MatchConfig(None, "/a//") && b.matches == MatchConfig(None, "/a/b")
    requires c.matches == MatchConfig(None, "/a/b/")
    ensures Slashed([a, b, c]) && a != b && Ambiguous(a, b) && Shadows(c, a, b) && Shadows(c, b, a)
    ensures !Ambiguous(a, c) && !Ambiguous(c, a) && !Ambiguous(b, c) && !Ambiguous(c, b)
  {
    assert "/a//"[..3] == "/a/" && "/a/"[..2] == "/a" && "/a/b/"[..4] == "/a/b";
    assert TrimSlashes("/a/") == "/a";
    assert TrimSlashes("/a//") == "/a" && TrimSlashes("/a/b") == "/a/b" && TrimSlashes("/a/b/") == "/a/b";
  }
}
