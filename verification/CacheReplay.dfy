/** Storing a response on a miss and replaying it on a hit. */
module CacheReplay {
  import opened Basics
  import opened Config
  import opened Headers
  import opened Text
  import opened ResponseCaching

  const CORRELATION_HEADER := "x-request-id"
  const CACHE_HEADER := "x-cache"

  /** The headers of an upstream response on their way out, before the cache marker. */
  function Outgoing(upstream: Fields, t: HeaderTransforms, correlation: string): Fields {
    SetOne(Transformed(EndToEnd(upstream), t), CORRELATION_HEADER, correlation)
  }

  function Missed(upstream: Fields, t: HeaderTransforms, correlation: string): Fields {
    SetOne(Outgoing(upstream, t, correlation), CACHE_HEADER, "MISS")
  }

  /** Only text survives into the cache. */
  function Storable(f: Fields): Fields {
    if f == [] then []
    else
      var last := f[|f| - 1];
      if Visible(last.1) then Storable(f[..|f| - 1]) + [last] else Storable(f[..|f| - 1])
  }

  /** Replay inserts pair after pair, so the last value of a name wins. */
  function Rebuilt(pairs: Fields): Fields {
    if pairs == [] then [] else SetOne(Rebuilt(pairs[..|pairs| - 1]), pairs[|pairs| - 1].0, pairs[|pairs| - 1].1)
  }

  function Replayed(pairs: Fields, t: HeaderTransforms, correlation: string): Fields {
    SetOne(SetOne(Transformed(Rebuilt(pairs), t), CACHE_HEADER, "HIT"), CORRELATION_HEADER, correlation)
  }

  // ----- Header by header -----

  function VisibleOnly(values: seq<string>): seq<string> {
    if values == [] then []
    else
      var last := values[|values| - 1];
      if Visible(last) then VisibleOnly(values[..|values| - 1]) + [last] else VisibleOnly(values[..|values| - 1])
  }

  function LastOf(values: seq<string>): seq<string> {
    if values == [] then [] else [values[|values| - 1]]
  }

  lemma {:induction false} StorablePerName(f: Fields, name: string)
    ensures Values(Storable(f), name) == VisibleOnly(Values(f, name))
  {
    if f != [] {
      var init, last := f[..|f| - 1], f[|f| - 1];
      StorablePerName(init, name);
      if Visible(last.1) {
        ValuesSnoc(Storable(init), last, name);
      }
      if last.0 == name {
        assert Values(f, name) == Values(init, name) + [last.1];
        assert Values(f, name)[..|Values(init, name)|] == Values(init, name);
      }
    }
  }

  lemma {:induction false} StorableIsPart(f: Fields)
    ensures forall p :: p in Storable(f) ==> p in f && Visible(p.1)
  {
    if f != [] {
      StorableIsPart(f[..|f| - 1]);
    }
  }

  lemma CanonicalSplits(pairs: Fields)
    requires Canonical(pairs) && pairs != []
    ensures Canonical(pairs[..|pairs| - 1])
    ensures ParseName(pairs[|pairs| - 1].0) == Some(pairs[|pairs| - 1].0) && ValueOk(pairs[|pairs| - 1].1)
  {
    assert pairs[|pairs| - 1] in pairs;
  }

  lemma {:induction false} RebuiltPerName(pairs: Fields, name: string)
    requires Canonical(pairs)
    ensures Values(Rebuilt(pairs), name) == LastOf(Values(pairs, name))
  {
    if pairs != [] {
      var init, last := pairs[..|pairs| - 1], pairs[|pairs| - 1];
      CanonicalSplits(pairs);
      RebuiltPerName(init, name);
      SetOnePerName(Rebuilt(init), last.0, last.1, name);
    }
  }

  lemma SetOneKeepsCanonical(f: Fields, name: string, value: string)
    requires Canonical(f)
    ensures Canonical(SetOne(f, name, value))
  {
    ParseNameIsIdempotent(name);
    if ParseName(name).Some? && ValueOk(value) {
      WithoutIsPart(f, ParseName(name).value);
    }
  }

  lemma {:induction false} RemoveAllKeepsCanonical(f: Fields, names: seq<string>)
    requires Canonical(f)
    ensures Canonical(RemoveAll(f, names))
  {
    if names != [] {
      var init := names[..|names| - 1];
      RemoveAllKeepsCanonical(f, init);
      if ParseName(names[|names| - 1]).Some? {
        WithoutIsPart(RemoveAll(f, init), ParseName(names[|names| - 1]).value);
      }
    }
  }

  lemma {:induction false} AddAllKeepsCanonical(f: Fields, adds: seq<(string, string)>)
    requires Canonical(f)
    ensures Canonical(AddAll(f, adds))
  {
    if adds != [] {
      var init := adds[..|adds| - 1];
      AddAllKeepsCanonical(f, init);
      SetOneKeepsCanonical(AddAll(f, init), adds[|adds| - 1].0, adds[|adds| - 1].1);
    }
  }

  lemma OutgoingIsCanonical(upstream: Fields, t: HeaderTransforms, correlation: string)
    requires Canonical(upstream)
    ensures Canonical(Outgoing(upstream, t, correlation))
  {
    EndToEndPerName(upstream, "");
    RemoveAllKeepsCanonical(EndToEnd(upstream), t.remove);
    AddAllKeepsCanonical(RemoveAll(EndToEnd(upstream), t.remove), t.add);
    SetOneKeepsCanonical(Transformed(EndToEnd(upstream), t), CORRELATION_HEADER, correlation);
  }

  lemma SetOnePerName(f: Fields, name: string, value: string, other: string)
    requires ParseName(name) == Some(name)
    ensures Values(SetOne(f, name, value), other)
            == if other == name && ValueOk(value) then [value] else Values(f, other)
  {
    if ValueOk(value) {
      ValuesInserted(f, name, value, other);
    }
  }

  lemma MarkerNamesAreCanonical()
    ensures ParseName(CORRELATION_HEADER) == Some(CORRELATION_HEADER)
    ensures ParseName(CACHE_HEADER) == Some(CACHE_HEADER)
    ensures ValueOk("HIT") && ValueOk("MISS")
  {
    assert Lower(CORRELATION_HEADER) == CORRELATION_HEADER;
    assert Lower(CACHE_HEADER) == CACHE_HEADER;
  }

  /** The values a client sees on the miss for one header. */
  function Shown(upstream: Fields, t: HeaderTransforms, name: string): seq<string> {
    Values(Transformed(EndToEnd(upstream), t), name)
  }

  lemma MissPerName(upstream: Fields, t: HeaderTransforms, correlation: string, name: string)
    ensures Values(Missed(upstream, t, correlation), name)
            == if name == CACHE_HEADER then ["MISS"]
               else if name == CORRELATION_HEADER && ValueOk(correlation) then [correlation]
               else Shown(upstream, t, name)
  {
    MarkerNamesAreCanonical();
    SetOnePerName(Transformed(EndToEnd(upstream), t), CORRELATION_HEADER, correlation, name);
    SetOnePerName(Outgoing(upstream, t, correlation), CACHE_HEADER, "MISS", name);
  }

  /** A hit shows an added value again, and of any other header the last value that was text. */
  lemma HitPerName(upstream: Fields, t: HeaderTransforms, stored: string, correlation: string, name: string)
    requires Canonical(upstream) && ValueOk(correlation) && name != CORRELATION_HEADER
    ensures Values(Replayed(Storable(Outgoing(upstream, t, stored)), t, correlation), name)
            == if name == CACHE_HEADER then ["HIT"]
               else if AddedValue(t.add, name).Some? then Shown(upstream, t, name)
               else LastOf(VisibleOnly(Shown(upstream, t, name)))
  {
    MarkerNamesAreCanonical();
    var out := Outgoing(upstream, t, stored);
    var pairs := Storable(out);
    OutgoingIsCanonical(upstream, t, stored);
    StorablePerName(out, name);
    StorableIsPart(out);
    RebuiltPerName(pairs, name);
    SetOnePerName(Transformed(EndToEnd(upstream), t), CORRELATION_HEADER, stored, name);
    TransformPerName(EndToEnd(upstream), t, name);
    TransformPerName(Rebuilt(pairs), t, name);
    SetOnePerName(Transformed(Rebuilt(pairs), t), CACHE_HEADER, "HIT", name);
    SetOnePerName(SetOne(Transformed(Rebuilt(pairs), t), CACHE_HEADER, "HIT"), CORRELATION_HEADER, correlation, name);
  }

  /** Of a header like this a hit shows what the miss showed: a condition on configuration and response alone. */
  predicate Repeatable(upstream: Fields, t: HeaderTransforms, name: string) {
    || AddedValue(t.add, name).Some?
    || RemovesName(t.remove, name)
    || IsHopByHop(name)
    || var values := Values(upstream, name);
       values == [] || (|values| == 1 && Visible(values[0]))
  }

  /**
   A hit shows the same values as the miss that stored it, header by header, exactly when the
   header is added or removed by the transforms, hop-by-hop, absent from the upstream's response,
   or single-valued visible text there. The cache marker and the correlation id are the only
   headers meant to differ.
   */
  lemma ReplayIsTransparent(upstream: Fields, t: HeaderTransforms, stored: string, correlation: string, name: string)
    requires Canonical(upstream) && ValueOk(correlation)
    requires name != CACHE_HEADER && name != CORRELATION_HEADER
    ensures Values(Replayed(Storable(Outgoing(upstream, t, stored)), t, correlation), name)
            == Values(Missed(upstream, t, stored), name)
            <==> Repeatable(upstream, t, name)
  {
    HitPerName(upstream, t, stored, correlation, name);
    MissPerName(upstream, t, stored, name);
    TransformPerName(EndToEnd(upstream), t, name);
    EndToEndPerName(upstream, name);
    LastIsAllIffSingle(Shown(upstream, t, name));
  }

  lemma LastIsAllIffSingle(values: seq<string>)
    ensures LastOf(VisibleOnly(values)) == values <==> values == [] || (|values| == 1 && Visible(values[0]))
  {
    if |values| == 1 {
      var only := values[0];
      assert values == [only] && values[..0] == [];
      assert VisibleOnly(values) == if Visible(only) then [only] else [];
    } else if |values| > 1 {
      assert |LastOf(VisibleOnly(values))| < |values|;
    }
  }

  /** A response with two values for one header is not replayed as it was shown. */
  lemma RepeatedHeaderCollapses(correlation: string)
    requires ValueOk(correlation)
    ensures var upstream: Fields := [("link", "a"), ("link", "b")];
      var t := HeaderTransforms([], []);
      && Values(Missed(upstream, t, correlation), "link") == ["a", "b"]
      && Values(Replayed(Storable(Outgoing(upstream, t, correlation)), t, correlation), "link") == ["b"]
  {
    var upstream: Fields := [("link", "a"), ("link", "b")];
    var t := HeaderTransforms([], []);
    LinksAreCanonical(upstream);
    LinkIsShownTwice(upstream, t);
    HitPerName(upstream, t, correlation, correlation, "link");
    MissPerName(upstream, t, correlation, "link");
    LastOfTwo("a", "b");
  }

  lemma LastOfTwo(x: string, y: string)
    requires Visible(y)
    ensures LastOf(VisibleOnly([x, y])) == [y]
  {
    assert [x, y][..1] == [x];
  }

  lemma LinksAreCanonical(upstream: Fields)
    requires upstream == [("link", "a"), ("link", "b")]
    ensures Canonical(upstream) && AddedValue([], "link").None?
  {
    assert Lower("link") == "link";
  }

  lemma LinkIsShownTwice(upstream: Fields, t: HeaderTransforms)
    requires upstream == [("link", "a"), ("link", "b")] && t == HeaderTransforms([], [])
    ensures Shown(upstream, t, "link") == ["a", "b"]
  {
    TransformPerName(EndToEnd(upstream), t, "link");
    EndToEndPerName(upstream, "link");
    assert Lower("link") == "link";
    TwoLinks(upstream);
  }

  lemma TwoLinks(upstream: Fields)
    requires upstream == [("link", "a"), ("link", "b")]
    ensures Values(upstream, "link") == ["a", "b"]
  {
    assert upstream[..1] == [("link", "a")] && upstream[..1][..0] == [];
    assert Values(upstream[..1], "link") == ["a"];
  }

  // ----- The handlers -----

  /** No `Cache-Control` that can be read forbids storing. */
  predicate ResponseCacheable(upstream: Fields) {
    var values := Values(upstream, "cache-control");
    values != [] && Visible(values[0]) ==>
      var v := Lower(values[0]);
      !(Contains(v, "no-store") || Contains(v, "private") || Contains(v, "no-cache"))
  }

  /** The first cache-control value is text that says not to keep the response. */
  ghost predicate Forbidden(values: seq<string>) {
    && values != [] && (forall c :: c in values[0] ==> c == '\t' || ' ' <= c <= '~')
    && exists i: nat ::
         || SpelledAt(values[0], i, "no-store")
         || SpelledAt(values[0], i, "private")
         || SpelledAt(values[0], i, "no-cache")
  }

  /** Does the client's request ask to go past the cache? */
  predicate Bypasses(request: Fields) {
    var values := Values(request, "cache-control");
    values != [] && Visible(values[0]) &&
    var v := Lower(values[0]);
    Contains(v, "no-cache") || Contains(v, "no-store")
  }

  /** The cache is consulted on a route that has one, for a GET that does not go past it. */
  predicate CacheEnabled(hasCache: bool, method': string, request: Fields) {
    hasCache && method' == "GET" && !Bypasses(request)
  }

  lemma CacheEnabledExactly(hasCache: bool, method': string, request: Fields)
    ensures var values := Values(request, "cache-control");
      CacheEnabled(hasCache, method', request) <==>
      && hasCache && method' == "GET"
      && !(values != [] && (forall c :: c in values[0] ==> c == '\t' || ' ' <= c <= '~')
           && exists i: nat :: SpelledAt(values[0], i, "no-cache") || SpelledAt(values[0], i, "no-store"))
  {
    assert Lower("no-store") == "no-store" && Lower("no-cache") == "no-cache";
    var values := Values(request, "cache-control");
    if values != [] {
      FoundInAnyCase(values[0], "no-cache");
      FoundInAnyCase(values[0], "no-store");
    }
  }

  /** Exactly a 200 that is not forbidden is kept, on a request for which the cache is on. */
  lemma StoresExactly(cacheEnabled: bool, status: nat, upstream: Fields)
    ensures Stores(cacheEnabled, status, upstream)
            <==> cacheEnabled && status == 200 && !Forbidden(Values(upstream, "cache-control"))
  {
    assert Lower("no-store") == "no-store" && Lower("private") == "private" && Lower("no-cache") == "no-cache";
    var values := Values(upstream, "cache-control");
    if values != [] {
      FoundInAnyCase(values[0], "no-store");
      FoundInAnyCase(values[0], "private");
      FoundInAnyCase(values[0], "no-cache");
    }
  }

  /** Is the response kept for later? */
  predicate Stores(cacheEnabled: bool, status: nat, upstream: Fields) {
    cacheEnabled && status == OK && ResponseCacheable(upstream)
  }

  /** The headers of the gateway's own error responses. */
  function ErrorHeaders(correlation: string): Fields {
    SetOne(SetOne([], "content-type", "application/json"), CORRELATION_HEADER, correlation)
  }

  const OK: nat := 200
  const BAD_GATEWAY: nat := 502

  const READ_FAILED := "{\"error\":\"upstream read failed\"}"

  /**
   The way of an upstream's response to the client. What is stored is what is shown, less the
   cache marker and whatever is not text. `body` is None when reading it fails: a body to be stored
   is read first, and then the client gets an error and nothing is stored; any other is streamed,
   and the client's stream fails too.
   */
  method FinishResponse(upstream: HeaderMap, status: nat, body: Option<string>, t: HeaderTransforms,
                        cache: ResponseCache, cacheEnabled: bool, key: string, correlation: string,
                        now: nat, later: nat)
    returns (sent: nat, out: HeaderMap, shown: Option<string>)
    requires cache.Valid()
    modifies cache
    ensures cache.Valid() && fresh(out)
    ensures var stores := Stores(cacheEnabled, status, upstream.fields);
      if stores && body.None? then
        && sent == 502 && shown == Some("{\"error\":\"upstream read failed\"}")
        && out.fields == ErrorHeaders(correlation)
        && cache.history == old(cache.history)
      else
        && sent == status && shown == body
        && out.fields == (if cacheEnabled then Missed(upstream.fields, t, correlation)
                          else Outgoing(upstream.fields, t, correlation))
        && if stores then
             Held(cache.history, cache.ttl, key)
             == Some(CachedResponse(status, Storable(Outgoing(upstream.fields, t, correlation)), body.value,
                                    later + cache.ttl))
           else
             cache.history == old(cache.history)
    ensures var forbidden := Forbidden(Values(upstream.fields, "cache-control"));
      && (!cacheEnabled || status != 200 || forbidden || body.None? ==> cache.history == old(cache.history))
      && (cacheEnabled && status == 200 && !forbidden && body.Some? ==>
            var held := Held(cache.history, cache.ttl, key);
            held.Some? && held.value.status == 200 && held.value.body == body.value)
  {
    StoresExactly(cacheEnabled, status, upstream.fields);
    sent, shown := status, body;
    out := FilteredResponseHeaders(upstream);
    ApplyTransforms(out, t);
    out.Set(CORRELATION_HEADER, correlation);
    if cacheEnabled && status == OK && ResponseCacheable(upstream.fields) {
      if body.None? {
        out := new HeaderMap();
        out.Set("content-type", "application/json");
        out.Set(CORRELATION_HEADER, correlation);
        return BAD_GATEWAY, out, Some(READ_FAILED);
      }
      var pairs := StorablePairs(out);
      ghost var victim := cache.PutResponse(key, status, pairs, body.value, now, later);
      out.Set(CACHE_HEADER, "MISS");
    } else if cacheEnabled {
      out.Set(CACHE_HEADER, "MISS");
    }
  }

  /** The pairs of a header map whose values are text. */
  method StorablePairs(headers: HeaderMap) returns (pairs: Fields)
    ensures pairs == Storable(headers.fields)
  {
    pairs := [];
    for i := 0 to |headers.fields|
      invariant pairs == Storable(headers.fields[..i])
    {
      assert headers.fields[..i + 1][..i] == headers.fields[..i];
      if Visible(headers.fields[i].1) {
        pairs := pairs + [headers.fields[i]];
      }
    }
    assert headers.fields[..|headers.fields|] == headers.fields;
  }

  /** The way of a cached response to the client. */
  method ReplayResponse(hit: CachedResponse, t: HeaderTransforms, correlation: string)
    returns (status: nat, headers: HeaderMap, body: string)
    ensures fresh(headers) && headers.fields == Replayed(hit.headers, t, correlation)
    ensures body == hit.body && (100 <= hit.status < 1000 ==> status == hit.status)
  {
    headers := new HeaderMap();
    for i := 0 to |hit.headers|
      invariant fresh(headers) && headers.fields == Rebuilt(hit.headers[..i])
    {
      assert hit.headers[..i + 1][..i] == hit.headers[..i];
      headers.Set(hit.headers[i].0, hit.headers[i].1);
    }
    assert hit.headers[..|hit.headers|] == hit.headers;
    ApplyTransforms(headers, t);
    headers.Set(CACHE_HEADER, "HIT");
    headers.Set(CORRELATION_HEADER, correlation);
    status := if 100 <= hit.status < 1000 then hit.status else 200;
    body := hit.body;
  }

  /**
   A miss whose response is stored and, before the entry expires, a hit: the hit has the miss's
   status and body, the markers differ as they should, and every other header is shown as before
   exactly when it is repeatable.
   */
  method MissThenHit(upstream: HeaderMap, body: string, t: HeaderTransforms, cache: ResponseCache, key: string,
                     first: string, second: string, now: nat, later: nat, again: nat)
    returns (missStatus: nat, miss: HeaderMap, missBody: Option<string>,
             hitStatus: nat, hit: HeaderMap, hitBody: string)
    requires cache.Valid() && Canonical(upstream.fields) && !Forbidden(Values(upstream.fields, "cache-control"))
    requires ValueOk(second) && again < later + cache.ttl
    modifies cache
    ensures cache.Valid() && missStatus == hitStatus == 200 && missBody == Some(body) && hitBody == body
    ensures Values(miss.fields, "x-cache") == ["MISS"] && Values(hit.fields, "x-cache") == ["HIT"]
    ensures Values(hit.fields, "x-request-id") == [second]
    ensures ValueOk(first) ==> Values(miss.fields, "x-request-id") == [first]
    ensures forall name :: name != "x-cache" && name != "x-request-id" ==>
                             (Values(hit.fields, name) == Values(miss.fields, name)
                              <==> Repeatable(upstream.fields, t, name))
  {
    StoresExactly(true, OK, upstream.fields);
    missStatus, miss, missBody := FinishResponse(upstream, OK, Some(body), t, cache, true, key, first, now, later);
    var held := cache.Get(key, again);
    hitStatus, hit, hitBody := ReplayResponse(held.value, t, second);
    ReplayEndToEnd(upstream.fields, t, first, second);
  }

  lemma ReplayEndToEnd(upstream: Fields, t: HeaderTransforms, first: string, second: string)
    requires Canonical(upstream) && ValueOk(second)
    ensures var miss, hit := Missed(upstream, t, first), Replayed(Storable(Outgoing(upstream, t, first)), t, second);
      && Values(miss, CACHE_HEADER) == ["MISS"] && Values(hit, CACHE_HEADER) == ["HIT"]
      && Values(hit, CORRELATION_HEADER) == [second]
      && (ValueOk(first) ==> Values(miss, CORRELATION_HEADER) == [first])
      && forall name :: name != CACHE_HEADER && name != CORRELATION_HEADER ==>
                          (Values(hit, name) == Values(miss, name) <==> Repeatable(upstream, t, name))
  {
    MarkerNamesAreCanonical();
    MissPerName(upstream, t, first, CACHE_HEADER);
    MissPerName(upstream, t, first, CORRELATION_HEADER);
    HitPerName(upstream, t, first, second, CACHE_HEADER);
    var marked := SetOne(Transformed(Rebuilt(Storable(Outgoing(upstream, t, first))), t), CACHE_HEADER, "HIT");
    SetOnePerName(marked, CORRELATION_HEADER, second, CORRELATION_HEADER);
    forall name | name != CACHE_HEADER && name != CORRELATION_HEADER
      ensures (Values(Replayed(Storable(Outgoing(upstream, t, first)), t, second), name)
               == Values(Missed(upstream, t, first), name))
              <==> Repeatable(upstream, t, name)
    {
      ReplayIsTransparent(upstream, t, first, second, name);
    }
  }
}
