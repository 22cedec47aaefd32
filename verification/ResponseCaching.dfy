/** The per-route response cache, against the history of everything ever put into it. */
module ResponseCaching {
  import opened Basics

  datatype CachedResponse = CachedResponse(status: nat, headers: seq<(string, string)>, body: string, expiresAt: nat)

  datatype Event =
    | Put(key: string, status: nat, headers: seq<(string, string)>, body: string, at: nat)
    | Evicted(key: string)
    | Expired(key: string)

  /** The latest put of a key, whatever happened to the entry since. */
  function LastPut(h: seq<Event>, key: string): (r: Option<Event>)
    ensures r.Some? ==> r.value.Put? && r.value.key == key
  {
    if h == [] then None
    else
      var e := h[|h| - 1];
      if e.Put? && e.key == key then Some(e) else LastPut(h[..|h| - 1], key)
  }

  /** The entry was evicted, or found expired by a lookup, after the latest put of the key. */
  predicate DroppedSince(h: seq<Event>, key: string) {
    h != [] &&
    var e := h[|h| - 1];
    if e.key == key then !e.Put? else DroppedSince(h[..|h| - 1], key)
  }

  /** What the cache holds for a key: its latest put unless dropped since. */
  function Held(h: seq<Event>, ttl: nat, key: string): Option<CachedResponse> {
    var put := LastPut(h, key);
    if put.None? || DroppedSince(h, key) then None
    else Some(CachedResponse(put.value.status, put.value.headers, put.value.body, put.value.at + ttl))
  }

  lemma HeldAfter(h: seq<Event>, e: Event, ttl: nat, key: string)
    ensures Held(h + [e], ttl, key) ==
            if e.key != key then Held(h, ttl, key)
            else if e.Put? then Some(CachedResponse(e.status, e.headers, e.body, e.at + ttl))
            else None
  {
    assert (h + [e])[..|h|] == h;
  }

  /**
   The answer is what some put of the key stored, strictly younger than `ttl`, and nothing has
   happened to the key since that put.
   */
  ghost predicate AnswersLatestPut(h: seq<Event>, ttl: nat, key: string, now: nat, hit: CachedResponse) {
    exists i ::
      && 0 <= i < |h| && h[i].Put? && h[i] == Put(key, hit.status, hit.headers, hit.body, h[i].at)
      && now < h[i].at + ttl == hit.expiresAt
      && forall j :: i < j < |h| ==> h[j].key != key
  }

  /** A held, unexpired entry is the latest put of its key. */
  lemma HitIsFreshLatestPut(h: seq<Event>, ttl: nat, key: string, now: nat)
    requires Held(h, ttl, key).Some? && Held(h, ttl, key).value.expiresAt > now
    ensures AnswersLatestPut(h, ttl, key, now, Held(h, ttl, key).value)
  {
    var i := LastPutIsLast(h, key);
  }

  lemma {:induction false} LastPutIsLast(h: seq<Event>, key: string) returns (i: nat)
    requires LastPut(h, key).Some? && !DroppedSince(h, key)
    ensures i < |h| && h[i] == LastPut(h, key).value && forall j :: i < j < |h| ==> h[j].key != key
  {
    var last := |h| - 1;
    if h[last].key == key {
      i := last;
    } else {
      i := LastPutIsLast(h[..last], key);
    }
  }

  // ----- Keys -----

  function Key(method': string, host: string, pathAndQuery: string): string {
    method' + " " + host + " " + pathAndQuery
  }

  /** What stands before the first space. */
  function UpToSpace(s: string): string {
    if s == [] || s[0] == ' ' then [] else [s[0]] + UpToSpace(s[1..])
  }

  /** What stands after the last space. */
  function AfterSpace(s: string): string {
    if s == [] || s[|s| - 1] == ' ' then [] else AfterSpace(s[..|s| - 1]) + [s[|s| - 1]]
  }

  lemma {:induction false} UpToSpaceIs(a: string, b: string)
    requires ' ' !in a && b != [] && b[0] == ' '
    ensures UpToSpace(a + b) == a
  {
    if a != [] {
      assert (a + b)[1..] == a[1..] + b;
      UpToSpaceIs(a[1..], b);
    }
  }

  lemma {:induction false} AfterSpaceIs(a: string, p: string)
    requires ' ' !in p
    ensures AfterSpace(a + " " + p) == p
  {
    var s := a + " " + p;
    if p != [] {
      assert s[..|s| - 1] == a + " " + p[..|p| - 1];
      AfterSpaceIs(a, p[..|p| - 1]);
    }
  }

  /** A key gives back its parts when neither method nor target holds a space. */
  lemma KeyParts(m: string, h: string, p: string)
    requires ' ' !in m && ' ' !in p
    ensures var key := Key(m, h, p);
      && |m| + 1 + |h| + 1 + |p| == |key|
      && m == UpToSpace(key) && p == AfterSpace(key) && h == key[|m| + 1..|m| + 1 + |h|]
  {
    UpToSpaceIs(m, " " + h + " " + p);
    AfterSpaceIs(m + " " + h, p);
    assert Key(m, h, p) == m + (" " + h + " " + p) == (m + " " + h) + " " + p;
  }

  /** Methods and request targets hold no space, so distinct requests never share an entry. */
  lemma KeyIsInjective(m: string, h: string, p: string, m': string, h': string, p': string)
    requires ' ' !in m && ' ' !in m' && ' ' !in p && ' ' !in p'
    requires Key(m, h, p) == Key(m', h', p')
    ensures m == m' && h == h' && p == p'
  {
    KeyParts(m, h, p);
    KeyParts(m', h', p');
  }

  // ----- The cache object -----

  class ResponseCache {
    const ttl: nat
    const capacity: nat
    var entries: map<string, CachedResponse>
    ghost var history: seq<Event>

    ghost predicate Valid()
      reads this
    {
      && capacity >= 1 && |entries| <= capacity
      && forall k :: (k in entries <==> Held(history, ttl, k).Some?)
                     && (k in entries ==> entries[k] == Held(history, ttl, k).value)
    }

    constructor (ttl: nat, capacity: nat)
      ensures Valid() && history == []
      ensures this.ttl == ttl && this.capacity == Max(capacity, 1)
    {
      this.ttl := ttl;
      this.capacity := Max(capacity, 1);
      entries := map[];
      history := [];
    }

    /** Answers exactly the held entry that has not expired; an expired one is dropped on the way. */
    method Get(key: string, now: nat) returns (hit: Option<CachedResponse>)
      requires Valid()
      modifies this
      ensures Valid()
      ensures var held := old(Held(history, ttl, key));
        if held.Some? && held.value.expiresAt <= now then
          hit == None && history == old(history) + [Expired(key)]
        else
          hit == held && history == old(history)
      ensures hit.Some? ==> AnswersLatestPut(old(history), ttl, key, now, hit.value)
    {
      hit := None;
      if key in entries {
        if entries[key].expiresAt > now {
          hit := Some(entries[key]);
          HitIsFreshLatestPut(history, ttl, key, now);
        } else {
          Drop(key, Expired(key));
        }
      }
    }

    method Drop(key: string, e: Event)
      requires Valid() && key in entries && e.key == key && !e.Put?
      modifies this
      ensures Valid() && history == old(history) + [e]
      ensures entries == old(entries) - {key} && |entries| == |old(entries)| - 1
    {
      var before := entries;
      entries := entries - {key};
      assert before.Keys == entries.Keys + {key};
      history := history + [e];
      forall k
        ensures Held(history, ttl, k) == if k == key then None else old(Held(history, ttl, k))
      {
        HeldAfter(old(history), e, ttl, k);
      }
    }

    /** The key a full cache gives up: an expired one if there is any, else an arbitrary one. */
    method Victim(now: nat) returns (victim: string)
      requires entries.Keys != {}
      ensures victim in entries
      ensures entries[victim].expiresAt > now ==> forall k :: k in entries ==> entries[k].expiresAt > now
    {
      var stale := set k | k in entries && entries[k].expiresAt <= now;
      if stale != {} {
        victim :| victim in stale;
      } else {
        victim :| victim in entries.Keys;
        forall k | k in entries
          ensures entries[k].expiresAt > now
        {
          assert k !in stale;
        }
      }
    }

    /**
     Store a response. Only a full cache that does not hold the key gives up an entry, just one,
     and an unexpired one only if nothing in it has expired.
     */
    method PutResponse(key: string, status: nat, headers: seq<(string, string)>, body: string, now: nat, later: nat)
      returns (ghost victim: Option<string>)
      requires Valid()
      modifies this
      ensures Valid()
      ensures history == old(history) + (if victim.Some? then [Evicted(victim.value)] else [])
                         + [Put(key, status, headers, body, later)]
      ensures victim.Some? <==> |old(entries)| >= capacity && key !in old(entries)
      ensures victim.Some? ==>
                && victim.value in old(entries) && victim.value != key
                && (old(entries)[victim.value].expiresAt > now ==>
                      forall k :: k in old(entries) ==> old(entries)[k].expiresAt > now)
      ensures forall k :: k != key && (victim.None? || k != victim.value) ==>
                            Held(history, ttl, k) == old(Held(history, ttl, k))
      ensures Held(history, ttl, key) == Some(CachedResponse(status, headers, body, later + ttl))
    {
      victim := None;
      if |entries| >= capacity && key !in entries {
        assert |entries.Keys| == |entries|;
        var v := Victim(now);
        victim := Some(v);
        Drop(v, Evicted(v));
      }
      Insert(key, status, headers, body, later);
      if victim.Some? {
        forall k
          ensures Held(old(history) + [Evicted(victim.value)], ttl, k)
                  == if k == victim.value then None else old(Held(history, ttl, k))
        {
          HeldAfter(old(history), Evicted(victim.value), ttl, k);
        }
      }
    }

    method Insert(key: string, status: nat, headers: seq<(string, string)>, body: string, now: nat)
      requires Valid() && (key in entries || |entries| < capacity)
      modifies this
      ensures Valid() && history == old(history) + [Put(key, status, headers, body, now)]
      ensures forall k :: Held(history, ttl, k)
                          == if k == key then Some(CachedResponse(status, headers, body, now + ttl))
                             else old(Held(history, ttl, k))
    {
      var before := entries;
      entries := entries[key := CachedResponse(status, headers, body, now + ttl)];
      assert entries.Keys == before.Keys + {key};
      assert |entries| == |entries.Keys| && |before| == |before.Keys|;
      if key in before {
        assert entries.Keys == before.Keys;
      }
      var e := Put(key, status, headers, body, now);
      history := history + [e];
      forall k
        ensures Held(history, ttl, k) == if k == key then Some(CachedResponse(status, headers, body, now + ttl))
                                         else old(Held(history, ttl, k))
      {
        HeldAfter(old(history), e, ttl, k);
      }
    }
  }
}
