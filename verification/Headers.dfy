/** Header maps, the hop-by-hop filter and the configured add/remove transforms. */
module Headers {
  import opened Basics
  import opened Config
  import opened Text

  /** The fields of a header map in order; names are canonical (valid and lower case). */
  type Fields = seq<(string, string)>

  // ----- Names and values -----

  /** The characters of a header field name: a token of section 3.2.6 of RFC 7230. */
  predicate TokenChar(c: char) {
    || 'a' <= c <= 'z' || 'A' <= c <= 'Z' || '0' <= c <= '9'
    || c in {'!', '#', '$', '%', '&', '\'', '*', '+', '-', '.', '^', '_', '`', '|', '~'}
  }

  /** A configured name as the header map will know it, if it is a name at all. */
  function ParseName(s: string): Option<string> {
    if s != [] && forall c :: c in s ==> TokenChar(c) then Some(Lower(s)) else None
  }

  /** Field values hold tabs and anything from the space up except DEL. */
  predicate ValueOk(v: string) {
    forall c :: c in v ==> c == '\t' || (c >= ' ' && c != '\U{7F}')
  }

  /** Only values of visible ASCII and tabs can be read back as text. */
  predicate Visible(v: string) {
    forall c :: c in v ==> c == '\t' || ' ' <= c < '\U{7F}'
  }

  predicate Canonical(f: Fields) {
    forall p :: p in f ==> ParseName(p.0) == Some(p.0) && ValueOk(p.1)
  }

  lemma ParseNameIsIdempotent(s: string)
    ensures ParseName(s).Some? ==> ParseName(ParseName(s).value) == ParseName(s)
  {
    if ParseName(s).Some? {
      var l := Lower(s);
      forall c | c in l
        ensures TokenChar(c)
      {
        var i :| 0 <= i < |l| && l[i] == c;
        assert s[i] in s;
      }
      assert Lower(l) == l;
    }
  }

  /** The delimiters that section 3.2.6 of RFC 7230 keeps out of tokens. */
  const DELIMITERS := "(),/:;<=>?@[\\]{}\""

  /** A token is made of the visible characters that are no delimiters. */
  lemma TokensExactly(c: char)
    ensures TokenChar(c) <==> '!' <= c <= '~' && c !in DELIMITERS
  {
  }

  /** No control character but the tab gets into a value; all text does. */
  lemma ValuesExactly(v: string)
    ensures Visible(v) ==> ValueOk(v)
    ensures ValueOk(v) <==> !exists c :: c in v && (c == '\U{7F}' || (c < ' ' && c != '\t'))
  {
  }

  /** Two spellings are the same name exactly when they are tokens equal up to letter case. */
  lemma NamesExactly(s: string, name: string)
    requires ParseName(name) == Some(name)
    ensures ParseName(s) == Some(name) <==> s != "" && (forall c :: c in s ==> TokenChar(c)) && SameLetters(s, name)
  {
    LowerIdentifiesCases(s, name);
  }

  // ----- The map on values -----

  /** All values of a name, in order. */
  function Values(f: Fields, name: string): seq<string> {
    if f == [] then []
    else
      var last := f[|f| - 1];
      if last.0 == name then Values(f[..|f| - 1], name) + [last.1] else Values(f[..|f| - 1], name)
  }

  function Without(f: Fields, name: string): Fields {
    if f == [] then []
    else
      var last := f[|f| - 1];
      if last.0 == name then Without(f[..|f| - 1], name) else Without(f[..|f| - 1], name) + [last]
  }

  /** `insert` replaces every value of the name. */
  function Inserted(f: Fields, name: string, value: string): Fields {
    Without(f, name) + [(name, value)]
  }

  lemma ValuesSnoc(f: Fields, p: (string, string), name: string)
    ensures Values(f + [p], name) == Values(f, name) + (if p.0 == name then [p.1] else [])
  {
    assert (f + [p])[..|f|] == f;
  }

  lemma {:induction false} ValuesWithout(f: Fields, name: string, other: string)
    ensures Values(Without(f, name), other) == if other == name then [] else Values(f, other)
  {
    if f != [] {
      ValuesWithout(f[..|f| - 1], name, other);
      if f[|f| - 1].0 != name {
        ValuesSnoc(Without(f[..|f| - 1], name), f[|f| - 1], other);
      }
    }
  }

  lemma ValuesInserted(f: Fields, name: string, value: string, other: string)
    ensures Values(Inserted(f, name, value), other) == if other == name then [value] else Values(f, other)
  {
    ValuesWithout(f, name, other);
    ValuesSnoc(Without(f, name), (name, value), other);
  }

  lemma {:induction false} WithoutIsPart(f: Fields, name: string)
    ensures forall p :: p in Without(f, name) ==> p in f
  {
    if f != [] {
      WithoutIsPart(f[..|f| - 1], name);
      assert f == f[..|f| - 1] + [f[|f| - 1]];
    }
  }

  // ----- Transforms -----

  function RemoveAll(f: Fields, names: seq<string>): Fields {
    if names == [] then f
    else
      var f' := RemoveAll(f, names[..|names| - 1]);
      var n := ParseName(names[|names| - 1]);
      if n.Some? then Without(f', n.value) else f'
  }

  function SetOne(f: Fields, name: string, value: string): Fields {
    var n := ParseName(name);
    if n.Some? && ValueOk(value) then Inserted(f, n.value, value) else f
  }

  function AddAll(f: Fields, adds: seq<(string, string)>): Fields {
    if adds == [] then f
    else
      var a := adds[|adds| - 1];
      SetOne(AddAll(f, adds[..|adds| - 1]), a.0, a.1)
  }

  function Transformed(f: Fields, t: HeaderTransforms): Fields {
    AddAll(RemoveAll(f, t.remove), t.add)
  }

  /** The value the transforms set for a name: the last usable one configured. */
  function AddedValue(adds: seq<(string, string)>, name: string): Option<string> {
    if adds == [] then None
    else
      var a := adds[|adds| - 1];
      if ParseName(a.0) == Some(name) && ValueOk(a.1) then Some(a.1) else AddedValue(adds[..|adds| - 1], name)
  }

  predicate RemovesName(names: seq<string>, name: string) {
    exists s :: s in names && ParseName(s) == Some(name)
  }

  lemma {:induction false} ValuesRemoved(f: Fields, names: seq<string>, name: string)
    ensures Values(RemoveAll(f, names), name) == if RemovesName(names, name) then [] else Values(f, name)
  {
    if names != [] {
      var init, last := names[..|names| - 1], names[|names| - 1];
      ValuesRemoved(f, init, name);
      assert RemovesName(names, name) <==> RemovesName(init, name) || ParseName(last) == Some(name) by {
        assert names == init + [last];
        assert last in names;
      }
      if ParseName(last).Some? {
        ValuesWithout(RemoveAll(f, init), ParseName(last).value, name);
      }
    }
  }

  lemma {:induction false} ValuesAdded(f: Fields, adds: seq<(string, string)>, name: string)
    ensures Values(AddAll(f, adds), name)
            == if AddedValue(adds, name).Some? then [AddedValue(adds, name).value] else Values(f, name)
  {
    if adds != [] {
      var init, a := adds[..|adds| - 1], adds[|adds| - 1];
      ValuesAdded(f, init, name);
      if ParseName(a.0).Some? && ValueOk(a.1) {
        ValuesInserted(AddAll(f, init), ParseName(a.0).value, a.1, name);
      }
    }
  }

  /** A header is removed exactly when the configuration names it, in any letter case. */
  lemma RemovesNameExactly(names: seq<string>, name: string)
    requires ParseName(name) == Some(name)
    ensures RemovesName(names, name) <==> exists s :: s in names && SameLetters(s, name)
  {
    forall s | s in names
      ensures ParseName(s) == Some(name) <==> SameLetters(s, name)
    {
      NamesExactly(s, name);
      SpellingsAreTokens(s, name);
    }
  }

  lemma SpellingsAreTokens(s: string, name: string)
    requires ParseName(name) == Some(name)
    ensures SameLetters(s, name) ==> s != "" && forall c :: c in s ==> TokenChar(c)
  {
    if SameLetters(s, name) {
      forall c | c in s
        ensures TokenChar(c)
      {
        var i :| 0 <= i < |s| && s[i] == c;
        assert name[i] in name;
      }
    }
  }

  /** The value added is the last usable one configured for the name, in any letter case. */
  lemma {:induction false} AddedValueExactly(adds: seq<(string, string)>, name: string)
    requires ParseName(name) == Some(name)
    ensures AddedValue(adds, name).None? <==>
            forall i :: 0 <= i < |adds| ==> !(SameLetters(adds[i].0, name) && ValueOk(adds[i].1))
    ensures forall i :: && 0 <= i < |adds| && SameLetters(adds[i].0, name) && ValueOk(adds[i].1)
                        && (forall j :: i < j < |adds| ==> !(SameLetters(adds[j].0, name) && ValueOk(adds[j].1)))
                        ==> AddedValue(adds, name) == Some(adds[i].1)
  {
    if adds != [] {
      var init, last := adds[..|adds| - 1], adds[|adds| - 1];
      AddedValueExactly(init, name);
      NamesExactly(last.0, name);
      SpellingsAreTokens(last.0, name);
      assert forall i :: 0 <= i < |init| ==> init[i] == adds[i];
    }
  }

  /** What the transforms make of each name: an added value wins over a removal. */
  lemma TransformPerName(f: Fields, t: HeaderTransforms, name: string)
    ensures Values(Transformed(f, t), name)
            == if AddedValue(t.add, name).Some? then [AddedValue(t.add, name).value]
               else if RemovesName(t.remove, name) then []
               else Values(f, name)
  {
    ValuesRemoved(f, t.remove, name);
    ValuesAdded(RemoveAll(f, t.remove), t.add, name);
  }

  /** Applying the transforms twice is applying them once, whatever they add and remove. */
  lemma TransformsAreIdempotent(f: Fields, t: HeaderTransforms, name: string)
    ensures Values(Transformed(Transformed(f, t), t), name) == Values(Transformed(f, t), name)
  {
    TransformPerName(f, t, name);
    TransformPerName(Transformed(f, t), t, name);
  }

  // ----- The hop-by-hop filter -----

  const HOP_BY_HOP: seq<string> :=
    ["connection", "keep-alive", "proxy-authenticate", "proxy-authorization", "te", "trailer",
     "transfer-encoding", "upgrade", "host", "content-length"]

  predicate IsHopByHop(name: string) {
    Lower(name) in HOP_BY_HOP
  }

  function EndToEnd(f: Fields): Fields {
    if f == [] then []
    else
      var last := f[|f| - 1];
      if IsHopByHop(last.0) then EndToEnd(f[..|f| - 1]) else EndToEnd(f[..|f| - 1]) + [last]
  }

  /** The filter drops all values of a hop-by-hop name and keeps those of any other in order. */
  lemma {:induction false} EndToEndPerName(f: Fields, name: string)
    ensures Values(EndToEnd(f), name) == if IsHopByHop(name) then [] else Values(f, name)
    ensures forall p :: p in EndToEnd(f) ==> p in f
  {
    if f != [] {
      EndToEndPerName(f[..|f| - 1], name);
      assert f == f[..|f| - 1] + [f[|f| - 1]];
      if !IsHopByHop(f[|f| - 1].0) {
        ValuesSnoc(EndToEnd(f[..|f| - 1]), f[|f| - 1], name);
      }
    }
  }

  /** A field about the connection itself, or one that is set afresh for every message. */
  predicate NamesConnection(name: string) {
    || SameLetters(name, "connection") || SameLetters(name, "keep-alive")
    || SameLetters(name, "proxy-authenticate") || SameLetters(name, "proxy-authorization")
    || SameLetters(name, "te") || SameLetters(name, "trailer") || SameLetters(name, "transfer-encoding")
    || SameLetters(name, "upgrade") || SameLetters(name, "host") || SameLetters(name, "content-length")
  }

  lemma LowerCaseNames()
    ensures forall h :: h in HOP_BY_HOP ==> Lower(h) == h
  {
    HopNamesAreLower();
    forall h | h in HOP_BY_HOP
      ensures Lower(h) == h
    {
    }
  }

  lemma HopNamesAreLower()
    ensures forall h, k :: h in HOP_BY_HOP && 0 <= k < |h| ==> h[k] == LowerChar(h[k])
  {
  }

  lemma HopByHopExactly(name: string)
    ensures IsHopByHop(name) <==> NamesConnection(name)
  {
    LowerCaseNames();
    var hops := HOP_BY_HOP;
    forall k | 0 <= k < |hops|
      ensures Lower(name) == hops[k] <==> SameLetters(name, hops[k])
    {
      assert hops[k] in hops;
      LowerIdentifiesCases(name, hops[k]);
    }
    assert IsHopByHop(name) <==> exists k :: 0 <= k < |hops| && Lower(name) == hops[k];
    assert NamesConnection(name) <==> exists k :: 0 <= k < |hops| && SameLetters(name, hops[k]) by {
      TenNames(name);
    }
  }

  lemma TenNames(name: string)
    ensures NamesConnection(name) <==> exists k :: 0 <= k < |HOP_BY_HOP| && SameLetters(name, HOP_BY_HOP[k])
  {
    assert HOP_BY_HOP[0] == "connection" && HOP_BY_HOP[1] == "keep-alive" && HOP_BY_HOP[2] == "proxy-authenticate";
    assert HOP_BY_HOP[3] == "proxy-authorization" && HOP_BY_HOP[4] == "te" && HOP_BY_HOP[5] == "trailer";
    assert HOP_BY_HOP[6] == "transfer-encoding" && HOP_BY_HOP[7] == "upgrade" && HOP_BY_HOP[8] == "host";
    assert HOP_BY_HOP[9] == "content-length";
  }

  /** The filter keeps exactly the fields that do not name the connection. */
  lemma {:induction false} KeptExactly(f: Fields)
    ensures forall p :: p in EndToEnd(f) <==> p in f && !NamesConnection(p.0)
  {
    if f != [] {
      KeptExactly(f[..|f| - 1]);
      HopByHopExactly(f[|f| - 1].0);
      assert f == f[..|f| - 1] + [f[|f| - 1]];
    }
  }

  // ----- The map object -----

  class HeaderMap {
    var fields: Fields

    constructor ()
      ensures fields == []
    {
      fields := [];
    }

    method Append(name: string, value: string)
      modifies this
      ensures fields == old(fields) + [(name, value)]
    {
      fields := fields + [(name, value)];
    }

    method Remove(name: string)
      modifies this
      ensures fields == Without(old(fields), name)
    {
      var kept: Fields := [];
      for i := 0 to |fields|
        invariant fields == old(fields) && kept == Without(fields[..i], name)
      {
        assert fields[..i + 1][..i] == fields[..i];
        if fields[i].0 != name {
          kept := kept + [fields[i]];
        }
      }
      assert fields[..|fields|] == fields;
      fields := kept;
    }

    method Insert(name: string, value: string)
      modifies this
      ensures fields == Inserted(old(fields), name, value)
    {
      Remove(name);
      Append(name, value);
    }

    /** `set_header`: a name or value that is not well formed leaves the map alone. */
    method Set(name: string, value: string)
      modifies this
      ensures fields == SetOne(old(fields), name, value)
    {
      var n := ParseName(name);
      if n.Some? && ValueOk(value) {
        Insert(n.value, value);
      }
    }
  }

  method ApplyTransforms(headers: HeaderMap, t: HeaderTransforms)
    modifies headers
    ensures headers.fields == Transformed(old(headers.fields), t)
  {
    for i := 0 to |t.remove|
      invariant headers.fields == RemoveAll(old(headers.fields), t.remove[..i])
    {
      assert t.remove[..i + 1][..i] == t.remove[..i];
      var n := ParseName(t.remove[i]);
      if n.Some? {
        headers.Remove(n.value);
      }
    }
    assert t.remove[..|t.remove|] == t.remove;
    for i := 0 to |t.add|
      invariant headers.fields == AddAll(RemoveAll(old(headers.fields), t.remove), t.add[..i])
    {
      assert t.add[..i + 1][..i] == t.add[..i];
      headers.Set(t.add[i].0, t.add[i].1);
    }
    assert t.add[..|t.add|] == t.add;
  }

  method FilteredResponseHeaders(incoming: HeaderMap) returns (out: HeaderMap)
    ensures fresh(out) && out.fields == EndToEnd(incoming.fields)
    ensures forall p :: p in out.fields <==> p in incoming.fields && !NamesConnection(p.0)
  {
    out := new HeaderMap();
    for i := 0 to |incoming.fields|
      invariant fresh(out) && out.fields == EndToEnd(incoming.fields[..i])
    {
      assert incoming.fields[..i + 1][..i] == incoming.fields[..i];
      var (name, value) := incoming.fields[i];
      if !IsHopByHop(name) {
        out.Append(name, value);
      }
    }
    assert incoming.fields[..|incoming.fields|] == incoming.fields;
    KeptExactly(incoming.fields);
  }
}
