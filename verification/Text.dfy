/** Byte strings, carried as sequences of `char`, and the few ASCII operations the gateway uses. */
module Text {

  function LowerChar(c: char): char {
    if 'A' <= c <= 'Z' then (c as int + 32) as char else c
  }

  function Lower(s: string): (r: string)
    ensures |r| == |s| && forall i :: 0 <= i < |s| ==> r[i] == LowerChar(s[i])
  {
    seq(|s|, i requires 0 <= i < |s| => LowerChar(s[i]))
  }

  /** `trim_end_matches('/')`. */
  function TrimSlashes(s: string): (r: string)
    ensures r <= s && (r == [] || r[|r| - 1] != '/')
    ensures forall k :: |r| <= k < |s| ==> s[k] == '/'
  {
    if s != [] && s[|s| - 1] == '/' then TrimSlashes(s[..|s| - 1]) else s
  }

  /** The same character, or the two cases of one ASCII letter. */
  predicate SameLetter(c: char, d: char) {
    || c == d
    || ('a' <= c <= 'z' && d as int == c as int - 32)
    || ('a' <= d <= 'z' && c as int == d as int - 32)
  }

  predicate SameLetters(a: string, b: string) {
    |a| == |b| && forall i :: 0 <= i < |a| ==> SameLetter(a[i], b[i])
  }

  /** Lower case identifies exactly the two cases of a letter. */
  lemma LowerIdentifiesCases(a: string, b: string)
    ensures Lower(a) == Lower(b) <==> SameLetters(a, b)
  {
    if SameLetters(a, b) {
      assert forall i :: 0 <= i < |a| ==> Lower(a)[i] == Lower(b)[i];
    }
    if Lower(a) == Lower(b) {
      forall i | 0 <= i < |a|
        ensures SameLetter(a[i], b[i])
      {
        assert Lower(a)[i] == Lower(b)[i];
      }
    }
  }

  // ----- Looking for a word -----

  predicate Contains(s: string, part: string) {
    part <= s || (s != [] && Contains(s[1..], part))
  }

  predicate StandsAt(s: string, i: nat, part: string) {
    i + |part| <= |s| && s[i..i + |part|] == part
  }

  /** `word` stands in `v` from index `i` on, in any letter case. */
  predicate SpelledAt(v: string, i: nat, word: string) {
    i + |word| <= |v| && SameLetters(v[i..i + |word|], word)
  }

  lemma {:induction false} ContainsMeans(s: string, part: string)
    ensures Contains(s, part) <==> exists i: nat :: StandsAt(s, i, part)
  {
    if part <= s {
      assert StandsAt(s, 0, part);
    } else if s != [] {
      ContainsMeans(s[1..], part);
      forall i: nat
        ensures StandsAt(s, i + 1, part) <==> StandsAt(s[1..], i, part)
      {
        if i + 1 + |part| <= |s| {
          assert s[1..][i..i + |part|] == s[i + 1..i + 1 + |part|];
        }
      }
      assert !StandsAt(s, 0, part);
      if i: nat :| StandsAt(s, i, part) {
        assert StandsAt(s[1..], i - 1, part);
      }
    }
  }

  /** Looking for a lower-case word in lower-case text finds it in any letter case. */
  lemma FoundInAnyCase(v: string, word: string)
    requires Lower(word) == word
    ensures Contains(Lower(v), word) <==> exists i: nat :: SpelledAt(v, i, word)
  {
    ContainsMeans(Lower(v), word);
    forall i: nat
      ensures StandsAt(Lower(v), i, word) <==> SpelledAt(v, i, word)
    {
      if i + |word| <= |v| {
        assert Lower(v)[i..i + |word|] == Lower(v[i..i + |word|]);
        LowerIdentifiesCases(v[i..i + |word|], word);
      }
    }
    if i: nat :| SpelledAt(v, i, word) {
      assert StandsAt(Lower(v), i, word);
    }
    if i: nat :| StandsAt(Lower(v), i, word) {
      assert SpelledAt(v, i, word);
    }
  }
}
