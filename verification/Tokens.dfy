/** The whole-token search used by the deletion previews: a slug between two boundaries. */
module Tokens {
  import opened Records

  // The look-behind and look-ahead of the pattern: no slug character on either side.
  predicate MatchesAt(text: string, name: string, i: nat) {
    && i + |name| <= |text| && text[i..i + |name|] == name
    && (i > 0 ==> !IsSlugChar(text[i - 1]))
    && (i + |name| < |text| ==> !IsSlugChar(text[i + |name|]))
  }

  /** The regular-expression search: a match at some position. */
  predicate Mentions(text: string, name: string) {
    exists i | 0 <= i <= |text| :: MatchesAt(text, name, i)
  }

  /** Length of the longest prefix of slug characters. */
  function SlugLen(s: string): (n: nat)
    ensures n <= |s| && forall i | 0 <= i < n :: IsSlugChar(s[i])
    ensures n < |s| ==> !IsSlugChar(s[n])
  {
    if s == "" || !IsSlugChar(s[0]) then 0 else 1 + SlugLen(s[1..])
  }

  /** The maximal runs of slug characters, left to right. */
  function Tokenize(s: string): seq<string> {
    if s == "" then []
    else
      var n := SlugLen(s);
      if n == 0 then Tokenize(s[1..]) else [s[..n]] + Tokenize(s[n..])
  }

  predicate SlugText(s: string) {
    s != "" && forall i | 0 <= i < |s| :: IsSlugChar(s[i])
  }

  // Behind a boundary, a match in the rest of the text is a match in the text.
  lemma ShiftMatch(text: string, name: string, k: nat, i: nat)
    requires SlugText(name) && 0 < k <= |text| && i <= |text| - k
    requires !IsSlugChar(text[k - 1]) || i > 0
    ensures MatchesAt(text[k..], name, i) <==> MatchesAt(text, name, k + i)
  {
  }

  // A match starts with a slug character.
  lemma MatchStarts(text: string, name: string, i: nat)
    requires SlugText(name) && MatchesAt(text, name, i)
    ensures i < |text| && IsSlugChar(text[i])
  {
  }

  // The first run matches exactly its own text.
  lemma FirstRun(text: string, name: string)
    requires SlugText(name) && SlugLen(text) > 0
    ensures MatchesAt(text, name, 0) <==> name == text[..SlugLen(text)]
  {
  }

  /** For every text, the search finds a slug exactly when the slug is one of the text's maximal
      runs of slug characters. */
  lemma {:induction false} SearchFindsTokens(text: string, name: string)
    requires SlugText(name)
    ensures Mentions(text, name) <==> name in Tokenize(text)
  {
    if text == "" {
    } else {
      var n := SlugLen(text);
      var k := if n == 0 then 1 else n;
      SearchFindsTokens(text[k..], name);
      if n > 0 {
        FirstRun(text, name);
      }
      if Mentions(text, name) {
        var i :| 0 <= i <= |text| && MatchesAt(text, name, i);
        MatchStarts(text, name, i);
        if i >= k {
          MentionInRest(text, name, k, i - k);
        } else {
          assert i == 0 && n > 0;
        }
      }
      if Mentions(text[k..], name) {
        var i :| 0 <= i <= |text[k..]| && MatchesAt(text[k..], name, i);
        MatchStarts(text[k..], name, i);
        assert n > 0 && n < |text| ==> text[k..][0] == text[n];
        ShiftMatch(text, name, k, i);
      }
    }
  }

  lemma MentionInRest(text: string, name: string, k: nat, i: nat)
    requires SlugText(name) && 0 < k <= |text| && i <= |text| - k && MatchesAt(text, name, k + i)
    ensures Mentions(text[k..], name)
  {
    if i == 0 {
      assert !IsSlugChar(text[k - 1]);
    }
    ShiftMatch(text, name, k, i);
    assert MatchesAt(text[k..], name, i);
  }
}
