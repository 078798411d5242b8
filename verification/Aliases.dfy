/** Cleaning the aliases of a part payload. */
module Aliases {
  import opened Common
  import opened State

  // One alias of the payload: the text with its ends stripped, and that text case-folded. Unicode
  // stripping and case folding themselves are taken as given.
  datatype Raw = Raw(text: string, key: string)

  predicate Acceptable(s: string) {
    s != "" && |s| <= 128 && forall i | 0 <= i < |s| :: !IsControl(s[i])
  }

  predicate KeyIn(aliases: seq<Raw>, key: string) {
    exists i | 0 <= i < |aliases| :: aliases[i].key == key
  }

  /** The first alias of every key, in the given order. */
  function FirstOfEachKey(raw: seq<Raw>): seq<Raw> {
    if raw == [] then []
    else
      var init, last := raw[..|raw| - 1], raw[|raw| - 1];
      if KeyIn(init, last.key) then FirstOfEachKey(init) else FirstOfEachKey(init) + [last]
  }

  function Texts(aliases: seq<Raw>): (r: seq<string>)
    ensures |r| == |aliases| && forall i | 0 <= i < |r| :: r[i] == aliases[i].text
  {
    seq(|aliases|, i requires 0 <= i < |aliases| => aliases[i].text)
  }

  // Raw alias i is the first of its key.
  predicate IsFirst(raw: seq<Raw>, i: nat) {
    i < |raw| && !KeyIn(raw[..i], raw[i].key)
  }

  lemma IsFirstLater(init: seq<Raw>, last: Raw, i: nat)
    requires IsFirst(init, i)
    ensures IsFirst(init + [last], i)
  {
    assert (init + [last])[..i] == init[..i];
  }

  /** Every kept alias is the first of its key in the input. */
  lemma {:induction false} KeptAliasesAreFirst(raw: seq<Raw>)
    ensures forall a | a in FirstOfEachKey(raw) :: exists i: nat :: IsFirst(raw, i) && raw[i] == a
  {
    hide KeyIn;
    if raw == [] {
    } else {
      var init, last := raw[..|raw| - 1], raw[|raw| - 1];
      assert raw == init + [last];
      KeptAliasesAreFirst(init);
      forall a | a in FirstOfEachKey(raw) ensures exists i: nat :: IsFirst(raw, i) && raw[i] == a {
        if a in FirstOfEachKey(init) {
          var i: nat :| IsFirst(init, i) && init[i] == a;
          IsFirstLater(init, last, i);
          assert raw[i] == a;
        } else {
          assert IsFirst(raw, |raw| - 1) && raw[|raw| - 1] == a;
        }
      }
    }
  }

  /** The cleaned list holds the first alias of every key of the input, and no key twice. */
  lemma {:induction false} CleanedAliases(raw: seq<Raw>)
    ensures forall a | a in FirstOfEachKey(raw) :: a in raw
    ensures forall key :: KeyIn(FirstOfEachKey(raw), key) <==> KeyIn(raw, key)
    ensures forall a, b | 0 <= a < b < |FirstOfEachKey(raw)| :: FirstOfEachKey(raw)[a].key != FirstOfEachKey(raw)[b].key
  {
    if raw == [] {
    } else {
      var init, last := raw[..|raw| - 1], raw[|raw| - 1];
      assert raw == init + [last];
      CleanedAliases(init);
      var before := FirstOfEachKey(init);
      forall key ensures KeyIn(raw, key) <==> KeyIn(init, key) || key == last.key { KeyInAppend(init, last, key); }
      forall key ensures KeyIn(before + [last], key) <==> KeyIn(before, key) || key == last.key {
        KeyInAppend(before, last, key);
      }
      forall a | 0 <= a < |before| ensures KeyIn(init, before[a].key) {
        assert KeyIn(before, before[a].key);
      }
    }
  }

  lemma KeyInAppend(aliases: seq<Raw>, a: Raw, key: string)
    ensures KeyIn(aliases + [a], key) <==> KeyIn(aliases, key) || key == a.key
  {
    var all := aliases + [a];
    assert all[|aliases|] == a && forall i | 0 <= i < |aliases| :: all[i] == aliases[i];
  }

  lemma NoKeys()
    ensures FirstOfEachKey([]) == [] && forall key :: !KeyIn([], key)
  {
  }

  lemma FirstOfEachKeyStep(raw: seq<Raw>, n: nat)
    requires n < |raw|
    ensures FirstOfEachKey(raw[..n + 1])
            == if KeyIn(raw[..n], raw[n].key) then FirstOfEachKey(raw[..n]) else FirstOfEachKey(raw[..n]) + [raw[n]]
  {
    assert raw[..n + 1][..n] == raw[..n];
  }

  /** The loop with its growing list and its set of seen keys: refuses exactly when some stripped
      alias is unacceptable, and otherwise keeps the first alias of every key. What it returns is
      fit to be flattened: no alias is empty or holds a control character. */
  method CleanAliases(raw: seq<Raw>) returns (r: Result<seq<string>>)
    ensures r.Ok? <==> forall i | 0 <= i < |raw| :: Acceptable(raw[i].text)
    ensures r.Refused? ==> r.why == Unprocessable
    ensures r.Ok? ==> r.value == Texts(FirstOfEachKey(raw)) && AliasesOk(r.value)
  {
    hide FirstOfEachKey; hide KeyIn;
    assert raw[..0] == [];
    NoKeys();
    var cleaned: seq<string> := [];
    var seen: set<string> := {};
    for n := 0 to |raw|
      invariant forall i | 0 <= i < n :: Acceptable(raw[i].text)
      invariant cleaned == Texts(FirstOfEachKey(raw[..n])) && AliasesOk(cleaned)
      invariant forall key :: key in seen <==> KeyIn(raw[..n], key)
    {
      var s := raw[n].text;
      if s == "" || |s| > 128 || exists i | 0 <= i < |s| :: IsControl(s[i]) {
        assert !Acceptable(raw[n].text);
        return Refused(Unprocessable);
      }
      var key := raw[n].key;
      assert raw[..n + 1] == raw[..n] + [raw[n]];
      FirstOfEachKeyStep(raw, n);
      forall k ensures KeyIn(raw[..n + 1], k) <==> KeyIn(raw[..n], k) || k == key { KeyInAppend(raw[..n], raw[n], k); }
      if key !in seen {
        seen := seen + {key};
        cleaned := cleaned + [s];
      }
    }
    assert raw[..|raw|] == raw;
    return Ok(cleaned);
  }
}
