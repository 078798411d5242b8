/** The part search: three escapes, a LIKE pattern, and aliases flattened with U+001F. */
module Search {
  import opened Common

  // ---------- The pattern ----------

  /** Python's str.replace for one character. */
  function ReplaceAll(s: string, c: char, by_: string): string {
    if s == "" then "" else (if s[0] == c then by_ else [s[0]]) + ReplaceAll(s[1..], c, by_)
  }

  function Escaped(text: string): string {
    ReplaceAll(ReplaceAll(ReplaceAll(text, '\\', "\\\\"), '%', "\\%"), '_', "\\_")
  }

  function Pattern(text: string): string { "%" + Escaped(text) + "%" }

  // ---------- LIKE ----------

  /** Pattern matching of section 9.7.1 of the PostgreSQL documentation with escape character
      backslash: % is any string, _ any one character, an escaped character itself. */
  predicate Like(p: string, t: string)
    decreases |p| + |t|
  {
    if p == "" then t == ""
    else if p[0] == '\\' then |p| > 1 && t != "" && t[0] == p[1] && Like(p[2..], t[1..])
    else if p[0] == '%' then Like(p[1..], t) || (t != "" && Like(p, t[1..]))
    else if p[0] == '_' then t != "" && Like(p[1..], t[1..])
    else t != "" && t[0] == p[0] && Like(p[1..], t[1..])
  }

  // Case folding, character by character; what it is does not matter beyond FoldOk.
  type Fold = char -> char

  const UNIT_SEPARATOR: char := '\U{1F}'

  predicate IsSpecial(c: char) { c == '\\' || c == '%' || c == '_' || c == UNIT_SEPARATOR }

  // Folding neither makes nor removes the four characters the search treats specially.
  ghost predicate FoldOk(fold: Fold) {
    forall c: char :: (IsSpecial(c) ==> fold(c) == c) && (IsSpecial(fold(c)) ==> fold(c) == c)
  }

  function Folded(fold: Fold, s: string): (r: string)
    ensures |r| == |s| && forall i | 0 <= i < |s| :: r[i] == fold(s[i])
  {
    seq(|s|, i requires 0 <= i < |s| => fold(s[i]))
  }

  // ILIKE folds both sides.
  predicate ILike(fold: Fold, p: string, t: string) {
    Like(Folded(fold, p), Folded(fold, t))
  }

  function Join(aliases: seq<string>): string {
    if aliases == [] then ""
    else if |aliases| == 1 then aliases[0]
    else aliases[0] + [UNIT_SEPARATOR] + Join(aliases[1..])
  }

  /** The WHERE clause of the listing. */
  predicate SearchHit(fold: Fold, text: string, name: string, aliases: seq<string>) {
    ILike(fold, Pattern(text), name) || ILike(fold, Pattern(text), Join(aliases))
  }

  // ---------- What the search is for ----------

  predicate Contains(t: string, m: string) {
    exists i | 0 <= i <= |t| :: m <= t[i..]
  }

  predicate OccursIn(fold: Fold, text: string, field: string) {
    Contains(Folded(fold, field), Folded(fold, text))
  }

  /** The text occurs, up to case folding, in the name or in one single alias. */
  ghost predicate OccursInSomeField(fold: Fold, text: string, name: string, aliases: seq<string>) {
    OccursIn(fold, text, name) || exists k | 0 <= k < |aliases| :: OccursIn(fold, text, aliases[k])
  }

  // ---------- The three escapes together ----------

  function EscapeChar(c: char): string {
    if c == '\\' || c == '%' || c == '_' then ['\\', c] else [c]
  }

  function EscapeEach(s: string): string {
    if s == "" then "" else EscapeChar(s[0]) + EscapeEach(s[1..])
  }

  lemma ReplaceAllAppend(a: string, b: string, c: char, by_: string)
    ensures ReplaceAll(a + b, c, by_) == ReplaceAll(a, c, by_) + ReplaceAll(b, c, by_)
  {
    if a == "" {
      assert a + b == b;
    } else {
      assert (a + b)[1..] == a[1..] + b;
      ReplaceAllAppend(a[1..], b, c, by_);
      Associative(if a[0] == c then by_ else [a[0]], ReplaceAll(a[1..], c, by_), ReplaceAll(b, c, by_));
    }
  }

  lemma ReplaceOne(x: char, c: char, by_: string)
    ensures ReplaceAll([x], c, by_) == if x == c then by_ else [x]
  {
  }

  lemma ReplaceTwo(x: char, y: char, c: char, by_: string)
    ensures ReplaceAll([x, y], c, by_) == (if x == c then by_ else [x]) + (if y == c then by_ else [y])
  {
    assert [x, y] == [x] + [y];
    ReplaceAllAppend([x], [y], c, by_);
    ReplaceOne(x, c, by_);
    ReplaceOne(y, c, by_);
  }

  lemma EscapedChar(x: char)
    ensures Escaped([x]) == EscapeChar(x)
  {
    ReplaceOne(x, '\\', "\\\\");
    if x == '\\' {
      ReplaceTwo('\\', '\\', '%', "\\%");
      ReplaceTwo('\\', '\\', '_', "\\_");
    } else {
      ReplaceOne(x, '%', "\\%");
      if x == '%' {
        ReplaceTwo('\\', '%', '_', "\\_");
      } else {
        ReplaceOne(x, '_', "\\_");
      }
    }
  }

  /** Applied one after the other in this order, the three replacements escape each character
      once: none of them escapes what an earlier one wrote. */
  lemma {:induction false} EscapedIsEscapeEach(s: string)
    ensures Escaped(s) == EscapeEach(s)
  {
    if s == "" {
    } else {
      var x, rest := [s[0]], s[1..];
      assert s == x + rest;
      ReplaceAllAppend(x, rest, '\\', "\\\\");
      var x1, r1 := ReplaceAll(x, '\\', "\\\\"), ReplaceAll(rest, '\\', "\\\\");
      ReplaceAllAppend(x1, r1, '%', "\\%");
      var x2, r2 := ReplaceAll(x1, '%', "\\%"), ReplaceAll(r1, '%', "\\%");
      ReplaceAllAppend(x2, r2, '_', "\\_");
      EscapedChar(s[0]);
      EscapedIsEscapeEach(rest);
    }
  }

  lemma {:induction false} FoldedEscape(fold: Fold, s: string)
    requires FoldOk(fold)
    ensures Folded(fold, EscapeEach(s)) == EscapeEach(Folded(fold, s))
  {
    if s == "" {
    } else {
      FoldedEscape(fold, s[1..]);
      var f := Folded(fold, s);
      assert f[1..] == Folded(fold, s[1..]);
      FoldedAppend(fold, EscapeChar(s[0]), EscapeEach(s[1..]));
      FoldedEscapeChar(fold, s[0]);
    }
  }

  lemma FoldedEscapeChar(fold: Fold, c: char)
    requires FoldOk(fold)
    ensures Folded(fold, EscapeChar(c)) == EscapeChar(fold(c))
  {
  }

  lemma FoldedAppend(fold: Fold, a: string, b: string)
    ensures Folded(fold, a + b) == Folded(fold, a) + Folded(fold, b)
  {
  }

  // ---------- LIKE on an escaped text ----------

  lemma {:induction false} LikeAnything(t: string)
    ensures Like("%", t)
  {
    assert "%"[1..] == "";
    if t == "" {
    } else {
      LikeAnything(t[1..]);
    }
  }

  lemma {:induction false} LikeEscapedPrefix(m: string, t: string)
    ensures Like(EscapeEach(m) + "%", t) <==> m <= t
  {
    if m == "" {
      assert EscapeEach(m) + "%" == "%";
      LikeAnything(t);
    } else {
      var p := EscapeEach(m) + "%";
      var rest := EscapeEach(m[1..]) + "%";
      Associative(EscapeChar(m[0]), EscapeEach(m[1..]), "%");
      assert p == EscapeChar(m[0]) + rest;
      assert p[|EscapeChar(m[0])|..] == rest;
      if t != "" {
        LikeEscapedPrefix(m[1..], t[1..]);
        assert m <= t <==> m[0] == t[0] && m[1..] <= t[1..] by { PrefixStep(m, t); }
      }
    }
  }

  lemma PrefixStep(m: string, t: string)
    requires m != "" && t != ""
    ensures m <= t <==> m[0] == t[0] && m[1..] <= t[1..]
  {
  }

  lemma {:induction false} LikeFloating(q: string, t: string)
    ensures Like("%" + q, t) <==> exists i | 0 <= i <= |t| :: Like(q, t[i..])
  {
    var p := "%" + q;
    assert p[1..] == q && t[0..] == t;
    if t == "" {
    } else {
      LikeFloating(q, t[1..]);
      if Like(p, t[1..]) {
        var i :| 0 <= i <= |t[1..]| && Like(q, t[1..][i..]);
        assert t[i + 1..] == t[1..][i..];
      }
      if exists i | 0 <= i <= |t| :: Like(q, t[i..]) {
        var i :| 0 <= i <= |t| && Like(q, t[i..]);
        if i > 0 {
          assert t[i..] == t[1..][i - 1..];
        }
      }
    }
  }

  /** A pattern built from a text matches exactly the strings that contain the text, whatever
      wildcard or escape characters the text holds. */
  lemma PatternMeansContains(fold: Fold, text: string, t: string)
    requires FoldOk(fold)
    ensures ILike(fold, Pattern(text), t) <==> OccursIn(fold, text, t)
  {
    var m, ft := Folded(fold, text), Folded(fold, t);
    EscapedIsEscapeEach(text);
    FoldedPattern(fold, text);
    LikeFloating(EscapeEach(m) + "%", ft);
    forall i | 0 <= i <= |ft| ensures Like(EscapeEach(m) + "%", ft[i..]) <==> m <= ft[i..] {
      LikeEscapedPrefix(m, ft[i..]);
    }
  }

  lemma FoldedPattern(fold: Fold, text: string)
    requires FoldOk(fold)
    ensures Folded(fold, Pattern(text)) == "%" + (EscapeEach(Folded(fold, text)) + "%")
  {
    hide Escaped; hide EscapeEach;
    EscapedIsEscapeEach(text);
    FoldedEscape(fold, text);
    assert IsSpecial('%');
    assert Folded(fold, "%") == "%";
    FoldedAppend(fold, "%" + Escaped(text), "%");
    FoldedAppend(fold, "%", Escaped(text));
    Associative("%", EscapeEach(Folded(fold, text)), "%");
  }

  // ---------- The flattened aliases ----------

  lemma ContainsInLeft(a: string, b: string, m: string, i: nat)
    requires UNIT_SEPARATOR !in m && i <= |a| && m <= (a + [UNIT_SEPARATOR] + b)[i..]
    ensures m <= a[i..]
  {
    var t := a + [UNIT_SEPARATOR] + b;
    assert forall k | 0 <= k < |m| :: m[k] == t[i + k];
    assert t[|a|] == UNIT_SEPARATOR == t[i + (|a| - i)];
    assert |a| - i >= |m|;
  }

  lemma ContainsAcross(a: string, b: string, m: string)
    requires UNIT_SEPARATOR !in m
    ensures Contains(a + [UNIT_SEPARATOR] + b, m) <==> Contains(a, m) || Contains(b, m)
  {
    var t := a + [UNIT_SEPARATOR] + b;
    if Contains(t, m) {
      var i :| 0 <= i <= |t| && m <= t[i..];
      if i <= |a| {
        ContainsInLeft(a, b, m, i);
      } else {
        assert t[i..] == b[i - |a| - 1..];
      }
    }
    if Contains(a, m) {
      var i :| 0 <= i <= |a| && m <= a[i..];
      assert t[i..] == a[i..] + ([UNIT_SEPARATOR] + b);
      assert m <= t[i..];
    }
    if Contains(b, m) {
      var i :| 0 <= i <= |b| && m <= b[i..];
      assert t[i + |a| + 1..] == b[i..];
    }
  }

  lemma {:induction false} JoinedContains(fold: Fold, aliases: seq<string>, m: string)
    requires FoldOk(fold) && UNIT_SEPARATOR !in m && aliases != []
    ensures Contains(Folded(fold, Join(aliases)), m) <==> exists k | 0 <= k < |aliases| ::
        Contains(Folded(fold, aliases[k]), m)
  {
    if |aliases| > 1 {
      var a, rest := aliases[0], aliases[1..];
      JoinedContains(fold, rest, m);
      assert IsSpecial(UNIT_SEPARATOR);
      assert Folded(fold, [UNIT_SEPARATOR]) == [UNIT_SEPARATOR];
      FoldedAppend(fold, a + [UNIT_SEPARATOR], Join(rest));
      FoldedAppend(fold, a, [UNIT_SEPARATOR]);
      ContainsAcross(Folded(fold, a), Folded(fold, Join(rest)), m);
      assert forall k | 0 <= k < |rest| :: rest[k] == aliases[k + 1];
      if exists k | 0 <= k < |aliases| :: Contains(Folded(fold, aliases[k]), m) {
        var k :| 0 <= k < |aliases| && Contains(Folded(fold, aliases[k]), m);
        assert k > 0 ==> aliases[k] == rest[k - 1];
      }
    }
  }

  /** For every text free of U+001F the search hits exactly when the text occurs, up to case
      folding, in the name or in one single alias. */
  lemma SearchIsLiteral(fold: Fold, text: string, name: string, aliases: seq<string>)
    requires FoldOk(fold) && UNIT_SEPARATOR !in text
    ensures SearchHit(fold, text, name, aliases) <==> OccursInSomeField(fold, text, name, aliases)
  {
    PatternMeansContains(fold, text, name);
    PatternMeansContains(fold, text, Join(aliases));
    var m := Folded(fold, text);
    forall i | 0 <= i < |m| ensures m[i] != UNIT_SEPARATOR {
      assert IsSpecial(m[i]) ==> m[i] == text[i];
    }
    if aliases == [] {
      EmptyHaystack(fold, text, name);
    } else {
      JoinedContains(fold, aliases, m);
    }
  }

  // Only the empty text occurs in the empty string, and that occurs in every name too.
  lemma EmptyHaystack(fold: Fold, text: string, name: string)
    ensures OccursIn(fold, text, "") ==> OccursIn(fold, text, name)
  {
    if OccursIn(fold, text, "") {
      assert Folded(fold, text) == "";
      assert "" <= Folded(fold, name)[0..];
    }
  }

  // Whatever the caller searches for, the search hits exactly when the text is in some field.
  ghost predicate AlwaysLiteral(fold: Fold, name: string, aliases: seq<string>) {
    forall text :: SearchHit(fold, text, name, aliases) <==> OccursInSomeField(fold, text, name, aliases)
  }

  /** For a stored part, whose name and aliases are free of U+001F, the search is right for every
      text if and only if the part has at most one alias. */
  lemma AlwaysLiteralIff(fold: Fold, name: string, aliases: seq<string>)
    requires FoldOk(fold) && UNIT_SEPARATOR !in name
    requires forall k | 0 <= k < |aliases| :: UNIT_SEPARATOR !in aliases[k]
    ensures AlwaysLiteral(fold, name, aliases) <==> |aliases| <= 1
  {
    hide SearchHit; hide OccursInSomeField; hide FoldOk;
    if |aliases| <= 1 {
      forall text ensures SearchHit(fold, text, name, aliases) <==> OccursInSomeField(fold, text, name, aliases) {
        OneAliasIsLiteral(fold, text, name, aliases);
      }
    } else {
      SeparatorIsFound(fold, name, aliases);
    }
  }

  lemma OneAliasIsLiteral(fold: Fold, text: string, name: string, aliases: seq<string>)
    requires FoldOk(fold) && |aliases| <= 1
    ensures SearchHit(fold, text, name, aliases) <==> OccursInSomeField(fold, text, name, aliases)
  {
    PatternMeansContains(fold, text, name);
    PatternMeansContains(fold, text, Join(aliases));
    if aliases == [] {
      EmptyHaystack(fold, text, name);
    }
  }

  // Two aliases are joined by the separator, so the text that is the separator alone is found.
  lemma SeparatorIsFound(fold: Fold, name: string, aliases: seq<string>)
    requires FoldOk(fold) && |aliases| > 1 && UNIT_SEPARATOR !in name
    requires forall k | 0 <= k < |aliases| :: UNIT_SEPARATOR !in aliases[k]
    ensures SearchHit(fold, [UNIT_SEPARATOR], name, aliases)
        && !OccursInSomeField(fold, [UNIT_SEPARATOR], name, aliases)
  {
    var text, flat, n := [UNIT_SEPARATOR], Join(aliases), |aliases[0]|;
    NotInFields(fold, text, name, aliases);
    PatternMeansContains(fold, text, flat);
    assert IsSpecial(UNIT_SEPARATOR);
    assert flat[n] == UNIT_SEPARATOR && Folded(fold, flat)[n] == UNIT_SEPARATOR;
    assert Folded(fold, text) <= Folded(fold, flat)[n..];
  }

  lemma NotInFields(fold: Fold, text: string, name: string, aliases: seq<string>)
    requires FoldOk(fold) && UNIT_SEPARATOR in text && UNIT_SEPARATOR !in name
    requires forall k | 0 <= k < |aliases| :: UNIT_SEPARATOR !in aliases[k]
    ensures !OccursInSomeField(fold, text, name, aliases)
  {
    NoSeparatorNoMatch(fold, text, name);
    forall k | 0 <= k < |aliases| ensures !OccursIn(fold, text, aliases[k]) {
      NoSeparatorNoMatch(fold, text, aliases[k]);
    }
  }

  lemma NoSeparatorNoMatch(fold: Fold, text: string, field: string)
    requires FoldOk(fold) && UNIT_SEPARATOR in text && UNIT_SEPARATOR !in field
    ensures !OccursIn(fold, text, field)
  {
  }

  /** It can be wrong there: the text "o U+001F b" is found across the aliases "foo" and "bar". */
  lemma SeparatorMisfires(fold: Fold)
    requires FoldOk(fold)
    ensures SearchHit(fold, ['o', UNIT_SEPARATOR, 'b'], "api", ["foo", "bar"])
    ensures !OccursInSomeField(fold, ['o', UNIT_SEPARATOR, 'b'], "api", ["foo", "bar"])
  {
    var text, aliases := ['o', UNIT_SEPARATOR, 'b'], ["foo", "bar"];
    assert aliases[1..] == ["bar"];
    var flat := Join(aliases);
    assert flat == "foo" + [UNIT_SEPARATOR] + "bar";
    var m, f := Folded(fold, text), Folded(fold, flat);
    assert text[1] == UNIT_SEPARATOR;
    assert flat[2] == 'o' && flat[3] == UNIT_SEPARATOR && flat[4] == 'b';
    assert m <= f[2..];
    NotInFields(fold, text, "api", aliases);
    PatternMeansContains(fold, text, flat);
  }
}
