/** MAJOR.MINOR.PATCH versions with an optional -rcN suffix: grammar, parser, printer, order. */
module Versioning {
  import opened Common

  // prerelease is the text "rcN" as it was written: rc1 and rc01 are different rows of a
  // table but equal in the order.
  datatype Version = Version(major: nat, minor: nat, patch: nat, prerelease: Option<string>) {
    predicate IsPrerelease() { prerelease.Some? }

    function Stable(): Version { Version(major, minor, patch, None) }

    predicate WellFormed() { prerelease.Some? ==> IsRc(prerelease.value) }
  }

  predicate IsDigit(c: char) { '0' <= c <= '9' }

  predicate AllDigits(s: string) { forall i | 0 <= i < |s| :: IsDigit(s[i]) }

  predicate IsNumber(s: string) { s != "" && AllDigits(s) }

  predicate IsRc(s: string) { |s| > 2 && s[..2] == "rc" && AllDigits(s[2..]) }

  /** The number a digit string denotes. */
  function Value(s: string): nat
    requires AllDigits(s)
  {
    if s == "" then 0 else 10 * Value(s[..|s| - 1]) + (s[|s| - 1] - '0') as nat
  }

  /** Length of the longest prefix of digits. */
  function DigitsLen(s: string): (n: nat)
    ensures n <= |s| && AllDigits(s[..n])
    ensures n < |s| ==> !IsDigit(s[n])
  {
    if s == "" || !IsDigit(s[0]) then 0
    else
      var n := 1 + DigitsLen(s[1..]);
      assert forall i | 0 <= i < n :: s[..n][i] == if i == 0 then s[0] else s[1..][..n - 1][i - 1];
      n
  }

  // One number, then the given separator: the number and what follows the separator.
  function TakeNumber(s: string, sep: char): (r: Option<(string, string)>)
    ensures r.Some? ==> IsNumber(r.value.0) && s == r.value.0 + [sep] + r.value.1
  {
    var n := DigitsLen(s);
    if n == 0 || n == |s| || s[n] != sep then None else Some((s[..n], s[n + 1..]))
  }

  function ParseSuffix(s: string): (r: Option<Option<string>>)
  {
    if s == "" then Some(None)
    else if |s| > 3 && s[0] == '-' && IsRc(s[1..]) then Some(Some(s[1..]))
    else None
  }

  function Parse(s: string, allowPrerelease: bool): (r: Option<Version>)
    ensures r.Some? ==> r.value.WellFormed() && (r.value.IsPrerelease() ==> allowPrerelease)
  {
    match TakeNumber(s, '.')
    case None => None
    case Some((major, s1)) =>
      match TakeNumber(s1, '.')
      case None => None
      case Some((minor, s2)) =>
        var n := DigitsLen(s2);
        if n == 0 then None else
        match ParseSuffix(s2[n..])
        case None => None
        case Some(pre) =>
          if pre.Some? && !allowPrerelease then None
          else Some(Version(Value(major), Value(minor), Value(s2[..n]), pre))
  }

  // ---------- Printing ----------

  function DigitChar(d: nat): (c: char)
    requires d < 10
    ensures IsDigit(c) && (c - '0') as nat == d
  {
    '0' + d as char
  }

  function Decimal(n: nat): (s: string)
    ensures IsNumber(s) && Value(s) == n
  {
    if n < 10 then
      var s := [DigitChar(n)];
      assert s[..0] == "";
      s
    else
      var s := Decimal(n / 10) + [DigitChar(n % 10)];
      assert s[..|s| - 1] == Decimal(n / 10);
      s
  }

  function Suffix(pre: Option<string>): string {
    match pre
    case None => ""
    case Some(p) => "-" + p
  }

  function Print(v: Version): string {
    Decimal(v.major) + "." + Decimal(v.minor) + "." + Decimal(v.patch) + Suffix(v.prerelease)
  }

  // ---------- The grammar, stated without the parser ----------

  /** s is written a.b.c followed by nothing or by - and an rc label. */
  ghost predicate Spells(s: string, a: string, b: string, c: string, pre: Option<string>) {
    && IsNumber(a) && IsNumber(b) && IsNumber(c)
    && (pre.Some? ==> IsRc(pre.value))
    && s == a + "." + b + "." + c + Suffix(pre)
  }

  lemma DigitsLenOf(a: string, rest: string)
    requires AllDigits(a) && (rest == "" || !IsDigit(rest[0]))
    ensures DigitsLen(a + rest) == |a|
  {
    var n := DigitsLen(a + rest);
    var t := a + rest;
    assert forall i | 0 <= i < |a| :: IsDigit(t[i]);
    assert forall i | 0 <= i < n :: IsDigit(t[i]) by {
      forall i | 0 <= i < n ensures IsDigit(t[i]) { assert t[i] == t[..n][i]; }
    }
    assert rest != "" ==> t[|a|] == rest[0];
  }

  lemma TakeNumberOf(a: string, sep: char, rest: string)
    requires IsNumber(a) && !IsDigit(sep)
    ensures TakeNumber(a + [sep] + rest, sep) == Some((a, rest))
  {
    assert a + [sep] + rest == a + ([sep] + rest);
    DigitsLenOf(a, [sep] + rest);
    var s := a + [sep] + rest;
    assert s[..|a|] == a && s[|a| + 1..] == rest;
  }

  lemma SuffixRoundTrip(pre: Option<string>)
    requires pre.Some? ==> IsRc(pre.value)
    ensures ParseSuffix(Suffix(pre)) == Some(pre)
    ensures Suffix(pre) == "" || !IsDigit(Suffix(pre)[0])
  {
  }

  /** Every spelling parses, and to the numbers it spells. */
  lemma ParseAcceptsGrammar(s: string, a: string, b: string, c: string, pre: Option<string>)
    requires Spells(s, a, b, c, pre)
    ensures Parse(s, true) == Some(Version(Value(a), Value(b), Value(c), pre))
    ensures Parse(s, false) == if pre.Some? then None else Parse(s, true)
  {
    hide DigitsLen; hide Value; hide TakeNumber; hide ParseSuffix; hide Suffix; hide IsRc; hide AllDigits;
    var s2 := c + Suffix(pre);
    var s1 := b + "." + s2;
    JoinSpelling(a + "." + s1, a, b, c, s1, s2, pre);
    TakeNumberOf(a, '.', s1);
    TakeNumberOf(b, '.', s2);
    SuffixRoundTrip(pre);
    DigitsLenOf(c, Suffix(pre));
    assert s2[..|c|] == c && s2[|c|..] == Suffix(pre);
  }

  /** Nothing else parses: a parsed text is a spelling of its own fields. */
  lemma ParseRejectsOthers(s: string) returns (a: string, b: string, c: string, pre: Option<string>)
    requires Parse(s, true).Some?
    ensures Spells(s, a, b, c, pre)
    ensures Parse(s, true).value == Version(Value(a), Value(b), Value(c), pre)
  {
    hide DigitsLen; hide Value; hide TakeNumber; hide ParseSuffix; hide Suffix; hide IsRc; hide AllDigits;
    var (x, s1) := TakeNumber(s, '.').value;
    var (y, s2) := TakeNumber(s1, '.').value;
    var z := s2[..DigitsLen(s2)];
    a, b, c, pre := x, y, z, ParseSuffix(s2[|z|..]).value;
    SuffixText(s2[|z|..]);
    assert s2 == z + s2[|z|..];
    JoinSpelling(s, x, y, z, s1, s2, pre);
  }

  lemma SuffixText(s: string)
    requires ParseSuffix(s).Some?
    ensures Suffix(ParseSuffix(s).value) == s
    ensures ParseSuffix(s).value.Some? ==> IsRc(ParseSuffix(s).value.value)
  {
  }

  lemma JoinSpelling(s: string, a: string, b: string, c: string, s1: string, s2: string, pre: Option<string>)
    requires s == a + "." + s1 && s1 == b + "." + s2 && s2 == c + Suffix(pre)
    ensures s == a + "." + b + "." + c + Suffix(pre)
  {
  }

  /** Parsing what was printed gives the version back. */
  lemma PrintParse(v: Version)
    requires v.WellFormed()
    ensures Parse(Print(v), true) == Some(v)
  {
    ParseAcceptsGrammar(Print(v), Decimal(v.major), Decimal(v.minor), Decimal(v.patch), v.prerelease);
  }

  /** Printing after parsing is a normaliser: done twice it changes nothing more, and it keeps
      the parsed value. */
  lemma NormaliseIdempotent(s: string)
    requires Parse(s, true).Some?
    ensures var t := Print(Parse(s, true).value);
            Parse(t, true) == Parse(s, true) && Print(Parse(t, true).value) == t
  {
    PrintParse(Parse(s, true).value);
  }

  // ---------- Order ----------

  function RcNumber(p: string): nat {
    if IsRc(p) then Value(p[2..]) else 0
  }

  predicate SameTriple(a: Version, b: Version) {
    a.major == b.major && a.minor == b.minor && a.patch == b.patch
  }

  predicate TripleLess(a: Version, b: Version) {
    || a.major < b.major
    || (a.major == b.major && a.minor < b.minor)
    || (a.major == b.major && a.minor == b.minor && a.patch < b.patch)
  }

  // Stable sorts above every release candidate of its triple; candidates sort by number.
  predicate PreLess(a: Option<string>, b: Option<string>) {
    match (a, b)
    case (None, _) => false
    case (Some(_), None) => true
    case (Some(x), Some(y)) => RcNumber(x) < RcNumber(y)
  }

  predicate Less(a: Version, b: Version) {
    TripleLess(a, b) || (SameTriple(a, b) && PreLess(a.prerelease, b.prerelease))
  }

  predicate PreSame(a: Option<string>, b: Option<string>) {
    match (a, b)
    case (None, None) => true
    case (Some(x), Some(y)) => RcNumber(x) == RcNumber(y)
    case _ => false
  }

  predicate Same(a: Version, b: Version) {
    SameTriple(a, b) && PreSame(a.prerelease, b.prerelease)
  }

  function Max(a: Version, b: Version): Version {
    if Less(a, b) then b else a
  }

  /** The order is a strict total order in which the equal versions are those with the same
      numbers, rc numbers included. */
  lemma OrderIsStrictTotal(a: Version, b: Version, c: Version)
    ensures !Less(a, a)
    ensures Less(a, b) && Less(b, c) ==> Less(a, c)
    ensures Less(a, b) || Less(b, a) || Same(a, b)
    ensures !(Less(a, b) && Less(b, a)) && !(Less(a, b) && Same(a, b))
    ensures Same(a, b) ==> (Less(a, c) <==> Less(b, c)) && (Less(c, a) <==> Less(c, b))
  {
  }

  /** Every release candidate of a triple lies above every version of every smaller triple and
      below its own stable version, and candidates of one triple are ordered by number. */
  lemma CandidatesSitBelowTheirStable(rc: Version, other: Version)
    requires rc.IsPrerelease()
    ensures Less(rc, rc.Stable())
    ensures TripleLess(other, rc) ==> Less(other, rc) && Less(other, rc.Stable())
    ensures SameTriple(other, rc) ==> !Less(rc.Stable(), other)
    ensures Less(rc, other) && !Same(other, rc.Stable()) && !Less(rc.Stable(), other)
            ==> SameTriple(other, rc) && other.IsPrerelease()
                && RcNumber(rc.prerelease.value) < RcNumber(other.prerelease.value)
  {
  }

  // The three integers as one number, in a base above the last two.
  function TripleNumber(v: Version, base: nat): nat { (v.major * base + v.minor) * base + v.patch }

  /** The order of triples is the order of those numbers: major first, then minor, then patch. */
  lemma TripleOrderIsNumeric(a: Version, b: Version, base: nat)
    requires a.minor < base && b.minor < base && a.patch < base && b.patch < base
    ensures TripleLess(a, b) <==> TripleNumber(a, base) < TripleNumber(b, base)
  {
    var x, y := a.major * base + a.minor, b.major * base + b.minor;
    DigitOrder(a.major, a.minor, b.major, b.minor, base);
    DigitOrder(x, a.patch, y, b.patch, base);
  }

  // Two numbers compare by their leading part first.
  lemma DigitOrder(x: nat, c: nat, y: nat, d: nat, base: nat)
    requires c < base && d < base
    ensures x * base + c < y * base + d <==> x < y || (x == y && c < d)
    ensures x * base + c == y * base + d <==> x == y && c == d
  {
    if x < y {
      assert (x + 1) * base <= y * base;
    } else if y < x {
      assert (y + 1) * base <= x * base;
    }
  }
}
