/** The listing of the open proposals of one version log. */
module OpenListing {
  import opened Common
  import opened Versioning
  import opened VersionLog

  /** The rows of the log that are open against the log top, in table order. */
  function OpenRows(rows: Log, top: Log): Log {
    if rows == [] then []
    else
      var n := |rows| - 1;
      OpenRows(rows[..n], top) + if IsOpen(top, rows[n]) then [rows[n]] else []
  }

  lemma {:induction false} OpenRowsMembers(rows: Log, top: Log, r: VersionRow)
    ensures r in OpenRows(rows, top) <==> r in rows && IsOpen(top, r)
  {
    if rows == [] {
    } else {
      assert rows == rows[..|rows| - 1] + [rows[|rows| - 1]];
      OpenRowsMembers(rows[..|rows| - 1], top, r);
    }
  }

  // Character by character, a proper prefix first.
  predicate TextLess(a: string, b: string) {
    b != "" && (a == "" || a[0] < b[0] || (a[0] == b[0] && TextLess(a[1..], b[1..])))
  }

  lemma {:induction false} TextOrder(a: string, b: string, c: string)
    ensures !TextLess(a, a)
    ensures TextLess(a, b) && TextLess(b, c) ==> TextLess(a, c)
    ensures TextLess(a, b) || TextLess(b, a) || a == b
    ensures !(TextLess(a, b) && TextLess(b, a))
  {
    var a', b', c' := if a == "" then "" else a[1..], if b == "" then "" else b[1..], if c == "" then "" else c[1..];
    assert a != "" ==> a == [a[0]] + a';
    assert b != "" ==> b == [b[0]] + b';
    if a != "" || b != "" || c != "" {
      TextOrder(a', b', c');
    }
  }

  /** The order of the listing query: the three integers, then the candidate label as text, with
      stable versions last. */
  predicate ListedBefore(a: Version, b: Version) {
    || TripleLess(a, b)
    || (SameTriple(a, b) && a.prerelease.Some?
        && (b.prerelease.None? || TextLess(a.prerelease.value, b.prerelease.value)))
  }

  lemma ListedOrder(a: Version, b: Version, c: Version)
    ensures !(ListedBefore(a, b) && ListedBefore(b, a))
    ensures ListedBefore(a, b) && !ListedBefore(c, b) ==> ListedBefore(a, c)
  {
    TextOrder(a.prerelease.GetOr(""), b.prerelease.GetOr(""), c.prerelease.GetOr(""));
    TextOrder(a.prerelease.GetOr(""), c.prerelease.GetOr(""), b.prerelease.GetOr(""));
    TextOrder(c.prerelease.GetOr(""), b.prerelease.GetOr(""), a.prerelease.GetOr(""));
  }

  function InsertListed(rows: Log, r: VersionRow): (out: Log)
    ensures |out| == |rows| + 1
  {
    var n := |rows| - 1;
    if rows == [] || !ListedBefore(r.version, rows[n].version) then rows + [r]
        else InsertListed(rows[..n], r) + [rows[n]]
  }

  // The rows as the query returns them.
  function InListingOrder(rows: Log): Log {
    if rows == [] then [] else InsertListed(InListingOrder(rows[..|rows| - 1]), rows[|rows| - 1])
  }

  ghost predicate Listed(rows: Log) {
    forall i, j | 0 <= i < j < |rows| :: !ListedBefore(rows[j].version, rows[i].version)
  }

  lemma {:induction false} InsertListedOnce(rows: Log, r: VersionRow)
    ensures multiset(InsertListed(rows, r)) == multiset(rows) + multiset{r}
  {
    hide ListedBefore;
    var n := |rows| - 1;
    if rows == [] || !ListedBefore(r.version, rows[n].version) {
    } else {
      assert rows == rows[..n] + [rows[n]];
      InsertListedOnce(rows[..n], r);
    }
  }

  lemma InsertListedMembers(rows: Log, r: VersionRow, x: VersionRow)
    ensures x in InsertListed(rows, r) <==> x in rows || x == r
  {
    InsertListedOnce(rows, r);
    assert x in InsertListed(rows, r) <==> x in multiset(InsertListed(rows, r));
    assert x in rows <==> x in multiset(rows);
  }

  lemma {:induction false} InsertKeepsListed(rows: Log, r: VersionRow)
    requires Listed(rows)
    ensures Listed(InsertListed(rows, r))
  {
    hide ListedBefore;
    var n := |rows| - 1;
    if rows == [] {
    } else if ListedBefore(r.version, rows[n].version) {
      InsertKeepsListed(rows[..n], r);
      var out := InsertListed(rows[..n], r);
      forall i | 0 <= i < |out| ensures !ListedBefore(rows[n].version, out[i].version) {
        InsertListedMembers(rows[..n], r, out[i]);
        assert out[i] in rows[..n] || out[i] == r;
        ListedOrder(r.version, rows[n].version, r.version);
      }
    } else {
      forall i | 0 <= i < |rows| ensures !ListedBefore(r.version, rows[i].version) {
        ListedOrder(r.version, rows[i].version, rows[n].version);
      }
    }
  }

  lemma {:induction false} ListingOrderKeeps(rows: Log)
    ensures multiset(InListingOrder(rows)) == multiset(rows)
    ensures Listed(InListingOrder(rows))
  {
    if rows == [] {
    } else {
      var n := |rows| - 1;
      assert rows == rows[..n] + [rows[n]];
      ListingOrderKeeps(rows[..n]);
      InsertListedOnce(InListingOrder(rows[..n]), rows[n]);
      InsertKeepsListed(InListingOrder(rows[..n]), rows[n]);
    }
  }

  lemma {:induction false} OpenRowsOfInsert(rows: Log, r: VersionRow, top: Log)
    ensures multiset(OpenRows(InsertListed(rows, r), top))
            == multiset(OpenRows(rows, top)) + if IsOpen(top, r) then multiset{r} else multiset{}
  {
    hide IsOpen; hide ListedBefore;
    var n := |rows| - 1;
    if rows == [] || !ListedBefore(r.version, rows[n].version) {
      assert (rows + [r])[..|rows|] == rows;
    } else {
      OpenRowsOfInsert(rows[..n], r, top);
      assert InsertListed(rows, r)[..|rows|] == InsertListed(rows[..n], r);
    }
  }

  lemma {:induction false} OpenRowsOfOrdered(rows: Log, top: Log)
    ensures multiset(OpenRows(InListingOrder(rows), top)) == multiset(OpenRows(rows, top))
  {
    if rows == [] {
    } else {
      var n := |rows| - 1;
      OpenRowsOfOrdered(rows[..n], top);
      OpenRowsOfInsert(InListingOrder(rows[..n]), rows[n], top);
    }
  }

  lemma {:induction false} OpenRowsListed(rows: Log, top: Log)
    requires Listed(rows)
    ensures Listed(OpenRows(rows, top))
  {
    hide IsOpen; hide ListedBefore;
    if rows == [] {
    } else {
      var n := |rows| - 1;
      var before := OpenRows(rows[..n], top);
      OpenRowsListed(rows[..n], top);
      forall i | 0 <= i < |before| ensures !ListedBefore(rows[n].version, before[i].version) {
        OpenRowsMembers(rows[..n], top, before[i]);
        assert before[i] in rows[..n];
      }
    }
  }

  /** The listing loop: the open rows of the log, each as often as it stands there, in the order of
      the query, beside the latest active version. */
  method ListOpen(log: Log) returns (active: Option<Version>, open: Log)
    ensures active == if LatestActive(log).Some? then Some(LatestActive(log).value.version) else None
    ensures multiset(open) == multiset(OpenRows(log, log)) && |open| == |OpenRows(log, log)|
    ensures forall r :: r in open <==> r in log && IsOpen(log, r)
    ensures Listed(open)
  {
    hide LatestActive;
    var latest := LatestActive(log);
    active := if latest.Some? then Some(latest.value.version) else None;
    var rows := InListingOrder(log);
    open := [];
    for n := 0 to |rows|
      invariant open == OpenRows(rows[..n], log)
    {
      assert rows[..n + 1][..n] == rows[..n];
      if !rows[n].active && (active.None? || Less(active.value, rows[n].version)) {
        open := open + [rows[n]];
      }
    }
    assert rows[..|rows|] == rows;
    ListingOrderKeeps(log);
    OpenRowsOfOrdered(log, log);
    OpenRowsListed(rows, log);
    assert |multiset(open)| == |multiset(OpenRows(log, log))|;
    forall r ensures r in open <==> r in log && IsOpen(log, r) {
      OpenRowsMembers(log, log, r);
      assert r in open <==> r in multiset(open);
    }
  }

  lemma {:induction false} AtMostOnce(rows: Log, r: VersionRow)
    requires Distinct(rows)
    ensures multiset(rows)[r] <= 1
  {
    if rows == [] {
    } else {
      var n := |rows| - 1;
      assert rows == rows[..n] + [rows[n]];
      AtMostOnce(rows[..n], r);
      if r == rows[n] {
        OrderIsStrictTotal(r.version, r.version, r.version);
        assert r !in rows[..n];
      }
    }
  }

  // The open rows of a log are among its rows.
  lemma {:induction false} OpenRowsAmong(rows: Log, top: Log)
    ensures multiset(OpenRows(rows, top)) <= multiset(rows)
  {
    if rows == [] {
    } else {
      assert rows == rows[..|rows| - 1] + [rows[|rows| - 1]];
      OpenRowsAmong(rows[..|rows| - 1], top);
    }
  }

  /** In a sound log no row is listed twice. */
  lemma ListedOnce(log: Log, open: Log)
    requires Distinct(log) && multiset(open) == multiset(OpenRows(log, log))
    ensures forall i, j | 0 <= i < j < |open| :: open[i] != open[j]
  {
    hide OpenRows; hide Distinct;
    OpenRowsAmong(log, log);
    forall i, j | 0 <= i < j < |open| ensures open[i] != open[j] {
      AtMostOnce(log, open[i]);
      Twice(open, i, j);
    }
  }

  lemma Twice(rows: Log, i: nat, j: nat)
    requires i < j < |rows|
    ensures rows[i] == rows[j] ==> multiset(rows)[rows[i]] >= 2
  {
    var a, b := rows[..j], rows[j..];
    assert rows == a + b && a[i] == rows[i] && b[0] == rows[j];
    assert rows[i] in multiset(a) && rows[j] in multiset(b);
  }

  // ---------- When the listing is in version order ----------

  ghost predicate InVersionOrder(open: Log) {
    forall i, j | 0 <= i < j < |open| :: !Less(open[j].version, open[i].version)
  }

  /** Two candidates of one triple whose labels compare one way as text and the other as numbers. */
  predicate Swapped(a: Version, b: Version) {
    && SameTriple(a, b) && a.prerelease.Some? && b.prerelease.Some?
    && TextLess(a.prerelease.value, b.prerelease.value) && RcNumber(b.prerelease.value) < RcNumber(a.prerelease.value)
  }

  // A label as it is usually written: rc and a number without leading zeros.
  predicate Canonical(v: Version) {
    v.prerelease.Some? ==> IsRc(v.prerelease.value) && (|v.prerelease.value| == 3 || v.prerelease.value[2] != '0')
  }

  /** Two candidates of one triple of which the one with the longer label comes first as text. */
  predicate Misplaced(a: Version, b: Version) {
    && SameTriple(a, b) && a.prerelease.Some? && b.prerelease.Some?
    && |a.prerelease.value| > |b.prerelease.value| && TextLess(a.prerelease.value, b.prerelease.value)
  }

  // Text compares equal-length strings by all characters but the last, then by the last.
  lemma {:induction false} TextLessByLast(x: string, y: string, a: char, b: char)
    requires |x| == |y|
    ensures TextLess(x + [a], y + [b]) <==> TextLess(x, y) || (x == y && a < b)
  {
    if x == "" {
      assert [a][1..] == "" && [b][1..] == "";
      assert x + [a] == [a] && y + [b] == [b];
    } else {
      TextLessByLast(x[1..], y[1..], a, b);
      assert (x + [a])[1..] == x[1..] + [a] && (y + [b])[1..] == y[1..] + [b];
      assert x == [x[0]] + x[1..] && y == [y[0]] + y[1..];
    }
  }

  /** Digit strings of one length compare as text exactly as the numbers they denote. */
  lemma {:induction false} TextIsNumeric(x: string, y: string)
    requires AllDigits(x) && AllDigits(y) && |x| == |y|
    ensures TextLess(x, y) <==> Value(x) < Value(y)
    ensures x == y <==> Value(x) == Value(y)
  {
    if x == "" {
    } else {
      var n := |x| - 1;
      var x', y' := x[..n], y[..n];
      assert x == x' + [x[n]] && y == y' + [y[n]];
      TextIsNumeric(x', y');
      TextLessByLast(x', y', x[n], y[n]);
    }
  }

  lemma {:induction false} LeadingDigit(y: string)
    requires IsNumber(y) && y[0] != '0'
    ensures Value(y) >= 1
  {
    if |y| == 1 {
      assert y[..0] == "";
    } else {
      LeadingDigit(y[..|y| - 1]);
    }
  }

  /** Of two digit strings the longer one denotes the greater number, unless it has leading zeros. */
  lemma {:induction false} LongerIsGreater(x: string, y: string)
    requires AllDigits(x) && IsNumber(y) && |x| < |y| && y[0] != '0'
    ensures Value(x) < Value(y)
  {
    LeadingDigit(y);
    if x == "" {
    } else {
      LongerIsGreater(x[..|x| - 1], y[..|y| - 1]);
    }
  }

  lemma LabelText(p: string, q: string)
    requires IsRc(p) && IsRc(q)
    ensures TextLess(p, q) <==> TextLess(p[2..], q[2..])
  {
    assert p[..2][0] == 'r' && p[..2][1] == 'c' && q[..2][0] == 'r' && q[..2][1] == 'c';
    assert p[1..][0] == 'c' && q[1..][0] == 'c';
    assert p[1..][1..] == p[2..] && q[1..][1..] == q[2..];
  }

  lemma SwappedIsMisplaced(a: Version, b: Version)
    requires Canonical(a) && Canonical(b)
    ensures Swapped(a, b) <==> Misplaced(a, b)
  {
    hide TextLess; hide Value;
    if SameTriple(a, b) && a.prerelease.Some? && b.prerelease.Some? {
      var p, q := a.prerelease.value, b.prerelease.value;
      LabelText(p, q);
      if |p| == |q| {
        TextIsNumeric(p[2..], q[2..]);
      } else if |p| < |q| {
        LongerIsGreater(p[2..], q[2..]);
      } else {
        LongerIsGreater(q[2..], p[2..]);
      }
    }
  }

  // Listed first but lower.
  lemma SwappedIff(a: Version, b: Version)
    ensures ListedBefore(a, b) && Less(b, a) <==> Swapped(a, b)
    ensures Less(b, a) && !ListedBefore(b, a) ==> ListedBefore(a, b)
  {
    hide RcNumber;
    TextOrder(a.prerelease.GetOr(""), b.prerelease.GetOr(""), "");
  }

  ghost predicate NoneSwapped(log: Log) {
    forall r, q | r in log && q in log && IsOpen(log, r) && IsOpen(log, q) :: !Swapped(r.version, q.version)
  }

  ghost predicate NoneMisplaced(log: Log) {
    forall r, q | r in log && q in log && IsOpen(log, r) && IsOpen(log, q) :: !Misplaced(r.version, q.version)
  }

  /** What ListOpen returns is in version order if and only if no two open rows are swapped. */
  lemma ListingInVersionOrderIff(log: Log, open: Log)
    requires Listed(open) && forall r :: r in open <==> r in log && IsOpen(log, r)
    ensures InVersionOrder(open) <==> NoneSwapped(log)
  {
    hide ListedBefore; hide Less; hide Swapped; hide IsOpen;
    if !InVersionOrder(open) {
      var i, j :| 0 <= i < j < |open| && Less(open[j].version, open[i].version);
      SwappedIff(open[i].version, open[j].version);
      assert open[i] in open && open[j] in open;
    }
    if !NoneSwapped(log) {
      var r, q :| r in log && q in log && IsOpen(log, r) && IsOpen(log, q) && Swapped(r.version, q.version);
      SwappedIff(r.version, q.version);
      var i :| 0 <= i < |open| && open[i] == r;
      var j :| 0 <= j < |open| && open[j] == q;
      NotBoth(r.version);
      assert i < j;
    }
  }

  lemma NotBoth(v: Version)
    ensures !ListedBefore(v, v)
  {
    TextOrder(v.prerelease.GetOr(""), "", "");
  }

  /** For labels without leading zeros: if and only if no two open candidates of one triple have a
      longer label that comes first as text, as rc10 before rc2. */
  lemma CanonicalListingInVersionOrderIff(log: Log, open: Log)
    requires Listed(open) && forall r :: r in open <==> r in log && IsOpen(log, r)
    requires forall r | r in log :: Canonical(r.version)
    ensures InVersionOrder(open) <==> NoneMisplaced(log)
  {
    hide Listed; hide InVersionOrder; hide Swapped; hide Misplaced; hide IsOpen; hide Canonical;
    ListingInVersionOrderIff(log, open);
    forall r, q | r in log && q in log ensures Swapped(r.version, q.version) <==> Misplaced(r.version, q.version) {
      SwappedIsMisplaced(r.version, q.version);
    }
  }

  const FIRST: Version := Version(1, 0, 0, None)
  const RC2: Version := Version(1, 1, 0, Some("rc2"))
  const RC10: Version := Version(1, 1, 0, Some("rc10"))

  // 1.0.0 is registered, then rc2 and rc10 of 1.1.0 are proposed.
  lemma TwoCandidates() returns (log: Log)
    ensures LogOk(log, 3) && |log| == 3 && LatestActive(log) == Some(log[0])
    ensures log[0].version == FIRST && log[1].version == RC2 && log[2].version == RC10
    ensures !log[1].active && !log[2].active
  {
    hide TextLess;
    Labels();
    var log0 := [Registered(FIRST, "", 1)];
    RegisteredOk(FIRST, "", 1);
    assert log0[..0] == [];
    assert LatestAny(log0) == Some(FIRST) && LatestActive(log0) == Some(log0[0]);
    var log1 := Propose(log0, RC2, "", None, 2).value;
    ProposeKeeps(log0, RC2, "", None, 1, 2);
    ProposeLeavesLatest(log0, RC2, "", None, 2);
    assert log1[..1] == log0;
    assert LatestAny(log1) == Some(RC2);
    log := Propose(log1, RC10, "", None, 3).value;
    ProposeKeeps(log1, RC10, "", None, 2, 3);
    ProposeLeavesLatest(log1, RC10, "", None, 3);
    assert log[..2] == log1;
  }

  /** A sound log, with rc2 and then rc10 proposed, whose listing is out of order. */
  lemma ListingCanBeOutOfOrder() returns (log: Log)
    ensures LogOk(log, 3) && forall r | r in log :: Canonical(r.version)
    ensures forall open: Log | Listed(open) && (forall r :: r in open <==> r in log && IsOpen(log, r)) ::
              !InVersionOrder(open)
  {
    log := TwoCandidates();
    hide LogOk; hide Listed; hide InVersionOrder; hide TextLess; hide LatestActive;
    Labels();
    assert IsOpen(log, log[1]) && IsOpen(log, log[2]) && log[1] in log && log[2] in log;
    assert Misplaced(log[2].version, log[1].version);
    forall open: Log | Listed(open) && (forall r :: r in open <==> r in log && IsOpen(log, r))
      ensures !InVersionOrder(open)
    {
      CanonicalListingInVersionOrderIff(log, open);
    }
  }

  lemma Labels()
    ensures IsRc("rc2") && IsRc("rc10") && TextLess("rc10", "rc2")
    ensures RcNumber("rc2") == 2 && RcNumber("rc10") == 10
  {
    assert "rc2"[2..] == "2" && "rc10"[2..] == "10" && "2"[..0] == "" && "1"[..0] == "" && "10"[..1] == "1";
    assert Value("1") == 1 && Value("2") == 2 && Value("10") == 10;
    LabelText("rc10", "rc2");
  }
}
