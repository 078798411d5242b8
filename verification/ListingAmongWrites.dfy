/** What a client sees that follows next through a listing while others write. Every page is cut from
    the table as it is when the page is read. */
module ListingAmongWrites {
  import opened Common
  import opened Evolution
  import opened Handshake
  import opened Invariants
  import opened Listing
  import opened Records
  import opened Search
  import opened State
  import opened Timeline
  import opened Versioning
  import opened VersionLog

  /** tables[n] are the stamps of the rows when page n is read. */
  ghost predicate StampWalk(tables: seq<Stamps>, after: Option<Cursor>, limit: nat, pages: seq<seq<Row<nat>>>)
    requires limit >= 1
    decreases |pages|
  {
    && tables != [] && pages != []
    && var p := PageOf(Selected(tables[0]), after, limit);
    && pages[0] == p.items
    && if p.next.None? then |pages| == 1 else StampWalk(tables[1..], p.next, limit, pages[1..])
  }

  function NextCursor(stamps: Stamps, after: Option<Cursor>, limit: nat): Option<Cursor>
    requires limit >= 1
  {
    PageOf(Selected(stamps), after, limit).next
  }

  // How many pages show row i.
  ghost function TimesShown(pages: seq<seq<Row<nat>>>, i: nat): nat {
    if pages == [] then 0 else (if Shows(pages[0], i) then 1 else 0) + TimesShown(pages[1..], i)
  }

  function StampOf(stamps: Stamps, i: nat): Option<Time> { if i < |stamps| then stamps[i] else None }

  predicate Below(k: Cursor, c: Option<Cursor>) { c.Some? ==> Before(k, c.value) }

  predicate AtOrAbove(k: Cursor, c: Option<Cursor>) { c.Some? ==> !Before(k, c.value) }

  // ---------- One page is one window of keys ----------

  lemma {:induction false} KeepBeforeKeeps(rows: seq<Row<nat>>, after: Option<Cursor>)
    requires StrictlyDescending(rows)
    ensures StrictlyDescending(KeepBefore(rows, after))
    ensures forall r :: r in KeepBefore(rows, after) <==> r in rows && Below(r.Key(), after)
  {
    if rows == [] || after.None? {
    } else {
      KeepBeforeKeeps(rows[1..], after);
      assert rows == [rows[0]] + rows[1..];
      var rest := KeepBefore(rows[1..], after);
      forall a | 0 <= a < |rest| ensures Before(rest[a].Key(), rows[0].Key()) {
        assert rest[a] in rest;
        assert rest[a] in rows[1..];
      }
    }
  }

  // Cutting a descending list after n rows keeps those at or above the n-th.
  lemma CutIsWindow(rows: seq<Row<nat>>, n: nat, r: Row<nat>)
    requires StrictlyDescending(rows) && 1 <= n <= |rows|
    ensures r in rows[..n] <==> r in rows && !Before(r.Key(), rows[n - 1].Key())
  {
    if r in rows {
      var a :| 0 <= a < |rows| && rows[a] == r;
      assert a < n ==> rows[..n][a] == r;
      if r in rows[..n] {
        var b :| 0 <= b < n && rows[b] == r;
        assert b < n - 1 ==> Before(rows[n - 1].Key(), rows[b].Key());
      }
    }
  }

  /** A page shows exactly the selected rows below its cursor and at or above the next one. */
  lemma PageIsWindow(stamps: Stamps, after: Option<Cursor>, limit: nat, i: nat)
    requires limit >= 1
    ensures var p, t := PageOf(Selected(stamps), after, limit), StampOf(stamps, i);
            Shows(p.items, i) <==> t.Some? && Below(Cursor(t.value, i), after) && AtOrAbove(Cursor(t.value, i), p.next)
    ensures NextCursor(stamps, after, limit).Some? ==> Below(NextCursor(stamps, after, limit).value, after)
  {
    hide Selected; hide NewestFirst; hide KeepBefore;
    var sorted := NewestFirst(Selected(stamps));
    SelectedDistinct(stamps);
    NewestFirstStrict(Selected(stamps));
    KeepBeforeKeeps(sorted, after);
    var kept := KeepBefore(sorted, after);
    var p := PageOf(Selected(stamps), after, limit);
    forall r ensures r in p.items <==> IsSelected(stamps, r) && Below(r.Key(), after) && AtOrAbove(r.Key(), p.next) {
      NewestFirstMembers(Selected(stamps), r);
      SelectedRows(stamps, r);
      if |kept| > limit { CutIsWindow(kept, limit, r); }
    }
    if |kept| > limit {
      assert kept[limit - 1] in kept;
    }
    forall a | 0 <= a < |p.items| ensures IsSelected(stamps, p.items[a]) { assert p.items[a] in p.items; }
    var t := StampOf(stamps, i);
    if t.Some? {
      assert Row(t.value, i, i) in p.items <==>
             Below(Cursor(t.value, i), after) && AtOrAbove(Cursor(t.value, i), p.next);
    }
  }

  // ---------- A row that stays where it is ----------

  // Row i is selected under the same time t whenever a page is read.
  ghost predicate Unmoved(tables: seq<Stamps>, pages: nat, i: nat, t: Time) {
    pages <= |tables| && forall n | 0 <= n < pages :: StampOf(tables[n], i) == Some(t)
  }

  lemma {:induction false} UnmovedRowIsShownOnce(tables: seq<Stamps>, after: Option<Cursor>, limit: nat,
                                                 pages: seq<seq<Row<nat>>>, i: nat, t: Time)
    requires limit >= 1 && StampWalk(tables, after, limit, pages) && Unmoved(tables, |pages|, i, t)
    ensures TimesShown(pages, i) == if Below(Cursor(t, i), after) then 1 else 0
    decreases |pages|
  {
    hide Selected; hide PageOf; hide Shows;
    PageIsWindow(tables[0], after, limit, i);
    if |pages| == 1 {
      assert TimesShown(pages[1..], i) == 0;
    } else {
      UnmovedRowIsShownOnce(tables[1..], PageOf(Selected(tables[0]), after, limit).next, limit, pages[1..], i, t);
    }
  }

  // ---------- A row whose key only rises ----------

  // times[n] is row i's time when page n is read, whether or not it is selected then.
  ghost predicate Rises(tables: seq<Stamps>, times: seq<Time>, i: nat) {
    && |times| == |tables|
    && (forall n | 0 <= n < |tables| && StampOf(tables[n], i).Some? :: StampOf(tables[n], i).value == times[n])
    && (forall m, n | 0 <= m <= n < |times| :: times[m] <= times[n])
  }

  lemma RisesLater(tables: seq<Stamps>, times: seq<Time>, i: nat)
    requires Rises(tables, times, i) && tables != []
    ensures Rises(tables[1..], times[1..], i)
  {
    forall n | 0 <= n < |tables[1..]| && StampOf(tables[1..][n], i).Some?
      ensures StampOf(tables[1..][n], i).value == times[1..][n]
    {
      assert tables[1..][n] == tables[n + 1];
    }
  }

  // Once at or above the cursor, a row that only rises is not shown any more.
  lemma {:induction false} RisenRowIsNotShown(tables: seq<Stamps>, times: seq<Time>, after: Option<Cursor>, limit: nat,
                                              pages: seq<seq<Row<nat>>>, i: nat)
    requires limit >= 1 && StampWalk(tables, after, limit, pages) && Rises(tables, times, i)
    requires !Below(Cursor(times[0], i), after)
    ensures TimesShown(pages, i) == 0
    decreases |pages|
  {
    hide Selected; hide PageOf; hide Shows;
    PageIsWindow(tables[0], after, limit, i);
    if |pages| == 1 {
      assert TimesShown(pages[1..], i) == 0;
    } else {
      RisesLater(tables, times, i);
      RisenRowIsNotShown(tables[1..], times[1..], NextCursor(tables[0], after, limit), limit, pages[1..], i);
    }
  }

  /** A row whose key never falls is shown at most once. */
  lemma {:induction false} RisingRowAtMostOnce(tables: seq<Stamps>, times: seq<Time>, after: Option<Cursor>, limit: nat,
                                               pages: seq<seq<Row<nat>>>, i: nat)
    requires limit >= 1 && StampWalk(tables, after, limit, pages) && Rises(tables, times, i)
    ensures TimesShown(pages, i) <= 1
    decreases |pages|
  {
    hide Selected; hide PageOf; hide Shows;
    PageIsWindow(tables[0], after, limit, i);
    if |pages| == 1 {
      assert TimesShown(pages[1..], i) == 0;
    } else {
      RisesLater(tables, times, i);
      if Shows(pages[0], i) {
        RisenRowIsNotShown(tables[1..], times[1..], NextCursor(tables[0], after, limit), limit, pages[1..], i);
      } else {
        RisingRowAtMostOnce(tables[1..], times[1..], NextCursor(tables[0], after, limit), limit, pages[1..], i);
      }
    }
  }

  /** Between some page and the next, row i's time moves it from below the cursor to above it. */
  ghost predicate PassesCursor(tables: seq<Stamps>, times: seq<Time>, after: Option<Cursor>, limit: nat, pages: nat,
      i: nat)
    requires limit >= 1 && |times| == |tables|
    decreases pages
  {
    && pages > 1 && |tables| > 1
    && var next := NextCursor(tables[0], after, limit);
    && next.Some?
    && (|| (Below(Cursor(times[0], i), next) && !Below(Cursor(times[1], i), next))
        || PassesCursor(tables[1..], times[1..], next, limit, pages - 1, i))
  }

  // Row i is selected whenever a page is read.
  ghost predicate SelectedThroughout(tables: seq<Stamps>, pages: nat, i: nat) {
    pages <= |tables| && forall n | 0 <= n < pages :: StampOf(tables[n], i).Some?
  }

  lemma {:induction false} RisenDoesNotPass(tables: seq<Stamps>, times: seq<Time>, after: Option<Cursor>, limit: nat,
                                            pages: nat, i: nat)
    requires limit >= 1 && Rises(tables, times, i) && tables != [] && !Below(Cursor(times[0], i), after)
    ensures !PassesCursor(tables, times, after, limit, pages, i)
    decreases pages
  {
    hide Selected; hide PageOf;
    PageIsWindow(tables[0], after, limit, i);
    if pages > 1 && |tables| > 1 && NextCursor(tables[0], after, limit).Some? {
      RisesLater(tables, times, i);
      RisenDoesNotPass(tables[1..], times[1..], NextCursor(tables[0], after, limit), limit, pages - 1, i);
    }
  }

  /** A row that is selected at every page and whose key never falls is shown, once, if and only if its
      key never passes the cursor between two pages. */
  lemma {:induction false} RisingRowShownIff(tables: seq<Stamps>, times: seq<Time>, after: Option<Cursor>, limit: nat,
                                             pages: seq<seq<Row<nat>>>, i: nat)
    requires limit >= 1 && StampWalk(tables, after, limit, pages) && Rises(tables, times, i)
    requires SelectedThroughout(tables, |pages|, i) && Below(Cursor(times[0], i), after)
    ensures TimesShown(pages, i) == if PassesCursor(tables, times, after, limit, |pages|, i) then 0 else 1
    decreases |pages|
  {
    hide Selected; hide PageOf; hide Shows;
    PageIsWindow(tables[0], after, limit, i);
    if |pages| == 1 {
      assert TimesShown(pages[1..], i) == 0;
    } else {
      RisesLater(tables, times, i);
      var next := NextCursor(tables[0], after, limit);
      assert StampOf(tables[0], i).Some?;
      if Shows(pages[0], i) || !Below(Cursor(times[1], i), next) {
        RisenRowIsNotShown(tables[1..], times[1..], next, limit, pages[1..], i);
        RisenDoesNotPass(tables[1..], times[1..], next, limit, |pages| - 1, i);
      } else {
        forall n | 0 <= n < |pages| - 1
            ensures StampOf(tables[1..][n], i).Some? { assert tables[1..][n] == tables[n + 1]; }
        RisingRowShownIff(tables[1..], times[1..], next, limit, pages[1..], i);
      }
    }
  }

  // ---------- Parts ----------

  /** The catalog's states when the pages are read: gaps[n] are the requests between page n and n + 1. */
  ghost function States(s: Db, gaps: seq<seq<Request>>): (r: seq<Db>)
    ensures |r| == |gaps| + 1 && r[0] == s
    decreases |gaps|
  {
    if gaps == [] then [s] else [s] + States(Run(s, gaps[0]), gaps[1..])
  }

  ghost function PartTables(fold: Fold, states: seq<Db>, f: PartFilter): (r: seq<Stamps>)
    ensures |r| == |states| && forall n | 0 <= n < |r| :: r[n] == PartStamps(fold, states[n].parts, f)
  {
    seq(|states|, n requires 0 <= n < |states| => PartStamps(fold, states[n].parts, f))
  }

  // When row i was last updated; nothing is earlier than a part that is not there yet.
  function UpdatedAt(s: Db, i: nat): Time {
    if i < |s.parts| && LatestPartVersion(s.parts[i].versions).Some?
    then LatestPartVersion(s.parts[i].versions).value.createdAt else 0
  }

  ghost function PartTimes(states: seq<Db>, i: nat): (r: seq<Time>)
    ensures |r| == |states| && forall n | 0 <= n < |r| :: r[n] == UpdatedAt(states[n], i)
  {
    seq(|states|, n requires 0 <= n < |states| => UpdatedAt(states[n], i))
  }

  lemma UpdateOnlyLater(s: Db, qs: seq<Request>, i: nat)
    requires Inv(s)
    ensures UpdatedAt(s, i) <= UpdatedAt(Run(s, qs), i)
  {
    hide Run; hide Constraints; hide LatestPartVersion; hide ContractOk; hide LogGrows; hide RowsGrow;
    RunGrows(s, qs);
    RunKeepsInv(s, qs);
    if i < |s.parts| {
      LatestUpdate(s, i);
      LatestUpdate(Run(s, qs), i);
      assert PartGrows(s.parts[i], Run(s, qs).parts[i]) && PartOk(Run(s, qs).parts[i], Run(s, qs).clock);
      var was, now := s.parts[i].versions, Run(s, qs).parts[i].versions;
      assert was[|was| - 1] == now[|was| - 1];
    }
  }

  lemma LatestUpdate(s: Db, i: nat)
    requires Inv(s) && i < |s.parts|
    ensures var vs := s.parts[i].versions; vs != [] && UpdatedAt(s, i) == vs[|vs| - 1].createdAt
  {
    assert PartOk(s.parts[i], s.clock);
    LatestIsLast(s.parts[i].versions, s.clock);
  }

  lemma {:induction false} UpdatesOnlyRise(s: Db, gaps: seq<seq<Request>>, i: nat)
    requires Inv(s)
    ensures forall n | 0 <= n < |States(s, gaps)| :: Inv(States(s, gaps)[n])
    ensures forall m, n | 0 <= m <= n < |States(s, gaps)| ::
        UpdatedAt(States(s, gaps)[m], i) <= UpdatedAt(States(s, gaps)[n], i)
    decreases |gaps|
  {
    hide Inv; hide Run; hide UpdatedAt;
    if gaps == [] {
    } else {
      RunKeepsInv(s, gaps[0]);
      UpdateOnlyLater(s, gaps[0], i);
      UpdatesOnlyRise(Run(s, gaps[0]), gaps[1..], i);
      var all, rest := States(s, gaps), States(Run(s, gaps[0]), gaps[1..]);
      assert all == [s] + rest && rest[0] == Run(s, gaps[0]);
      forall m, n | 0 <= m <= n < |all| ensures UpdatedAt(all[m], i) <= UpdatedAt(all[n], i) {
        if m == 0 && n > 0 { assert UpdatedAt(rest[0], i) <= UpdatedAt(rest[n - 1], i); }
      }
    }
  }

  lemma PartKeysRise(fold: Fold, s: Db, f: PartFilter, gaps: seq<seq<Request>>, i: nat)
    requires Inv(s)
    ensures Rises(PartTables(fold, States(s, gaps), f), PartTimes(States(s, gaps), i), i)
  {
    hide Inv; hide States; hide LatestPartVersion; hide SearchHit;
    UpdatesOnlyRise(s, gaps, i);
  }

  // Part i is wanted whenever a page is read.
  ghost predicate WantedThroughout(fold: Fold, states: seq<Db>, f: PartFilter, pages: nat, i: nat) {
    pages <= |states| && forall n | 0 <= n < pages :: i < |states[n].parts| && Wanted(fold, states[n].parts[i], f)
  }

  /** A client that follows next through the part listing among writes is never shown a part twice; and
      a part wanted at every page is shown if and only if no update between two pages moves it from
      below the cursor to above it. */
  lemma PartsListedAmongWrites(s0: Db, qs: seq<Request>, fold: Fold, f: PartFilter, limit: nat,
                               gaps: seq<seq<Request>>, pages: seq<seq<Row<nat>>>, i: nat)
    requires Installed(s0) && FoldOk(fold) && limit >= 1 && (f.text.Some? ==> UNIT_SEPARATOR !in f.text.value)
    requires StampWalk(PartTables(fold, States(Run(s0, qs), gaps), f), None, limit, pages)
    ensures TimesShown(pages, i) <= 1
    ensures var states := States(Run(s0, qs), gaps);
            WantedThroughout(fold, states, f, |pages|, i) ==>
              (TimesShown(pages, i) == 1
               <==> !PassesCursor(PartTables(fold, states, f), PartTimes(states, i), None, limit, |pages|, i))
  {
    hide Run; hide Inv; hide StampWalk; hide PassesCursor; hide TimesShown; hide States; hide FoldOk; hide Wanted;
    hide Installed; hide PartStamp; hide UpdatedAt; hide Rises;
    var s := Run(s0, qs);
    InstalledInv(s0);
    RunKeepsInv(s0, qs);
    var states := States(s, gaps);
    PartKeysRise(fold, s, f, gaps, i);
    RisingRowAtMostOnce(PartTables(fold, states, f), PartTimes(states, i), None, limit, pages, i);
    if WantedThroughout(fold, states, f, |pages|, i) {
      UpdatesOnlyRise(s, gaps, i);
      forall n | 0 <= n < |pages| ensures StampOf(PartTables(fold, states, f)[n], i).Some? {
        WantedIsSelected(fold, states[n], f, i);
      }
      RisingRowShownIff(PartTables(fold, states, f), PartTimes(states, i), None, limit, pages, i);
    }
  }

  lemma WantedIsSelected(fold: Fold, s: Db, f: PartFilter, i: nat)
    requires Inv(s) && FoldOk(fold) && (f.text.Some? ==> UNIT_SEPARATOR !in f.text.value)
    requires i < |s.parts| && Wanted(fold, s.parts[i], f)
    ensures StampOf(PartStamps(fold, s.parts, f), i).Some?
  {
    hide FoldOk; hide Wanted; hide PartStamp; hide PartOk; hide Constraints;
    assert PartOk(s.parts[i], s.clock);
    PartStampIff(fold, s.parts[i], f, s.clock);
  }

  // ---------- Contracts ----------

  ghost function ContractTables(states: seq<Db>, f: ContractFilter): (r: seq<Stamps>)
    ensures |r| == |states| && forall n | 0 <= n < |r| :: r[n] == ContractStamps(states[n].contracts, f)
  {
    seq(|states|, n requires 0 <= n < |states| => ContractStamps(states[n].contracts, f))
  }

  // The time a contract is listed under.
  function ListedAt(log: Log): Time {
    if LatestActive(log).Some? then LatestActive(log).value.createdAt else 0
  }

  // Contract j is wanted whenever a page is read, and listed under the same time.
  ghost predicate WantedUnmoved(states: seq<Db>, f: ContractFilter, pages: nat, j: nat, t: Time) {
    && pages <= |states|
    && forall n | 0 <= n < pages ::
         && j < |states[n].contracts| && WantedContract(states[n].contracts[j], f)
         && LatestActive(states[n].contracts[j].log).Some? && ListedAt(states[n].contracts[j].log) == t
  }

  /** A contract wanted at every page, with the same latest active version, is shown exactly once. With
      a key that changes but never falls it is shown at most once. */
  lemma ContractsListedAmongWrites(states: seq<Db>, f: ContractFilter, limit: nat, pages: seq<seq<Row<nat>>>, j: nat,
                                   t: Time, times: seq<Time>)
    requires limit >= 1 && StampWalk(ContractTables(states, f), None, limit, pages)
    ensures WantedUnmoved(states, f, |pages|, j, t) ==> TimesShown(pages, j) == 1
    ensures Rises(ContractTables(states, f), times, j) ==> TimesShown(pages, j) <= 1
  {
    hide StampWalk; hide TimesShown; hide LatestActive; hide Rises;
    if WantedUnmoved(states, f, |pages|, j, t) {
      UnmovedRowIsShownOnce(ContractTables(states, f), None, limit, pages, j, t);
    }
    if Rises(ContractTables(states, f), times, j) {
      RisingRowAtMostOnce(ContractTables(states, f), times, None, limit, pages, j);
    }
  }

  /** A contract's key can fall: exactly when a stable proposal is accepted in place that is greater than
      the latest active version and was proposed before that version's row was created. */
  lemma AcceptLowersKeyIff(log: Log, target: Version, actor: Option<Actor>, single: bool, clock: Time, now: Time)
    requires LogOk(log, clock) && clock <= now && AcceptVersion(log, target, actor, single, now).Ok?
    ensures LatestActive(log).Some?
    ensures ListedAt(AcceptVersion(log, target, actor, single, now).value) < ListedAt(log)
            <==> && !target.IsPrerelease() && Less(LatestActive(log).value.version, target)
                 && log[FindExact(log, target).value].createdAt < LatestActive(log).value.createdAt
  {
    hide LogOk; hide LatestActive; hide Less;
    var log' := AcceptVersion(log, target, actor, single, now).value;
    LatestActiveIsGreatest(log, clock);
    AcceptKeeps(log, target, actor, single, clock, now);
    AcceptRaisesLatest(log, target, actor, single, clock, now);
    var m := LatestRow(log, clock);
    var k := LatestRow(log', now);
    AcceptedRow(log, target, actor, single, clock, now, k);
  }

  // The row that carries the latest active version.
  lemma LatestRow(log: Log, clock: Time) returns (k: nat)
    requires LogOk(log, clock)
    ensures k < |log| && LatestActive(log) == Some(log[k]) && log[k].active && log[k].createdAt <= clock
  {
    LatestActiveIsGreatest(log, clock);
    k :| 0 <= k < |log| && log[k] == LatestActive(log).value;
    assert RowOk(log[k], clock);
  }

  // Which row that is after an accept, and when it was created.
  lemma AcceptedRow(log: Log, target: Version, actor: Option<Actor>, single: bool, clock: Time, now: Time, k: nat)
    requires LogOk(log, clock) && clock <= now && AcceptVersion(log, target, actor, single, now).Ok?
    requires var log' := AcceptVersion(log, target, actor, single, now).value;
             && LogOk(log', now) && k < |log'| && LatestActive(log') == Some(log'[k])
             && LatestActive(log).Some? && log'[k].version == Max(LatestActive(log).value.version, target.Stable())
    ensures var row := AcceptVersion(log, target, actor, single, now).value[k];
            row.createdAt == if !Less(LatestActive(log).value.version, target.Stable()) then
                LatestActive(log).value.createdAt
                             else if target.IsPrerelease() then now
                             else log[FindExact(log, target).value].createdAt
    ensures target.IsPrerelease() ==> LatestActive(log).value.createdAt <= now
  {
    hide LogOk; hide LatestActive; hide Less;
    var log' := AcceptVersion(log, target, actor, single, now).value;
    var m := LatestRow(log, clock);
    var n := if target.IsPrerelease() then |log| else FindExact(log, target).value;
    SameVersionSameRow(log', now, k, if Less(log[m].version, target.Stable()) then n else m);
  }

  lemma SameVersionSameRow(log: Log, clock: Time, a: nat, b: nat)
    requires LogOk(log, clock) && a < |log| && b < |log| && log[a].version == log[b].version
    ensures a == b
  {
    assert Same(log[a].version, log[a].version);
  }

  lemma TwoRows(t: Time, u: Time)
    requires u < t
    ensures NewestFirst(Selected([Some(t), Some(u)])) == [Row(t, 0, 0), Row(u, 1, 1)]
  {
    var x: Row<nat>, y: Row<nat> := Row(t, 0, 0), Row(u, 1, 1);
    assert [Some(t), Some(u)][..1] == [Some(t)] && [Some(t)][..0] == [];
    assert Selected([Some(t)]) == [] + [x] == [x];
    assert Selected([Some(t), Some(u)]) == [x] + [y] == [x, y];
    NewestFirstAppend([], x);
    NewestFirstAppend([x], y);
    assert [] + [x] == [x];
  }

  lemma PagesOfTwo(t: Time, u: Time, above: Time)
    requires u < t < above
    ensures PageOf(Selected([Some(t), Some(u)]), None, 1) == Page([Row(t, 0, 0)], Some(Cursor(t, 0)))
    ensures PageOf(Selected([Some(t), Some(u)]), Some(Cursor(above, 0)), 1) == Page([Row(t, 0, 0)], Some(Cursor(t, 0)))
    ensures PageOf(Selected([Some(t), Some(u)]), Some(Cursor(t, 0)), 1) == Page([Row(u, 1, 1)], None)
  {
    hide Selected; hide NewestFirst;
    TwoRows(t, u);
    var x: Row<nat>, y: Row<nat> := Row(t, 0, 0), Row(u, 1, 1);
    assert [x, y][..1] == [x] && [x, y][1..] == [y] && [y][1..] == [];
    assert [x] + [y] == [x, y] && [y] + [] == [y];
    var top, mid := Some(Cursor(above, 0)), Some(Cursor(t, 0));
    var none: seq<Row<nat>> := [];
    assert KeepBefore(none, top) == [] && KeepBefore(none, mid) == [];
    assert KeepBefore([y], top) == [y] + none == [y] && KeepBefore([y], mid) == [y] + none == [y];
    assert KeepBefore([x, y], top) == [x] + [y] == [x, y];
    assert KeepBefore([x, y], mid) == [y];
  }

  /** A row whose key falls between two pages can be shown twice. */
  lemma FallingRowIsShownTwice()
    ensures exists tables: seq<Stamps>, pages: seq<seq<Row<nat>>> ::
              StampWalk(tables, None, 1, pages) && TimesShown(pages, 0) == 2
  {
    hide Selected; hide PageOf;
    PagesOfTwo(4, 2, 5);
    PagesOfTwo(3, 2, 4);
    var before, after: Stamps := [Some(4), Some(2)], [Some(3), Some(2)];
    var p0, p1, p2: seq<Row<nat>> := [Row(4, 0, 0)], [Row(3, 0, 0)], [Row(2, 1, 1)];
    var tables, pages := [before, after, after], [p0, p1, p2];
    assert tables[1..] == [after, after] && [after, after][1..] == [after];
    assert pages[1..] == [p1, p2] && [p1, p2][1..] == [p2] && [p2][1..] == [];
    assert StampWalk([after], Some(Cursor(3, 0)), 1, [p2]);
    assert StampWalk([after, after], Some(Cursor(4, 0)), 1, [p1, p2]);
    assert StampWalk(tables, None, 1, pages);
    assert p0[0].id == 0 && p1[0].id == 0 && !Shows(p2, 0);
    assert TimesShown([p2], 0) == 0 && TimesShown([p1, p2], 0) == 1;
  }
}
