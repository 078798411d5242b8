/** The paged listings of parts and contracts: filter, search, newest first, page by page. */
module Listing {
  import opened Common
  import opened Invariants
  import opened Records
  import opened Rules
  import opened Search
  import opened State
  import opened Timeline
  import opened VersionLog

  // For every row of a table the time it is listed under, or None when a filter drops it.
  type Stamps = seq<Option<Time>>

  // The selected rows, keyed by (time, id).
  function Selected(stamps: Stamps): seq<Row<nat>> {
    if stamps == [] then []
    else
      var n := |stamps| - 1;
      Selected(stamps[..n]) + match stamps[n] { case None => [] case Some(t) => [Row(t, n, n)] }
  }

  ghost predicate IsSelected(stamps: Stamps, r: Row<nat>) {
    r.item == r.id < |stamps| && stamps[r.id] == Some(r.at)
  }

  lemma {:induction false} SelectedRows(stamps: Stamps, r: Row<nat>)
    ensures r in Selected(stamps) <==> IsSelected(stamps, r)
  {
    if stamps == [] {
    } else {
      SelectedRows(stamps[..|stamps| - 1], r);
    }
  }

  lemma {:induction false} SelectedDistinct(stamps: Stamps)
    ensures DistinctKeys(Selected(stamps))
  {
    if stamps == [] {
    } else {
      var n := |stamps| - 1;
      var before := Selected(stamps[..n]);
      SelectedDistinct(stamps[..n]);
      forall i | 0 <= i < |before| ensures before[i].id < n {
        SelectedRows(stamps[..n], before[i]);
        assert before[i] in before;
      }
    }
  }

  ghost predicate Shows(rows: seq<Row<nat>>, i: nat) {
    exists a | 0 <= a < |rows| :: rows[a].id == i
  }

  // Each row once, newest first.
  ghost predicate InOrder(rows: seq<Row<nat>>) {
    StrictlyDescending(rows) && forall a, b | 0 <= a < b < |rows| :: rows[a].id != rows[b].id
  }

  // A complete walk shows every selected row once and nothing else, newest first.
  lemma WalkShowsSelected(stamps: Stamps, limit: nat, pages: seq<seq<Row<nat>>>, i: nat)
    requires limit >= 1 && IsWalk(Selected(stamps), None, limit, pages)
    ensures Shows(Flatten(pages), i) <==> i < |stamps| && stamps[i].Some?
    ensures InOrder(Flatten(pages))
  {
    hide IsWalk; hide NewestFirst; hide Selected; hide Flatten; hide DistinctKeys;
    SelectedDistinct(stamps);
    PagingIsComplete(Selected(stamps), limit, pages);
    var shown := Flatten(pages);
    forall r ensures r in shown <==> IsSelected(stamps, r) {
      NewestFirstMembers(Selected(stamps), r);
      SelectedRows(stamps, r);
    }
    ShownSelected(stamps, shown, i);
  }

  lemma ShownSelected(stamps: Stamps, shown: seq<Row<nat>>, i: nat)
    requires StrictlyDescending(shown) && forall r :: r in shown <==> IsSelected(stamps, r)
    ensures Shows(shown, i) <==> i < |stamps| && stamps[i].Some?
    ensures InOrder(shown)
  {
    forall a | 0 <= a < |shown| ensures IsSelected(stamps, shown[a]) {
      assert shown[a] in shown;
    }
    if i < |stamps| && stamps[i].Some? {
      assert IsSelected(stamps, Row(stamps[i].value, i, i));
      assert Row(stamps[i].value, i, i) in shown;
    }
  }

  // ---------- Parts ----------

  datatype PartFilter = PartFilter(text: Option<string>, subtype: Option<PartSubtype>, includeDeleted: bool)

  function PartStamp(fold: Fold, p: Part, f: PartFilter): Option<Time> {
    var latest := LatestPartVersion(p.versions);
    if latest.None? then None
    else if f.subtype.Some? && p.subtype != f.subtype.value then None
    else if !f.includeDeleted && !p.Live() then None
    else if f.text.Some? && !SearchHit(fold, f.text.value, p.name, p.aliases) then None
    else Some(latest.value.createdAt)
  }

  function PartStamps(fold: Fold, parts: seq<Part>, f: PartFilter): (r: Stamps)
    ensures |r| == |parts| && forall i | 0 <= i < |r| :: r[i] == PartStamp(fold, parts[i], f)
  {
    seq(|parts|, i requires 0 <= i < |parts| => PartStamp(fold, parts[i], f))
  }

  /** What a caller asks for: deleted parts only on request, the subtype, and the text literally in
      the name or in one single alias. */
  ghost predicate Wanted(fold: Fold, p: Part, f: PartFilter) {
    && (p.Live() || f.includeDeleted)
    && (f.subtype.Some? ==> p.subtype == f.subtype.value)
    && (f.text.Some? ==> OccursInSomeField(fold, f.text.value, p.name, p.aliases))
  }

  lemma PartStampIff(fold: Fold, p: Part, f: PartFilter, clock: Time)
    requires FoldOk(fold) && PartOk(p, clock) && (f.text.Some? ==> UNIT_SEPARATOR !in f.text.value)
    ensures PartStamp(fold, p, f).Some? <==> Wanted(fold, p, f)
  {
    hide SearchHit; hide OccursInSomeField; hide FoldOk; hide LatestPartVersion;
    LatestIsLast(p.versions, clock);
    if f.text.Some? {
      SearchIsLiteral(fold, f.text.value, p.name, p.aliases);
    }
  }

  /** In every reachable catalog, reading the part listing to its end shows exactly the wanted
      parts, each once, in strictly descending (time, id) order, for every page size. */
  lemma PartListingIsComplete(s: Db, qs: seq<Request>, fold: Fold, f: PartFilter, limit: nat, pages: seq<seq<Row<nat>>>,
      i: nat)
    requires Installed(s) && FoldOk(fold) && limit >= 1 && (f.text.Some? ==> UNIT_SEPARATOR !in f.text.value)
    requires IsWalk(Selected(PartStamps(fold, Run(s, qs).parts, f)), None, limit, pages)
    ensures Shows(Flatten(pages), i) <==> i < |Run(s, qs).parts| && Wanted(fold, Run(s, qs).parts[i], f)
    ensures InOrder(Flatten(pages))
  {
    hide Run; hide IsWalk; hide PartOk; hide PartStamp; hide Wanted; hide FoldOk; hide Constraints; hide Selected;
    hide Installed;
    var s' := Run(s, qs);
    InstalledInv(s);
    RunKeepsInv(s, qs);
    WalkShowsSelected(PartStamps(fold, s'.parts, f), limit, pages, i);
    if i < |s'.parts| {
      assert PartOk(s'.parts[i], s'.clock);
      PartStampIff(fold, s'.parts[i], f, s'.clock);
    }
  }

  // ---------- Contracts ----------

  datatype ContractFilter =
    ContractFilter(touching: Option<nat>, subtype: Option<ContractSubtype>, connectionType: Option<ConnectionType>,
        includeDeleted: bool)

  // A contract without an active version has nothing to show and drops out of the join.
  function ContractStamp(c: Contract, f: ContractFilter): Option<Time> {
    var latest := LatestActive(c.log);
    if latest.None? then None
    else if f.touching.Some? && !c.Touches(f.touching.value) then None
    else if f.subtype.Some? && c.shape.subtype != f.subtype.value then None
    else if f.connectionType.Some? && c.shape.connectionType != f.connectionType then None
    else if !f.includeDeleted && !c.Live() then None
    else Some(latest.value.createdAt)
  }

  function ContractStamps(contracts: seq<Contract>, f: ContractFilter): (r: Stamps)
    ensures |r| == |contracts| && forall j | 0 <= j < |r| :: r[j] == ContractStamp(contracts[j], f)
  {
    seq(|contracts|, j requires 0 <= j < |contracts| => ContractStamp(contracts[j], f))
  }

  predicate WantedContract(c: Contract, f: ContractFilter) {
    && (c.Live() || f.includeDeleted)
    && (f.touching.Some? ==> c.Touches(f.touching.value))
    && (f.subtype.Some? ==> c.shape.subtype == f.subtype.value)
    && (f.connectionType.Some? ==> c.shape.connectionType == f.connectionType)
  }

  /** The same for contracts: none is lost for want of an active version, because every reachable
      contract has one. */
  lemma ContractListingIsComplete(s: Db, qs: seq<Request>, f: ContractFilter, limit: nat, pages: seq<seq<Row<nat>>>,
      j: nat)
    requires Installed(s) && limit >= 1
    requires IsWalk(Selected(ContractStamps(Run(s, qs).contracts, f)), None, limit, pages)
    ensures Shows(Flatten(pages), j) <==> j < |Run(s, qs).contracts| && WantedContract(Run(s, qs).contracts[j], f)
    ensures InOrder(Flatten(pages))
  {
    hide Run; hide IsWalk; hide LogOk; hide Constraints; hide Selected; hide Installed;
    var s' := Run(s, qs);
    InstalledInv(s);
    RunKeepsInv(s, qs);
    WalkShowsSelected(ContractStamps(s'.contracts, f), limit, pages, j);
    if j < |s'.contracts| {
      assert ContractOk(s'.contracts[j], |s'.parts|, s'.clock);
      LatestActiveIsGreatest(s'.contracts[j].log, s'.clock);
    }
  }

  // ---------- The documented order of contracts ----------

  // The key of the listing, and the key its documentation names: accepted_at, else created_at.
  function ListedKey(c: Contract, j: nat): Cursor {
    Cursor(if LatestActive(c.log).Some? then LatestActive(c.log).value.createdAt else 0, j)
  }

  function DocumentedKey(c: Contract, j: nat): Cursor {
    Cursor(if LatestActive(c.log).Some? then
        LatestActive(c.log).value.acceptedAt.GetOr(LatestActive(c.log).value.createdAt)
           else 0, j)
  }

  /** The latest active version of contract j is a proposal accepted in place, later than the documented
      key of contract k, although contract j stands below contract k in the listing. */
  predicate AcceptedPast(contracts: seq<Contract>, j: nat, k: nat)
    requires j < |contracts| && k < |contracts|
  {
    var latest := LatestActive(contracts[j].log);
    && latest.Some? && latest.value.acceptedAt.Some? && latest.value.promotedFrom.None?
    && latest.value.createdAt < latest.value.acceptedAt.value
    && Before(ListedKey(contracts[j], j), ListedKey(contracts[k], k))
    && Before(DocumentedKey(contracts[k], k), DocumentedKey(contracts[j], j))
  }

  ghost predicate DocumentedOrder(contracts: seq<Contract>, shown: seq<Row<nat>>) {
    forall a, b | 0 <= a < b < |shown| && shown[a].id < |contracts| && shown[b].id < |contracts| ::
      Before(DocumentedKey(contracts[shown[b].id], shown[b].id), DocumentedKey(contracts[shown[a].id], shown[a].id))
  }

  // Keys of the latest active row of a sound log.
  lemma KeysOfLatest(log: Log, clock: Time)
    requires LogOk(log, clock)
    ensures LatestActive(log).Some?
    ensures var r := LatestActive(log).value;
            && r.createdAt <= r.acceptedAt.GetOr(r.createdAt)
            && (r.promotedFrom.Some? ==> r.createdAt == r.acceptedAt.GetOr(r.createdAt))
  {
    LatestActiveIsGreatest(log, clock);
    var r := LatestActive(log).value;
    var k :| 0 <= k < |log| && log[k] == r;
    assert RowOk(log[k], clock);
  }

  // Of two contracts in listing order, the documented order is the other one exactly for such a pair.
  lemma OrdersPartIff(contracts: seq<Contract>, clock: Time, j: nat, k: nat)
    requires j < |contracts| && k < |contracts| && LogOk(contracts[j].log, clock) && LogOk(contracts[k].log, clock)
    requires Before(ListedKey(contracts[j], j), ListedKey(contracts[k], k))
    ensures Before(DocumentedKey(contracts[k], k), DocumentedKey(contracts[j], j)) <==> AcceptedPast(contracts, j, k)
    ensures Before(DocumentedKey(contracts[k], k), DocumentedKey(contracts[j], j))
            <==> !Before(DocumentedKey(contracts[j], j), DocumentedKey(contracts[k], k))
  {
    hide LogOk; hide LatestActive;
    KeysOfLatest(contracts[j].log, clock);
    KeysOfLatest(contracts[k].log, clock);
  }

  /** The listing is sorted by created_at, the documentation says accepted_at. In every reachable catalog
      a complete read is in the documented order if and only if no shown contract's latest version was
      accepted in place past another shown contract that stands above it. */
  lemma DocumentedOrderIff(s: Db, qs: seq<Request>, f: ContractFilter, limit: nat, pages: seq<seq<Row<nat>>>)
    requires Installed(s) && limit >= 1
    requires IsWalk(Selected(ContractStamps(Run(s, qs).contracts, f)), None, limit, pages)
    ensures var contracts := Run(s, qs).contracts;
            DocumentedOrder(contracts, Flatten(pages))
            <==> forall j, k | 0 <= j < |contracts| && 0 <= k < |contracts|
                              && WantedContract(contracts[j], f) && WantedContract(contracts[k], f) ::
                   !AcceptedPast(contracts, j, k)
  {
    hide Run; hide IsWalk; hide Selected; hide Installed; hide Inv; hide Flatten; hide WantedContract;
    hide AcceptedPast;
    hide StrictlyDescending; hide DocumentedKey; hide ListedKey; hide Before; hide ContractStamp;
    var contracts, shown := Run(s, qs).contracts, Flatten(pages);
    InstalledInv(s);
    RunKeepsInv(s, qs);
    forall j: nat ensures Shows(shown, j) <==> j < |contracts| && WantedContract(contracts[j], f) {
      ContractListingIsComplete(s, qs, f, limit, pages, j);
    }
    ContractListingIsComplete(s, qs, f, limit, pages, 0);
    ShownByListedKey(Run(s, qs), f, limit, pages);
    forall j, k | 0 <= j < |contracts| && 0 <= k < |contracts|
        && Before(ListedKey(contracts[j], j), ListedKey(contracts[k], k))
      ensures Before(DocumentedKey(contracts[k], k), DocumentedKey(contracts[j], j)) <==> AcceptedPast(contracts, j, k)
      ensures Before(DocumentedKey(contracts[k], k), DocumentedKey(contracts[j], j))
              <==> !Before(DocumentedKey(contracts[j], j), DocumentedKey(contracts[k], k))
    {
      LogsSound(Run(s, qs), j);
      LogsSound(Run(s, qs), k);
      OrdersPartIff(contracts, Run(s, qs).clock, j, k);
    }
    PairsDecide(contracts, f, shown);
  }

  lemma LogsSound(s: Db, j: nat)
    requires Inv(s) && j < |s.contracts|
    ensures LogOk(s.contracts[j].log, s.clock)
  {
    assert ContractOk(s.contracts[j], |s.parts|, s.clock);
  }

  // The shown rows descend by the listed key.
  lemma ShownByListedKey(s: Db, f: ContractFilter, limit: nat, pages: seq<seq<Row<nat>>>)
    requires limit >= 1 && IsWalk(Selected(ContractStamps(s.contracts, f)), None, limit, pages)
    ensures forall a | 0 <= a < |Flatten(pages)| :: Flatten(pages)[a].id < |s.contracts|
    ensures forall a, b | 0 <= a < b < |Flatten(pages)| ::
              Before(ListedKey(s.contracts[Flatten(pages)[b].id], Flatten(pages)[b].id),
                     ListedKey(s.contracts[Flatten(pages)[a].id], Flatten(pages)[a].id))
  {
    hide IsWalk; hide NewestFirst; hide Selected; hide Flatten; hide DistinctKeys; hide LatestActive; hide Before;
    var stamps, shown := ContractStamps(s.contracts, f), Flatten(pages);
    SelectedDistinct(stamps);
    PagingIsComplete(Selected(stamps), limit, pages);
    forall a | 0 <= a < |shown|
      ensures shown[a].id < |s.contracts| && shown[a].Key() == ListedKey(s.contracts[shown[a].id], shown[a].id)
    {
      NewestFirstMembers(Selected(stamps), shown[a]);
      SelectedRows(stamps, shown[a]);
      assert shown[a] in shown;
    }
  }

  lemma PairsDecide(contracts: seq<Contract>, f: ContractFilter, shown: seq<Row<nat>>)
    requires forall j: nat :: Shows(shown, j) <==> j < |contracts| && WantedContract(contracts[j], f)
    requires forall a | 0 <= a < |shown| :: shown[a].id < |contracts|
    requires forall a, b | 0 <= a < b < |shown| ::
               Before(ListedKey(contracts[shown[b].id], shown[b].id), ListedKey(contracts[shown[a].id], shown[a].id))
    requires forall j, k | 0 <= j < |contracts| && 0 <= k < |contracts|
                          && Before(ListedKey(contracts[j], j), ListedKey(contracts[k], k)) ::
               && (Before(DocumentedKey(contracts[k], k), DocumentedKey(contracts[j], j))
                   <==> AcceptedPast(contracts, j, k))
               && (Before(DocumentedKey(contracts[k], k), DocumentedKey(contracts[j], j))
                   <==> !Before(DocumentedKey(contracts[j], j), DocumentedKey(contracts[k], k)))
    ensures DocumentedOrder(contracts, shown)
            <==> forall j, k | 0 <= j < |contracts| && 0 <= k < |contracts|
                              && WantedContract(contracts[j], f) && WantedContract(contracts[k], f) ::
                   !AcceptedPast(contracts, j, k)
  {
    hide ListedKey; hide DocumentedKey; hide WantedContract; hide AcceptedPast;
    if !DocumentedOrder(contracts, shown) {
      var a, b :| 0 <= a < b < |shown| && !Before(DocumentedKey(contracts[shown[b].id], shown[b].id),
                                                  DocumentedKey(contracts[shown[a].id], shown[a].id));
      assert Shows(shown, shown[a].id) && Shows(shown, shown[b].id);
      assert AcceptedPast(contracts, shown[b].id, shown[a].id);
    }
    if j, k :| 0 <= j < |contracts| && 0 <= k < |contracts| && WantedContract(contracts[j], f)
               && WantedContract(contracts[k], f) && AcceptedPast(contracts, j, k)
    {
      assert Shows(shown, j) && Shows(shown, k);
      var b :| 0 <= b < |shown| && shown[b].id == j;
      var a :| 0 <= a < |shown| && shown[a].id == k;
      PastStandsBelow(contracts, j, k);
      assert a < b;
    }
  }

  lemma PastStandsBelow(contracts: seq<Contract>, j: nat, k: nat)
    requires j < |contracts| && k < |contracts| && AcceptedPast(contracts, j, k)
    ensures Before(ListedKey(contracts[j], j), ListedKey(contracts[k], k))
    ensures Before(DocumentedKey(contracts[k], k), DocumentedKey(contracts[j], j))
  {
  }
}
