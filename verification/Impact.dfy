/** The impact blocks shown before a deletion: who mentions the row by name, what is still open on
    it, and how much history it has. */
module Impact {
  import opened Common
  import opened Deletions
  import opened Handshake
  import opened History
  import opened Invariants
  import opened OpenListing
  import opened Records
  import opened State
  import opened Tokens
  import opened Versioning
  import opened VersionLog

  // ---------- Counting rows by status ----------

  function CountOpen<T>(ps: seq<Proposal<T>>, except: Option<nat>): nat {
    if ps == [] then 0
    else
      var n := |ps| - 1;
      CountOpen(ps[..n], except) + if ps[n].accepted.None? && except != Some(n) then 1 else 0
  }

  function CountActive(log: Log, active: bool): nat {
    if log == [] then 0
    else
      var n := |log| - 1;
      CountActive(log[..n], active) + if log[n].active == active then 1 else 0
  }

  lemma {:induction false} EveryRowOnce<T>(ps: seq<Proposal<T>>, except: Option<nat>)
    requires except.Some? && except.value < |ps| ==> ps[except.value].accepted.None?
    ensures CountOpen(ps, except) + |AcceptedRows(ps)| + (if except.Some? && except.value < |ps| then 1 else 0) == |ps|
  {
    if ps == [] {
    } else {
      var n := |ps| - 1;
      EveryRowOnce(ps[..n], except);
    }
  }

  lemma {:induction false} EveryVersionOnce(log: Log)
    ensures CountActive(log, true) + CountActive(log, false) == |log|
  {
    if log == [] {
    } else {
      EveryVersionOnce(log[..|log| - 1]);
    }
  }

  lemma {:induction false} ShiftEventsCount<T>(ps: seq<Proposal<T>>, kind: EventKind, bodies: seq<Body>)
    ensures |ShiftEvents(ps, kind, bodies)| == |AcceptedRows(ps)|
  {
    hide LabelAt;
    if ps == [] {
    } else {
      ShiftEventsCount(ps[..|ps| - 1], kind, bodies);
    }
  }

  lemma {:induction false} BodiesCount(log: Log)
    ensures |ContractBodies(log)| == CountActive(log, true)
  {
    if log == [] {
    } else {
      BodiesCount(log[..|log| - 1]);
    }
  }

  // ---------- Mentions ----------

  /** The latest body of the part holds the name as one of its whole tokens. */
  predicate Names(p: Part, name: string) {
    p.versions != [] && name in Tokenize(p.versions[|p.versions| - 1].markdown)
  }

  // The search as it is made: the latest version's text against the bounded pattern.
  method FindsName(p: Part, name: string, clock: Time) returns (found: bool)
    requires PartOk(p, clock) && IsSlug(name)
    ensures found <==> Names(p, name)
  {
    hide Tokenize; hide Mentions; hide LatestPartVersion; hide AliasesOk;
    LatestIsLast(p.versions, clock);
    var latest := LatestPartVersion(p.versions);
    SearchFindsTokens(p.versions[|p.versions| - 1].markdown, name);
    found := latest.Some? && Mentions(latest.value.markdown, name);
  }

  // ---------- Contracts ----------

  function ChildRows(c: Contract): nat {
    |c.log| + |c.shapeProposals| + |c.endpointProposals| + |c.deletionProposals|
  }

  datatype ContractImpact = ContractImpact(referenced: seq<nat>, openRows: nat, historyEntries: nat)

  // An inactive row at or below the latest active version: no listing shows it as open.
  ghost predicate HasSuperseded(log: Log) {
    exists i | 0 <= i < |log| && !log[i].active ::
      LatestActive(log).Some? && !Less(LatestActive(log).value.version, log[i].version)
  }

  /** What the listings of a contract's open proposals show together. */
  function ShownOpen(c: Contract, except: Option<nat>): nat {
    |OpenRows(c.log, c.log)| + CountOpen(c.shapeProposals, None) + CountOpen(c.endpointProposals, None)
    + CountOpen(c.deletionProposals, except)
  }

  // The endpoints whose latest body mentions the other endpoint.
  ghost predicate MentionsOther(s: Db, c: Contract, i: nat)
    requires EndpointsExist(s, c)
  {
    || (i == c.owner && Names(s.parts[i], s.parts[c.counterparty].name))
    || (i == c.counterparty && Names(s.parts[i], s.parts[c.owner].name))
  }

  /** The block of a contract deletion. It names exactly the endpoints whose latest body holds the
      other endpoint's name as a whole token; its history count is the length of the history read
      without deletion events; every child row of the live contract is counted exactly once, as
      open or as history, except the proposal being accepted; and it reports more open rows than
      the listings show exactly when a version row is superseded. */
  ghost predicate IsContractImpact(s: Db, j: nat, except: Option<nat>, impact: ContractImpact) {
    && j < |s.contracts| && EndpointsExist(s, s.contracts[j])
    && var c := s.contracts[j];
    && (forall i: nat :: i in impact.referenced <==> MentionsOther(s, c, i))
    && impact.historyEntries == |ContractEvents(c, false)|
    && impact.openRows + impact.historyEntries + (if except.Some? then 1 else 0) == ChildRows(c)
    && impact.openRows >= ShownOpen(c, except)
    && (impact.openRows > ShownOpen(c, except) <==> HasSuperseded(c.log))
  }

  method ReferencedEndpoints(s: Db, c: Contract) returns (referenced: seq<nat>)
    requires EndpointsExist(s, c) && PartOk(s.parts[c.owner], s.clock) && PartOk(s.parts[c.counterparty], s.clock)
    ensures forall i: nat :: i in referenced <==> MentionsOther(s, c, i)
  {
    hide Names; hide PartOk;
    NamesAreSlugs(s.parts[c.owner], s.clock);
    NamesAreSlugs(s.parts[c.counterparty], s.clock);
    referenced := [];
    var sides := [(c.owner, c.counterparty), (c.counterparty, c.owner)];
    for k := 0 to 2
      invariant forall i: nat :: i in referenced <==>
                  || (k > 0 && i == c.owner && Names(s.parts[i], s.parts[c.counterparty].name))
                  || (k > 1 && i == c.counterparty && Names(s.parts[i], s.parts[c.owner].name))
    {
      var found := FindsName(s.parts[sides[k].0], s.parts[sides[k].1].name, s.clock);
      if found {
        referenced := referenced + [sides[k].0];
      }
    }
  }

  lemma NamesAreSlugs(p: Part, clock: Time)
    requires PartOk(p, clock)
    ensures IsSlug(p.name)
  {
  }

  method ContractDeletionImpact(s: Db, j: nat, except: Option<nat>) returns (impact: ContractImpact)
    requires Inv(s) && DeletionsExplained(s) && j < |s.contracts| && s.contracts[j].Live()
    requires except.Some? ==> except.value < |s.contracts[j].deletionProposals|
    ensures IsContractImpact(s, j, except, impact)
  {
    hide Constraints; hide LogOk; hide RowsOk; hide PartOk; hide MentionsOther; hide HasSuperseded; hide ContractEvents;
    hide OpenRows; hide CountOpen; hide CountActive; hide AcceptedRows; hide InAcceptOrder;
    var c := s.contracts[j];
    assert ContractOk(c, |s.parts|, s.clock) && ContractExplained(s.parts, c);
    var referenced := ReferencedEndpoints(s, c);
    var openRows := CountActive(c.log, false) + CountOpen(c.shapeProposals, None) + CountOpen(c.endpointProposals, None)
                    + CountOpen(c.deletionProposals, except);
    var historyEntries := CountActive(c.log, true) + |AcceptedRows(c.shapeProposals)|
                          + |AcceptedRows(c.endpointProposals)|;
    ContractCounts(c, except);
    InactiveAgainstListing(c.log, s.clock);
    impact := ContractImpact(referenced, openRows, historyEntries);
  }

  lemma ContractCounts(c: Contract, except: Option<nat>)
    requires InAcceptOrder(c.deletionProposals) == []
    requires except.Some? ==> except.value < |c.deletionProposals|
    ensures CountActive(c.log, true) + |AcceptedRows(c.shapeProposals)| + |AcceptedRows(c.endpointProposals)|
            == |ContractEvents(c, false)|
    ensures CountActive(c.log, false) + CountOpen(c.shapeProposals, None) + CountOpen(c.endpointProposals, None)
            + CountOpen(c.deletionProposals, except) + |ContractEvents(c, false)| + (if except.Some? then 1 else 0)
            == ChildRows(c)
  {
    hide ShiftEvents; hide ContractBodies; hide InAcceptOrder; hide CountActive; hide CountOpen; hide AcceptedRows;
    var bodies := ContractBodies(c.log);
    BodiesCount(c.log);
    ShiftEventsCount(c.shapeProposals, SubtypeShift, bodies);
    ShiftEventsCount(c.endpointProposals, EndpointShift, bodies);
    EveryVersionOnce(c.log);
    EveryRowOnce(c.shapeProposals, None);
    EveryRowOnce(c.endpointProposals, None);
    InAcceptOrderPermutes(c.deletionProposals);
    if except.Some? {
      InAcceptOrderMembers(c.deletionProposals, c.deletionProposals[except.value]);
    }
    EveryRowOnce(c.deletionProposals, except);
  }

  // ---------- Parts ----------

  // Contract j is live and has the part on one side.
  predicate Touching(contracts: seq<Contract>, i: nat, j: nat) {
    j < |contracts| && contracts[j].Live() && contracts[j].Touches(i)
  }

  lemma LiveContractIff(contracts: seq<Contract>, i: nat)
    ensures HasLiveContract(contracts, i) <==> exists j: nat :: Touching(contracts, i, j)
  {
    if HasLiveContract(contracts, i) {
      var j :| 0 <= j < |contracts| && contracts[j].Live() && contracts[j].Touches(i);
      assert Touching(contracts, i, j);
    }
  }

  /** The live contracts on either side of the part, each once. */
  method TouchingContracts(contracts: seq<Contract>, i: nat) returns (touching: seq<nat>)
    ensures forall j: nat :: j in touching <==> Touching(contracts, i, j)
    ensures forall a, b | 0 <= a < b < |touching| :: touching[a] < touching[b]
    ensures touching != [] <==> HasLiveContract(contracts, i)
  {
    touching := [];
    for j := 0 to |contracts|
      invariant forall k: nat :: k in touching <==> k < j && Touching(contracts, i, k)
      invariant forall a, b | 0 <= a < b < |touching| :: touching[a] < touching[b]
    {
      if contracts[j].Live() && contracts[j].Touches(i) {
        assert forall a | 0 <= a < |touching| :: touching[a] in touching;
        touching := touching + [j];
      }
    }
    assert touching != [] ==> touching[0] in touching;
    LiveContractIff(contracts, i);
  }

  datatype PartImpact = PartImpact(touching: seq<nat>, referenced: seq<nat>, historyEntries: nat)

  /** The block of a part deletion: exactly the live contracts that touch the part, each once, which
      are the ones a cascade stamps; exactly the other live parts whose latest body holds its name
      as a whole token; and the length of its history read without deletion events. */
  ghost predicate IsPartImpact(s: Db, i: nat, impact: PartImpact) {
    && i < |s.parts|
    && (forall j: nat :: j in impact.touching <==> Touching(s.contracts, i, j))
    && (forall a, b | 0 <= a < b < |impact.touching| :: impact.touching[a] < impact.touching[b])
    && (forall k: nat :: k in impact.referenced <==>
          k < |s.parts| && k != i && s.parts[k].Live() && Names(s.parts[k], s.parts[i].name))
    && impact.historyEntries == |PartEvents(s.parts[i], false)|
  }

  /** The other live parts whose latest body mentions the part. */
  method MentioningParts(s: Db, i: nat) returns (referenced: seq<nat>)
    requires Inv(s) && i < |s.parts|
    ensures forall k: nat :: k in referenced <==>
              k < |s.parts| && k != i && s.parts[k].Live() && Names(s.parts[k], s.parts[i].name)
  {
    hide Constraints; hide ContractOk; hide PartOk; hide Names; hide IsSlug; hide LogOk;
    referenced := [];
    NamesAreSlugs(s.parts[i], s.clock);
    for n := 0 to |s.parts|
      invariant forall k: nat :: k in referenced <==>
                  k < n && k != i && s.parts[k].Live() && Names(s.parts[k], s.parts[i].name)
    {
      if n != i && s.parts[n].Live() {
        var found := FindsName(s.parts[n], s.parts[i].name, s.clock);
        if found {
          referenced := referenced + [n];
        }
      }
    }
  }

  method PartDeletionImpact(s: Db, i: nat) returns (impact: PartImpact)
    requires Inv(s) && i < |s.parts|
    ensures IsPartImpact(s, i, impact)
    ensures impact.touching != [] <==> HasLiveContract(s.contracts, i)
  {
    hide Inv; hide Names; hide Touching; hide HasLiveContract; hide ShiftEvents; hide AcceptedRows;
    var touching := TouchingContracts(s.contracts, i);
    var referenced := MentioningParts(s, i);
    var p := s.parts[i];
    var historyEntries := |p.versions| + |AcceptedRows(p.subtypeProposals)| + |AcceptedRows(p.nameProposals)|;
    ShiftEventsCount(p.subtypeProposals, SubtypeShift, PartBodies(p.versions));
    ShiftEventsCount(p.nameProposals, NameShift, PartBodies(p.versions));
    impact := PartImpact(touching, referenced, historyEntries);
  }

  // ---------- What counts as open ----------

  lemma {:induction false} OpenAmongInactive(rows: Log, top: Log)
    ensures |OpenRows(rows, top)| <= CountActive(rows, false)
    ensures |OpenRows(rows, top)| == CountActive(rows, false)
            <==> forall i | 0 <= i < |rows| && !rows[i].active :: IsOpen(top, rows[i])
  {
    if rows == [] {
    } else {
      var n := |rows| - 1;
      OpenAmongInactive(rows[..n], top);
      assert forall i | 0 <= i < n :: rows[..n][i] == rows[i];
    }
  }

  /** The block counts as open every version row that is not active. The listing of the same log
      shows fewer exactly when an inactive row lies at or below the latest active version. */
  lemma InactiveAgainstListing(log: Log, clock: Time)
    requires LogOk(log, clock)
    ensures |OpenRows(log, log)| <= CountActive(log, false)
    ensures |OpenRows(log, log)| < CountActive(log, false) <==> HasSuperseded(log)
  {
    hide LogOk; hide LatestActive; hide Less; hide OpenRows; hide CountActive;
    LatestActiveIsGreatest(log, clock);
    OpenAmongInactive(log, log);
  }

  /** It does so for ever once a release candidate of the log has been promoted. */
  lemma PromotionsAreStillCounted(log: Log, clock: Time, i: nat)
    requires LogOk(log, clock) && i < |log| && log[i].promotedFrom.Some?
    ensures |OpenRows(log, log)| < CountActive(log, false)
  {
    hide OpenRows; hide CountActive;
    assert Explained(log, log[i]) && RowOk(log[i], clock);
    var j :| 0 <= j < |log| && MadeFrom(log[i], log[j]);
    SupersededIsNeverOpen(log, log, clock, i, j);
    LatestActiveIsGreatest(log, clock);
    InactiveAgainstListing(log, clock);
  }
}
