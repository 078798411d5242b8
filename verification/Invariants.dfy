/** What every reachable catalog satisfies, row by row and across rows, and when a commit can be
    aborted by a database constraint. */
module Invariants {
  import opened Common
  import opened Handshake
  import opened Records
  import opened Rules
  import opened State
  import opened Versioning
  import opened VersionLog

  // ---------- Parts ----------

  ghost predicate VersionsOk(vs: seq<PartVersion>, clock: Time) {
    && vs != []
    && (forall i, j | 0 <= i < j < |vs| :: Less(vs[i].version, vs[j].version) && vs[i].createdAt < vs[j].createdAt)
    && (forall i | 0 <= i < |vs| :: !vs[i].version.IsPrerelease() && vs[i].createdAt <= clock)
  }

  ghost predicate PartOk(p: Part, clock: Time) {
    && VersionsOk(p.versions, clock)
    && RowsOk(p.subtypeProposals, clock) && RowsOk(p.nameProposals, clock) && RowsOk(p.deletionProposals, clock)
    && (forall k | 0 <= k < |p.deletionProposals| && p.deletionProposals[k].accepted.Some? ::
          p.deletionProposals[k].accepted.value.acceptor.Some? && !p.deletionProposals[k].accepted.value.overridden)
    && p.createdAt <= clock
    && (p.subtypeShift.Some? ==> p.subtypeShift.value.at <= clock)
    && (p.nameShift.Some? ==> p.nameShift.value.at <= clock)
    && (p.deleted.Some? ==> p.deleted.value.at <= clock)
    && IsSlug(p.name) && AliasesOk(p.aliases)
    && (forall k | 0 <= k < |p.nameProposals| :: IsSlug(p.nameProposals[k].change.target))
  }

  // The latest version of a part is the one added last.
  lemma LatestIsLast(vs: seq<PartVersion>, clock: Time)
    requires VersionsOk(vs, clock)
    ensures LatestPartVersion(vs) == Some(vs[|vs| - 1])
  {
  }

  lemma PartOkLater(p: Part, clock: Time, now: Time)
    requires PartOk(p, clock) && clock <= now
    ensures PartOk(p, now)
  {
  }

  lemma NewPartOk(name: string, subtype: PartSubtype, aliases: seq<string>, markdown: string, v: Version, now: Time)
    requires IsSlug(name) && AliasesOk(aliases) && !v.IsPrerelease()
    ensures PartOk(NewPart(name, subtype, aliases, markdown, v, now), now)
  {
  }

  lemma AcceptRowsOk<T>(ps: seq<Proposal<T>>, k: nat, actor: Option<Actor>, single: bool, cascade: bool, clock: Time,
      now: Time)
    requires RowsOk(ps, clock) && clock <= now && CheckAcceptable(ps, k, actor, single).None?
    ensures RowsOk(Accept(ps, k, Acceptance(now, actor, single, cascade)), now)
  {
  }

  lemma OpenRowsOk<T>(ps: seq<Proposal<T>>, p: Proposal<T>, clock: Time, now: Time)
    requires RowsOk(ps, clock) && clock <= now && p.accepted.None? && p.createdAt == now
    ensures RowsOk(ps + [p], now)
  {
  }

  lemma AddVersionOk(vs: seq<PartVersion>, v: PartVersion, clock: Time)
    requires VersionsOk(vs, clock) && !v.version.IsPrerelease() && v.createdAt == clock + 1
    requires LatestPartVersion(vs).Some? ==> Less(LatestPartVersion(vs).value.version, v.version)
    ensures VersionsOk(vs + [v], clock + 1)
  {
    LatestIsLast(vs, clock);
    forall i | 0 <= i < |vs| ensures Less(vs[i].version, v.version) {
      OrderIsStrictTotal(vs[i].version, vs[|vs| - 1].version, v.version);
    }
  }

  lemma VersionsOkLater(vs: seq<PartVersion>, clock: Time, now: Time)
    requires VersionsOk(vs, clock) && clock <= now
    ensures VersionsOk(vs, now)
  {
  }

  lemma RowsOkLater<T>(ps: seq<Proposal<T>>, clock: Time, now: Time)
    requires RowsOk(ps, clock) && clock <= now
    ensures RowsOk(ps, now)
  {
  }

  lemma PartMoveOk(p: Part, m: PartMove, actor: Option<Actor>, clock: Time)
    requires PartOk(p, clock) && PartMoveEnabled(p, m, actor)
    requires m.AddVersion? && m.aliases.Some? ==> AliasesOk(m.aliases.value)
    ensures PartOk(MovePart(p, m, actor, clock + 1), clock + 1)
  {
    hide VersionsOk; hide RowsOk; hide LatestPartVersion; hide CheckAcceptable; hide IsSlug; hide AliasesOk; hide Less;
    var now := clock + 1;
    VersionsOkLater(p.versions, clock, now);
    RowsOkLater(p.subtypeProposals, clock, now);
    RowsOkLater(p.nameProposals, clock, now);
    RowsOkLater(p.deletionProposals, clock, now);
    match m
    case AddVersion(v, markdown, _) => AddVersionOk(p.versions, PartVersion(v, markdown, now), clock);
    case ProposeSubtype(subtype, rationale) =>
      OpenRowsOk(p.subtypeProposals, Open(Change(p.subtype, subtype), rationale, actor, now), clock, now);
    case AcceptSubtype(k, single) => AcceptRowsOk(p.subtypeProposals, k, actor, single, false, clock, now);
    case ProposeName(name, rationale) =>
      OpenRowsOk(p.nameProposals, Open(Change(p.name, name), rationale, actor, now), clock, now);
    case AcceptName(k, single) => AcceptRowsOk(p.nameProposals, k, actor, single, false, clock, now);
    case ProposePartDeletion(rationale) =>
      OpenRowsOk(p.deletionProposals, Open((), rationale, actor, now), clock, now);
  }

  lemma DropPartOk(p: Part, k: nat, actor: Option<Actor>, cascade: bool, clock: Time)
    requires PartOk(p, clock) && DropEnabled(p, k, actor)
    ensures PartOk(DropPart(p, k, actor, cascade, clock + 1), clock + 1)
  {
  }

  // ---------- Contracts ----------

  ghost predicate ChangeInRange(change: EndpointChange, parts: nat) {
    && (change.owner.Some? ==> change.owner.value < parts)
    && (change.counterparty.Some? ==> change.counterparty.value < parts)
  }

  /** parts is the number of part rows, which the foreign keys refer to. */
  ghost predicate ContractOk(c: Contract, parts: nat, clock: Time) {
    && c.owner < parts && c.counterparty < parts
    && (forall k | 0 <= k < |c.endpointProposals| :: ChangeInRange(c.endpointProposals[k].change, parts))
    && LogOk(c.log, clock)
    && RowsOk(c.shapeProposals, clock) && RowsOk(c.endpointProposals, clock) && RowsOk(c.deletionProposals, clock)
    && c.createdAt <= clock
    && (c.shapeShift.Some? ==> c.shapeShift.value.at <= clock)
    && (c.endpointShift.Some? ==> c.endpointShift.value.at <= clock)
    && (c.deleted.Some? ==> c.deleted.value.at <= clock)
  }

  lemma ContractOkLater(c: Contract, parts: nat, parts': nat, clock: Time, now: Time)
    requires ContractOk(c, parts, clock) && clock <= now && parts <= parts'
    ensures ContractOk(c, parts', now)
  {
  }

  lemma NewContractOk(owner: nat, counterparty: nat, shape: Shape, markdown: string, v: Version, parts: nat, now: Time)
    requires owner < parts && counterparty < parts && !v.IsPrerelease()
    ensures ContractOk(NewContract(owner, counterparty, shape, markdown, v, now), parts, now)
  {
  }

  // The part of a move's guard that speaks of part rows.
  ghost predicate MoveInRange(c: Contract, m: ContractMove, parts: nat) {
    m.ProposeEndpoints? ==> ChangeInRange(m.change, parts)
  }

  lemma ContractMoveOk(c: Contract, m: ContractMove, actor: Option<Actor>, parts: nat, clock: Time)
    requires ContractOk(c, parts, clock) && ContractMoveEnabled(c, m, actor, clock + 1) && MoveInRange(c, m, parts)
    ensures ContractOk(MoveContract(c, m, actor, clock + 1), parts, clock + 1)
  {
    hide LogOk; hide RowsOk; hide MoveLog; hide CheckAcceptable; hide CheckTargets;
    var now := clock + 1;
    LogOkLater(c.log, clock, now);
    RowsOkLater(c.shapeProposals, clock, now);
    RowsOkLater(c.endpointProposals, clock, now);
    RowsOkLater(c.deletionProposals, clock, now);
    match m
    case ProposeShape(shape, rationale) =>
      OpenRowsOk(c.shapeProposals, Open(Change(c.shape, shape), rationale, actor, now), clock, now);
    case AcceptShape(k, single) => AcceptRowsOk(c.shapeProposals, k, actor, single, false, clock, now);
    case ProposeEndpoints(change, rationale) =>
      OpenRowsOk(c.endpointProposals, Open(change, rationale, actor, now), clock, now);
    case AcceptEndpoints(k, single, _, _) =>
      AcceptRowsOk(c.endpointProposals, k, actor, single, false, clock, now);
      assert ChangeInRange(c.endpointProposals[k].change, parts);
    case ProposeDeletion(rationale) =>
      OpenRowsOk(c.deletionProposals, Open((), rationale, actor, now), clock, now);
    case AcceptDeletion(k, single) => AcceptRowsOk(c.deletionProposals, k, actor, single, false, clock, now);
    case MoveBody(body) => MoveLogKeeps(c.log, body, actor, clock, now);
  }

  // ---------- The catalog ----------

  ghost predicate RowsSound(s: Db) {
    && (forall i | 0 <= i < |s.parts| :: PartOk(s.parts[i], s.clock))
    && (forall j | 0 <= j < |s.contracts| :: ContractOk(s.contracts[j], |s.parts|, s.clock))
    && (forall k | k in s.templates :: LogOk(s.templates[k], s.clock))
  }

  ghost predicate Inv(s: Db) {
    Constraints(s) && RowsSound(s)
  }

  // The row-level forms: what the effect leaves of one row is sound.
  lemma PartEffectSound(s: Db, e: Effect, actor: Option<Actor>, i: nat, p: Part, p': Part)
    requires PartOk(p, s.clock) && PartEffect(s, e, actor, i, p, p')
    ensures PartOk(p', s.clock + 1)
  {
    hide PartOk; hide MovePart; hide PartMoveEnabled; hide DropPart; hide DropEnabled; hide AliasesOk;
    if p' == p {
      PartOkLater(p, s.clock, s.clock + 1);
    } else if e.SetPart? {
      PartMoveOk(p, e.partMove, actor, s.clock);
    } else {
      DropPartOk(p, e.row, actor, e.cascade, s.clock);
    }
  }

  lemma ContractEffectSound(s: Db, e: Effect, actor: Option<Actor>, j: nat, c: Contract, c': Contract, parts: nat)
    requires ContractOk(c, |s.parts|, s.clock) && ContractEffect(s, e, actor, j, c, c') && |s.parts| <= parts
    ensures ContractOk(c', parts, s.clock + 1)
  {
    hide MoveLog; hide CheckAcceptable; hide LogOk; hide MoveContract; hide ContractMoveEnabled;
    var now := s.clock + 1;
    if e.SetContract? && c' != c {
      ContractMoveOk(c, e.contractMove, actor, |s.parts|, s.clock);
      ContractOkLater(c', |s.parts|, parts, now, now);
    } else {
      ContractOkLater(c, |s.parts|, parts, s.clock, now);
    }
  }

  lemma PartsSound(s: Db, e: Effect, actor: Option<Actor>, i: nat)
    requires Inv(s) && Enabled(s, e, actor) && i < |Apply(s, e, actor).parts|
    ensures PartOk(Apply(s, e, actor).parts[i], s.clock + 1)
  {
    if i < |s.parts| {
      hide Apply; hide Enabled; hide PartEffect;
      PartAfter(s, e, actor, i);
      PartEffectSound(s, e, actor, i, s.parts[i], Apply(s, e, actor).parts[i]);
    } else {
      NewPartOk(e.name, e.subtype, e.aliases, e.markdown, e.version, s.clock + 1);
    }
  }

  lemma ContractsSound(s: Db, e: Effect, actor: Option<Actor>, j: nat)
    requires Inv(s) && Enabled(s, e, actor) && j < |Apply(s, e, actor).contracts|
    ensures ContractOk(Apply(s, e, actor).contracts[j], |Apply(s, e, actor).parts|, s.clock + 1)
  {
    if j < |s.contracts| {
      hide Apply; hide Enabled; hide ContractEffect;
      ContractAfter(s, e, actor, j);
      TableSizes(s, e, actor);
      ContractEffectSound(s, e, actor, j, s.contracts[j], Apply(s, e, actor).contracts[j], |Apply(s, e, actor).parts|);
    } else {
      NewContractOk(e.owner, e.counterparty, e.shape, e.markdown, e.version, |s.parts|, s.clock + 1);
    }
  }

  lemma TemplatesSound(s: Db, e: Effect, actor: Option<Actor>, k: TemplateKind)
    requires Inv(s) && Enabled(s, e, actor) && k in Apply(s, e, actor).templates
    ensures LogOk(Apply(s, e, actor).templates[k], s.clock + 1)
  {
    hide LogOk; hide MoveLog;
    assert LogOk(s.templates[k], s.clock);
    if e.SetTemplate? && k == e.kind {
      MoveLogKeeps(s.templates[k], e.body, actor, s.clock, s.clock + 1);
    } else {
      LogOkLater(s.templates[k], s.clock, s.clock + 1);
    }
  }

  lemma EffectSound(s: Db, e: Effect, actor: Option<Actor>)
    requires Inv(s) && Enabled(s, e, actor)
    ensures RowsSound(Apply(s, e, actor))
  {
    hide Apply; hide Enabled; hide PartOk; hide ContractOk; hide LogOk;
    var s' := Apply(s, e, actor);
    TableSizes(s, e, actor);
    forall i | 0 <= i < |s'.parts| ensures PartOk(s'.parts[i], s'.clock) { PartsSound(s, e, actor, i); }
    forall j | 0 <= j < |s'.contracts|
        ensures ContractOk(s'.contracts[j], |s'.parts|, s'.clock) { ContractsSound(s, e, actor, j); }
    forall k | k in s'.templates ensures LogOk(s'.templates[k], s'.clock) { TemplatesSound(s, e, actor, k); }
  }

  // ---------- Constraints ----------

  lemma PartChecksHold(p: Part, clock: Time)
    requires PartOk(p, clock)
    ensures PartRowChecks(p)
  {
  }

  lemma LogChecksHold(log: Log, clock: Time)
    requires LogOk(log, clock)
    ensures LogChecks(log)
  {
  }

  // The name a part move writes.
  ghost predicate Renames(s: Db, e: Effect, i: nat, name: string) {
    && e.SetPart? && e.part == i < |s.parts| && e.partMove.AcceptName?
    && e.partMove.row < |s.parts[i].nameProposals| && name == s.parts[i].nameProposals[e.partMove.row].change.target
  }

  /** A part is never revived, and its name changes only by an accepted shift of its own. */
  lemma NameSteps(s: Db, e: Effect, actor: Option<Actor>, i: nat)
    requires Enabled(s, e, actor) && i < |s.parts|
    ensures i < |Apply(s, e, actor).parts|
    ensures var p, p' := s.parts[i], Apply(s, e, actor).parts[i];
            && (p'.Live() ==> p.Live())
            && (p'.name == p.name || (p.Live() && p'.Live() && Renames(s, e, i, p'.name)))
  {
    hide Apply; hide Enabled;
    PartAfter(s, e, actor, i);
  }

  /** What the handlers have established about a new name, and the row a registration adds. */
  lemma NewNames(s: Db, e: Effect, actor: Option<Actor>)
    requires Enabled(s, e, actor)
    ensures e.AddPart? ==> !NameTaken(s.parts, e.name, None)
                           && |Apply(s, e, actor).parts| == |s.parts| + 1
                           && Apply(s, e, actor).parts[|s.parts|].name == e.name
                           && Apply(s, e, actor).parts[|s.parts|].Live()
    ensures !e.AddPart? ==> |Apply(s, e, actor).parts| == |s.parts|
    ensures e.SetPart? && e.partMove.AcceptName? ==>
              && e.part < |s.parts| && e.partMove.row < |s.parts[e.part].nameProposals|
              && !NameTaken(s.parts, s.parts[e.part].nameProposals[e.partMove.row].change.target, Some(e.part))
              && Renames(s, e, e.part, Apply(s, e, actor).parts[e.part].name)
              && Apply(s, e, actor).parts[e.part].Live()
  {
    hide MoveContract; hide ContractMoveEnabled; hide MoveLog; hide NameTaken; hide EdgeTaken; hide DropPart;
  }

  lemma NamesStayUnique(s: Db, e: Effect, actor: Option<Actor>)
    requires Inv(s) && Enabled(s, e, actor)
    ensures NamesUnique(Apply(s, e, actor).parts)
  {
    hide Apply; hide Enabled; hide RowsSound; hide EdgesUnique; hide AgentsUnique;
    hide PartRowChecks; hide ContractRowChecks; hide LogChecks;
    var parts := Apply(s, e, actor).parts;
    NewNames(s, e, actor);
    forall i | 0 <= i < |s.parts| ensures i < |parts| && (parts[i].Live() ==> s.parts[i].Live())
      && (parts[i].name == s.parts[i].name || Renames(s, e, i, parts[i].name))
    {
      NameSteps(s, e, actor, i);
    }
  }

  lemma AgentsStayUnique(s: Db, e: Effect, actor: Option<Actor>)
    requires Inv(s) && Enabled(s, e, actor)
    ensures AgentsUnique(Apply(s, e, actor).agents)
  {
  }

  // The one write whose handler does not test uniqueness itself.
  ghost predicate ShapeCollides(s: Db, e: Effect)
    requires e.SetContract? && e.contractMove.AcceptShape? ==>
               e.contract < |s.contracts| && e.contractMove.row < |s.contracts[e.contract].shapeProposals|
  {
    e.SetContract? && e.contractMove.AcceptShape? &&
    var c := s.contracts[e.contract];
    EdgeTaken(s.contracts, c.owner, c.counterparty, c.shapeProposals[e.contractMove.row].change.target,
        Some(e.contract))
  }

  lemma CollisionBreaks(s: Db, e: Effect, actor: Option<Actor>)
    requires Inv(s) && Enabled(s, e, actor) && ShapeCollides(s, e)
    ensures !EdgesUnique(Apply(s, e, actor).contracts)
  {
    var cs := Apply(s, e, actor).contracts;
    var j := e.contract;
    var c := s.contracts[j];
    var target := c.shapeProposals[e.contractMove.row].change.target;
    var i :| 0 <= i < |s.contracts| && i != j && s.contracts[i].Live() && s.contracts[i].owner == c.owner
             && s.contracts[i].counterparty == c.counterparty && s.contracts[i].shape == target;
    assert cs[i] == s.contracts[i] && cs[j].Live();
    assert cs[i].SameEdge(cs[j]) && cs[j].SameEdge(cs[i]);
  }

  lemma MoveKeepsEdge(c: Contract, m: ContractMove, actor: Option<Actor>, now: Time)
    requires ContractMoveEnabled(c, m, actor, now) && !m.AcceptShape? && !m.AcceptEndpoints?
    ensures c.Live() && c.SameEdge(MoveContract(c, m, actor, now))
  {
  }

  // No other live contract has the edge that contract j gets.
  lemma MovedEdgeIsFree(s: Db, e: Effect, actor: Option<Actor>, i: nat)
    requires Inv(s) && Enabled(s, e, actor) && !ShapeCollides(s, e) && e.SetContract?
    requires i < |s.contracts| && i != e.contract && s.contracts[i].Live()
    ensures !s.contracts[i].SameEdge(MoveContract(s.contracts[e.contract], e.contractMove, actor, s.clock + 1))
  {
    hide MoveLog; hide CheckAcceptable; hide RegistrationRule; hide ShapeRule; hide EndpointRule; hide RowsSound;
    hide NamesUnique; hide AgentsUnique;
    hide ContractRowChecks; hide PartRowChecks; hide LogChecks;
    var c := s.contracts[e.contract];
    if !e.contractMove.AcceptShape? && !e.contractMove.AcceptEndpoints? {
      MoveKeepsEdge(c, e.contractMove, actor, s.clock + 1);
      assert i < e.contract ==> !s.contracts[i].SameEdge(c);
      assert e.contract < i ==> !c.SameEdge(s.contracts[i]);
    }
  }

  lemma EdgeStaysFree(s: Db, e: Effect, actor: Option<Actor>, i: nat, j: nat)
    requires Inv(s) && Enabled(s, e, actor) && !ShapeCollides(s, e)
    requires i < j < |Apply(s, e, actor).contracts|
    requires Apply(s, e, actor).contracts[i].Live() && Apply(s, e, actor).contracts[j].Live()
    ensures !Apply(s, e, actor).contracts[i].SameEdge(Apply(s, e, actor).contracts[j])
  {
    hide ContractMoveEnabled; hide MoveContract; hide RowsSound; hide MoveLog; hide PartMoveEnabled; hide MovePart;
    hide CheckAcceptable; hide RegistrationRule; hide ShapeRule; hide EndpointRule; hide NamesUnique;
    hide ContractRowChecks; hide ShapeCollides;
    var cs := Apply(s, e, actor).contracts;
    if j == |s.contracts| {
      assert cs[i] == s.contracts[i];
    } else if e.SetContract? && (e.contract == i || e.contract == j) {
      var other := if e.contract == i then j else i;
      assert cs[other] == s.contracts[other];
      MovedEdgeIsFree(s, e, actor, other);
    } else {
      assert s.contracts[i].Live() && s.contracts[j].Live();
      assert !s.contracts[i].SameEdge(s.contracts[j]);
    }
  }

  lemma EdgesUniqueIff(s: Db, e: Effect, actor: Option<Actor>)
    requires Inv(s) && Enabled(s, e, actor)
    ensures EdgesUnique(Apply(s, e, actor).contracts) <==> !ShapeCollides(s, e)
  {
    if ShapeCollides(s, e) {
      CollisionBreaks(s, e, actor);
    } else {
      var cs := Apply(s, e, actor).contracts;
      forall i, j | 0 <= i < j < |cs| && cs[i].Live() && cs[j].Live() ensures !cs[i].SameEdge(cs[j]) {
        EdgeStaysFree(s, e, actor, i, j);
      }
    }
  }

  lemma ContractMoveChecks(c: Contract, m: ContractMove, actor: Option<Actor>, now: Time)
    requires ContractRowChecks(c) && ContractMoveEnabled(c, m, actor, now)
    requires LogChecks(MoveContract(c, m, actor, now).log)
    ensures ContractRowChecks(MoveContract(c, m, actor, now))
  {
    hide LogChecks; hide MoveLog; hide CheckAcceptable;
  }

  lemma ContractEffectChecks(s: Db, e: Effect, actor: Option<Actor>, j: nat, c: Contract, c': Contract, parts: nat)
    requires ContractRowChecks(c) && ContractEffect(s, e, actor, j, c, c') && ContractOk(c', parts, s.clock + 1)
    ensures ContractRowChecks(c')
  {
    hide LogOk; hide LogChecks; hide RowsOk; hide MoveContract; hide ContractMoveEnabled;
    LogChecksHold(c'.log, s.clock + 1);
    if e.SetContract? && c' != c {
      ContractMoveChecks(c, e.contractMove, actor, s.clock + 1);
    }
  }

  lemma ContractChecksHold(s: Db, e: Effect, actor: Option<Actor>, j: nat)
    requires Inv(s) && Enabled(s, e, actor) && j < |Apply(s, e, actor).contracts|
    ensures ContractRowChecks(Apply(s, e, actor).contracts[j])
  {
    ContractsSound(s, e, actor, j);
    if j < |s.contracts| {
      hide Apply; hide Enabled; hide ContractEffect; hide ContractRowChecks; hide ContractOk;
      ContractAfter(s, e, actor, j);
      ContractEffectChecks(s, e, actor, j, s.contracts[j], Apply(s, e, actor).contracts[j], |Apply(s, e, actor).parts|);
    } else {
      hide ContractOk;
      LogChecksHold([Registered(e.version, e.markdown, s.clock + 1)], s.clock + 1) by {
        RegisteredOk(e.version, e.markdown, s.clock + 1);
      }
    }
  }

  /** The handlers' own checks are complete: no commit is ever aborted by a unique index or a
      CHECK constraint, except an accepted contract subtype shift that runs into another live
      contract, and that one always is. */
  lemma CommitAbortsIff(s: Db, e: Effect, actor: Option<Actor>)
    requires Inv(s) && Enabled(s, e, actor)
    ensures Constraints(Apply(s, e, actor)) <==> !ShapeCollides(s, e)
  {
    hide Apply; hide Enabled; hide PartOk; hide ContractOk; hide LogOk;
    hide NamesUnique; hide AgentsUnique; hide EdgesUnique; hide PartRowChecks; hide ContractRowChecks; hide LogChecks;
    var s' := Apply(s, e, actor);
    NamesStayUnique(s, e, actor);
    AgentsStayUnique(s, e, actor);
    EdgesUniqueIff(s, e, actor);
    EffectSound(s, e, actor);
    forall j | 0 <= j < |s'.contracts|
        ensures ContractRowChecks(s'.contracts[j]) { ContractChecksHold(s, e, actor, j); }
    forall i | 0 <= i < |s'.parts| ensures PartRowChecks(s'.parts[i]) {
      PartChecksHold(s'.parts[i], s'.clock);
    }
    forall k | k in s'.templates ensures LogChecks(s'.templates[k]) {
      LogChecksHold(s'.templates[k], s'.clock);
    }
  }

  // ---------- Steps and runs ----------

  lemma StepKeepsInv(s: Db, q: Request)
    requires Inv(s)
    ensures Inv(After(s, q))
  {
    hide Decide; hide Apply; hide Enabled; hide RowsSound; hide Constraints;
    AfterIs(s, q);
    if After(s, q) != s {
      EffectSound(s, Decide(s, q).value, q.actor);
    }
  }

  /** A request that passes its checks commits, unless it is the one shift that collides. */
  lemma Committed(s: Db, q: Request)
    requires Inv(s) && Decide(s, q).Ok?
    ensures Inv(After(s, q))
    ensures Step(s, q) == if ShapeCollides(s, Decide(s, q).value) then Rejected(ConstraintFailed)
                          else Done(Apply(s, Decide(s, q).value, q.actor))
  {
    StepKeepsInv(s, q);
    hide Decide; hide Apply; hide Enabled; hide Constraints; hide RowsSound; hide ShapeCollides;
    CommitAbortsIff(s, Decide(s, q).value, q.actor);
  }

  lemma InstalledInv(s: Db)
    requires Installed(s)
    ensures Inv(s)
  {
    forall k | k in s.templates ensures LogChecks(s.templates[k]) {
      LogChecksHold(s.templates[k], s.clock);
    }
  }

  /** Well-formedness over all runs: live names distinct, live edges distinct, no self-loop,
      connection_type exactly on connections, sound version logs, sound proposal rows. */
  lemma {:induction false} RunKeepsInv(s: Db, qs: seq<Request>)
    requires Inv(s)
    ensures Inv(Run(s, qs))
  {
    hide After; hide Inv;
    if qs == [] {
    } else {
      RunKeepsInv(s, qs[..|qs| - 1]);
      StepKeepsInv(Run(s, qs[..|qs| - 1]), qs[|qs| - 1]);
    }
  }
}
