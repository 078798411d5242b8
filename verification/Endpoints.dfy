/** What each write endpoint asks for and writes, stated on the tables and the request alone: a request
    is accepted if and only if it may be, and then exactly the written rows differ. */
module Endpoints {
  import opened Common
  import opened Graph
  import opened Handshake
  import opened Invariants
  import opened Records
  import opened Rules
  import opened State
  import opened Versioning
  import opened VersionLog

  // ---------- What the tables say ----------

  ghost predicate LiveNamed(parts: seq<Part>, name: string, i: nat) {
    i < |parts| && parts[i].Live() && parts[i].name == name
  }

  // Row i is live, and the only one, live or deleted, with the name.
  ghost predicate OnlyLive(parts: seq<Part>, name: string, i: nat) {
    && LiveNamed(parts, name, i)
    && forall n | 0 <= n < |parts| && n != i :: parts[n].name != name
  }

  // No live part but the exception has the name.
  ghost predicate FreeName(parts: seq<Part>, name: string, except: Option<nat>) {
    forall n: nat | n < |parts| && parts[n].Live() && except != Some(n) :: parts[n].name != name
  }

  // No live contract but the exception joins these parts in this shape.
  ghost predicate FreeEdge(contracts: seq<Contract>, owner: nat, counterparty: nat, shape: Shape, except: Option<nat>) {
    forall n: nat | n < |contracts| && contracts[n].Live() && except != Some(n) ::
      contracts[n].owner != owner || contracts[n].counterparty != counterparty || contracts[n].shape != shape
  }

  // The parts exist and may be joined in this shape.
  ghost predicate MayJoin(parts: seq<Part>, shape: Shape, owner: nat, counterparty: nat) {
    && owner < |parts| && counterparty < |parts|
    && RuleHolds(ConnectionRules, shape.subtype, shape.connectionType, parts[owner].subtype,
        parts[counterparty].subtype)
  }

  // Two operators sign off, unless one overrides or a side is unknown.
  ghost predicate TwoHands(proposer: Option<Actor>, acceptor: Option<Actor>, single: bool) {
    single || proposer.None? || acceptor.None? || proposer != acceptor
  }

  ghost predicate MayAcceptRow<T>(ps: seq<Proposal<T>>, k: nat, actor: Option<Actor>, single: bool) {
    k < |ps| && ps[k].accepted.None? && TwoHands(ps[k].proposer, actor, single)
  }

  // ---------- What a request asks for ----------

  // The requests that address a part by name and change that row only.
  predicate OnPart(op: Op) {
    op.UpdatePart? || op.ProposePartSubtype? || op.AcceptPartSubtype? || op.ProposePartName? || op.AcceptPartName?
    || op.ProposePartDeletion?
  }

  predicate OnContract(op: Op) {
    op.ProposeContractShape? || op.AcceptContractShape? || op.ProposeContractEndpoints? || op.AcceptContractEndpoints?
    || op.ProposeContractDeletion? || op.AcceptContractDeletion? || op.ContractBody?
  }

  /** What is asked of a request that changes part p, row i. */
  ghost predicate MayChangePart(parts: seq<Part>, i: nat, p: Part, q: Request)
    requires OnPart(q.op)
  {
    match q.op
    case UpdatePart(_, version, _, aliases) =>
      && !version.IsPrerelease() && (aliases.Some? ==> AliasesOk(aliases.value))
      && forall v | v in p.versions :: Less(v.version, version)
    case ProposePartSubtype(_, subtype, _) => subtype != p.subtype
    case AcceptPartSubtype(_, row, single) =>
      MayAcceptRow(p.subtypeProposals, row, q.actor, single) && p.subtypeProposals[row].change.target != p.subtype
    case ProposePartName(_, newName, _) => IsSlug(newName) && FreeName(parts, newName, None)
    case AcceptPartName(_, row, single) =>
      && MayAcceptRow(p.nameProposals, row, q.actor, single) && p.nameProposals[row].change.target != p.name
      && FreeName(parts, p.nameProposals[row].change.target, Some(i))
    case ProposePartDeletion(_, _) => true
  }

  // Where a side of an endpoint shift leads: to the live part that is named, or nowhere new.
  ghost predicate LeadsTo(parts: seq<Part>, name: Option<string>, present: nat, target: nat) {
    match name
    case None => target == present
    case Some(n) => IsSlug(n) && LiveNamed(parts, n, target)
  }

  // Contract j may be moved to join these parts.
  ghost predicate MayMove(s: Db, j: nat, c: Contract, owner: nat, counterparty: nat) {
    && (owner != c.owner || counterparty != c.counterparty) && owner != counterparty
    && MayJoin(s.parts, c.shape, owner, counterparty)
    && FreeEdge(s.contracts, owner, counterparty, c.shape, Some(j))
  }

  ghost predicate MayShift(s: Db, j: nat, c: Contract, newOwner: Option<string>, newCounterparty: Option<string>,
                           owner: nat, counterparty: nat)
  {
    && LeadsTo(s.parts, newOwner, c.owner, owner) && LeadsTo(s.parts, newCounterparty, c.counterparty, counterparty)
    && MayMove(s, j, c, owner, counterparty)
  }

  /** What is asked of a version proposal, and of accepting row i of the log. */
  ghost predicate MayProposeBody(log: Log, v: Version) {
    v.WellFormed() && forall r | r in log :: Less(r.version, v)
  }

  ghost predicate MayAcceptBody(log: Log, i: nat, target: Version, actor: Option<Actor>, single: bool) {
    && i < |log| && log[i].version == target && !log[i].active && TwoHands(log[i].proposer, actor, single)
    && (target.IsPrerelease() ==> forall r | r in log :: r.version != target.Stable())
  }

  ghost predicate MayWriteBody(log: Log, body: BodyMove, actor: Option<Actor>) {
    match body
    case ProposeBody(v, _) => MayProposeBody(log, v)
    case AcceptBody(target, single) =>
      target.WellFormed() && exists i: nat :: MayAcceptBody(log, i, target, actor, single)
  }

  /** What is asked of a request that changes contract c, row j. */
  ghost predicate MayChangeContract(s: Db, j: nat, c: Contract, q: Request)
    requires OnContract(q.op)
  {
    match q.op
    case ProposeContractShape(_, shape, _) =>
      shape.WellFormed() && shape != c.shape && MayJoin(s.parts, shape, c.owner, c.counterparty)
    case AcceptContractShape(_, row, single) =>
      && MayAcceptRow(c.shapeProposals, row, q.actor, single)
      && var target := c.shapeProposals[row].change.target;
      && target != c.shape && MayJoin(s.parts, target, c.owner, c.counterparty)
      && FreeEdge(s.contracts, c.owner, c.counterparty, target, Some(j))
    case ProposeContractEndpoints(_, newOwner, newCounterparty, _) =>
      && (newOwner.Some? || newCounterparty.Some?)
      && exists owner: nat, counterparty: nat :: MayShift(s, j, c, newOwner, newCounterparty, owner, counterparty)
    case AcceptContractEndpoints(_, row, single) =>
      && MayAcceptRow(c.endpointProposals, row, q.actor, single)
      && var change := c.endpointProposals[row].change;
      && MayMove(s, j, c, if change.owner.Some? then change.owner.value else c.owner,
                 if change.counterparty.Some? then change.counterparty.value else c.counterparty)
    case ProposeContractDeletion(_, _) => true
    case AcceptContractDeletion(_, row, single) => MayAcceptRow(c.deletionProposals, row, q.actor, single)
    case ContractBody(_, body) => MayWriteBody(c.log, body, q.actor)
  }

  ghost predicate MayRegisterContract(s: Db, q: Request, owner: nat, counterparty: nat)
    requires q.op.RegisterContract?
  {
    && IsSlug(q.op.ownerName) && LiveNamed(s.parts, q.op.ownerName, owner)
    && IsSlug(q.op.counterpartyName) && LiveNamed(s.parts, q.op.counterpartyName, counterparty)
    && owner != counterparty && !q.op.version.IsPrerelease() && q.op.shape.WellFormed()
    && MayJoin(s.parts, q.op.shape, owner, counterparty)
    && FreeEdge(s.contracts, owner, counterparty, q.op.shape, None)
  }

  ghost predicate MayOnPart(s: Db, q: Request, i: nat)
    requires OnPart(q.op)
  {
    OnlyLive(s.parts, q.op.name, i) && MayChangePart(s.parts, i, s.parts[i], q)
  }

  ghost predicate MayOnContract(s: Db, q: Request)
    requires OnContract(q.op)
  {
    var j := q.op.contract;
    j < |s.contracts| && s.contracts[j].Live() && MayChangeContract(s, j, s.contracts[j], q)
  }

  /** Everything a request asks for. */
  ghost predicate May(s: Db, q: Request) {
    if OnPart(q.op) then exists i: nat :: MayOnPart(s, q, i)
    else if OnContract(q.op) then MayOnContract(s, q)
    else match q.op
      case RegisterPart(name, _, aliases, _, version) =>
        IsSlug(name) && AliasesOk(aliases) && !version.IsPrerelease() && FreeName(s.parts, name, None)
      case AcceptPartDeletion(_, _, _, _) => exists i: nat :: MayDelete(s, q, i)
      case RegisterContract(_, _, _, _, _) => exists a: nat, b: nat :: MayRegisterContract(s, q, a, b)
      case TemplateBody(kind, body) => kind in s.templates && MayWriteBody(s.templates[kind], body, q.actor)
      case RegisterAgent(agent) => IsSlug(agent) && !IsAgent(s.agents, agent)
      case RevokeAgent(agent, _) => q.actor.Some? && !IsAgent(s.agents, q.actor.value) && IsAgent(s.agents, agent)
  }

  // ---------- What a request writes ----------

  // Nothing but part i changes, and the clock moves on.
  ghost predicate OnlyPartChanges(s: Db, s': Db, i: nat) {
    && i < |s.parts| && |s'.parts| == |s.parts| && s' == s.(parts := s'.parts, clock := s.clock + 1)
    && forall n | 0 <= n < |s.parts| && n != i :: s'.parts[n] == s.parts[n]
  }

  ghost predicate OnlyContractChanges(s: Db, s': Db, j: nat) {
    && j < |s.contracts| && |s'.contracts| == |s.contracts| && s' == s.(contracts := s'.contracts, clock := s.clock + 1)
    && forall n | 0 <= n < |s.contracts| && n != j :: s'.contracts[n] == s.contracts[n]
  }

  // One open row is filed by the caller at the end of the table.
  ghost predicate Files<T>(ps: seq<Proposal<T>>, ps': seq<Proposal<T>>, change: T, rationale: string,
                           actor: Option<Actor>, now: Time)
  {
    ps' == ps + [Proposal(change, rationale, actor, now, None)]
  }

  // Row k is accepted by the caller, and no other row changes.
  ghost predicate Accepts<T>(ps: seq<Proposal<T>>, ps': seq<Proposal<T>>, k: nat, actor: Option<Actor>, single: bool,
                             now: Time)
  {
    && k < |ps| && |ps'| == |ps| && ps'[k] == ps[k].(accepted := Some(Acceptance(now, actor, single, false)))
    && forall n | 0 <= n < |ps| && n != k :: ps'[n] == ps[n]
  }

  /** Part p after the request. */
  ghost predicate PartWritten(p: Part, p': Part, q: Request, now: Time)
    requires OnPart(q.op)
  {
    match q.op
    case UpdatePart(_, version, markdown, aliases) =>
      && p' == p.(versions := p'.versions, aliases := p'.aliases)
      && p'.versions == p.versions + [PartVersion(version, markdown, now)]
      && p'.aliases == (if aliases.Some? then aliases.value else p.aliases)
    case ProposePartSubtype(_, subtype, rationale) =>
      && p' == p.(subtypeProposals := p'.subtypeProposals)
      && Files(p.subtypeProposals, p'.subtypeProposals, Change(p.subtype, subtype), rationale, q.actor, now)
    case AcceptPartSubtype(_, row, single) =>
      && p' == p.(subtype := p'.subtype, subtypeShift := p'.subtypeShift, subtypeProposals := p'.subtypeProposals)
      && Accepts(p.subtypeProposals, p'.subtypeProposals, row, q.actor, single, now)
      && p'.subtype == p.subtypeProposals[row].change.target && p'.subtypeShift == Some(Shifted(p.subtype, now))
    case ProposePartName(_, newName, rationale) =>
      && p' == p.(nameProposals := p'.nameProposals)
      && Files(p.nameProposals, p'.nameProposals, Change(p.name, newName), rationale, q.actor, now)
    case AcceptPartName(_, row, single) =>
      && p' == p.(name := p'.name, nameShift := p'.nameShift, nameProposals := p'.nameProposals)
      && Accepts(p.nameProposals, p'.nameProposals, row, q.actor, single, now)
      && p'.name == p.nameProposals[row].change.target && p'.nameShift == Some(Shifted(p.name, now))
    case ProposePartDeletion(_, rationale) =>
      && p' == p.(deletionProposals := p'.deletionProposals)
      && Files(p.deletionProposals, p'.deletionProposals, (), rationale, q.actor, now)
  }

  /** A log after the request: one row more, or one row accepted in place, or a candidate marked and its
      stable row added. */
  ghost predicate BodyWritten(log: Log, log': Log, body: BodyMove, actor: Option<Actor>, now: Time) {
    match body
    case ProposeBody(v, markdown) =>
      log' == log + [VersionRow(v, markdown, false, now, None, None, actor, None, false)]
    case AcceptBody(target, single) => exists i: nat :: BodyAccepted(log, log', i, target, actor, single, now)
  }

  ghost predicate BodyAccepted(log: Log, log': Log, i: nat, target: Version, actor: Option<Actor>, single: bool,
                               now: Time)
  {
    && i < |log| && log[i].version == target && !log[i].active
    && |log'| == |log| + (if target.IsPrerelease() then 1 else 0)
    && (forall n | 0 <= n < |log| && n != i :: log'[n] == log[n])
    && if !target.IsPrerelease() then
         log'[i] == log[i].(active := true, acceptedAt := Some(now), acceptor := actor, overridden := single)
       else
         && log'[i] == log[i].(overridden := single)
         && log'[|log|] == VersionRow(Version(target.major, target.minor, target.patch, None), log[i].markdown, true,
              now, Some(now), target.prerelease, log[i].proposer, actor, single)
  }

  // The side of an endpoint proposal that is stored for the name asked for.
  ghost predicate Stores(parts: seq<Part>, name: Option<string>, side: Option<nat>) {
    match name
    case None => side.None?
    case Some(n) => side.Some? && LiveNamed(parts, n, side.value)
  }

  /** Contract c after the request. */
  ghost predicate ContractWritten(parts: seq<Part>, c: Contract, c': Contract, q: Request, now: Time)
    requires OnContract(q.op)
  {
    match q.op
    case ProposeContractShape(_, shape, rationale) =>
      && c' == c.(shapeProposals := c'.shapeProposals)
      && Files(c.shapeProposals, c'.shapeProposals, Change(c.shape, shape), rationale, q.actor, now)
    case AcceptContractShape(_, row, single) =>
      && c' == c.(shape := c'.shape, shapeShift := c'.shapeShift, shapeProposals := c'.shapeProposals)
      && Accepts(c.shapeProposals, c'.shapeProposals, row, q.actor, single, now)
      && c'.shape == c.shapeProposals[row].change.target && c'.shapeShift == Some(Shifted(c.shape, now))
    case ProposeContractEndpoints(_, newOwner, newCounterparty, rationale) =>
      && c' == c.(endpointProposals := c'.endpointProposals)
      && exists change: EndpointChange ::
           && ChangeAsked(parts, c, newOwner, newCounterparty, change)
           && Files(c.endpointProposals, c'.endpointProposals, change, rationale, q.actor, now)
    case AcceptContractEndpoints(_, row, single) =>
      && c' == c.(owner := c'.owner, counterparty := c'.counterparty, endpointShift := c'.endpointShift,
                  endpointProposals := c'.endpointProposals)
      && Accepts(c.endpointProposals, c'.endpointProposals, row, q.actor, single, now)
      && EndpointsMoved(parts, c, c', c.endpointProposals[row].change, now)
    case ProposeContractDeletion(_, rationale) =>
      && c' == c.(deletionProposals := c'.deletionProposals)
      && Files(c.deletionProposals, c'.deletionProposals, (), rationale, q.actor, now)
    case AcceptContractDeletion(_, row, single) =>
      && c' == c.(deleted := c'.deleted, deletionProposals := c'.deletionProposals)
      && Accepts(c.deletionProposals, c'.deletionProposals, row, q.actor, single, now)
      && c'.deleted == Some(Deletion(now, c.deletionProposals[row].proposer, q.actor,
           c.deletionProposals[row].rationale, single))
    case ContractBody(_, body) => c' == c.(log := c'.log) && BodyWritten(c.log, c'.log, body, q.actor, now)
  }

  // The change holds the present endpoints' names and, side by side, the parts that were named.
  ghost predicate ChangeAsked(parts: seq<Part>, c: Contract, newOwner: Option<string>, newCounterparty: Option<string>,
                              change: EndpointChange)
  {
    && c.owner < |parts| && change.currentOwner == parts[c.owner].name
    && c.counterparty < |parts| && change.currentCounterparty == parts[c.counterparty].name
    && Stores(parts, newOwner, change.owner) && Stores(parts, newCounterparty, change.counterparty)
  }

  // A side that is named moves and leaves its old part's name behind; the other side stays.
  ghost predicate EndpointsMoved(parts: seq<Part>, c: Contract, c': Contract, change: EndpointChange, now: Time) {
    && c.owner < |parts| && c.counterparty < |parts| && c'.endpointShift.Some?
    && var columns := c'.endpointShift.value;
    && columns.at == now
    && SideMoved(parts[c.owner].name, change.owner, c.owner, c'.owner, columns.fromOwner)
    && SideMoved(parts[c.counterparty].name, change.counterparty, c.counterparty, c'.counterparty,
         columns.fromCounterparty)
  }

  ghost predicate SideMoved(oldName: string, side: Option<nat>, was: nat, now: nat, from: Option<string>) {
    match side
    case None => now == was && from.None?
    case Some(target) => now == target && from == Some(oldName)
  }

  /** Everything a committed request writes. */
  ghost predicate Writes(s: Db, q: Request, s': Db) {
    var now := s.clock + 1;
    if OnPart(q.op) then exists i: nat :: PartChanged(s, q, s', i)
    else if OnContract(q.op) then ContractChanged(s, q, s')
    else match q.op
      case RegisterPart(name, subtype, aliases, markdown, version) =>
        s' == s.(clock := now, parts := s.parts + [Part(name, subtype, aliases, now, None, None, None,
                   [PartVersion(version, markdown, now)], [], [], [])])
      case AcceptPartDeletion(_, row, _, cascade) =>
        exists i: nat :: MayDelete(s, q, i) && PartDropped(s, s', i, row, q.actor, cascade)
      case RegisterContract(_, _, _, _, _) =>
        exists a: nat, b: nat :: MayRegisterContract(s, q, a, b) && ContractAdded(s, q, s', a, b)
      case TemplateBody(kind, body) =>
        && kind in s.templates && kind in s'.templates
        && BodyWritten(s.templates[kind], s'.templates[kind], body, q.actor, now)
        && s' == s.(clock := now, templates := s.templates[kind := s'.templates[kind]])
      case RegisterAgent(agent) => s' == s.(clock := now, agents := s.agents + [AgentRow(agent, q.actor, now, None)])
      case RevokeAgent(agent, rationale) => exists k: nat :: AgentEnded(s, s', k, agent, q.actor, rationale)
  }

  ghost predicate ContractAdded(s: Db, q: Request, s': Db, owner: nat, counterparty: nat)
    requires q.op.RegisterContract?
  {
    var now := s.clock + 1;
    s' == s.(clock := now, contracts := s.contracts + [Contract(owner, counterparty, q.op.shape, now, None, None, None,
               [VersionRow(q.op.version, q.op.markdown, true, now, None, None, None, None, false)], [], [], [])])
  }

  ghost predicate PartChanged(s: Db, q: Request, s': Db, i: nat)
    requires OnPart(q.op)
  {
    && OnlyLive(s.parts, q.op.name, i) && OnlyPartChanges(s, s', i)
    && PartWritten(s.parts[i], s'.parts[i], q, s.clock + 1)
  }

  ghost predicate ContractChanged(s: Db, q: Request, s': Db)
    requires OnContract(q.op)
  {
    && OnlyContractChanges(s, s', q.op.contract)
    && ContractWritten(s.parts, s.contracts[q.op.contract], s'.contracts[q.op.contract], q, s.clock + 1)
  }

  // Part i and, when cascading, exactly the live contracts that touch it are deleted.
  ghost predicate PartDropped(s: Db, s': Db, i: nat, row: nat, actor: Option<Actor>, cascade: bool) {
    && i < |s.parts| && row < |s.parts[i].deletionProposals|
    && |s'.parts| == |s.parts| && |s'.contracts| == |s.contracts|
    && s' == s.(parts := s'.parts, contracts := s'.contracts, clock := s.clock + 1)
    && s'.parts[i] == Deleted(s.parts[i], row, actor, cascade, s'.clock)
    && (forall n | 0 <= n < |s.parts| && n != i :: s'.parts[n] == s.parts[n])
    && forall j | 0 <= j < |s.contracts| ::
         s'.contracts[j] == Dropped(s.contracts[j], i, cascade, CascadeDeletion(s.parts[i], row, actor, s'.clock))
  }

  // The live row of the agent is ended by the caller.
  ghost predicate AgentEnded(s: Db, s': Db, k: nat, agent: Actor, actor: Option<Actor>, rationale: string) {
    && k < |s.agents| && s.agents[k].actor == agent && s.agents[k].revoked.None?
    && |s'.agents| == |s.agents| && s' == s.(agents := s'.agents, clock := s.clock + 1)
    && s'.agents[k] == s.agents[k].(revoked := Some(Revocation(s'.clock, actor, rationale)))
    && forall n | 0 <= n < |s.agents| && n != k :: s'.agents[n] == s.agents[n]
  }

  // ---------- Parts ----------

  // The lookup finds row i exactly when i is the only row with the name, and live.
  lemma FoundIff(s: Db, name: string, i: nat)
    ensures FindPart(s, name) == Ok(i) <==> OnlyLive(s.parts, name, i)
  {
  }

  lemma LatestIsAbove(vs: seq<PartVersion>, clock: Time, v: Version)
    requires VersionsOk(vs, clock)
    ensures LatestPartVersion(vs).Some?
    ensures Less(LatestPartVersion(vs).value.version, v) <==> forall x | x in vs :: Less(x.version, v)
  {
    hide Less;
    LatestIsLast(vs, clock);
    var last := vs[|vs| - 1];
    assert last in vs;
    forall x | x in vs && Less(last.version, v) ensures Less(x.version, v) {
      OrderIsStrictTotal(x.version, last.version, v);
    }
  }

  // The move a request on part i becomes.
  function MoveOf(op: Op): PartMove
    requires OnPart(op)
  {
    match op
    case UpdatePart(_, version, markdown, aliases) => AddVersion(version, markdown, aliases)
    case ProposePartSubtype(_, subtype, rationale) => ProposeSubtype(subtype, rationale)
    case AcceptPartSubtype(_, row, single) => AcceptSubtype(row, single)
    case ProposePartName(_, newName, rationale) => ProposeName(newName, rationale)
    case AcceptPartName(_, row, single) => AcceptName(row, single)
    case ProposePartDeletion(_, rationale) => PartMove.ProposePartDeletion(rationale)
  }

  lemma PartDecidedIff(s: Db, q: Request, i: nat)
    requires Inv(s) && OnPart(q.op)
    ensures MayOnPart(s, q, i) <==> Decide(s, q) == Ok(SetPart(i, MoveOf(q.op)))
  {
    hide FindPart; hide OnlyLive; hide Constraints; hide LatestPartVersion; hide Less; hide IsSlug; hide AliasesOk;
    hide Enabled;
    FoundIff(s, q.op.name, i);
    if FindPart(s, q.op.name) == Ok(i) && q.op.UpdatePart? {
      assert PartOk(s.parts[i], s.clock);
      LatestIsAbove(s.parts[i].versions, s.clock, q.op.version);
    }
  }

  lemma PartMoveWrites(p: Part, q: Request, now: Time)
    requires OnPart(q.op) && PartMoveEnabled(p, MoveOf(q.op), q.actor)
    ensures PartWritten(p, MovePart(p, MoveOf(q.op), q.actor, now), q, now)
  {
    hide LatestPartVersion; hide Less; hide IsSlug;
  }

  // A decision that commits is seen in the tables.
  lemma DecidedCommits(s: Db, q: Request)
    requires Inv(s) && Decide(s, q).Ok? && !ShapeCollides(s, Decide(s, q).value)
    ensures After(s, q) == Apply(s, Decide(s, q).value, q.actor) && After(s, q) != s
  {
    hide Inv; hide Decide; hide Apply; hide Enabled; hide Constraints; hide ShapeCollides;
    Committed(s, q);
    TableSizes(s, Decide(s, q).value, q.actor);
  }

  lemma RefusedStays(s: Db, q: Request)
    requires Decide(s, q).Refused?
    ensures After(s, q) == s
  {
    hide Decide;
  }

  lemma SetPartWrites(s: Db, q: Request, i: nat)
    requires OnPart(q.op) && Enabled(s, SetPart(i, MoveOf(q.op)), q.actor) && OnlyLive(s.parts, q.op.name, i)
    ensures PartChanged(s, q, Apply(s, SetPart(i, MoveOf(q.op)), q.actor), i)
  {
    hide PartMoveEnabled; hide MovePart; hide PartWritten; hide NameTaken; hide OnlyLive; hide MoveOf;
    PartMoveWrites(s.parts[i], q, s.clock + 1);
  }

  lemma PartAnswered(s: Db, q: Request)
    requires Inv(s) && OnPart(q.op)
    ensures After(s, q) != s <==> May(s, q)
    ensures May(s, q) ==> Writes(s, q, After(s, q))
  {
    hide Inv; hide After; hide Decide; hide Apply; hide Enabled; hide PartChanged; hide MayChangePart; hide MoveOf;
    hide OnlyLive;
    if Decide(s, q).Ok? {
      var i := DecidedPart(s, q);
      PartDecidedIff(s, q, i);
      DecidedCommits(s, q);
      SetPartWrites(s, q, i);
    } else {
      RefusedStays(s, q);
      forall i: nat ensures !MayOnPart(s, q, i) { PartDecidedIff(s, q, i); }
    }
  }

  lemma DecidedPart(s: Db, q: Request) returns (i: nat)
    requires OnPart(q.op) && Decide(s, q).Ok?
    ensures Decide(s, q) == Ok(SetPart(i, MoveOf(q.op))) && Enabled(s, SetPart(i, MoveOf(q.op)), q.actor)
  {
    hide FindPart; hide LatestPartVersion; hide Less; hide IsSlug; hide AliasesOk; hide Enabled; hide CheckAcceptable;
    i := Decide(s, q).value.part;
  }

  // ---------- Contracts ----------

  lemma FreeEdgeIff(contracts: seq<Contract>, owner: nat, counterparty: nat, shape: Shape, except: Option<nat>)
    ensures FreeEdge(contracts, owner, counterparty, shape, except)
            <==> !EdgeTaken(contracts, owner, counterparty, shape, except)
  {
  }

  lemma RulesIff(s: Db, shape: Shape, owner: nat, counterparty: nat)
    requires owner < |s.parts| && counterparty < |s.parts|
    ensures MayJoin(s.parts, shape, owner, counterparty) <==> RegistrationRule(s, shape, owner, counterparty).None?
    ensures MayJoin(s.parts, shape, owner, counterparty) <==> ShapeRule(s, shape, owner, counterparty).None?
    ensures MayJoin(s.parts, shape, owner, counterparty) <==> EndpointRule(s, shape, owner, counterparty).None?
  {
    hide RuleHolds; hide CheckRegistration; hide CheckShapeShift; hide CheckEndpointShift;
    ChecksAgree(ConnectionRules, shape.subtype, shape.connectionType, s.parts[owner].subtype,
        s.parts[counterparty].subtype);
  }

  lemma LogWriteIff(log: Log, body: BodyMove, actor: Option<Actor>, now: Time)
    requires LogChecks(log)
    ensures MoveLog(log, body, actor, now).Ok? <==> MayWriteBody(log, body, actor)
    ensures MoveLog(log, body, actor, now).Ok? ==> PayloadParses(body)
  {
    hide Less;
    match body
    case ProposeBody(v, markdown) => ProposeIff(log, v, markdown, actor, now);
    case AcceptBody(target, single) => AcceptIff(log, target, actor, single, now);
  }

  lemma ProposeIff(log: Log, v: Version, markdown: string, actor: Option<Actor>, now: Time)
    ensures Propose(log, v, markdown, actor, now).Ok? <==> forall r | r in log :: Less(r.version, v)
  {
    hide Less; hide LatestAny;
    var latest := LatestAny(log);
    if latest.Some? {
      var k := LatestAnyRow(log);
      assert log[k] in log;
      forall r | r in log && Less(latest.value, v) ensures Less(r.version, v) {
        var i :| 0 <= i < |log| && log[i] == r;
        OrderIsStrictTotal(latest.value, r.version, v);
        OrderIsStrictTotal(r.version, latest.value, v);
      }
    }
  }

  lemma LatestAnyRow(log: Log) returns (k: nat)
    requires LatestAny(log).Some?
    ensures k < |log| && log[k].version == LatestAny(log).value
  {
    var n := |log| - 1;
    if LatestAny(log).value == log[n].version {
      k := n;
    } else {
      k := LatestAnyRow(log[..n]);
    }
  }

  lemma AcceptIff(log: Log, target: Version, actor: Option<Actor>, single: bool, now: Time)
    requires LogChecks(log)
    ensures AcceptVersion(log, target, actor, single, now).Ok?
            <==> exists i: nat :: MayAcceptBody(log, i, target, actor, single)
  {
    var found := FindExact(log, target);
    var stable := FindExact(log, target.Stable());
    hide FindExact;
    assert stable.None? <==> forall r | r in log :: r.version != target.Stable();
    if found.Some? {
      assert forall i: nat | i < |log| && log[i].version == target :: i == found.value;
      assert MayAcceptBody(log, found.value, target, actor, single)
             <==> AcceptVersion(log, target, actor, single, now).Ok?;
    }
  }

  lemma LogWrites(log: Log, body: BodyMove, actor: Option<Actor>, now: Time)
    requires LogChecks(log) && MoveLog(log, body, actor, now).Ok?
    ensures BodyWritten(log, MoveLog(log, body, actor, now).value, body, actor, now)
  {
    if body.AcceptBody? {
      var i := FindExact(log, body.target).value;
      assert BodyAccepted(log, MoveLog(log, body, actor, now).value, i, body.target, actor, body.single, now);
    }
  }

  // The requests on a contract whose effect is read off the request; endpoint proposals look names up.
  predicate Direct(op: Op) {
    OnContract(op) && !op.ProposeContractEndpoints? && !op.AcceptContractEndpoints?
  }

  function ContractMoveOf(op: Op): ContractMove
    requires Direct(op)
  {
    match op
    case ProposeContractShape(_, shape, rationale) => ProposeShape(shape, rationale)
    case AcceptContractShape(_, row, single) => AcceptShape(row, single)
    case ProposeContractDeletion(_, rationale) => ProposeDeletion(rationale)
    case AcceptContractDeletion(_, row, single) => AcceptDeletion(row, single)
    case ContractBody(_, body) => MoveBody(body)
  }

  lemma DirectDecided(s: Db, q: Request)
    requires Direct(q.op) && Decide(s, q).Ok?
    ensures Decide(s, q) == Ok(SetContract(q.op.contract, ContractMoveOf(q.op)))
    ensures Enabled(s, SetContract(q.op.contract, ContractMoveOf(q.op)), q.actor)
  {
    hide Enabled; hide CheckAcceptable; hide MoveLog; hide ShapeRule;
  }

  lemma ShapeProposalIff(s: Db, q: Request)
    requires Inv(s) && q.op.ProposeContractShape?
    ensures MayOnContract(s, q) <==> Decide(s, q).Ok?
  {
    hide Constraints; hide ShapeRule; hide MayJoin; hide LogOk; hide Enabled;
    var j := q.op.contract;
    if j < |s.contracts| {
      var c := s.contracts[j];
      assert ContractOk(c, |s.parts|, s.clock);
      RulesIff(s, q.op.shape, c.owner, c.counterparty);
    }
  }

  lemma ShapeAcceptIff(s: Db, q: Request)
    requires Inv(s) && q.op.AcceptContractShape?
    ensures MayOnContract(s, q) <==> Decide(s, q).Ok? && !ShapeCollides(s, Decide(s, q).value)
  {
    hide Constraints; hide ShapeRule; hide MayJoin; hide EdgeTaken; hide FreeEdge; hide LogOk; hide Enabled;
    var j, row := q.op.contract, q.op.row;
    if j < |s.contracts| && row < |s.contracts[j].shapeProposals| {
      var c := s.contracts[j];
      var target := c.shapeProposals[row].change.target;
      assert ContractOk(c, |s.parts|, s.clock);
      RulesIff(s, target, c.owner, c.counterparty);
      FreeEdgeIff(s.contracts, c.owner, c.counterparty, target, Some(j));
    }
  }

  lemma BodyRequestIff(s: Db, q: Request)
    requires Inv(s) && q.op.ContractBody?
    ensures MayOnContract(s, q) <==> Decide(s, q).Ok?
  {
    hide RowsSound; hide LogChecks; hide MoveLog; hide MayWriteBody; hide Enabled; hide NamesUnique; hide EdgesUnique;
    hide AgentsUnique; hide PartRowChecks;
    var j := q.op.contract;
    if j < |s.contracts| {
      assert ContractRowChecks(s.contracts[j]);
      LogWriteIff(s.contracts[j].log, q.op.body, q.actor, s.clock + 1);
    }
  }

  lemma ContractDeletionIff(s: Db, q: Request)
    requires q.op.ProposeContractDeletion? || q.op.AcceptContractDeletion?
    ensures MayOnContract(s, q) <==> Decide(s, q).Ok?
  {
    hide Enabled;
  }

  lemma DirectDecidedIff(s: Db, q: Request)
    requires Inv(s) && Direct(q.op)
    ensures MayOnContract(s, q) <==> Decide(s, q).Ok? && !ShapeCollides(s, Decide(s, q).value)
  {
    hide Inv; hide Decide; hide MayOnContract; hide Enabled;
    match q.op {
      case AcceptContractShape(_, _, _) => ShapeAcceptIff(s, q);
      case ProposeContractShape(_, _, _) => ShapeProposalIff(s, q);
      case ContractBody(_, _) => BodyRequestIff(s, q);
      case _ => ContractDeletionIff(s, q);
    }
    if Decide(s, q).Ok? { DirectDecided(s, q); }
  }

  // ---------- Endpoint shifts ----------

  predicate SlugSide(name: Option<string>) { name.Some? ==> IsSlug(name.value) }

  lemma LiveNameIsOne(parts: seq<Part>, name: string)
    requires NamesUnique(parts)
    ensures forall i: nat :: LiveNamed(parts, name, i) <==> FindLive(parts, name) == Some(i)
  {
    var r := FindLive(parts, name);
    hide FindLive;
  }

  // The part a named side resolves to is the one it leads to.
  lemma SideResolves(s: Db, name: Option<string>, present: nat)
    requires NamesUnique(s.parts) && SlugSide(name)
    ensures forall t: nat :: LeadsTo(s.parts, name, present, t)
              <==> ResolveSide(s, name).Ok? && t == ResolveSide(s, name).value.GetOr(present)
    ensures ResolveSide(s, name).Ok? ==> Stores(s.parts, name, ResolveSide(s, name).value)
  {
    hide FindLive; hide IsSlug;
    if name.Some? { LiveNameIsOne(s.parts, name.value); }
  }

  lemma MoveIff(s: Db, j: nat, c: Contract, change: EndpointChange)
    requires ChangeInRange(change, |s.parts|) && c.owner < |s.parts| && c.counterparty < |s.parts|
    ensures var owner, counterparty := TargetOwner(c, change), TargetCounterparty(c, change);
            MayMove(s, j, c, owner, counterparty) <==>
            (&& CheckTargets(c, change).None? && EndpointRule(s, c.shape, owner, counterparty).None?
             && !EdgeTaken(s.contracts, owner, counterparty, c.shape, Some(j)))
  {
    hide EndpointRule; hide EdgeTaken; hide FreeEdge; hide MayJoin;
    RulesIff(s, c.shape, TargetOwner(c, change), TargetCounterparty(c, change));
    FreeEdgeIff(s.contracts, TargetOwner(c, change), TargetCounterparty(c, change), c.shape, Some(j));
  }

  // The change an endpoint proposal stores.
  function ChangeOf(s: Db, c: Contract, op: Op): Option<EndpointChange>
    requires op.ProposeContractEndpoints? && EndpointsExist(s, c)
  {
    var owner, counterparty := ResolveSide(s, op.newOwner), ResolveSide(s, op.newCounterparty);
    if owner.Ok? && counterparty.Ok?
    then Some(EndpointChange(s.parts[c.owner].name, s.parts[c.counterparty].name, owner.value, counterparty.value))
    else None
  }

  lemma ShiftIff(s: Db, q: Request)
    requires Inv(s) && q.op.ProposeContractEndpoints? && q.op.contract < |s.contracts|
    requires var c := s.contracts[q.op.contract]; EndpointsExist(s, c)
    ensures var j, c := q.op.contract, s.contracts[q.op.contract];
            (exists owner: nat, counterparty: nat ::
               MayShift(s, j, c, q.op.newOwner, q.op.newCounterparty, owner, counterparty))
            <==> SlugSide(q.op.newOwner) && SlugSide(q.op.newCounterparty) && ChangeOf(s, c, q.op).Some?
                 && var change := ChangeOf(s, c, q.op).value;
                 MayMove(s, j, c, TargetOwner(c, change), TargetCounterparty(c, change))
  {
    hide Inv; hide IsSlug; hide FindLive; hide ResolveSide; hide MayMove; hide LeadsTo;
    var j, c := q.op.contract, s.contracts[q.op.contract];
    assert NamesUnique(s.parts) by { UniqueNames(s); }
    NotSlugLeadsNowhere(s.parts, q.op.newOwner, c.owner);
    NotSlugLeadsNowhere(s.parts, q.op.newCounterparty, c.counterparty);
    if SlugSide(q.op.newOwner) && SlugSide(q.op.newCounterparty) {
      SideResolves(s, q.op.newOwner, c.owner);
      SideResolves(s, q.op.newCounterparty, c.counterparty);
      if ChangeOf(s, c, q.op).Some? {
        var change := ChangeOf(s, c, q.op).value;
        assert MayMove(s, j, c, TargetOwner(c, change), TargetCounterparty(c, change)) ==>
            MayShift(s, j, c, q.op.newOwner, q.op.newCounterparty, TargetOwner(c, change),
              TargetCounterparty(c, change));
      }
    }
  }

  lemma UniqueNames(s: Db)
    requires Inv(s)
    ensures NamesUnique(s.parts)
  {
  }

  lemma NotSlugLeadsNowhere(parts: seq<Part>, name: Option<string>, present: nat)
    ensures !SlugSide(name) ==> forall t: nat :: !LeadsTo(parts, name, present, t)
  {
    hide IsSlug;
  }

  lemma ShiftDecidedIff(s: Db, q: Request)
    requires Inv(s) && q.op.ProposeContractEndpoints?
    ensures Decide(s, q).Ok? <==> MayOnContract(s, q)
    ensures Decide(s, q).Ok? ==>
              && q.op.contract < |s.contracts| && EndpointsExist(s, s.contracts[q.op.contract])
              && ChangeOf(s, s.contracts[q.op.contract], q.op).Some?
              && Decide(s, q).value == SetContract(q.op.contract,
                   ProposeEndpoints(ChangeOf(s, s.contracts[q.op.contract], q.op).value, q.op.rationale))
  {
    hide Constraints; hide IsSlug; hide ResolveSide; hide EndpointRule; hide EdgeTaken; hide Enabled; hide LogOk;
    hide CheckTargets; hide MayMove; hide MayShift;
    var j := q.op.contract;
    if j < |s.contracts| {
      var c := s.contracts[j];
      assert ContractOk(c, |s.parts|, s.clock);
      ShiftIff(s, q);
      if ChangeOf(s, c, q.op).Some? { MoveIff(s, j, c, ChangeOf(s, c, q.op).value); }
    }
  }

  lemma MoveDecidedIff(s: Db, q: Request)
    requires Inv(s) && q.op.AcceptContractEndpoints?
    ensures Decide(s, q).Ok? <==> MayOnContract(s, q)
    ensures Decide(s, q).Ok? ==>
              && q.op.contract < |s.contracts| && EndpointsExist(s, s.contracts[q.op.contract])
              && var c := s.contracts[q.op.contract];
              && Decide(s, q).value == SetContract(q.op.contract,
                   AcceptEndpoints(q.op.row, q.op.single, s.parts[c.owner].name, s.parts[c.counterparty].name))
  {
    hide Constraints; hide EndpointRule; hide EdgeTaken; hide Enabled; hide LogOk; hide CheckTargets; hide MayMove;
    var j := q.op.contract;
    if j < |s.contracts| {
      var c := s.contracts[j];
      assert ContractOk(c, |s.parts|, s.clock);
      if q.op.row < |c.endpointProposals| { MoveIff(s, j, c, c.endpointProposals[q.op.row].change); }
    }
  }

  lemma DirectWrites(parts: seq<Part>, c: Contract, q: Request, now: Time)
    requires Direct(q.op) && LogChecks(c.log) && ContractMoveEnabled(c, ContractMoveOf(q.op), q.actor, now)
    ensures ContractWritten(parts, c, MoveContract(c, ContractMoveOf(q.op), q.actor, now), q, now)
  {
    hide MoveLog; hide LogChecks; hide BodyWritten;
    if q.op.ContractBody? { LogWrites(c.log, q.op.body, q.actor, now); }
  }

  lemma ShiftWrites(s: Db, c: Contract, q: Request, now: Time)
    requires NamesUnique(s.parts) && q.op.ProposeContractEndpoints? && EndpointsExist(s, c)
    requires SlugSide(q.op.newOwner) && SlugSide(q.op.newCounterparty) && ChangeOf(s, c, q.op).Some?
    requires var m := ProposeEndpoints(ChangeOf(s, c, q.op).value, q.op.rationale);
             ContractMoveEnabled(c, m, q.actor, now)
    ensures var m := ProposeEndpoints(ChangeOf(s, c, q.op).value, q.op.rationale);
            ContractWritten(s.parts, c, MoveContract(c, m, q.actor, now), q, now)
  {
    hide CheckTargets; hide ResolveSide; hide Stores; hide IsSlug;
    SideResolves(s, q.op.newOwner, c.owner);
    SideResolves(s, q.op.newCounterparty, c.counterparty);
    assert ChangeAsked(s.parts, c, q.op.newOwner, q.op.newCounterparty, ChangeOf(s, c, q.op).value);
  }

  lemma MoveWritten(s: Db, c: Contract, q: Request, now: Time)
    requires q.op.AcceptContractEndpoints? && EndpointsExist(s, c)
    requires var m := AcceptEndpoints(q.op.row, q.op.single, s.parts[c.owner].name, s.parts[c.counterparty].name);
             ContractMoveEnabled(c, m, q.actor, now)
    ensures var m := AcceptEndpoints(q.op.row, q.op.single, s.parts[c.owner].name, s.parts[c.counterparty].name);
            ContractWritten(s.parts, c, MoveContract(c, m, q.actor, now), q, now)
  {
    hide CheckTargets;
  }

  lemma SetContractWrites(s: Db, q: Request, m: ContractMove)
    requires OnContract(q.op) && Enabled(s, SetContract(q.op.contract, m), q.actor)
    requires ContractWritten(s.parts, s.contracts[q.op.contract],
                 MoveContract(s.contracts[q.op.contract], m, q.actor, s.clock + 1), q, s.clock + 1)
    ensures ContractChanged(s, q, Apply(s, SetContract(q.op.contract, m), q.actor))
  {
    hide ContractMoveEnabled; hide MoveContract; hide ContractWritten; hide ShapeRule; hide EndpointRule;
    hide EdgeTaken;
  }

  lemma MoveIsEnabled(s: Db, q: Request, j: nat, m: ContractMove)
    requires Inv(s) && Decide(s, q) == Ok(SetContract(j, m))
    ensures j < |s.contracts| && ContractMoveEnabled(s.contracts[j], m, q.actor, s.clock + 1)
    ensures m.AcceptShape? ==> m.row < |s.contracts[j].shapeProposals|
    ensures Enabled(s, SetContract(j, m), q.actor) && LogChecks(s.contracts[j].log) && NamesUnique(s.parts)
  {
    hide Decide; hide LogChecks; hide MoveLog; hide CheckTargets;
    assert ContractRowChecks(s.contracts[j]);
  }

  lemma ContractAnswered(s: Db, q: Request)
    requires Inv(s) && OnContract(q.op)
    ensures After(s, q) != s <==> May(s, q)
    ensures May(s, q) ==> Writes(s, q, After(s, q))
  {
    hide Inv; hide After; hide Decide; hide Apply; hide Enabled; hide MayChangeContract; hide ContractWritten;
    hide ShapeCollides; hide MoveContract; hide ContractMoveEnabled; hide LogChecks; hide ResolveSide;
    if Decide(s, q).Refused? {
      RefusedStays(s, q);
    }
    if Direct(q.op) {
      DirectDecidedIff(s, q);
      if Decide(s, q).Ok? { DirectDecided(s, q); }
    } else if q.op.ProposeContractEndpoints? {
      ShiftDecidedIff(s, q);
    } else {
      MoveDecidedIff(s, q);
    }
    if Decide(s, q).Ok? {
      var j, m := q.op.contract, Decide(s, q).value.contractMove;
      MoveIsEnabled(s, q, j, m);
      var c := s.contracts[j];
      if !Direct(q.op) { NoCollision(s, q, m); }
      if ShapeCollides(s, Decide(s, q).value) {
        CollisionStays(s, q);
      } else {
        DecidedCommits(s, q);
        if Direct(q.op) {
          DirectWrites(s.parts, c, q, s.clock + 1);
        } else if q.op.ProposeContractEndpoints? {
          ShiftSlugs(s, q);
          ShiftWrites(s, c, q, s.clock + 1);
        } else {
          MoveWritten(s, c, q, s.clock + 1);
        }
        SetContractWrites(s, q, m);
      }
    }
  }

  lemma NoCollision(s: Db, q: Request, m: ContractMove)
    requires OnContract(q.op) && Decide(s, q) == Ok(SetContract(q.op.contract, m))
    requires m.ProposeEndpoints? || m.AcceptEndpoints?
    ensures !ShapeCollides(s, Decide(s, q).value)
  {
    hide Decide;
  }

  lemma CollisionStays(s: Db, q: Request)
    requires Inv(s) && Decide(s, q).Ok? && ShapeCollides(s, Decide(s, q).value)
    ensures After(s, q) == s
  {
    hide Inv; hide Decide; hide Constraints; hide ShapeCollides;
    Committed(s, q);
  }

  lemma ShiftSlugs(s: Db, q: Request)
    requires q.op.ProposeContractEndpoints? && Decide(s, q).Ok?
    ensures SlugSide(q.op.newOwner) && SlugSide(q.op.newCounterparty)
  {
    hide IsSlug; hide Enabled; hide ResolveSide; hide EndpointRule; hide EdgeTaken; hide CheckTargets;
  }

  // ---------- Registrations, templates and agents ----------

  lemma FreeNameIff(parts: seq<Part>, name: string, except: Option<nat>)
    ensures FreeName(parts, name, except) <==> !NameTaken(parts, name, except)
  {
  }

  lemma RegisterPartAnswered(s: Db, q: Request)
    requires Inv(s) && q.op.RegisterPart?
    ensures After(s, q) != s <==> May(s, q)
    ensures May(s, q) ==> Writes(s, q, After(s, q))
  {
    hide Inv; hide After; hide IsSlug; hide AliasesOk; hide NameTaken; hide FreeName;
    FreeNameIff(s.parts, q.op.name, None);
    if Decide(s, q).Ok? { DecidedCommits(s, q); } else { RefusedStays(s, q); }
  }

  lemma RegisterContractAnswered(s: Db, q: Request)
    requires Inv(s) && q.op.RegisterContract?
    ensures After(s, q) != s <==> May(s, q)
    ensures May(s, q) ==> Writes(s, q, After(s, q))
  {
    hide Inv; hide After; hide IsSlug; hide FindLive; hide RegistrationRule; hide EdgeTaken; hide FreeEdge;
    hide MayJoin; hide LiveNamed; hide ContractAdded; hide Enabled; hide Apply;
    UniqueNames(s);
    LiveNameIsOne(s.parts, q.op.ownerName);
    LiveNameIsOne(s.parts, q.op.counterpartyName);
    var owner, counterparty := FindLive(s.parts, q.op.ownerName), FindLive(s.parts, q.op.counterpartyName);
    if owner.Some? && counterparty.Some? {
      var a, b := owner.value, counterparty.value;
      RulesIff(s, q.op.shape, a, b);
      FreeEdgeIff(s.contracts, a, b, q.op.shape, None);
      assert MayRegisterContract(s, q, a, b) <==> Decide(s, q).Ok?;
      if Decide(s, q).Ok? {
        DecidedCommits(s, q);
        AddContractWrites(s, q, a, b);
      }
    }
    if Decide(s, q).Refused? { RefusedStays(s, q); }
  }

  lemma AddContractWrites(s: Db, q: Request, a: nat, b: nat)
    requires q.op.RegisterContract?
    requires Enabled(s, AddContract(a, b, q.op.shape, q.op.markdown, q.op.version), q.actor)
    ensures ContractAdded(s, q, Apply(s, AddContract(a, b, q.op.shape, q.op.markdown, q.op.version), q.actor), a, b)
  {
    hide Enabled;
  }

  lemma TemplateAnswered(s: Db, q: Request)
    requires Inv(s) && q.op.TemplateBody?
    ensures After(s, q) != s <==> May(s, q)
    ensures May(s, q) ==> Writes(s, q, After(s, q))
  {
    hide RowsSound; hide NamesUnique; hide EdgesUnique; hide AgentsUnique; hide After; hide MoveLog; hide MayWriteBody;
    hide BodyWritten; hide LogChecks; hide PartRowChecks; hide ContractRowChecks;
    if q.op.kind in s.templates {
      var log := s.templates[q.op.kind];
      assert LogChecks(log);
      LogWriteIff(log, q.op.body, q.actor, s.clock + 1);
      if MoveLog(log, q.op.body, q.actor, s.clock + 1).Ok? { LogWrites(log, q.op.body, q.actor, s.clock + 1); }
    }
    if Decide(s, q).Ok? { DecidedCommits(s, q); } else { RefusedStays(s, q); }
  }

  lemma RegisterAgentAnswered(s: Db, q: Request)
    requires Inv(s) && q.op.RegisterAgent?
    ensures After(s, q) != s <==> May(s, q)
    ensures May(s, q) ==> Writes(s, q, After(s, q))
  {
    hide Inv; hide After; hide IsSlug; hide IsAgent;
    if Decide(s, q).Ok? { DecidedCommits(s, q); } else { RefusedStays(s, q); }
  }

  lemma RevokeAgentAnswered(s: Db, q: Request)
    requires Inv(s) && q.op.RevokeAgent?
    ensures After(s, q) != s <==> May(s, q)
    ensures May(s, q) ==> Writes(s, q, After(s, q))
  {
    hide Inv; hide After; hide IsAgent; hide FindAgent; hide AgentEnded; hide Apply; hide Enabled;
    if Decide(s, q).Ok? {
      DecidedCommits(s, q);
      EndsAgent(s, q);
    } else {
      RefusedStays(s, q);
    }
  }

  lemma EndsAgent(s: Db, q: Request)
    requires q.op.RevokeAgent? && Decide(s, q).Ok?
    ensures exists k: nat ::
              AgentEnded(s, Apply(s, Decide(s, q).value, q.actor), k, q.op.agent, q.actor, q.op.rationale)
  {
    hide IsAgent; hide FindAgent;
    var k := FindAgent(s.agents, q.op.agent).value;
    assert AgentEnded(s, Apply(s, Decide(s, q).value, q.actor), k, q.op.agent, q.actor, q.op.rationale);
  }

  lemma PartDeletionAnswered(s: Db, q: Request)
    requires Inv(s) && q.op.AcceptPartDeletion?
    ensures After(s, q) != s <==> May(s, q)
    ensures May(s, q) ==> Writes(s, q, After(s, q))
  {
    hide Inv; hide After; hide Decide; hide MayDelete; hide CascadeDeletion; hide Deleted; hide Dropped;
    PartDeletionAcceptedIff(s, q);
    if After(s, q) != s {
      PartDeletionIsExact(s, q);
      var i: nat :| MayDelete(s, q, i);
      MayDeleteNames(s, q, i);
      AfterIs(s, q);
      assert PartDropped(s, After(s, q), i, q.op.row, q.actor, q.op.cascade) by {
        TableSizes(s, Decide(s, q).value, q.actor);
      }
    }
  }

  lemma MayDeleteNames(s: Db, q: Request, i: nat)
    requires q.op.AcceptPartDeletion? && MayDelete(s, q, i)
    ensures i < |s.parts| && s.parts[i].name == q.op.name
    ensures forall n: nat | n < |s.parts| && s.parts[n].name == q.op.name :: n == i
  {
  }

  // ---------- Every request ----------

  /** A request changes the catalog if and only if it may, and then exactly the rows it writes differ
      from before. */
  lemma AnsweredIff(s: Db, q: Request)
    requires Inv(s)
    ensures After(s, q) != s <==> May(s, q)
    ensures May(s, q) ==> Writes(s, q, After(s, q))
  {
    hide Inv; hide After; hide May; hide Writes;
    if OnPart(q.op) {
      PartAnswered(s, q);
    } else if OnContract(q.op) {
      ContractAnswered(s, q);
    } else {
      match q.op
      case RegisterPart(_, _, _, _, _) => RegisterPartAnswered(s, q);
      case AcceptPartDeletion(_, _, _, _) => PartDeletionAnswered(s, q);
      case RegisterContract(_, _, _, _, _) => RegisterContractAnswered(s, q);
      case TemplateBody(_, _) => TemplateAnswered(s, q);
      case RegisterAgent(_) => RegisterAgentAnswered(s, q);
      case RevokeAgent(_, _) => RevokeAgentAnswered(s, q);
    }
  }
}
