/** The catalog as the endpoints see it: tables that the handlers check and assign in place. Each
    write method is one endpoint and refines one step of the state machine. */
module Catalog {
  import opened Common
  import opened Deletions
  import opened Graph
  import opened Handshake
  import opened History
  import opened Impact
  import opened Invariants
  import opened NamedHistory
  import opened OpenListing
  import opened Records
  import opened Rules
  import opened State
  import opened Timeline
  import opened Versioning
  import opened VersionLog

  datatype Reply = Accepted | Failed(why: Refusal)

  /** The reply and the tables after a request are those of the state machine's step. */
  ghost predicate Replies(pre: Db, q: Request, post: Db, r: Reply) {
    match Step(pre, q)
    case Done(s) => r.Accepted? && post == s
    case Rejected(why) => r == Failed(why) && post == pre
  }

  // What every reachable catalog satisfies.
  ghost predicate Sound(s: Db) {
    Inv(s) && DeletionsExplained(s)
  }

  lemma Commit(s: Db, q: Request, e: Effect, post: Db)
    requires Sound(s) && Decide(s, q) == Ok(e) && post == Apply(s, e, q.actor)
    requires !(e.SetContract? && e.contractMove.AcceptShape?)
    ensures Replies(s, q, post, Accepted) && Sound(post)
  {
    hide Decide; hide Apply; hide Enabled; hide Inv; hide Constraints; hide DeletionsExplained;
    Committed(s, q);
    EffectExplained(s, e, q.actor);
  }

  // The shift whose uniqueness only the index tests.
  lemma CommitShape(s: Db, q: Request, e: Effect, post: Db)
    requires Sound(s) && Decide(s, q) == Ok(e) && post == Apply(s, e, q.actor)
    ensures ShapeCollides(s, e) ==> Replies(s, q, s, Failed(ConstraintFailed))
    ensures !ShapeCollides(s, e) ==> Replies(s, q, post, Accepted) && Sound(post)
  {
    hide Decide; hide Apply; hide Enabled; hide Inv; hide Constraints; hide DeletionsExplained; hide ShapeCollides;
    Committed(s, q);
    EffectExplained(s, e, q.actor);
  }

  lemma EndpointAcceptDecision(s: Db, actor: Option<Actor>, contract: nat, row: nat, single: bool)
    ensures Decide(s, Request(actor, Op.AcceptContractEndpoints(contract, row, single)))
            == DecideAcceptContractEndpoints(s, contract, row, single, actor)
  {
    hide DecideAcceptContractEndpoints; hide Enabled;
  }

  lemma EndpointProposalDecision(s: Db, actor: Option<Actor>, contract: nat, owner: Option<string>,
                                 counterparty: Option<string>, rationale: string)
    ensures Decide(s, Request(actor, Op.ProposeContractEndpoints(contract, owner, counterparty, rationale)))
            == DecideProposeContractEndpoints(s, contract, owner, counterparty, rationale, actor)
  {
    hide DecideProposeContractEndpoints; hide Enabled;
  }

  lemma PartDeletionDecision(s: Db, actor: Option<Actor>, name: string, row: nat, single: bool, cascade: bool)
    ensures Decide(s, Request(actor, Op.AcceptPartDeletion(name, row, single, cascade)))
            == DecideAcceptPartDeletion(s, name, row, single, cascade, actor)
  {
    hide DecideAcceptPartDeletion; hide Enabled;
  }

  // The fields an accepted endpoint shift writes.
  lemma EndpointsWritten(s: Db, e: Effect, actor: Option<Actor>, c': Contract)
    requires Enabled(s, e, actor) && e.SetContract? && e.contractMove.AcceptEndpoints?
    requires var c, m := s.contracts[e.contract], e.contractMove;
             var change := c.endpointProposals[m.row].change;
             && c'.owner == TargetOwner(c, change) && c'.counterparty == TargetCounterparty(c, change)
             && c'.endpointShift == Some(EndpointShifted(if change.owner.Some? then Some(m.ownerName) else None,
                  if change.counterparty.Some? then Some(m.counterpartyName) else None, s.clock + 1))
             && c'.endpointProposals == Accept(c.endpointProposals, m.row,
                 Acceptance(s.clock + 1, actor, m.single, false))
             && c' == c.(owner := c'.owner, counterparty := c'.counterparty, endpointShift := c'.endpointShift,
                         endpointProposals := c'.endpointProposals)
    ensures Apply(s, e, actor) == s.(contracts := s.contracts[e.contract := c'], clock := s.clock + 1)
  {
    hide CheckAcceptable; hide CheckTargets; hide EndpointRule; hide EdgeTaken; hide MoveLog;
  }

  /** What the accept response calls the active version is the latest active one exactly when no
      greater version was active before. */
  ghost predicate ResponseIsLatestIff(before: Log, after: Log, answer: Version) {
    ActiveIs(after, answer) <==> !(LatestActive(before).Some? && Less(answer, LatestActive(before).value.version))
  }

  lemma BodyResponse(log: Log, body: BodyMove, actor: Option<Actor>, clock: Time)
    requires LogOk(log, clock) && MoveLog(log, body, actor, clock + 1).Ok?
    ensures body.AcceptBody? ==>
        ResponseIsLatestIff(log, MoveLog(log, body, actor, clock + 1).value, body.target.Stable())
  {
    if body.AcceptBody? {
      AcceptResponseIsLatestIff(log, body.target, actor, body.single, clock, clock + 1);
    }
  }

  lemma LogsAreOk(s: Db)
    requires Inv(s)
    ensures forall j | 0 <= j < |s.contracts| :: LogOk(s.contracts[j].log, s.clock)
    ensures forall k | k in s.templates :: LogOk(s.templates[k], s.clock)
  {
  }

  /** What a listing shows of a log. */
  ghost predicate IsListing(log: Log, active: Option<Version>, open: Log) {
    && active == (if LatestActive(log).Some? then Some(LatestActive(log).value.version) else None)
    && (forall v :: v in open <==> v in log && IsOpen(log, v))
    && (forall a, b | 0 <= a < b < |open| :: open[a] != open[b])
    && Listed(open)
  }

  class Catalog {
    var parts: seq<Part>
    var contracts: seq<Contract>
    var agents: seq<AgentRow>
    var templates: map<TemplateKind, Log>
    var clock: Time

    /** The tables as one value. */
    function State(): Db
      reads this
    {
      Db(parts, contracts, agents, templates, clock)
    }

    ghost predicate Valid()
      reads this
    {
      Sound(State())
    }

    /** An installed catalog: no parts or contracts, the seeded agents and templates. */
    constructor (seeded: seq<AgentRow>, seeds: map<TemplateKind, Log>, now: Time)
      requires AgentsUnique(seeded) && forall k | k in seeds :: LogOk(seeds[k], now)
      ensures Valid() && Installed(State()) && State() == Db([], [], seeded, seeds, now)
    {
      parts, contracts, agents, templates, clock := [], [], seeded, seeds, now;
      new;
      InstalledInv(State());
    }

    // ---------- Queries ----------

    /** The query for the one part with a name: it fails when there is a second row. */
    method FindByName(name: string) returns (found: Result<nat>)
      ensures found == FindPart(State(), name)
    {
      var at: Option<nat> := None;
      for n := 0 to |parts|
        invariant at.None? ==> forall i | 0 <= i < n :: parts[i].name != name
        invariant at.Some? ==> at.value < n && parts[at.value].name == name
        invariant at.Some? ==> forall i | 0 <= i < n && i != at.value :: parts[i].name != name
      {
        if parts[n].name == name {
          if at.Some? {
            return Refused(MultipleRows);
          }
          at := Some(n);
        }
      }
      if at.None? || parts[at.value].deleted.Some? {
        return Refused(NotFound);
      }
      return Ok(at.value);
    }

    /** The query for a live contract with these endpoints and this shape. */
    method EdgeIsTaken(owner: nat, counterparty: nat, shape: Shape, except: Option<nat>) returns (taken: bool)
      ensures taken <==> EdgeTaken(contracts, owner, counterparty, shape, except)
    {
      for n := 0 to |contracts|
        invariant !EdgeTaken(contracts[..n], owner, counterparty, shape, except)
      {
        var c := contracts[n];
        if except != Some(n) && c.Live() && c.owner == owner && c.counterparty == counterparty && c.shape == shape {
          return true;
        }
      }
      assert contracts[..|contracts|] == contracts;
      return false;
    }

    /** The query for a live row with a name, other than the row itself. */
    method NameIsTaken(name: string, except: Option<nat>) returns (taken: bool)
      ensures taken <==> NameTaken(parts, name, except)
    {
      for n := 0 to |parts|
        invariant !NameTaken(parts[..n], name, except)
      {
        if except != Some(n) && parts[n].Live() && parts[n].name == name {
          return true;
        }
      }
      assert parts[..|parts|] == parts;
      return false;
    }

    /** The query for the live row with a name, which leaves deleted rows out. */
    method FindLiveByName(name: string) returns (found: Option<nat>)
      ensures found == FindLive(parts, name)
    {
      found := None;
      for n := 0 to |parts|
        invariant found == FindLive(parts[..n], name)
      {
        assert parts[..n + 1][..n] == parts[..n];
        if found.None? && parts[n].name == name && parts[n].Live() {
          found := Some(n);
        }
      }
      assert parts[..|parts|] == parts;
    }

    /** The query for the live allowlist row of an actor. */
    method FindLiveAgent(agent: Actor) returns (found: Option<nat>)
      ensures found == FindAgent(agents, agent)
    {
      found := None;
      for n := 0 to |agents|
        invariant found == FindAgent(agents[..n], agent)
      {
        assert agents[..n + 1][..n] == agents[..n];
        if found.None? && agents[n].revoked.None? && agents[n].actor == agent {
          found := Some(n);
        }
      }
      assert agents[..|agents|] == agents;
    }

    // ---------- Parts ----------

    method RegisterPart(actor: Option<Actor>, name: string, subtype: PartSubtype, aliases: seq<string>,
        markdown: string,
        version: Version)
      returns (r: Reply)
      requires Valid()
      modifies this
      ensures Valid()
      ensures Replies(
                old(State()), Request(actor, Op.RegisterPart(name, subtype, aliases, markdown, version)), State(), r)
    {
      hide Inv; hide Constraints; hide DeletionsExplained; hide IsSlug; hide AliasesOk; hide NameTaken;
      ghost var s, q := State(), Request(actor, Op.RegisterPart(name, subtype, aliases, markdown, version));
      if version.IsPrerelease() || !IsSlug(name) || !AliasesOk(aliases) {
        return Failed(Unprocessable);
      }
      var taken := NameIsTaken(name, None);
      if taken {
        return Failed(Conflict);
      }
      clock := clock + 1;
      var first := PartVersion(version, markdown, clock);
      parts := parts + [Part(name, subtype, aliases, clock, None, None, None, [first], [], [], [])];
      Commit(s, q, AddPart(name, subtype, aliases, markdown, version), State());
      return Accepted;
    }

    method UpdatePart(actor: Option<Actor>, name: string, version: Version, markdown: string,
        newAliases: Option<seq<string>>)
      returns (r: Reply)
      requires Valid()
      modifies this
      ensures Valid()
      ensures Replies(old(State()), Request(actor, Op.UpdatePart(name, version, markdown, newAliases)), State(), r)
    {
      hide Inv; hide Constraints; hide DeletionsExplained; hide FindPart; hide AliasesOk; hide LatestPartVersion;
      ghost var s, q := State(), Request(actor, Op.UpdatePart(name, version, markdown, newAliases));
      if version.IsPrerelease() || (newAliases.Some? && !AliasesOk(newAliases.value)) {
        return Failed(Unprocessable);
      }
      var found := FindByName(name);
      if found.Refused? {
        return Failed(found.why);
      }
      var i := found.value;
      var latest := LatestPartVersion(parts[i].versions);
      if latest.Some? && !Less(latest.value.version, version) {
        return Failed(Conflict);
      }
      var p := parts[i];
      clock := clock + 1;
      if newAliases.Some? {
        p := p.(aliases := newAliases.value);
      }
      p := p.(versions := p.versions + [PartVersion(version, markdown, clock)]);
      parts := parts[i := p];
      Commit(s, q, SetPart(i, AddVersion(version, markdown, newAliases)), State());
      return Accepted;
    }

    method ProposePartSubtype(actor: Option<Actor>, name: string, subtype: PartSubtype, rationale: string)
      returns (r: Reply, affected: seq<nat>)
      requires Valid()
      modifies this
      ensures Valid()
      ensures Replies(old(State()), Request(actor, Op.ProposePartSubtype(name, subtype, rationale)), State(), r)
      ensures r.Accepted? ==>
                && FindPart(old(State()), name).Ok?
                && forall j: nat :: j in affected <==>
                     WouldBreak(ConnectionRules, old(State()), j, FindPart(old(State()), name).value, subtype)
    {
      hide Inv; hide Constraints; hide DeletionsExplained; hide FindPart; hide WouldBreak;
      ghost var s, q := State(), Request(actor, Op.ProposePartSubtype(name, subtype, rationale));
      affected := [];
      var found := FindByName(name);
      if found.Refused? {
        return Failed(found.why), [];
      }
      var i := found.value;
      if subtype == parts[i].subtype {
        return Failed(Conflict), [];
      }
      affected := PartShiftImpact(ConnectionRules, State(), i, subtype);
      var p := parts[i];
      clock := clock + 1;
      p := p.(subtypeProposals := p.subtypeProposals + [Open(Change(p.subtype, subtype), rationale, actor, clock)]);
      parts := parts[i := p];
      Commit(s, q, SetPart(i, ProposeSubtype(subtype, rationale)), State());
      return Accepted, affected;
    }

    method AcceptPartSubtype(actor: Option<Actor>, name: string, row: nat, single: bool)
      returns (r: Reply)
      requires Valid()
      modifies this
      ensures Valid()
      ensures Replies(old(State()), Request(actor, Op.AcceptPartSubtype(name, row, single)), State(), r)
    {
      hide Inv; hide Constraints; hide DeletionsExplained; hide CheckAcceptable; hide CheckTargets; hide EnforceHuman;
      hide FindPart;
      ghost var s, q := State(), Request(actor, Op.AcceptPartSubtype(name, row, single));
      var found := FindByName(name);
      if found.Refused? {
        return Failed(found.why);
      }
      var i := found.value;
      var p := parts[i];
      var check := CheckAcceptable(p.subtypeProposals, row, actor, single);
      if check.Some? {
        return Failed(check.value);
      }
      var proposal := p.subtypeProposals[row];
      if proposal.change.target == p.subtype {
        return Failed(Conflict);
      }
      clock := clock + 1;
      p := p.(subtypeShift := Some(Shifted(p.subtype, clock)));
      p := p.(subtype := proposal.change.target);
      proposal := proposal.(accepted := Some(Acceptance(clock, actor, single, false)));
      p := p.(subtypeProposals := p.subtypeProposals[row := proposal]);
      parts := parts[i := p];
      Commit(s, q, SetPart(i, AcceptSubtype(row, single)), State());
      return Accepted;
    }

    method ProposePartName(actor: Option<Actor>, name: string, newName: string, rationale: string)
      returns (r: Reply)
      requires Valid()
      modifies this
      ensures Valid()
      ensures Replies(old(State()), Request(actor, Op.ProposePartName(name, newName, rationale)), State(), r)
    {
      hide Inv; hide Constraints; hide DeletionsExplained; hide FindPart; hide NameTaken; hide IsSlug;
      ghost var s, q := State(), Request(actor, Op.ProposePartName(name, newName, rationale));
      if !IsSlug(newName) {
        return Failed(Unprocessable);
      }
      var found := FindByName(name);
      if found.Refused? {
        return Failed(found.why);
      }
      var i := found.value;
      var taken := NameIsTaken(newName, None);
      if newName == parts[i].name || taken {
        return Failed(Conflict);
      }
      var p := parts[i];
      clock := clock + 1;
      p := p.(nameProposals := p.nameProposals + [Open(Change(p.name, newName), rationale, actor, clock)]);
      parts := parts[i := p];
      Commit(s, q, SetPart(i, ProposeName(newName, rationale)), State());
      return Accepted;
    }

    method AcceptPartName(actor: Option<Actor>, name: string, row: nat, single: bool)
      returns (r: Reply)
      requires Valid()
      modifies this
      ensures Valid()
      ensures Replies(old(State()), Request(actor, Op.AcceptPartName(name, row, single)), State(), r)
    {
      hide Inv; hide Constraints; hide DeletionsExplained; hide CheckAcceptable; hide CheckTargets; hide EnforceHuman;
      hide FindPart; hide NameTaken;
      ghost var s, q := State(), Request(actor, Op.AcceptPartName(name, row, single));
      var found := FindByName(name);
      if found.Refused? {
        return Failed(found.why);
      }
      var i := found.value;
      var p := parts[i];
      var check := CheckAcceptable(p.nameProposals, row, actor, single);
      if check.Some? {
        return Failed(check.value);
      }
      var proposal := p.nameProposals[row];
      var taken := NameIsTaken(proposal.change.target, Some(i));
      if proposal.change.target == p.name || taken {
        return Failed(Conflict);
      }
      clock := clock + 1;
      p := p.(nameShift := Some(Shifted(p.name, clock)));
      p := p.(name := proposal.change.target);
      proposal := proposal.(accepted := Some(Acceptance(clock, actor, single, false)));
      p := p.(nameProposals := p.nameProposals[row := proposal]);
      parts := parts[i := p];
      Commit(s, q, SetPart(i, AcceptName(row, single)), State());
      return Accepted;
    }

    method ProposePartDeletion(actor: Option<Actor>, name: string, rationale: string)
      returns (r: Reply, impact: Option<PartImpact>)
      requires Valid()
      modifies this
      ensures Valid()
      ensures Replies(old(State()), Request(actor, Op.ProposePartDeletion(name, rationale)), State(), r)
      ensures r.Accepted? ==>
                && FindPart(old(State()), name).Ok? && impact.Some?
                && IsPartImpact(old(State()), FindPart(old(State()), name).value, impact.value)
    {
      hide Inv; hide Constraints; hide DeletionsExplained; hide FindPart; hide IsPartImpact;
      ghost var s, q := State(), Request(actor, Op.ProposePartDeletion(name, rationale));
      var found := FindByName(name);
      if found.Refused? {
        return Failed(found.why), None;
      }
      var i := found.value;
      var report := PartDeletionImpact(State(), i);
      var p := parts[i];
      clock := clock + 1;
      p := p.(deletionProposals := p.deletionProposals + [Open((), rationale, actor, clock)]);
      parts := parts[i := p];
      Commit(s, q, SetPart(i, PartMove.ProposePartDeletion(rationale)), State());
      return Accepted, Some(report);
    }

    // Stamps the contracts one by one.
    method StampContracts(i: nat, touching: seq<nat>, stamp: Deletion)
      requires forall j: nat :: j in touching <==> Touching(contracts, i, j)
      modifies this`contracts
      ensures contracts == CascadeContracts(old(contracts), i, stamp)
    {
      var stamped := contracts;
      for n := 0 to |touching|
        invariant |stamped| == |contracts|
        invariant forall j | 0 <= j < |contracts| ::
                    stamped[j] == if j in touching[..n] then contracts[j].(deleted := Some(stamp)) else contracts[j]
      {
        var j := touching[n];
        assert j in touching;
        stamped := stamped[j := contracts[j].(deleted := Some(stamp))];
        assert touching[..n + 1] == touching[..n] + [j];
      }
      assert touching[..|touching|] == touching;
      contracts := stamped;
    }

    method AcceptPartDeletion(actor: Option<Actor>, name: string, row: nat, single: bool, cascade: bool)
      returns (r: Reply, impact: Option<PartImpact>, cascaded: seq<nat>)
      requires Valid()
      modifies this
      ensures Valid()
      ensures Replies(old(State()), Request(actor, Op.AcceptPartDeletion(name, row, single, cascade)), State(), r)
      ensures r.Accepted? ==>
                && FindPart(old(State()), name).Ok? && impact.Some?
                && IsPartImpact(old(State()), FindPart(old(State()), name).value, impact.value)
                && cascaded == if cascade then impact.value.touching else []
    {
      hide Inv; hide Constraints; hide DeletionsExplained; hide Decide; hide CheckAcceptable; hide CheckTargets;
      hide EnforceHuman; hide FindPart; hide Touching; hide Names; hide PartEvents; hide ActiveAgents;
      hide HasLiveContract;
      ghost var s, q := State(), Request(actor, Op.AcceptPartDeletion(name, row, single, cascade));
      PartDeletionDecision(s, actor, name, row, single, cascade);
      if single {
        return Failed(Unprocessable), None, [];
      }
      var found := FindByName(name);
      if found.Refused? {
        return Failed(found.why), None, [];
      }
      var i := found.value;
      var p := parts[i];
      var check := CheckAcceptable(p.deletionProposals, row, actor, false);
      if check.Some? {
        return Failed(check.value), None, [];
      }
      var proposal := p.deletionProposals[row];
      var human := EnforceHuman(actor, ActiveAgents(agents));
      if human.Some? {
        return Failed(human.value), None, [];
      }
      var report := PartDeletionImpact(State(), i);
      if report.touching != [] && !cascade {
        return Failed(Unprocessable), None, [];
      }
      clock := clock + 1;
      cascaded := [];
      if cascade {
        var stamp := Deletion(clock, proposal.proposer, actor, CascadeRationale(p.name, proposal.rationale), false);
        StampContracts(i, report.touching, stamp);
        cascaded := report.touching;
      }
      p := p.(deleted := Some(Deletion(clock, proposal.proposer, actor, proposal.rationale, false)));
      proposal := proposal.(accepted := Some(Acceptance(clock, actor, false, cascade)));
      p := p.(deletionProposals := p.deletionProposals[row := proposal]);
      parts := parts[i := p];
      Commit(s, q, DropPartEffect(i, row, cascade), State());
      return Accepted, Some(report), cascaded;
    }

    // ---------- Contracts, templates and agents ----------

    method RegisterContract(actor: Option<Actor>, ownerName: string, counterpartyName: string, shape: Shape,
        markdown: string, version: Version)
      returns (r: Reply)
      requires Valid()
      modifies this
      ensures Valid()
      ensures Replies(old(State()),
                      Request(actor, Op.RegisterContract(ownerName, counterpartyName, shape, markdown, version)),
                          State(), r)
    {
      hide Inv; hide Constraints; hide DeletionsExplained; hide IsSlug; hide FindLive; hide EdgeTaken;
      hide CheckRegistration; hide CheckShapeShift; hide CheckEndpointShift;
      ghost var s, q := State(),
          Request(actor, Op.RegisterContract(ownerName, counterpartyName, shape, markdown, version));
      if version.IsPrerelease() || !IsSlug(ownerName) || !IsSlug(counterpartyName) {
        return Failed(Unprocessable);
      }
      if ownerName == counterpartyName || !shape.WellFormed() {
        return Failed(Unprocessable);
      }
      var ownerRow := FindLiveByName(ownerName);
      var counterpartyRow := FindLiveByName(counterpartyName);
      if ownerRow.None? || counterpartyRow.None? {
        return Failed(NotFound);
      }
      var owner, counterparty := ownerRow.value, counterpartyRow.value;
      var rule := RegistrationRule(State(), shape, owner, counterparty);
      if rule.Some? {
        return Failed(rule.value);
      }
      var taken := EdgeIsTaken(owner, counterparty, shape, None);
      if taken {
        return Failed(Conflict);
      }
      clock := clock + 1;
      var first := VersionRow(version, markdown, true, clock, None, None, None, None, false);
      contracts := contracts + [Contract(owner, counterparty, shape, clock, None, None, None, [first], [], [], [])];
      Commit(s, q, AddContract(owner, counterparty, shape, markdown, version), State());
      return Accepted;
    }

    method ProposeContractShape(actor: Option<Actor>, contract: nat, shape: Shape, rationale: string)
      returns (r: Reply)
      requires Valid()
      modifies this
      ensures Valid()
      ensures Replies(old(State()), Request(actor, Op.ProposeContractShape(contract, shape, rationale)), State(), r)
    {
      hide Inv; hide Constraints; hide DeletionsExplained; hide CheckRegistration; hide CheckShapeShift;
      hide CheckEndpointShift;
      ghost var s, q := State(), Request(actor, Op.ProposeContractShape(contract, shape, rationale));
      var found := FindContract(State(), contract);
      if found.Refused? {
        return Failed(found.why);
      }
      var c := contracts[contract];
      if !shape.WellFormed() {
        return Failed(Unprocessable);
      }
      if shape == c.shape {
        return Failed(Conflict);
      }
      if !EndpointsExist(State(), c) {
        return Failed(NotFound);
      }
      var rule := ShapeRule(State(), shape, c.owner, c.counterparty);
      if rule.Some? {
        return Failed(rule.value);
      }
      clock := clock + 1;
      c := c.(shapeProposals := c.shapeProposals + [Open(Change(c.shape, shape), rationale, actor, clock)]);
      contracts := contracts[contract := c];
      Commit(s, q, SetContract(contract, ProposeShape(shape, rationale)), State());
      return Accepted;
    }

    method AcceptContractShape(actor: Option<Actor>, contract: nat, row: nat, single: bool)
      returns (r: Reply)
      requires Valid()
      modifies this
      ensures Valid()
      ensures Replies(old(State()), Request(actor, Op.AcceptContractShape(contract, row, single)), State(), r)
    {
      hide Inv; hide Constraints; hide DeletionsExplained; hide CheckAcceptable; hide CheckTargets; hide EnforceHuman;
      hide CheckRegistration; hide CheckShapeShift; hide CheckEndpointShift; hide EdgeTaken;
      ghost var s, q := State(), Request(actor, Op.AcceptContractShape(contract, row, single));
      var found := FindContract(State(), contract);
      if found.Refused? {
        return Failed(found.why);
      }
      var c := contracts[contract];
      var check := CheckAcceptable(c.shapeProposals, row, actor, single);
      if check.Some? {
        return Failed(check.value);
      }
      var proposal := c.shapeProposals[row];
      if !EndpointsExist(State(), c) {
        return Failed(NotFound);
      }
      var target := proposal.change.target;
      var rule := ShapeRule(State(), target, c.owner, c.counterparty);
      if rule.Some? {
        return Failed(rule.value);
      }
      if target == c.shape {
        return Failed(Conflict);
      }
      // The handler makes no uniqueness test of its own: the index does, at commit.
      var collides := EdgeIsTaken(c.owner, c.counterparty, target, Some(contract));
      var now := clock + 1;
      c := c.(shapeShift := Some(Shifted(c.shape, now)));
      c := c.(shape := target);
      proposal := proposal.(accepted := Some(Acceptance(now, actor, single, false)));
      c := c.(shapeProposals := c.shapeProposals[row := proposal]);
      CommitShape(s, q, SetContract(contract, AcceptShape(row, single)),
          s.(contracts := contracts[contract := c], clock := now));
      if collides {
        return Failed(ConstraintFailed);
      }
      contracts, clock := contracts[contract := c], now;
      return Accepted;
    }

    method ProposeContractEndpoints(actor: Option<Actor>, contract: nat, newOwner: Option<string>,
        newCounterparty: Option<string>, rationale: string)
      returns (r: Reply)
      requires Valid()
      modifies this
      ensures Valid()
      ensures Replies(old(State()),
                      Request(actor, Op.ProposeContractEndpoints(contract, newOwner, newCounterparty, rationale)),
                          State(), r)
    {
      hide Inv; hide Constraints; hide DeletionsExplained; hide Decide; hide CheckAcceptable; hide CheckTargets;
      hide EnforceHuman; hide IsSlug; hide FindLive; hide EdgeTaken; hide CheckRegistration; hide CheckShapeShift;
      hide CheckEndpointShift;
      ghost var s, q := State(),
          Request(actor, Op.ProposeContractEndpoints(contract, newOwner, newCounterparty, rationale));
      EndpointProposalDecision(s, actor, contract, newOwner, newCounterparty, rationale);
      if (newOwner.Some? && !IsSlug(newOwner.value)) || (newCounterparty.Some? && !IsSlug(newCounterparty.value)) {
        return Failed(Unprocessable);
      }
      var found := FindContract(State(), contract);
      if found.Refused? {
        return Failed(found.why);
      }
      var c := contracts[contract];
      if newOwner.None? && newCounterparty.None? {
        return Failed(Unprocessable);
      }
      var owner, counterparty := ResolveSide(State(), newOwner), ResolveSide(State(), newCounterparty);
      if owner.Refused? {
        return Failed(owner.why);
      }
      if counterparty.Refused? {
        return Failed(counterparty.why);
      }
      if !EndpointsExist(State(), c) {
        return Failed(NotFound);
      }
      var change := EndpointChange(parts[c.owner].name, parts[c.counterparty].name, owner.value, counterparty.value);
      var targets := CheckTargets(c, change);
      if targets.Some? {
        return Failed(targets.value);
      }
      var rule := EndpointRule(State(), c.shape, TargetOwner(c, change), TargetCounterparty(c, change));
      if rule.Some? {
        return Failed(rule.value);
      }
      var taken := EdgeIsTaken(TargetOwner(c, change), TargetCounterparty(c, change), c.shape, Some(contract));
      if taken {
        return Failed(Conflict);
      }
      clock := clock + 1;
      c := c.(endpointProposals := c.endpointProposals + [Open(change, rationale, actor, clock)]);
      contracts := contracts[contract := c];
      Commit(s, q, SetContract(contract, ProposeEndpoints(change, rationale)), State());
      return Accepted;
    }

    method AcceptContractEndpoints(actor: Option<Actor>, contract: nat, row: nat, single: bool)
      returns (r: Reply)
      requires Valid()
      modifies this
      ensures Valid()
      ensures Replies(old(State()), Request(actor, Op.AcceptContractEndpoints(contract, row, single)), State(), r)
    {
      hide Inv; hide Constraints; hide DeletionsExplained; hide Decide; hide Enabled; hide Apply; hide CheckAcceptable;
      hide CheckTargets; hide EnforceHuman; hide EdgeTaken; hide CheckRegistration; hide CheckShapeShift;
      hide CheckEndpointShift;
      ghost var s, q := State(), Request(actor, Op.AcceptContractEndpoints(contract, row, single));
      EndpointAcceptDecision(s, actor, contract, row, single);
      var found := FindContract(State(), contract);
      if found.Refused? {
        return Failed(found.why);
      }
      var c := contracts[contract];
      var check := CheckAcceptable(c.endpointProposals, row, actor, single);
      if check.Some? {
        return Failed(check.value);
      }
      var proposal := c.endpointProposals[row];
      var change := proposal.change;
      if (change.owner.Some? && change.owner.value >= |parts|)
          || (change.counterparty.Some? && change.counterparty.value >= |parts|) {
        return Failed(Conflict);
      }
      if !EndpointsExist(State(), c) {
        return Failed(NotFound);
      }
      var targets := CheckTargets(c, change);
      if targets.Some? {
        return Failed(targets.value);
      }
      var owner, counterparty := TargetOwner(c, change), TargetCounterparty(c, change);
      var rule := EndpointRule(State(), c.shape, owner, counterparty);
      if rule.Some? {
        return Failed(rule.value);
      }
      var taken := EdgeIsTaken(owner, counterparty, c.shape, Some(contract));
      if taken {
        return Failed(Conflict);
      }
      clock := clock + 1;
      var fromOwner := if change.owner.Some? then Some(parts[c.owner].name) else None;
      var fromCounterparty := if change.counterparty.Some? then Some(parts[c.counterparty].name) else None;
      ghost var e := SetContract(contract,
          AcceptEndpoints(row, single, parts[c.owner].name, parts[c.counterparty].name));
      c := c.(endpointShift := Some(EndpointShifted(fromOwner, fromCounterparty, clock)));
      c := c.(owner := owner, counterparty := counterparty);
      proposal := proposal.(accepted := Some(Acceptance(clock, actor, single, false)));
      c := c.(endpointProposals := c.endpointProposals[row := proposal]);
      contracts := contracts[contract := c];
      EndpointsWritten(s, e, actor, c);
      Commit(s, q, e, State());
      return Accepted;
    }

    method ProposeContractDeletion(actor: Option<Actor>, contract: nat, rationale: string)
      returns (r: Reply, impact: Option<ContractImpact>)
      requires Valid()
      modifies this
      ensures Valid()
      ensures Replies(old(State()), Request(actor, Op.ProposeContractDeletion(contract, rationale)), State(), r)
      ensures r.Accepted? ==> impact.Some? && IsContractImpact(old(State()), contract, None, impact.value)
    {
      hide Inv; hide Constraints; hide DeletionsExplained; hide IsContractImpact;
      ghost var s, q := State(), Request(actor, Op.ProposeContractDeletion(contract, rationale));
      var found := FindContract(State(), contract);
      if found.Refused? {
        return Failed(found.why), None;
      }
      var c := contracts[contract];
      var report := ContractDeletionImpact(State(), contract, None);
      clock := clock + 1;
      c := c.(deletionProposals := c.deletionProposals + [Open((), rationale, actor, clock)]);
      contracts := contracts[contract := c];
      Commit(s, q, SetContract(contract, ProposeDeletion(rationale)), State());
      return Accepted, Some(report);
    }

    method AcceptContractDeletion(actor: Option<Actor>, contract: nat, row: nat, single: bool)
      returns (r: Reply, impact: Option<ContractImpact>)
      requires Valid()
      modifies this
      ensures Valid()
      ensures Replies(old(State()), Request(actor, Op.AcceptContractDeletion(contract, row, single)), State(), r)
      ensures r.Accepted? ==> impact.Some? && IsContractImpact(old(State()), contract, Some(row), impact.value)
    {
      hide Inv; hide Constraints; hide DeletionsExplained; hide CheckAcceptable; hide CheckTargets; hide EnforceHuman;
      hide IsContractImpact;
      ghost var s, q := State(), Request(actor, Op.AcceptContractDeletion(contract, row, single));
      var found := FindContract(State(), contract);
      if found.Refused? {
        return Failed(found.why), None;
      }
      var c := contracts[contract];
      var check := CheckAcceptable(c.deletionProposals, row, actor, single);
      if check.Some? {
        return Failed(check.value), None;
      }
      var proposal := c.deletionProposals[row];
      var report := ContractDeletionImpact(State(), contract, Some(row));
      clock := clock + 1;
      c := c.(deleted := Some(Deletion(clock, proposal.proposer, actor, proposal.rationale, single)));
      proposal := proposal.(accepted := Some(Acceptance(clock, actor, single, false)));
      c := c.(deletionProposals := c.deletionProposals[row := proposal]);
      contracts := contracts[contract := c];
      Commit(s, q, SetContract(contract, AcceptDeletion(row, single)), State());
      return Accepted, Some(report);
    }

    /** The greatest version of any row. */
    static method LatestVersion(log: Log) returns (latest: Option<Version>)
      ensures latest == LatestAny(log)
    {
      latest := None;
      for n := 0 to |log|
        invariant latest == LatestAny(log[..n])
      {
        assert log[..n + 1][..n] == log[..n];
        if latest.None? || Less(latest.value, log[n].version) {
          latest := Some(log[n].version);
        }
      }
      assert log[..|log|] == log;
    }

    // The content protocol on one version log: a proposal adds a row; an accept changes a row in
    // place, and for a release candidate adds the promoted stable row.
    static method WriteBody(log: Log, body: BodyMove, actor: Option<Actor>, now: Time) returns (r: Result<Log>)
      ensures r == MoveLog(log, body, actor, now)
    {
      hide LatestAny; hide FindExact;
      match body
      case ProposeBody(version, markdown) =>
        if !version.WellFormed() {
          return Refused(Unprocessable);
        }
        var latest := LatestVersion(log);
        if latest.Some? && !Less(latest.value, version) {
          return Refused(Conflict);
        }
        return Ok(log + [VersionRow(version, markdown, false, now, None, None, actor, None, false)]);
      case AcceptBody(target, single) =>
        if !target.WellFormed() {
          return Refused(Unprocessable);
        }
        var found := FindExact(log, target);
        if found.None? {
          return Refused(NotFound);
        }
        var row := log[found.value];
        if row.active {
          return Refused(Conflict);
        }
        var parties := EnforceTwoParty(row.proposer, actor, single);
        if parties.Some? {
          return Refused(parties.value);
        }
        if !target.IsPrerelease() {
          row := row.(active := true);
          row := row.(acceptedAt := Some(now));
          row := row.(acceptor := actor);
          row := row.(overridden := single);
          return Ok(log[found.value := row]);
        }
        if FindExact(log, target.Stable()).Some? {
          return Refused(Conflict);
        }
        row := row.(overridden := single);
        var promoted := VersionRow(row.version.Stable(), row.markdown, true, now, Some(now), row.version.prerelease,
                                   row.proposer, actor, single);
        return Ok(log[found.value := row] + [promoted]);
    }

    method ContractBody(actor: Option<Actor>, contract: nat, body: BodyMove)
      returns (r: Reply, active: Option<Version>)
      requires Valid()
      modifies this
      ensures Valid()
      ensures Replies(old(State()), Request(actor, Op.ContractBody(contract, body)), State(), r)
      ensures r.Accepted? && body.AcceptBody? ==>
                && active == Some(body.target.Stable()) && contract < |contracts| == old(|contracts|)
                && ResponseIsLatestIff(old(contracts[contract].log), contracts[contract].log, active.value)
    {
      hide Inv; hide Constraints; hide DeletionsExplained; hide MoveLog; hide LogOk; hide ResponseIsLatestIff;
      ghost var s, q := State(), Request(actor, Op.ContractBody(contract, body));
      if !PayloadParses(body) {
        return Failed(Unprocessable), None;
      }
      var found := FindContract(State(), contract);
      if found.Refused? {
        return Failed(found.why), None;
      }
      var c := contracts[contract];
      var written := WriteBody(c.log, body, actor, clock + 1);
      if written.Refused? {
        return Failed(written.why), None;
      }
      LogsAreOk(s);
      BodyResponse(c.log, body, actor, clock);
      clock := clock + 1;
      c := c.(log := written.value);
      contracts := contracts[contract := c];
      Commit(s, q, SetContract(contract, MoveBody(body)), State());
      return Accepted, if body.AcceptBody? then Some(body.target.Stable()) else None;
    }

    method TemplateBody(actor: Option<Actor>, kind: TemplateKind, body: BodyMove)
      returns (r: Reply, active: Option<Version>)
      requires Valid()
      modifies this
      ensures Valid()
      ensures Replies(old(State()), Request(actor, Op.TemplateBody(kind, body)), State(), r)
      ensures r.Accepted? && body.AcceptBody? ==>
                && active == Some(body.target.Stable()) && kind in templates && kind in old(templates)
                && ResponseIsLatestIff(old(templates)[kind], templates[kind], active.value)
    {
      hide Inv; hide Constraints; hide DeletionsExplained; hide MoveLog; hide LogOk; hide ResponseIsLatestIff;
      ghost var s, q := State(), Request(actor, Op.TemplateBody(kind, body));
      if !PayloadParses(body) {
        return Failed(Unprocessable), None;
      }
      if kind !in templates {
        return Failed(NotFound), None;
      }
      var written := WriteBody(templates[kind], body, actor, clock + 1);
      if written.Refused? {
        return Failed(written.why), None;
      }
      LogsAreOk(s);
      BodyResponse(templates[kind], body, actor, clock);
      clock := clock + 1;
      templates := templates[kind := written.value];
      Commit(s, q, SetTemplate(kind, body), State());
      return Accepted, if body.AcceptBody? then Some(body.target.Stable()) else None;
    }

    method RegisterAgent(actor: Option<Actor>, agent: Actor)
      returns (r: Reply)
      requires Valid()
      modifies this
      ensures Valid()
      ensures Replies(old(State()), Request(actor, Op.RegisterAgent(agent)), State(), r)
    {
      hide Inv; hide Constraints; hide DeletionsExplained; hide IsSlug; hide IsAgent;
      ghost var s, q := State(), Request(actor, Op.RegisterAgent(agent));
      if !IsSlug(agent) {
        return Failed(Unprocessable);
      }
      var live := FindLiveAgent(agent);
      if live.Some? {
        return Failed(Conflict);
      }
      clock := clock + 1;
      agents := agents + [AgentRow(agent, actor, clock, None)];
      Commit(s, q, AddAgent(agent), State());
      return Accepted;
    }

    method RevokeAgent(actor: Option<Actor>, agent: Actor, rationale: string)
      returns (r: Reply)
      requires Valid()
      modifies this
      ensures Valid()
      ensures Replies(old(State()), Request(actor, Op.RevokeAgent(agent, rationale)), State(), r)
    {
      hide Inv; hide Constraints; hide DeletionsExplained; hide FindAgent; hide ActiveAgents;
      ghost var s, q := State(), Request(actor, Op.RevokeAgent(agent, rationale));
      var human := EnforceHuman(actor, ActiveAgents(agents));
      if human.Some? {
        return Failed(human.value);
      }
      var found := FindLiveAgent(agent);
      if found.None? {
        return Failed(NotFound);
      }
      clock := clock + 1;
      var row := agents[found.value];
      row := row.(revoked := Some(Revocation(clock, actor, rationale)));
      agents := agents[found.value := row];
      Commit(s, q, EndAgent(found.value, rationale), State());
      return Accepted;
    }

    // ---------- Reads ----------

    /** The open proposals of a live contract, with its latest active version: the inactive rows
        above that version, each once, in the order of the query. */
    method ListProposals(contract: nat) returns (r: Result<(Option<Version>, Log)>)
      requires Valid()
      ensures r.Ok? <==> contract < |contracts| && contracts[contract].Live()
      ensures r.Refused? ==> r.why == NotFound
      ensures r.Ok? ==> IsListing(contracts[contract].log, r.value.0, r.value.1)
    {
      hide Inv; hide DeletionsExplained; hide IsListing;
      if contract >= |contracts| || contracts[contract].deleted.Some? {
        return Refused(NotFound);
      }
      LogsAreOk(State());
      var active, open := ListLog(contracts[contract].log, clock);
      return Ok((active, open));
    }

    /** The same for a template. */
    method ListTemplateProposals(kind: TemplateKind) returns (r: Result<(Option<Version>, Log)>)
      requires Valid()
      ensures r.Ok? <==> kind in templates
      ensures r.Refused? ==> r.why == NotFound
      ensures r.Ok? ==> IsListing(templates[kind], r.value.0, r.value.1)
    {
      hide Inv; hide DeletionsExplained; hide IsListing;
      if kind !in templates {
        return Refused(NotFound);
      }
      LogsAreOk(State());
      var active, open := ListLog(templates[kind], clock);
      return Ok((active, open));
    }

    static method ListLog(log: Log, clock: Time) returns (active: Option<Version>, open: Log)
      requires LogOk(log, clock)
      ensures IsListing(log, active, open)
    {
      active, open := ListOpen(log);
      ListedOnce(log, open);
    }

    /** One page of the history of some part with the name: the query takes the first row it meets,
        in no stated order. */
    method GetPartHistory(name: string, after: Option<Cursor>, limit: nat, includeDeleted: bool)
      returns (r: Result<Page<Event>>)
      requires limit >= 1
      ensures Answers(parts, name, after, limit, includeDeleted, r)
    {
      hide Events; hide PageOf;
      for i := 0 to |parts|
        invariant forall k | 0 <= k < i :: parts[k].name != name
      {
        var p := parts[i];
        if p.name == name {
          if p.deleted.Some? && !includeDeleted {
            return Refused(NotFound);
          }
          var entries := CollectEvents(PartBodies(p.versions), p.subtypeProposals, p.nameProposals, NameShift,
              p.deletionProposals, includeDeleted);
          return Ok(PageOf(entries, after, limit));
        }
      }
      return Refused(NotFound);
    }

    method GetContractHistory(row: nat, after: Option<Cursor>, limit: nat, includeDeleted: bool)
      returns (r: Result<Page<Event>>)
      requires limit >= 1
      ensures r == if row >= |contracts| || (!contracts[row].Live() && !includeDeleted) then Refused(NotFound)
                   else Ok(PageOf(ContractEvents(contracts[row], includeDeleted), after, limit))
    {
      hide Events; hide PageOf; hide ContractBodies;
      if row >= |contracts| || (contracts[row].deleted.Some? && !includeDeleted) {
        return Refused(NotFound);
      }
      var c := contracts[row];
      var entries := CollectEvents(ContractBodies(c.log), c.shapeProposals, c.endpointProposals, EndpointShift,
          c.deletionProposals, includeDeleted);
      return Ok(PageOf(entries, after, limit));
    }
  }
}
