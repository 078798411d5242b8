/** Why a request is refused, stated on the tables and the request alone: every kind of refusal has a
    cause of its own kind. */
module Refusals {
  import opened Common
  import opened Endpoints
  import opened Handshake
  import opened Invariants
  import opened Records
  import opened State
  import opened Versioning
  import opened VersionLog

  // The payload alone is refused.
  ghost predicate Malformed(op: Op) {
    match op
    case RegisterPart(name, _, aliases, _, version) => !IsSlug(name) || !AliasesOk(aliases) || version.IsPrerelease()
    case UpdatePart(_, version, _, aliases) =>
      version.IsPrerelease() || (aliases.Some? && !AliasesOk(aliases.value))
    case ProposePartName(_, newName, _) => !IsSlug(newName)
    case AcceptPartDeletion(_, _, single, _) => single
    case RegisterContract(owner, counterparty, shape, _, version) =>
      !IsSlug(owner) || !IsSlug(counterparty) || owner == counterparty || !shape.WellFormed() || version.IsPrerelease()
    case ProposeContractShape(_, shape, _) => !shape.WellFormed()
    case ProposeContractEndpoints(_, owner, counterparty, _) =>
      !SlugSide(owner) || !SlugSide(counterparty) || (owner.None? && counterparty.None?)
    case ContractBody(_, body) => BadVersion(body)
    case TemplateBody(_, body) => BadVersion(body)
    case RegisterAgent(agent) => !IsSlug(agent)
    case _ => false
  }

  ghost predicate BadVersion(body: BodyMove) {
    match body
    case ProposeBody(v, _) => !v.WellFormed()
    case AcceptBody(target, _) => !target.WellFormed()
  }

  ghost predicate NoneLive(parts: seq<Part>, name: string) {
    forall i: nat :: !LiveNamed(parts, name, i)
  }

  ghost predicate Shared(parts: seq<Part>, name: string) {
    exists i, n | 0 <= i < n < |parts| :: parts[i].name == name && parts[n].name == name
  }

  // Why row k of a table cannot be accepted by this caller.
  ghost predicate RowCause<T>(ps: seq<Proposal<T>>, k: nat, actor: Option<Actor>, single: bool, why: Refusal) {
    match why
    case NotFound => k >= |ps|
    case Conflict => k < |ps| && ps[k].accepted.Some?
    case Unprocessable => k < |ps| && !TwoHands(ps[k].proposer, actor, single)
    case _ => false
  }

  // Row k is there, but what it proposes holds already.
  ghost predicate NoChange<T>(ps: seq<Proposal<Change<T>>>, k: nat, current: T) {
    k < |ps| && ps[k].change.target == current
  }

  /** Why a request on part p, row i, is refused. */
  ghost predicate PartCause(parts: seq<Part>, i: nat, p: Part, q: Request, why: Refusal)
    requires OnPart(q.op)
  {
    match q.op
    case UpdatePart(_, version, _, _) => why.Conflict? && exists v | v in p.versions :: !Less(v.version, version)
    case ProposePartSubtype(_, subtype, _) => why.Conflict? && subtype == p.subtype
    case AcceptPartSubtype(_, row, single) =>
      RowCause(p.subtypeProposals, row, q.actor, single, why)
      || (why.Conflict? && NoChange(p.subtypeProposals, row, p.subtype))
    case ProposePartName(_, newName, _) => why.Conflict? && !FreeName(parts, newName, None)
    case AcceptPartName(_, row, single) =>
      RowCause(p.nameProposals, row, q.actor, single, why)
      || (why.Conflict? && row < |p.nameProposals| &&
            (p.nameProposals[row].change.target == p.name
             || !FreeName(parts, p.nameProposals[row].change.target, Some(i))))
    case ProposePartDeletion(_, _) => false
  }

  ghost predicate DeletionCause(s: Db, i: nat, q: Request, why: Refusal)
    requires q.op.AcceptPartDeletion?
  {
    && OnlyLive(s.parts, q.op.name, i)
    && (|| RowCause(s.parts[i].deletionProposals, q.op.row, q.actor, false, why)
        || (why.Unprocessable? && (q.actor.None? || (HasLiveContract(s.contracts, i) && !q.op.cascade)))
        || (why.Forbidden? && q.actor.Some? && IsAgent(s.agents, q.actor.value)))
  }

  /** Why these parts may not be joined in this shape by contract j, or by a new one. */
  ghost predicate JoinCause(s: Db, except: Option<nat>, shape: Shape, owner: nat, counterparty: nat, why: Refusal) {
    || (why.Unprocessable? && !MayJoin(s.parts, shape, owner, counterparty))
    || (why.Conflict? && !FreeEdge(s.contracts, owner, counterparty, shape, except))
  }

  ghost predicate MoveCause(s: Db, j: nat, c: Contract, owner: nat, counterparty: nat, why: Refusal) {
    || (why.Unprocessable? && ((owner == c.owner && counterparty == c.counterparty) || owner == counterparty))
    || JoinCause(s, Some(j), c.shape, owner, counterparty, why)
  }

  ghost predicate ShiftCause(s: Db, j: nat, c: Contract, q: Request, owner: nat, counterparty: nat, why: Refusal)
    requires q.op.ProposeContractEndpoints?
  {
    && LeadsTo(s.parts, q.op.newOwner, c.owner, owner)
    && LeadsTo(s.parts, q.op.newCounterparty, c.counterparty, counterparty)
    && MoveCause(s, j, c, owner, counterparty, why)
  }

  ghost predicate BodyCause(log: Log, body: BodyMove, actor: Option<Actor>, why: Refusal) {
    match body
    case ProposeBody(v, _) => why.Conflict? && exists r | r in log :: !Less(r.version, v)
    case AcceptBody(target, single) =>
      match why
      case NotFound => forall r | r in log :: r.version != target
      case Conflict =>
        || (exists r | r in log :: r.version == target && r.active)
        || (target.IsPrerelease() && exists r | r in log :: r.version == target.Stable())
      case Unprocessable => exists r | r in log :: r.version == target && !TwoHands(r.proposer, actor, single)
      case _ => false
  }

  /** Why a request on contract c, row j, is refused. */
  ghost predicate ContractCause(s: Db, j: nat, c: Contract, q: Request, why: Refusal)
    requires OnContract(q.op)
  {
    match q.op
    case ProposeContractShape(_, shape, _) =>
      (why.Conflict? && shape == c.shape) || (why.Unprocessable? && !MayJoin(s.parts, shape, c.owner, c.counterparty))
    case AcceptContractShape(_, row, single) =>
      || RowCause(c.shapeProposals, row, q.actor, single, why)
      || (why.Conflict? && NoChange(c.shapeProposals, row, c.shape))
      || (row < |c.shapeProposals| &&
            var target := c.shapeProposals[row].change.target;
            || (why.Unprocessable? && !MayJoin(s.parts, target, c.owner, c.counterparty))
            || (why.ConstraintFailed? && !FreeEdge(s.contracts, c.owner, c.counterparty, target, Some(j))))
    case ProposeContractEndpoints(_, newOwner, newCounterparty, _) =>
      || (why.NotFound? && newOwner.Some? && NoneLive(s.parts, newOwner.value))
      || (why.NotFound? && newCounterparty.Some? && NoneLive(s.parts, newCounterparty.value))
      || exists owner: nat, counterparty: nat :: ShiftCause(s, j, c, q, owner, counterparty, why)
    case AcceptContractEndpoints(_, row, single) =>
      || RowCause(c.endpointProposals, row, q.actor, single, why)
      || (row < |c.endpointProposals| &&
            var change := c.endpointProposals[row].change;
            MoveCause(s, j, c, change.owner.GetOr(c.owner), change.counterparty.GetOr(c.counterparty), why))
    case ProposeContractDeletion(_, _) => false
    case AcceptContractDeletion(_, row, single) => RowCause(c.deletionProposals, row, q.actor, single, why)
    case ContractBody(_, body) => BodyCause(c.log, body, q.actor, why)
  }

  // Nothing live has the name, or several rows have it.
  ghost predicate NameCause(parts: seq<Part>, name: string, why: Refusal) {
    match why
    case NotFound => NoneLive(parts, name)
    case MultipleRows => Shared(parts, name)
    case _ => false
  }

  ghost predicate RegistrationCause(s: Db, q: Request, owner: nat, counterparty: nat, why: Refusal)
    requires q.op.RegisterContract?
  {
    && LiveNamed(s.parts, q.op.ownerName, owner) && LiveNamed(s.parts, q.op.counterpartyName, counterparty)
    && JoinCause(s, None, q.op.shape, owner, counterparty, why)
  }

  ghost predicate FoundPartCause(s: Db, q: Request, i: nat, why: Refusal)
    requires OnPart(q.op)
  {
    OnlyLive(s.parts, q.op.name, i) && PartCause(s.parts, i, s.parts[i], q, why)
  }

  /** Why a request is refused in this way. */
  ghost predicate Cause(s: Db, q: Request, why: Refusal) {
    || (why.Unprocessable? && Malformed(q.op))
    || if OnPart(q.op) then
         NameCause(s.parts, q.op.name, why) || exists i: nat :: FoundPartCause(s, q, i, why)
       else if OnContract(q.op) then
         if q.op.contract < |s.contracts| && s.contracts[q.op.contract].Live() then
           ContractCause(s, q.op.contract, s.contracts[q.op.contract], q, why)
         else why.NotFound?
       else match q.op
         case RegisterPart(name, _, _, _, _) => why.Conflict? && !FreeName(s.parts, name, None)
         case AcceptPartDeletion(name, _, _, _) =>
           NameCause(s.parts, name, why) || exists i: nat :: DeletionCause(s, i, q, why)
         case RegisterContract(owner, counterparty, _, _, _) =>
           || (why.NotFound? && (NoneLive(s.parts, owner) || NoneLive(s.parts, counterparty)))
           || exists a: nat, b: nat :: RegistrationCause(s, q, a, b, why)
         case TemplateBody(kind, body) =>
           if kind in s.templates then BodyCause(s.templates[kind], body, q.actor, why) else why.NotFound?
         case RegisterAgent(agent) => why.Conflict? && IsAgent(s.agents, agent)
         case RevokeAgent(agent, _) =>
           || (why.Unprocessable? && q.actor.None?)
           || (why.Forbidden? && q.actor.Some? && IsAgent(s.agents, q.actor.value))
           || (why.NotFound? && !IsAgent(s.agents, agent))
  }

  // ---------- Parts ----------

  lemma LookupCause(s: Db, name: string)
    ensures FindPart(s, name).Refused? ==> NameCause(s.parts, name, FindPart(s, name).why)
    ensures FindPart(s, name).Ok? ==> OnlyLive(s.parts, name, FindPart(s, name).value)
  {
    var r := Lookup(s.parts, name);
    hide Lookup;
  }

  lemma PartRefused(s: Db, q: Request)
    requires Inv(s) && OnPart(q.op) && Decide(s, q).Refused?
    ensures Cause(s, q, Decide(s, q).why)
  {
    hide Constraints; hide FindPart; hide OnlyLive; hide LatestPartVersion; hide Less; hide IsSlug; hide AliasesOk;
    hide NameTaken; hide FreeName; hide NameCause;
    LookupCause(s, q.op.name);
    if FindPart(s, q.op.name).Ok? {
      var i := FindPart(s, q.op.name).value;
      var p := s.parts[i];
      assert PartOk(p, s.clock);
      if q.op.UpdatePart? { LatestIsAbove(p.versions, s.clock, q.op.version); }
      if q.op.ProposePartName? {
        FreeNameIff(s.parts, q.op.newName, None);
        OwnNameIsTaken(s.parts, i);
      }
      if q.op.AcceptPartName? && q.op.row < |p.nameProposals| {
        FreeNameIff(s.parts, p.nameProposals[q.op.row].change.target, Some(i));
      }
      assert FoundPartCause(s, q, i, Decide(s, q).why) || Malformed(q.op);
    }
  }

  lemma OwnNameIsTaken(parts: seq<Part>, i: nat)
    requires i < |parts| && parts[i].Live()
    ensures !FreeName(parts, parts[i].name, None)
  {
  }

  lemma PartDeletionRefused(s: Db, q: Request)
    requires q.op.AcceptPartDeletion? && Decide(s, q).Refused?
    ensures Cause(s, q, Decide(s, q).why)
  {
    hide FindPart; hide OnlyLive; hide NameCause; hide IsAgent; hide HasLiveContract;
    LookupCause(s, q.op.name);
    if FindPart(s, q.op.name).Ok? {
      assert DeletionCause(s, FindPart(s, q.op.name).value, q, Decide(s, q).why) || Malformed(q.op);
    }
  }

  // ---------- Contracts ----------

  // The rule checks refuse in one way.
  lemma RuleRefusals(s: Db, shape: Shape, owner: nat, counterparty: nat)
    requires owner < |s.parts| && counterparty < |s.parts|
    ensures RegistrationRule(s, shape, owner, counterparty) in {None, Some(Unprocessable)}
    ensures ShapeRule(s, shape, owner, counterparty) in {None, Some(Unprocessable)}
    ensures EndpointRule(s, shape, owner, counterparty) in {None, Some(Unprocessable)}
  {
  }

  lemma BodyRefused(log: Log, body: BodyMove, actor: Option<Actor>, now: Time)
    requires MoveLog(log, body, actor, now).Refused?
    ensures BodyCause(log, body, actor, MoveLog(log, body, actor, now).why)
            || (BadVersion(body) && MoveLog(log, body, actor, now).why.Unprocessable?)
  {
    hide Less;
    match body
    case ProposeBody(v, markdown) => ProposeIff(log, v, markdown, actor, now);
    case AcceptBody(target, single) =>
      var found, stable := FindExact(log, target), FindExact(log, target.Stable());
      hide FindExact;
      if found.Some? { assert log[found.value] in log; }
      if stable.Some? { assert log[stable.value] in log; }
  }

  lemma ShapeRefused(s: Db, q: Request)
    requires Inv(s) && (q.op.ProposeContractShape? || q.op.AcceptContractShape?) && Decide(s, q).Refused?
    ensures Cause(s, q, Decide(s, q).why)
  {
    hide Constraints; hide ShapeRule; hide MayJoin; hide FreeEdge; hide LogOk;
    var j := q.op.contract;
    if j < |s.contracts| {
      var c := s.contracts[j];
      assert ContractOk(c, |s.parts|, s.clock);
      if q.op.ProposeContractShape? {
        RulesIff(s, q.op.shape, c.owner, c.counterparty);
        RuleRefusals(s, q.op.shape, c.owner, c.counterparty);
      } else if q.op.row < |c.shapeProposals| {
        var target := c.shapeProposals[q.op.row].change.target;
        RulesIff(s, target, c.owner, c.counterparty);
        RuleRefusals(s, target, c.owner, c.counterparty);
      }
    }
  }

  lemma BodyRequestRefused(s: Db, q: Request)
    requires q.op.ContractBody? && Decide(s, q).Refused?
    ensures Cause(s, q, Decide(s, q).why)
  {
    hide MoveLog; hide BodyCause;
    if q.op.contract < |s.contracts| {
      var log := s.contracts[q.op.contract].log;
      if MoveLog(log, q.op.body, q.actor, s.clock + 1).Refused? {
        BodyRefused(log, q.op.body, q.actor, s.clock + 1);
      }
    }
  }

  lemma ContractDeletionRefused(s: Db, q: Request)
    requires (q.op.ProposeContractDeletion? || q.op.AcceptContractDeletion?) && Decide(s, q).Refused?
    ensures Cause(s, q, Decide(s, q).why)
  {
  }

  lemma DirectRefused(s: Db, q: Request)
    requires Inv(s) && Direct(q.op) && Decide(s, q).Refused?
    ensures Cause(s, q, Decide(s, q).why)
  {
    hide Inv; hide Decide; hide Cause;
    match q.op
    case ProposeContractShape(_, _, _) => ShapeRefused(s, q);
    case AcceptContractShape(_, _, _) => ShapeRefused(s, q);
    case ContractBody(_, _) => BodyRequestRefused(s, q);
    case _ => ContractDeletionRefused(s, q);
  }

  lemma MoveRefused(s: Db, j: nat, c: Contract, change: EndpointChange, why: Refusal)
    requires ChangeInRange(change, |s.parts|) && c.owner < |s.parts| && c.counterparty < |s.parts|
    requires var owner, counterparty := TargetOwner(c, change), TargetCounterparty(c, change);
             || CheckTargets(c, change) == Some(why) || EndpointRule(s, c.shape, owner, counterparty) == Some(why)
             || (EdgeTaken(s.contracts, owner, counterparty, c.shape, Some(j)) && why == Conflict)
    ensures MoveCause(s, j, c, TargetOwner(c, change), TargetCounterparty(c, change), why)
  {
    hide EndpointRule; hide EdgeTaken; hide FreeEdge; hide MayJoin;
    var owner, counterparty := TargetOwner(c, change), TargetCounterparty(c, change);
    RulesIff(s, c.shape, owner, counterparty);
    RuleRefusals(s, c.shape, owner, counterparty);
    FreeEdgeIff(s.contracts, owner, counterparty, c.shape, Some(j));
  }

  lemma SideRefused(s: Db, name: Option<string>)
    requires NamesUnique(s.parts) && ResolveSide(s, name).Refused?
    ensures ResolveSide(s, name).why == NotFound && name.Some? && NoneLive(s.parts, name.value)
  {
    hide FindLive;
    LiveNameIsOne(s.parts, name.value);
  }

  lemma ShiftRefused(s: Db, q: Request)
    requires Inv(s) && q.op.ProposeContractEndpoints? && Decide(s, q).Refused?
    ensures Cause(s, q, Decide(s, q).why)
  {
    hide Constraints; hide IsSlug; hide ResolveSide; hide EndpointRule; hide EdgeTaken; hide LogOk; hide CheckTargets;
    hide MoveCause; hide NoneLive; hide LeadsTo;
    var j := q.op.contract;
    if j < |s.contracts| && !Malformed(q.op) {
      var c := s.contracts[j];
      assert ContractOk(c, |s.parts|, s.clock);
      UniqueNames(s);
      if ResolveSide(s, q.op.newOwner).Refused? { SideRefused(s, q.op.newOwner); }
      if ResolveSide(s, q.op.newCounterparty).Refused? { SideRefused(s, q.op.newCounterparty); }
      if c.Live() && ChangeOf(s, c, q.op).Some? {
        var change := ChangeOf(s, c, q.op).value;
        SideResolves(s, q.op.newOwner, c.owner);
        SideResolves(s, q.op.newCounterparty, c.counterparty);
        MoveRefused(s, j, c, change, Decide(s, q).why);
        assert ShiftCause(s, j, c, q, TargetOwner(c, change), TargetCounterparty(c, change), Decide(s, q).why);
      }
    }
  }

  lemma AcceptShiftRefused(s: Db, q: Request)
    requires Inv(s) && q.op.AcceptContractEndpoints? && Decide(s, q).Refused?
    ensures Cause(s, q, Decide(s, q).why)
  {
    hide Constraints; hide EndpointRule; hide EdgeTaken; hide LogOk; hide CheckTargets; hide MoveCause;
    var j := q.op.contract;
    if j < |s.contracts| && s.contracts[j].Live() {
      var c := s.contracts[j];
      assert ContractOk(c, |s.parts|, s.clock);
      if CheckAcceptable(c.endpointProposals, q.op.row, q.actor, q.op.single).None? {
        MoveRefused(s, j, c, c.endpointProposals[q.op.row].change, Decide(s, q).why);
      }
    }
  }

  // ---------- The others ----------

  lemma RegistrationRefused(s: Db, q: Request)
    requires Inv(s) && q.op.RegisterContract? && Decide(s, q).Refused?
    ensures Cause(s, q, Decide(s, q).why)
  {
    hide Inv; hide IsSlug; hide FindLive; hide RegistrationRule; hide EdgeTaken; hide FreeEdge; hide MayJoin;
    hide LiveNamed;
    UniqueNames(s);
    LiveNameIsOne(s.parts, q.op.ownerName);
    LiveNameIsOne(s.parts, q.op.counterpartyName);
    var owner, counterparty := FindLive(s.parts, q.op.ownerName), FindLive(s.parts, q.op.counterpartyName);
    if owner.Some? && counterparty.Some? && !Malformed(q.op) {
      var a, b := owner.value, counterparty.value;
      RulesIff(s, q.op.shape, a, b);
      RuleRefusals(s, q.op.shape, a, b);
      FreeEdgeIff(s.contracts, a, b, q.op.shape, None);
      assert RegistrationCause(s, q, a, b, Decide(s, q).why);
    }
  }

  lemma OtherRefused(s: Db, q: Request)
    requires Inv(s) && Decide(s, q).Refused?
    requires q.op.RegisterPart? || q.op.TemplateBody? || q.op.RegisterAgent? || q.op.RevokeAgent?
    ensures Cause(s, q, Decide(s, q).why)
  {
    hide Inv; hide IsSlug; hide AliasesOk; hide NameTaken; hide FreeName; hide IsAgent; hide MoveLog; hide BodyCause;
    match q.op
    case RegisterPart(name, _, _, _, _) => FreeNameIff(s.parts, name, None);
    case TemplateBody(kind, body) =>
      if kind in s.templates && MoveLog(s.templates[kind], body, q.actor, s.clock + 1).Refused? {
        BodyRefused(s.templates[kind], body, q.actor, s.clock + 1);
      }
    case _ =>
  }

  lemma CollisionCause(s: Db, q: Request)
    requires Inv(s) && Decide(s, q).Ok? && ShapeCollides(s, Decide(s, q).value)
    ensures Cause(s, q, ConstraintFailed)
  {
    hide Inv; hide EdgeTaken; hide FreeEdge; hide ShapeRule; hide MayJoin; hide MoveLog; hide FindLive; hide FindPart;
    hide EndpointRule; hide RegistrationRule; hide LatestPartVersion; hide Less; hide IsSlug; hide AliasesOk;
    var e := Decide(s, q).value;
    var c := s.contracts[e.contract];
    FreeEdgeIff(s.contracts, c.owner, c.counterparty, c.shapeProposals[e.contractMove.row].change.target,
        Some(e.contract));
  }

  /** No request is refused without a cause of the kind it is told. */
  lemma RefusedForCause(s: Db, q: Request)
    requires Inv(s) && Step(s, q).Rejected?
    ensures Cause(s, q, Step(s, q).why)
  {
    hide Inv; hide Decide; hide Apply; hide Cause; hide Constraints; hide ShapeCollides;
    if Decide(s, q).Ok? {
      Committed(s, q);
      CollisionCause(s, q);
    } else if OnPart(q.op) {
      PartRefused(s, q);
    } else if Direct(q.op) {
      DirectRefused(s, q);
    } else {
      match q.op
      case ProposeContractEndpoints(_, _, _, _) => ShiftRefused(s, q);
      case AcceptContractEndpoints(_, _, _) => AcceptShiftRefused(s, q);
      case AcceptPartDeletion(_, _, _, _) => PartDeletionRefused(s, q);
      case RegisterContract(_, _, _, _, _) => RegistrationRefused(s, q);
      case _ => OtherRefused(s, q);
    }
  }
}
