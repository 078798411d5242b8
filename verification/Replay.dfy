/** The audit tables explain the present: current names, subtypes and endpoints are the accepted
    shifts replayed, in the order of acceptance, over the registered values. */
module Replay {
  import opened Common
  import opened Handshake
  import opened Invariants
  import opened Records
  import opened Rules
  import opened State
  import opened VersionLog

  /** Replaying whole-value shifts. */
  ghost function Replayed<T>(base: T, ps: seq<Proposal<Change<T>>>): T {
    if ps == [] then base else ps[|ps| - 1].change.target
  }

  /** The shifted_from / shifted_at pair the last of these shifts leaves behind. */
  ghost function ShiftColumns<T>(base: T, ps: seq<Proposal<Change<T>>>): Option<Shifted<T>>
    requires AllAccepted(ps)
  {
    if ps == [] then None
    else Some(Shifted(Replayed(base, ps[..|ps| - 1]), AcceptedAt(ps[|ps| - 1])))
  }

  /** Replaying endpoint shifts, each of which may move one side only. */
  ghost function ReplayedEndpoints(owner: nat, counterparty: nat, ps: seq<Proposal<EndpointChange>>): (nat, nat) {
    if ps == [] then (owner, counterparty)
    else
      var before := ReplayedEndpoints(owner, counterparty, ps[..|ps| - 1]);
      var change := ps[|ps| - 1].change;
      (change.owner.GetOr(before.0), change.counterparty.GetOr(before.1))
  }

  ghost predicate EndpointColumns(shift: Option<EndpointShifted>, ps: seq<Proposal<EndpointChange>>)
    requires AllAccepted(ps)
  {
    if ps == [] then shift.None?
    else
      && shift.Some? && shift.value.at == AcceptedAt(ps[|ps| - 1])
      && (shift.value.fromOwner.Some? <==> ps[|ps| - 1].change.owner.Some?)
      && (shift.value.fromCounterparty.Some? <==> ps[|ps| - 1].change.counterparty.Some?)
  }

  ghost predicate PartReplays(p: Part, name: string, subtype: PartSubtype) {
    && Explains(name, p.nameProposals, p.name, p.nameShift)
    && Explains(subtype, p.subtypeProposals, p.subtype, p.subtypeShift)
  }

  ghost predicate ContractReplays(c: Contract, owner: nat, counterparty: nat, shape: Shape) {
    && Explains(shape, c.shapeProposals, c.shape, c.shapeShift)
    && (c.owner, c.counterparty) == ReplayedEndpoints(owner, counterparty, InAcceptOrder(c.endpointProposals))
    && EndpointColumns(c.endpointShift, InAcceptOrder(c.endpointProposals))
  }

  lemma AcceptAppends<T>(ps: seq<Proposal<T>>, k: nat, stamp: Acceptance, clock: Time)
    requires RowsOk(ps, clock) && k < |ps| && ps[k].accepted.None? && clock < stamp.at
    ensures InAcceptOrder(Accept(ps, k, stamp)) == InAcceptOrder(ps) + [ps[k].(accepted := Some(stamp))]
  {
    forall i | 0 <= i < |ps| && ps[i].accepted.Some? ensures AcceptedAt(ps[i]) < stamp.at {
      assert Dated(ps[i], clock);
    }
    InAcceptOrderOfAccept(ps, k, ps[k].(accepted := Some(stamp)), stamp.at);
  }

  lemma ReplayAppend<T>(base: T, ps: seq<Proposal<Change<T>>>, p: Proposal<Change<T>>)
    requires AllAccepted(ps) && p.accepted.Some?
    ensures Replayed(base, ps + [p]) == p.change.target
    ensures ShiftColumns(base, ps + [p]) == Some(Shifted(Replayed(base, ps), AcceptedAt(p)))
  {
  }

  // A table of whole-value shifts explains a current value and its columns.
  ghost predicate Explains<T>(base: T, ps: seq<Proposal<Change<T>>>, current: T, columns: Option<Shifted<T>>) {
    current == Replayed(base, InAcceptOrder(ps)) && columns == ShiftColumns(base, InAcceptOrder(ps))
  }

  lemma AcceptExplains<T>(base: T, ps: seq<Proposal<Change<T>>>, k: nat, stamp: Acceptance, clock: Time, current: T,
                          columns: Option<Shifted<T>>)
    requires Explains(base, ps, current, columns)
    requires RowsOk(ps, clock) && k < |ps| && ps[k].accepted.None? && clock < stamp.at
    ensures Explains(base, Accept(ps, k, stamp), ps[k].change.target, Some(Shifted(current, stamp.at)))
  {
    AcceptAppends(ps, k, stamp, clock);
    ReplayAppend(base, InAcceptOrder(ps), ps[k].(accepted := Some(stamp)));
  }

  lemma PartMoveReplays(p: Part, m: PartMove, actor: Option<Actor>, clock: Time, name: string, subtype: PartSubtype)
    requires PartOk(p, clock) && PartMoveEnabled(p, m, actor) && PartReplays(p, name, subtype)
    ensures PartReplays(MovePart(p, m, actor, clock + 1), name, subtype)
  {
    var now := clock + 1;
    match m
    case ProposeSubtype(target, rationale) =>
      InAcceptOrderOfOpen(p.subtypeProposals, Open(Change(p.subtype, target), rationale, actor, now));
    case AcceptSubtype(k, single) =>
      AcceptExplains(subtype, p.subtypeProposals, k, Acceptance(now, actor, single, false), clock, p.subtype,
          p.subtypeShift);
    case ProposeName(target, rationale) =>
      InAcceptOrderOfOpen(p.nameProposals, Open(Change(p.name, target), rationale, actor, now));
    case AcceptName(k, single) =>
      AcceptExplains(name, p.nameProposals, k, Acceptance(now, actor, single, false), clock, p.name, p.nameShift);
    case _ =>
  }

  lemma EndpointsAppend(owner: nat, counterparty: nat, ps: seq<Proposal<EndpointChange>>, p: Proposal<EndpointChange>)
    ensures var before := ReplayedEndpoints(owner, counterparty, ps);
            ReplayedEndpoints(owner, counterparty, ps + [p])
            == (p.change.owner.GetOr(before.0), p.change.counterparty.GetOr(before.1))
  {
  }

  lemma ContractMoveReplays(c: Contract, m: ContractMove, actor: Option<Actor>, parts: nat, clock: Time,
                            owner: nat, counterparty: nat, shape: Shape)
    requires ContractOk(c, parts, clock) && ContractMoveEnabled(c, m, actor, clock + 1)
    requires ContractReplays(c, owner, counterparty, shape)
    ensures ContractReplays(MoveContract(c, m, actor, clock + 1), owner, counterparty, shape)
  {
    var now := clock + 1;
    match m
    case ProposeShape(target, rationale) =>
      InAcceptOrderOfOpen(c.shapeProposals, Open(Change(c.shape, target), rationale, actor, now));
    case AcceptShape(k, single) =>
      AcceptExplains(shape, c.shapeProposals, k, Acceptance(now, actor, single, false), clock, c.shape, c.shapeShift);
    case ProposeEndpoints(change, rationale) =>
      InAcceptOrderOfOpen(c.endpointProposals, Open(change, rationale, actor, now));
    case AcceptEndpoints(k, single, _, _) =>
      var stamp := Acceptance(now, actor, single, false);
      AcceptAppends(c.endpointProposals, k, stamp, clock);
      EndpointsAppend(owner, counterparty, InAcceptOrder(c.endpointProposals),
          c.endpointProposals[k].(accepted := Some(stamp)));
    case _ =>
  }

  lemma PartReplayStep(s: Db, e: Effect, actor: Option<Actor>, i: nat, name: string, subtype: PartSubtype)
    requires Inv(s) && Enabled(s, e, actor) && i < |s.parts| && PartReplays(s.parts[i], name, subtype)
    ensures i < |Apply(s, e, actor).parts| && PartReplays(Apply(s, e, actor).parts[i], name, subtype)
  {
    hide Apply; hide Enabled; hide PartOk; hide MovePart; hide PartMoveEnabled; hide Explains; hide Constraints;
    PartAfter(s, e, actor, i);
    if e.SetPart? && e.part == i && s.parts[i] != Apply(s, e, actor).parts[i] {
      PartMoveReplays(s.parts[i], e.partMove, actor, s.clock, name, subtype);
    }
  }

  lemma ContractReplayStep(s: Db, e: Effect, actor: Option<Actor>, j: nat, owner: nat, counterparty: nat, shape: Shape)
    requires Inv(s) && Enabled(s, e, actor) && j < |s.contracts|
    requires ContractReplays(s.contracts[j], owner, counterparty, shape)
    ensures j < |Apply(s, e, actor).contracts|
    ensures ContractReplays(Apply(s, e, actor).contracts[j], owner, counterparty, shape)
  {
    hide Apply; hide Enabled; hide ContractOk; hide MoveContract; hide ContractMoveEnabled; hide Explains;
    hide EndpointColumns; hide Constraints; hide InAcceptOrder; hide ReplayedEndpoints;
    ContractAfter(s, e, actor, j);
    if e.SetContract? && e.contract == j && s.contracts[j] != Apply(s, e, actor).contracts[j] {
      ContractMoveReplays(s.contracts[j], e.contractMove, actor, |s.parts|, s.clock, owner, counterparty, shape);
    }
  }

  /** Request k of the run was accepted and registered part i, with the values its present state
      replays from. */
  ghost predicate PartComesFrom(s: Db, qs: seq<Request>, i: nat, k: nat) {
    && k < |qs| && qs[k].op.RegisterPart?
    && |Run(s, qs[..k]).parts| == i && |Run(s, qs[..k + 1]).parts| == i + 1
    && i < |Run(s, qs).parts|
    && PartReplays(Run(s, qs).parts[i], qs[k].op.name, qs[k].op.subtype)
  }

  lemma NewPartReplays(s: Db, q: Request)
    requires |After(s, q).parts| > |s.parts|
    ensures q.op.RegisterPart? && |After(s, q).parts| == |s.parts| + 1
    ensures PartReplays(After(s, q).parts[|s.parts|], q.op.name, q.op.subtype)
  {
    hide Decide; hide Enabled; hide After; hide MovePart; hide DropPart; hide Constraints;
    AfterIs(s, q);
    TableSizes(s, Decide(s, q).value, q.actor);
  }

  lemma PartComesFromLater(s: Db, qs: seq<Request>, i: nat, k: nat)
    requires qs != [] && Inv(Run(s, qs[..|qs| - 1])) && PartComesFrom(s, qs[..|qs| - 1], i, k)
    ensures PartComesFrom(s, qs, i, k)
  {
    hide After; hide Inv; hide PartReplays; hide Run; hide Decide; hide Apply; hide Enabled;
    var init, q := qs[..|qs| - 1], qs[|qs| - 1];
    RunUnfolds(s, qs);
    AfterIs(Run(s, init), q);
    assert init[..k] == qs[..k] && init[..k + 1] == qs[..k + 1];
    if Run(s, qs) != Run(s, init) {
      PartReplayStep(Run(s, init), Decide(Run(s, init), q).value, q.actor, i, init[k].op.name, init[k].op.subtype);
    }
  }

  /** In every reachable catalog each part was registered by one request of the run, and its name
      and subtype and their shifted_from / shifted_at columns are its accepted shifts replayed, in
      accept order, over that request's values. */
  lemma PartsReplay(s: Db, qs: seq<Request>, i: nat)
    requires Installed(s) && i < |Run(s, qs).parts|
    ensures exists k: nat :: PartComesFrom(s, qs, i, k)
  {
    hide After; hide Inv; hide PartReplays;
    var init, q := qs[..|qs| - 1], qs[|qs| - 1];
    InstalledInv(s);
    RunKeepsInv(s, init);
    RunUnfolds(s, qs);
    if i < |Run(s, init).parts| {
      PartsReplay(s, init, i);
      var k: nat :| PartComesFrom(s, init, i, k);
      PartComesFromLater(s, qs, i, k);
    } else {
      NewPartReplays(Run(s, init), q);
      assert qs[..|qs| - 1 + 1] == qs;
      assert PartComesFrom(s, qs, i, |qs| - 1);
    }
  }

  /** Request k of the run was accepted and registered contract j between these parts, found by name at the time. */
  ghost predicate ContractComesFrom(s: Db, qs: seq<Request>, j: nat, k: nat, owner: nat, counterparty: nat) {
    && k < |qs| && qs[k].op.RegisterContract?
    && |Run(s, qs[..k]).contracts| == j && |Run(s, qs[..k + 1]).contracts| == j + 1
    && FindLive(Run(s, qs[..k]).parts, qs[k].op.ownerName) == Some(owner)
    && FindLive(Run(s, qs[..k]).parts, qs[k].op.counterpartyName) == Some(counterparty)
    && j < |Run(s, qs).contracts|
    && ContractReplays(Run(s, qs).contracts[j], owner, counterparty, qs[k].op.shape)
  }

  lemma NewContractReplays(s: Db, q: Request) returns (owner: nat, counterparty: nat)
    requires |After(s, q).contracts| > |s.contracts|
    ensures q.op.RegisterContract? && |After(s, q).contracts| == |s.contracts| + 1
    ensures FindLive(s.parts, q.op.ownerName) == Some(owner)
    ensures FindLive(s.parts, q.op.counterpartyName) == Some(counterparty)
    ensures ContractReplays(After(s, q).contracts[|s.contracts|], owner, counterparty, q.op.shape)
  {
    hide Decide; hide Enabled; hide After; hide MoveContract; hide FindLive; hide Constraints;
    AfterIs(s, q);
    TableSizes(s, Decide(s, q).value, q.actor);
    owner, counterparty := Decide(s, q).value.owner, Decide(s, q).value.counterparty;
  }

  lemma ContractComesFromLater(s: Db, qs: seq<Request>, j: nat, k: nat, owner: nat, counterparty: nat)
    requires qs != [] && Inv(Run(s, qs[..|qs| - 1])) && ContractComesFrom(s, qs[..|qs| - 1], j, k, owner, counterparty)
    ensures ContractComesFrom(s, qs, j, k, owner, counterparty)
  {
    hide After; hide Inv; hide ContractReplays; hide Run; hide Decide; hide Apply; hide Enabled; hide FindLive;
    var init, q := qs[..|qs| - 1], qs[|qs| - 1];
    RunUnfolds(s, qs);
    AfterIs(Run(s, init), q);
    assert init[..k] == qs[..k] && init[..k + 1] == qs[..k + 1];
    if Run(s, qs) != Run(s, init) {
      ContractReplayStep(Run(s, init), Decide(Run(s, init), q).value, q.actor, j, owner, counterparty,
          init[k].op.shape);
    }
  }

  /** The same for contracts: endpoints, subtype and connection_type. */
  lemma ContractsReplay(s: Db, qs: seq<Request>, j: nat)
    requires Installed(s) && j < |Run(s, qs).contracts|
    ensures exists k: nat, owner: nat, counterparty: nat :: ContractComesFrom(s, qs, j, k, owner, counterparty)
  {
    hide After; hide Inv; hide ContractReplays; hide FindLive;
    var init, q := qs[..|qs| - 1], qs[|qs| - 1];
    InstalledInv(s);
    RunKeepsInv(s, init);
    RunUnfolds(s, qs);
    if j < |Run(s, init).contracts| {
      ContractsReplay(s, init, j);
      var k: nat, owner: nat, counterparty: nat :| ContractComesFrom(s, init, j, k, owner, counterparty);
      ContractComesFromLater(s, qs, j, k, owner, counterparty);
    } else {
      var owner, counterparty := NewContractReplays(Run(s, init), q);
      assert qs[..|qs| - 1 + 1] == qs;
      assert ContractComesFrom(s, qs, j, |qs| - 1, owner, counterparty);
    }
  }

  /** The columns an accepted endpoint shift leaves: for each side it moved, the name that the part
      on that side had when the shift was accepted. */
  ghost predicate ShiftLeaves(s: Db, q: Request, j: nat, shift: Option<EndpointShifted>) {
    && q.op.AcceptContractEndpoints? && q.op.contract == j < |s.contracts| && EndpointsExist(s, s.contracts[j])
    && q.op.row < |s.contracts[j].endpointProposals|
    && var c, change := s.contracts[j], s.contracts[j].endpointProposals[q.op.row].change;
    && shift == Some(EndpointShifted(
         if change.owner.Some? then Some(s.parts[c.owner].name) else None,
         if change.counterparty.Some? then Some(s.parts[c.counterparty].name) else None, s.clock + 1))
  }

  lemma EndpointAcceptsDecided(s: Db, q: Request)
    requires Decide(s, q).Ok? && Decide(s, q).value.SetContract? && Decide(s, q).value.contractMove.AcceptEndpoints?
    ensures q.op.AcceptContractEndpoints? && q.op.contract == Decide(s, q).value.contract
    ensures q.op.row == Decide(s, q).value.contractMove.row
  {
    hide Enabled; hide MoveLog; hide CheckAcceptable; hide RegistrationRule; hide ShapeRule; hide EndpointRule;
    hide EdgeTaken; hide CheckTargets; hide FindLive;
  }

  lemma EndpointColumnsStep(s: Db, q: Request, j: nat)
    requires j < |s.contracts|
    ensures j < |After(s, q).contracts|
    ensures After(s, q).contracts[j].endpointShift == s.contracts[j].endpointShift
            || ShiftLeaves(s, q, j, After(s, q).contracts[j].endpointShift)
  {
    hide Decide; hide After; hide Constraints; hide Inv; hide ShiftLeaves; hide Apply; hide Enabled;
    AfterIs(s, q);
    if After(s, q) != s {
      EndpointColumnsEffect(s, Decide(s, q).value, q.actor, j);
      var e := Decide(s, q).value;
      if e.SetContract? && e.contractMove.AcceptEndpoints? {
        EndpointAcceptsDecided(s, q);
        if e.contract == j {
          EndpointColumnsLeft(s, q, j);
        }
      }
    }
  }

  // Only an accepted endpoint shift of the contract writes the columns.
  lemma EndpointColumnsEffect(s: Db, e: Effect, actor: Option<Actor>, j: nat)
    requires Enabled(s, e, actor) && j < |s.contracts|
    ensures j < |Apply(s, e, actor).contracts|
    ensures Apply(s, e, actor).contracts[j].endpointShift == s.contracts[j].endpointShift
            || (e.SetContract? && e.contract == j && e.contractMove.AcceptEndpoints?)
  {
    hide Apply; hide Enabled; hide MoveLog; hide CheckAcceptable;
    ContractAfter(s, e, actor, j);
  }

  lemma EndpointColumnsLeft(s: Db, q: Request, j: nat)
    requires Decide(s, q).Ok? && Decide(s, q).value.SetContract? && Decide(s, q).value.contractMove.AcceptEndpoints?
    requires Decide(s, q).value.contract == j && After(s, q) == Apply(s, Decide(s, q).value, q.actor)
    requires q.op.AcceptContractEndpoints? && q.op.contract == j && q.op.row == Decide(s, q).value.contractMove.row
    ensures j < |After(s, q).contracts| && ShiftLeaves(s, q, j, After(s, q).contracts[j].endpointShift)
  {
    hide Decide; hide After; hide MoveLog; hide CheckAcceptable; hide RegistrationRule; hide ShapeRule;
    hide EndpointRule; hide EdgeTaken; hide CheckTargets;
  }

  // Request m of the run was accepted and left the columns that contract j has now.
  ghost predicate ColumnsComeFrom(s: Db, qs: seq<Request>, j: nat, m: nat) {
    && m < |qs| && j < |Run(s, qs).contracts| && After(Run(s, qs[..m]), qs[m]) != Run(s, qs[..m])
    && ShiftLeaves(Run(s, qs[..m]), qs[m], j, Run(s, qs).contracts[j].endpointShift)
  }

  /** In every reachable catalog the endpoint_shifted_from columns are empty, or name the parts a
      contract joined just before the accept, of this run, that wrote them. */
  lemma EndpointColumnsReplay(s: Db, qs: seq<Request>, j: nat)
    requires Installed(s) && j < |Run(s, qs).contracts|
    ensures Run(s, qs).contracts[j].endpointShift.None? || exists m: nat :: ColumnsComeFrom(s, qs, j, m)
  {
    hide After; hide Run; hide Inv; hide ShiftLeaves; hide FindLive; hide ContractReplays;
    if qs == [] {
      RunNone(s);
    } else {
      var init, q := qs[..|qs| - 1], qs[|qs| - 1];
      RunUnfolds(s, qs);
      if j < |Run(s, init).contracts| {
        EndpointColumnsReplay(s, init, j);
        EndpointColumnsStep(Run(s, init), q, j);
        if Run(s, qs).contracts[j].endpointShift != Run(s, init).contracts[j].endpointShift {
          assert ColumnsComeFrom(s, qs, j, |qs| - 1);
        } else if Run(s, qs).contracts[j].endpointShift.Some? {
          var m: nat :| ColumnsComeFrom(s, init, j, m);
          assert init[..m] == qs[..m];
          assert ColumnsComeFrom(s, qs, j, m);
        }
      } else {
        NewContractColumns(Run(s, init), q);
      }
    }
  }

  lemma NewContractColumns(s: Db, q: Request)
    requires |After(s, q).contracts| > |s.contracts|
    ensures |After(s, q).contracts| == |s.contracts| + 1 && After(s, q).contracts[|s.contracts|].endpointShift.None?
  {
    hide Decide; hide Enabled; hide After; hide MoveContract; hide Constraints;
    AfterIs(s, q);
    TableSizes(s, Decide(s, q).value, q.actor);
  }
}
