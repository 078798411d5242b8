/** The graph over all runs: source/target rules, live endpoints, and what a part deletion and an
    impact preview touch. */
module Graph {
  import opened Common
  import opened Handshake
  import opened Invariants
  import opened Lifting
  import opened Records
  import opened Rules
  import opened State
  import opened VersionLog

  // ---------- Source/target rules ----------

  predicate RuleKept(s: Db, c: Contract)
    requires EndpointsExist(s, c)
  {
    RuleHolds(ConnectionRules, c.shape.subtype, c.shape.connectionType, s.parts[c.owner].subtype,
        s.parts[c.counterparty].subtype)
  }

  /** The time of a contract's registration or of its last accepted subtype or endpoint shift. */
  function LastOwnShift(c: Contract): Time {
    var shape := if c.shapeShift.Some? then c.shapeShift.value.at else 0;
    var ends := if c.endpointShift.Some? then c.endpointShift.value.at else 0;
    if c.createdAt >= shape && c.createdAt >= ends then c.createdAt else if shape >= ends then shape else ends
  }

  predicate ShiftedAfter(p: Part, t: Time) {
    p.subtypeShift.Some? && t < p.subtypeShift.value.at
  }

  predicate RuleExcused(s: Db, c: Contract) {
    EndpointsExist(s, c) &&
    (RuleKept(s, c) || ShiftedAfter(s.parts[c.owner], LastOwnShift(c))
        || ShiftedAfter(s.parts[c.counterparty], LastOwnShift(c)))
  }

  ghost predicate RulesExcused(s: Db) {
    forall j | 0 <= j < |s.contracts| :: RuleExcused(s, s.contracts[j])
  }

  // A part whose subtype changes now has its shift stamped now; otherwise both stay.
  ghost predicate SubtypeStep(p: Part, p': Part, now: Time) {
    || (p'.subtype == p.subtype && p'.subtypeShift == p.subtypeShift)
    || (p'.subtypeShift.Some? && p'.subtypeShift.value.at == now)
  }

  lemma SubtypeSteps(s: Db, e: Effect, actor: Option<Actor>, i: nat)
    requires Enabled(s, e, actor) && i < |s.parts|
    ensures i < |Apply(s, e, actor).parts| && SubtypeStep(s.parts[i], Apply(s, e, actor).parts[i], s.clock + 1)
  {
    hide Apply; hide Enabled; hide CheckAcceptable;
    PartAfter(s, e, actor, i);
  }

  // A row whose shape and endpoints did not change stays excused.
  lemma ExcuseStays(s: Db, s': Db, c: Contract, c': Contract)
    requires RuleExcused(s, c) && EndpointsExist(s', c)
    requires SubtypeStep(s.parts[c.owner], s'.parts[c.owner], s.clock + 1)
    requires SubtypeStep(s.parts[c.counterparty], s'.parts[c.counterparty], s.clock + 1)
    requires c.SameEdge(c') && LastOwnShift(c') == LastOwnShift(c) <= s.clock
    ensures RuleExcused(s', c')
  {
  }

  lemma MoveExcused(s: Db, e: Effect, actor: Option<Actor>)
    requires Inv(s) && Enabled(s, e, actor) && e.SetContract? && RuleExcused(s, s.contracts[e.contract])
    ensures RuleExcused(Apply(s, e, actor), MoveContract(s.contracts[e.contract], e.contractMove, actor, s.clock + 1))
  {
    hide MoveLog; hide CheckAcceptable; hide ConnectionRules; hide Constraints; hide PartOk; hide LogOk; hide RowsOk;
    hide RuleHolds; hide CheckRegistration; hide CheckShapeShift; hide CheckEndpointShift; hide EdgeTaken;
    var s' := Apply(s, e, actor);
    var c, m := s.contracts[e.contract], e.contractMove;
    var c' := MoveContract(c, m, actor, s.clock + 1);
    assert ContractOk(c, |s.parts|, s.clock);
    if m.AcceptShape? || m.AcceptEndpoints? {
      ChecksAgree(ConnectionRules, c'.shape.subtype, c'.shape.connectionType,
                  s.parts[c'.owner].subtype, s.parts[c'.counterparty].subtype);
      assert RuleKept(s', c');
    } else {
      assert LastOwnShift(c') == LastOwnShift(c);
    }
  }

  lemma NewContractKept(s: Db, e: Effect, actor: Option<Actor>)
    requires Enabled(s, e, actor) && e.AddContract?
    ensures |Apply(s, e, actor).contracts| == |s.contracts| + 1
    ensures EndpointsExist(Apply(s, e, actor), Apply(s, e, actor).contracts[|s.contracts|])
    ensures RuleKept(Apply(s, e, actor), Apply(s, e, actor).contracts[|s.contracts|])
  {
    hide RuleHolds; hide CheckRegistration;
    ChecksAgree(ConnectionRules, e.shape.subtype, e.shape.connectionType,
                s.parts[e.owner].subtype, s.parts[e.counterparty].subtype);
  }

  lemma ExcusedExists(s: Db, c: Contract)
    requires RuleExcused(s, c)
    ensures EndpointsExist(s, c)
  {
  }

  lemma KeptIsExcused(s: Db, c: Contract)
    requires EndpointsExist(s, c) && RuleKept(s, c)
    ensures RuleExcused(s, c)
  {
  }

  lemma EffectExcused(s: Db, e: Effect, actor: Option<Actor>, j: nat)
    requires Inv(s) && RulesExcused(s) && Enabled(s, e, actor) && j < |Apply(s, e, actor).contracts|
    ensures RuleExcused(Apply(s, e, actor), Apply(s, e, actor).contracts[j])
  {
    hide Apply; hide Enabled; hide RuleKept; hide MoveContract; hide ContractMoveEnabled; hide Constraints; hide LogOk;
    hide PartOk; hide RowsOk; hide RuleExcused;
    TableSizes(s, e, actor);
    if j == |s.contracts| {
      NewContractKept(s, e, actor);
      KeptIsExcused(Apply(s, e, actor), Apply(s, e, actor).contracts[j]);
    } else {
      var c := s.contracts[j];
      assert RuleExcused(s, c) && ContractOk(c, |s.parts|, s.clock);
      ContractAfter(s, e, actor, j);
      if e.SetContract? && e.contract == j {
        MoveWrites(s, e, actor);
        MoveExcused(s, e, actor);
      } else {
        ExcusedExists(s, c);
        SubtypeSteps(s, e, actor, c.owner);
        SubtypeSteps(s, e, actor, c.counterparty);
        ExcuseStays(s, Apply(s, e, actor), c, Apply(s, e, actor).contracts[j]);
      }
    }
  }

  lemma MoveWrites(s: Db, e: Effect, actor: Option<Actor>)
    requires Enabled(s, e, actor) && e.SetContract?
    ensures e.contract < |s.contracts|
    ensures Apply(s, e, actor).contracts
            == s.contracts[e.contract := MoveContract(s.contracts[e.contract], e.contractMove, actor, s.clock + 1)]
  {
  }

  /** In every reachable catalog a contract, live or deleted, breaks its source/target rule only if
      a subtype shift of one of its endpoints was accepted after the contract's registration and
      after its own last accepted shift. */
  lemma {:induction false} RuleBreaksOnlyAfterEndpointShift(s: Db, qs: seq<Request>)
    requires Installed(s)
    ensures RulesExcused(Run(s, qs))
  {
    if qs == [] {
    } else {
      hide After; hide Inv; hide Run; hide Decide; hide Apply; hide Enabled; hide RuleExcused; hide Installed;
      var init, q := qs[..|qs| - 1], qs[|qs| - 1];
      RuleBreaksOnlyAfterEndpointShift(s, init);
      InstalledInv(s);
      RunKeepsInv(s, init);
      RunUnfolds(s, qs);
      AfterIs(Run(s, init), q);
      if Run(s, qs) != Run(s, init) {
        forall j | 0 <= j < |Run(s, qs).contracts| ensures RuleExcused(Run(s, qs), Run(s, qs).contracts[j]) {
          EffectExcused(Run(s, init), Decide(Run(s, init), q).value, q.actor, j);
        }
      }
    }
  }

  // ---------- The impact preview of a part subtype shift ----------

  // The rule of contract c once part i has the given subtype.
  predicate RuleKeptWith(rules: RuleTable, s: Db, c: Contract, i: nat, subtype: PartSubtype)
    requires EndpointsExist(s, c) && i < |s.parts|
  {
    var parts := s.parts[i := s.parts[i].(subtype := subtype)];
    RuleHolds(rules, c.shape.subtype, c.shape.connectionType, parts[c.owner].subtype, parts[c.counterparty].subtype)
  }

  // Contract j touches the part and would break.
  ghost predicate WouldBreak(rules: RuleTable, s: Db, j: nat, i: nat, subtype: PartSubtype)
    requires i < |s.parts|
  {
    j < |s.contracts| && s.contracts[j].Touches(i) && EndpointsExist(s, s.contracts[j])
    && !RuleKeptWith(rules, s, s.contracts[j], i, subtype)
  }

  /** For every rule table the preview reports exactly the touching contracts, live or deleted,
      whose rule fails once the part has the new subtype, each once and in table order. */
  method PartShiftImpact(rules: RuleTable, s: Db, i: nat, subtype: PartSubtype) returns (affected: seq<nat>)
    requires Inv(s) && i < |s.parts|
    ensures forall j: nat :: j in affected <==> WouldBreak(rules, s, j, i, subtype)
    ensures forall a, b | 0 <= a < b < |affected| :: affected[a] < affected[b]
  {
    hide RuleHolds; hide ImpactViolation; hide Constraints; hide LogOk; hide PartOk;
    affected := [];
    for n := 0 to |s.contracts|
      invariant forall j: nat :: j in affected <==> j < n && WouldBreak(rules, s, j, i, subtype)
      invariant forall a, b | 0 <= a < b < |affected| :: affected[a] < affected[b]
    {
      var c := s.contracts[n];
      assert ContractOk(c, |s.parts|, s.clock);
      DistinctEndpoints(s, n);
      if c.owner == i || c.counterparty == i {
        var isOwner := c.owner == i;
        var owner := if isOwner then subtype else s.parts[c.owner].subtype;
        var counterparty := if !isOwner then subtype else s.parts[c.counterparty].subtype;
        ChecksAgree(rules, c.shape.subtype, c.shape.connectionType, owner, counterparty);
        var violation := ImpactViolation(rules, c.shape.subtype, c.shape.connectionType, owner, counterparty);
        if violation.Some? {
          assert forall a | 0 <= a < |affected| :: affected[a] in affected;
          affected := affected + [n];
        }
      }
    }
  }

  lemma DistinctEndpoints(s: Db, j: nat)
    requires Constraints(s) && j < |s.contracts|
    ensures s.contracts[j].owner != s.contracts[j].counterparty
  {
  }

  // The accepted subtype shift breaks the rule of a touching contract.
  ghost predicate BreaksARule(s: Db, e: Effect) {
    && e.SetPart? && e.partMove.AcceptSubtype? && e.part < |s.parts|
    && e.partMove.row < |s.parts[e.part].subtypeProposals|
    && exists j: nat :: WouldBreak(ConnectionRules, s, j, e.part, ShiftTarget(s, e))
  }

  // The subtype an accepted subtype shift leads to.
  function ShiftTarget(s: Db, e: Effect): PartSubtype
    requires e.SetPart? && e.partMove.AcceptSubtype? && e.part < |s.parts|
    requires e.partMove.row < |s.parts[e.part].subtypeProposals|
  {
    s.parts[e.part].subtypeProposals[e.partMove.row].change.target
  }

  // Contract j exists and its rule holds.
  ghost predicate Kept(s: Db, j: nat) {
    j < |s.contracts| && EndpointsExist(s, s.contracts[j]) && RuleKept(s, s.contracts[j])
  }

  ghost predicate RulesKept(s: Db) {
    forall j | 0 <= j < |s.contracts| :: Kept(s, j)
  }

  /** An accepted subtype shift breaks exactly the contracts its preview lists when it is accepted:
      a touching contract keeps its rule if and only if it is not listed, and every other contract
      stays as it was. */
  lemma ShiftBreaksExactlyItsPreview(s: Db, e: Effect, actor: Option<Actor>, j: nat)
    requires Inv(s) && Enabled(s, e, actor) && e.SetPart? && e.partMove.AcceptSubtype? && j < |s.contracts|
    ensures e.part < |s.parts| && e.partMove.row < |s.parts[e.part].subtypeProposals|
    ensures Kept(Apply(s, e, actor), j)
            <==> if s.contracts[j].Touches(e.part) then !WouldBreak(ConnectionRules, s, j, e.part, ShiftTarget(s, e))
                 else Kept(s, j)
  {
    hide RuleHolds; hide ConnectionRules; hide Constraints; hide LogOk; hide RowsOk; hide PartOk; hide CheckAcceptable;
    assert ContractOk(s.contracts[j], |s.parts|, s.clock);
  }

  // Every other effect keeps a kept rule.
  lemma OtherEffectsKeep(s: Db, e: Effect, actor: Option<Actor>, j: nat)
    requires Inv(s) && RulesKept(s) && Enabled(s, e, actor) && !(e.SetPart? && e.partMove.AcceptSubtype?)
    requires j < |Apply(s, e, actor).contracts|
    ensures Kept(Apply(s, e, actor), j)
  {
    hide Apply; hide Enabled; hide RuleKept; hide MoveContract; hide ContractMoveEnabled; hide Inv;
    TableSizes(s, e, actor);
    if j == |s.contracts| {
      NewContractKept(s, e, actor);
    } else {
      var c := s.contracts[j];
      ContractAfter(s, e, actor, j);
      assert Kept(s, j);
      if e.SetContract? && e.contract == j {
        MoveWrites(s, e, actor);
        MoveKept(s, e, actor);
      } else {
        SubtypeStays(s, e, actor, c.owner);
        SubtypeStays(s, e, actor, c.counterparty);
        SameSubtypesSameRule(s, Apply(s, e, actor), c, Apply(s, e, actor).contracts[j]);
      }
    }
  }

  lemma SubtypeStays(s: Db, e: Effect, actor: Option<Actor>, i: nat)
    requires Enabled(s, e, actor) && i < |s.parts| && !(e.SetPart? && e.partMove.AcceptSubtype?)
    ensures i < |Apply(s, e, actor).parts| && Apply(s, e, actor).parts[i].subtype == s.parts[i].subtype
  {
    hide Apply; hide Enabled;
    PartAfter(s, e, actor, i);
  }

  lemma SameSubtypesSameRule(s: Db, s': Db, c: Contract, c': Contract)
    requires EndpointsExist(s, c) && EndpointsExist(s', c) && c.SameEdge(c')
    requires s'.parts[c.owner].subtype == s.parts[c.owner].subtype
    requires s'.parts[c.counterparty].subtype == s.parts[c.counterparty].subtype
    ensures EndpointsExist(s', c') && (RuleKept(s', c') <==> RuleKept(s, c))
  {
  }

  lemma MoveKept(s: Db, e: Effect, actor: Option<Actor>)
    requires Enabled(s, e, actor) && e.SetContract? && e.contract < |s.contracts| && Kept(s, e.contract)
    ensures e.contract < |Apply(s, e, actor).contracts| && Kept(Apply(s, e, actor), e.contract)
  {
    hide MoveLog; hide CheckAcceptable; hide ConnectionRules; hide EdgeTaken;
    hide RuleHolds; hide CheckRegistration; hide CheckShapeShift; hide CheckEndpointShift;
    var c' := MoveContract(s.contracts[e.contract], e.contractMove, actor, s.clock + 1);
    if EndpointsExist(s, c') {
      ChecksAgree(ConnectionRules, c'.shape.subtype, c'.shape.connectionType,
                  s.parts[c'.owner].subtype, s.parts[c'.counterparty].subtype);
    }
  }

  /** If all rules hold, they hold after the effect, unless it is an accepted subtype shift with a
      contract that would break. */
  lemma RulesKeptIff(s: Db, e: Effect, actor: Option<Actor>)
    requires Inv(s) && RulesKept(s) && Enabled(s, e, actor)
    ensures RulesKept(Apply(s, e, actor)) <==> !BreaksARule(s, e)
  {
    hide Apply; hide Enabled; hide Inv; hide Kept; hide WouldBreak;
    var s' := Apply(s, e, actor);
    TableSizes(s, e, actor);
    if e.SetPart? && e.partMove.AcceptSubtype? {
      forall j | 0 <= j < |s.contracts|
        ensures e.part < |s.parts| && e.partMove.row < |s.parts[e.part].subtypeProposals|
        ensures Kept(s', j) <==> !WouldBreak(ConnectionRules, s, j, e.part, ShiftTarget(s, e))
      {
        ShiftBreaksExactlyItsPreview(s, e, actor, j);
        ListedTouches(s, j, e.part, ShiftTarget(s, e));
      }
      forall j: nat | BreaksARule(s, e) && WouldBreak(ConnectionRules, s, j, e.part, ShiftTarget(s, e))
        ensures j < |s.contracts|
      {
        ListedTouches(s, j, e.part, ShiftTarget(s, e));
      }
    } else {
      forall j | 0 <= j < |s'.contracts| ensures Kept(s', j) {
        OtherEffectsKeep(s, e, actor, j);
      }
    }
  }

  lemma ListedTouches(s: Db, j: nat, i: nat, subtype: PartSubtype)
    requires i < |s.parts|
    ensures WouldBreak(ConnectionRules, s, j, i, subtype) ==> j < |s.contracts| && s.contracts[j].Touches(i)
  {
    hide RuleKeptWith;
  }

  // This request commits a subtype shift that breaks a rule.
  ghost predicate StepBreaksARule(s: Db, q: Request) {
    After(s, q) != s && Decide(s, q).Ok? && BreaksARule(s, Decide(s, q).value)
  }

  lemma StepRules(s: Db, q: Request)
    requires Inv(s) && RulesKept(s)
    ensures RulesKept(After(s, q)) <==> !StepBreaksARule(s, q)
  {
    hide After; hide Decide; hide Apply; hide Enabled; hide Inv; hide RulesKept; hide BreaksARule;
    AfterIs(s, q);
    if After(s, q) != s {
      RulesKeptIff(s, Decide(s, q).value, q.actor);
    }
  }

  /** Over a whole run: every contract keeps its rule at every moment if and only if no accepted
      subtype shift had a contract to list in its preview. */
  lemma RulesKeptOverRuns(s: Db, qs: seq<Request>)
    requires Installed(s)
    ensures Always(s, qs, RulesKept) <==> Never(s, qs, StepBreaksARule)
  {
    hide Inv; hide After; hide StepBreaksARule; hide LostExactlyBy; hide Always; hide Never;
    InstalledInv(s);
    assert LostExactlyBy(RulesKept, StepBreaksARule) by { RulesLost(); }
    AlwaysIffNever(s, qs, RulesKept, StepBreaksARule);
  }

  lemma RulesLost()
    ensures LostExactlyBy(RulesKept, StepBreaksARule)
  {
    hide Inv; hide After; hide StepBreaksARule; hide RulesKept;
    forall s: Db, q: Request | Inv(s) && RulesKept(s) ensures RulesKept(After(s, q)) <==> !StepBreaksARule(s, q) {
      StepRules(s, q);
    }
  }

  // ---------- Live endpoints ----------

  predicate EndpointsLive(parts: seq<Part>, c: Contract) {
    c.owner < |parts| && c.counterparty < |parts| && parts[c.owner].Live() && parts[c.counterparty].Live()
  }

  ghost predicate LiveEndpoints(s: Db) {
    forall j | 0 <= j < |s.contracts| && s.contracts[j].Live() :: EndpointsLive(s.parts, s.contracts[j])
  }

  // The parts a change names are all live.
  predicate NamesLiveParts(parts: seq<Part>, change: EndpointChange) {
    && (change.owner.Some? ==> change.owner.value < |parts| && parts[change.owner.value].Live())
    && (change.counterparty.Some? ==> change.counterparty.value < |parts| && parts[change.counterparty.value].Live())
  }

  // The one effect that can give a live contract a deleted endpoint.
  predicate RevivesDeletedPart(s: Db, e: Effect, actor: Option<Actor>)
    requires Enabled(s, e, actor)
  {
    e.SetContract? && e.contractMove.AcceptEndpoints?
    && !NamesLiveParts(s.parts, s.contracts[e.contract].endpointProposals[e.contractMove.row].change)
  }

  lemma DeletedTargetBreaks(s: Db, e: Effect, actor: Option<Actor>)
    requires Inv(s) && Enabled(s, e, actor) && RevivesDeletedPart(s, e, actor)
    ensures !LiveEndpoints(Apply(s, e, actor))
  {
    hide MoveLog; hide CheckAcceptable; hide RegistrationRule; hide ShapeRule; hide EndpointRule; hide Constraints;
    hide PartOk; hide LogOk;
    var c := s.contracts[e.contract];
    assert ContractOk(c, |s.parts|, s.clock);
    assert ChangeInRange(c.endpointProposals[e.contractMove.row].change, |s.parts|);
    assert !EndpointsLive(Apply(s, e, actor).parts, Apply(s, e, actor).contracts[e.contract]);
  }

  lemma MoveKeepsLive(s: Db, e: Effect, actor: Option<Actor>)
    requires Enabled(s, e, actor) && e.SetContract? && !RevivesDeletedPart(s, e, actor)
    requires EndpointsLive(s.parts, s.contracts[e.contract])
    ensures EndpointsLive(s.parts, MoveContract(s.contracts[e.contract], e.contractMove, actor, s.clock + 1))
  {
    hide MoveLog; hide CheckAcceptable; hide RegistrationRule; hide ShapeRule; hide EndpointRule;
  }

  // A part that a live contract touches is deleted only together with the contract.
  lemma PartStaysLive(s: Db, e: Effect, actor: Option<Actor>, i: nat, j: nat)
    requires Enabled(s, e, actor) && i < |s.parts| && s.parts[i].Live()
    requires j < |s.contracts| && s.contracts[j].Live() && s.contracts[j].Touches(i)
    requires j < |Apply(s, e, actor).contracts| && Apply(s, e, actor).contracts[j].Live()
    ensures i < |Apply(s, e, actor).parts| && Apply(s, e, actor).parts[i].Live()
  {
    hide MoveLog; hide CheckAcceptable; hide RegistrationRule; hide ShapeRule; hide EndpointRule; hide MoveContract;
    hide ContractMoveEnabled;
  }

  lemma EffectKeepsLive(s: Db, e: Effect, actor: Option<Actor>, j: nat)
    requires Inv(s) && LiveEndpoints(s) && Enabled(s, e, actor) && !RevivesDeletedPart(s, e, actor)
    requires j < |Apply(s, e, actor).contracts| && Apply(s, e, actor).contracts[j].Live()
    ensures EndpointsLive(Apply(s, e, actor).parts, Apply(s, e, actor).contracts[j])
  {
    TableSizes(s, e, actor);
    if j < |s.contracts| {
      hide Apply; hide Enabled; hide MoveContract; hide ContractMoveEnabled; hide Inv; hide RevivesDeletedPart;
      var c := s.contracts[j];
      ContractAfter(s, e, actor, j);
      LiveWas(s, e, actor, j);
      assert EndpointsLive(s.parts, c);
      PartStaysLive(s, e, actor, c.owner, j);
      PartStaysLive(s, e, actor, c.counterparty, j);
      if e.SetContract? && e.contract == j {
        MoveWrites(s, e, actor);
        PartsUnchanged(s, e, actor);
        MoveKeepsLive(s, e, actor);
      }
    }
  }

  lemma LiveWas(s: Db, e: Effect, actor: Option<Actor>, j: nat)
    requires Enabled(s, e, actor) && j < |s.contracts| && j < |Apply(s, e, actor).contracts|
    requires Apply(s, e, actor).contracts[j].Live()
    ensures s.contracts[j].Live()
  {
    hide MoveLog; hide CheckAcceptable; hide RegistrationRule; hide ShapeRule; hide EndpointRule; hide MoveContract;
  }

  lemma PartsUnchanged(s: Db, e: Effect, actor: Option<Actor>)
    requires Enabled(s, e, actor) && e.SetContract?
    ensures Apply(s, e, actor).parts == s.parts
  {
  }

  /** Live contracts keep live endpoints through every effect, except an accepted endpoint shift
      onto a part that was soft-deleted after the shift was proposed, which always breaks it. */
  lemma LiveEndpointsIff(s: Db, e: Effect, actor: Option<Actor>)
    requires Inv(s) && LiveEndpoints(s) && Enabled(s, e, actor)
    ensures LiveEndpoints(Apply(s, e, actor)) <==> !RevivesDeletedPart(s, e, actor)
  {
    hide Apply; hide Enabled; hide Inv; hide RevivesDeletedPart; hide EndpointsLive;
    var s' := Apply(s, e, actor);
    if RevivesDeletedPart(s, e, actor) {
      DeletedTargetBreaks(s, e, actor);
    } else {
      forall j | 0 <= j < |s'.contracts| && s'.contracts[j].Live() ensures EndpointsLive(s'.parts, s'.contracts[j]) {
        EffectKeepsLive(s, e, actor, j);
      }
    }
  }

  // This request commits an endpoint shift onto a deleted part.
  ghost predicate StepRevives(s: Db, q: Request) {
    After(s, q) != s && Decide(s, q).Ok? && RevivesDeletedPart(s, Decide(s, q).value, q.actor)
  }

  lemma StepLive(s: Db, q: Request)
    requires Inv(s) && LiveEndpoints(s)
    ensures LiveEndpoints(After(s, q)) <==> !StepRevives(s, q)
  {
    hide After; hide Decide; hide Apply; hide Enabled; hide Inv; hide LiveEndpoints; hide RevivesDeletedPart;
    AfterIs(s, q);
    if After(s, q) != s {
      LiveEndpointsIff(s, Decide(s, q).value, q.actor);
    }
  }

  /** Over a whole run: live contracts have live endpoints at every moment if and only if no
      accepted endpoint shift names a part that is deleted when it is accepted. */
  lemma LiveEndpointsOverRuns(s: Db, qs: seq<Request>)
    requires Installed(s)
    ensures Always(s, qs, LiveEndpoints) <==> Never(s, qs, StepRevives)
  {
    hide Inv; hide After; hide StepRevives; hide LostExactlyBy; hide Always; hide Never;
    InstalledInv(s);
    assert LostExactlyBy(LiveEndpoints, StepRevives) by { LiveEndpointsLost(); }
    AlwaysIffNever(s, qs, LiveEndpoints, StepRevives);
  }

  lemma LiveEndpointsLost()
    ensures LostExactlyBy(LiveEndpoints, StepRevives)
  {
    hide Inv; hide After; hide StepRevives; hide LiveEndpoints;
    forall s: Db, q: Request | Inv(s) && LiveEndpoints(s) ensures LiveEndpoints(After(s, q)) <==> !StepRevives(s, q) {
      StepLive(s, q);
    }
  }

  // ---------- Part deletion ----------

  // Contract j after part i was dropped with this stamp.
  function Dropped(c: Contract, i: nat, cascade: bool, stamp: Deletion): Contract {
    if cascade && c.Live() && c.Touches(i) then c.(deleted := Some(stamp)) else c
  }

  // Part p after its deletion proposal k was accepted: the stamp copies the proposal, and of the
  // child rows only that proposal changes.
  function Deleted(p: Part, k: nat, actor: Option<Actor>, cascade: bool, now: Time): Part
    requires k < |p.deletionProposals|
  {
    var row := p.deletionProposals[k];
    var accepted := row.(accepted := Some(Acceptance(now, actor, false, cascade)));
    p.(deleted := Some(Deletion(now, row.proposer, actor, row.rationale, false)),
       deletionProposals := p.deletionProposals[..k] + [accepted] + p.deletionProposals[k + 1..])
  }

  /** Everything that accepting a part deletion asks for: no override; row i is the only one with the
      name, and live; the proposal is open; the acceptor is known, is not the proposer and is not on
      the allowlist; and cascade is set if live contracts touch the part. */
  ghost predicate MayDelete(s: Db, q: Request, i: nat)
    requires q.op.AcceptPartDeletion?
  {
    && !q.op.single && i < |s.parts| && s.parts[i].name == q.op.name && s.parts[i].Live()
    && (forall n | 0 <= n < |s.parts| && n != i :: s.parts[n].name != q.op.name)
    && q.op.row < |s.parts[i].deletionProposals| && s.parts[i].deletionProposals[q.op.row].accepted.None?
    && q.actor.Some? && q.actor != s.parts[i].deletionProposals[q.op.row].proposer && !IsAgent(s.agents, q.actor.value)
    && (HasLiveContract(s.contracts, i) ==> q.op.cascade)
  }

  /** A part deletion is accepted if and only if all of that holds; no constraint aborts it. */
  lemma PartDeletionAcceptedIff(s: Db, q: Request)
    requires Inv(s) && q.op.AcceptPartDeletion?
    ensures After(s, q) != s <==> exists i: nat :: MayDelete(s, q, i)
  {
    hide Inv; hide After; hide Decide; hide Apply; hide Enabled; hide MayDelete;
    AfterIs(s, q);
    DeletionDecidedIff(s, q);
    if Decide(s, q).Ok? {
      DropDecided(s, q);
      DropCommits(s, q);
    }
  }

  lemma DropCommits(s: Db, q: Request)
    requires Inv(s) && Decide(s, q).Ok? && Decide(s, q).value.DropPartEffect?
    ensures After(s, q) != s
  {
    hide Inv; hide Decide; hide Apply; hide Enabled; hide Constraints;
    Committed(s, q);
    TableSizes(s, Decide(s, q).value, q.actor);
  }

  lemma DeletionDecidedIff(s: Db, q: Request)
    requires q.op.AcceptPartDeletion?
    ensures Decide(s, q).Ok? <==> exists i: nat :: MayDelete(s, q, i)
  {
    hide Enabled; hide HasLiveContract; hide IsAgent;
    if Decide(s, q).Ok? {
      var i := FindPart(s, q.op.name).value;
      assert MayDelete(s, q, i);
    }
    if exists i: nat :: MayDelete(s, q, i) {
      var i: nat :| MayDelete(s, q, i);
      assert FindPart(s, q.op.name) == Ok(i);
    }
  }

  /** An accepted part deletion deletes the part, soft-deletes exactly the live touching contracts if
      cascade is set, and changes no other row. Afterwards no live contract touches the part. */
  lemma PartDeletionIsExact(s: Db, q: Request)
    requires Inv(s) && q.op.AcceptPartDeletion? && After(s, q) != s
    ensures Decide(s, q).Ok? && Decide(s, q).value.DropPartEffect?
    ensures var i, k, s' := Decide(s, q).value.part, q.op.row, After(s, q);
            && i < |s.parts| && k < |s.parts[i].deletionProposals|
            && s.parts[i].name == q.op.name && s.parts[i].Live()
            && s'.parts[i] == Deleted(s.parts[i], k, q.actor, q.op.cascade, s'.clock)
            && (forall n | 0 <= n < |s.parts| && n != i :: s'.parts[n] == s.parts[n])
            && |s'.parts| == |s.parts| && |s'.contracts| == |s.contracts|
            && s'.agents == s.agents && s'.templates == s.templates
            && (forall j | 0 <= j < |s.contracts| ::
                  s'.contracts[j] == Dropped(s.contracts[j], i, q.op.cascade,
                      CascadeDeletion(s.parts[i], k, q.actor, s'.clock)))
            && !HasLiveContract(s'.contracts, i)
            && (HasLiveContract(s.contracts, i) ==> q.op.cascade)
  {
    AfterIs(s, q);
    DropDecided(s, q);
    hide Decide; hide After;
    var e := Decide(s, q).value;
    DropApplied(s, e, q.actor);
  }

  lemma DropDecided(s: Db, q: Request)
    requires q.op.AcceptPartDeletion? && Decide(s, q).Ok?
    ensures Decide(s, q).value.DropPartEffect? && Decide(s, q).value.row == q.op.row
        && Decide(s, q).value.cascade == q.op.cascade
    ensures Decide(s, q).value.part < |s.parts| && s.parts[Decide(s, q).value.part].name == q.op.name
  {
    hide Enabled;
  }

  lemma DropApplied(s: Db, e: Effect, actor: Option<Actor>)
    requires Enabled(s, e, actor) && e.DropPartEffect?
    ensures var s' := Apply(s, e, actor);
            && |s'.parts| == |s.parts| && e.row < |s.parts[e.part].deletionProposals|
            && s'.parts[e.part] == Deleted(s.parts[e.part], e.row, actor, e.cascade, s'.clock)
            && (forall n | 0 <= n < |s.parts| && n != e.part :: s'.parts[n] == s.parts[n])
            && |s'.contracts| == |s.contracts|
            && (forall j | 0 <= j < |s.contracts| ::
                  s'.contracts[j] == Dropped(s.contracts[j], e.part, e.cascade,
                      CascadeDeletion(s.parts[e.part], e.row, actor, s'.clock)))
            && !HasLiveContract(s'.contracts, e.part)
  {
  }
}
