/** The whole catalog as a state machine: what each request checks (Decide), what it writes
    (Apply), the commit that the database constraints guard (Step), and runs of requests. */
module State {
  import opened Common
  import opened Handshake
  import opened Records
  import opened Rules
  import opened Versioning
  import opened VersionLog

  datatype Revocation = Revocation(at: Time, actor: Option<Actor>, rationale: string)

  datatype AgentRow = AgentRow(actor: Actor, registeredBy: Option<Actor>, registeredAt: Time,
      revoked: Option<Revocation>)

  datatype TemplateKind = PartKind(part: PartSubtype) | ContractKind(contract: ContractSubtype)

  // Row ids are positions: a row is never removed from its table.
  datatype Db = Db(parts: seq<Part>, contracts: seq<Contract>, agents: seq<AgentRow>,
                   templates: map<TemplateKind, Log>, clock: Time)

  datatype Op =
    | RegisterPart(name: string, subtype: PartSubtype, aliases: seq<string>, markdown: string, version: Version)
    | UpdatePart(name: string, version: Version, markdown: string, newAliases: Option<seq<string>>)
    | ProposePartSubtype(name: string, subtype: PartSubtype, rationale: string)
    | AcceptPartSubtype(name: string, row: nat, single: bool)
    | ProposePartName(name: string, newName: string, rationale: string)
    | AcceptPartName(name: string, row: nat, single: bool)
    | ProposePartDeletion(name: string, rationale: string)
    | AcceptPartDeletion(name: string, row: nat, single: bool, cascade: bool)
    | RegisterContract(ownerName: string, counterpartyName: string, shape: Shape, markdown: string, version: Version)
    | ProposeContractShape(contract: nat, shape: Shape, rationale: string)
    | AcceptContractShape(contract: nat, row: nat, single: bool)
    | ProposeContractEndpoints(contract: nat, newOwner: Option<string>, newCounterparty: Option<string>,
        rationale: string)
    | AcceptContractEndpoints(contract: nat, row: nat, single: bool)
    | ProposeContractDeletion(contract: nat, rationale: string)
    | AcceptContractDeletion(contract: nat, row: nat, single: bool)
    | ContractBody(contract: nat, body: BodyMove)
    | TemplateBody(kind: TemplateKind, body: BodyMove)
    | RegisterAgent(agent: Actor)
    | RevokeAgent(agent: Actor, rationale: string)

  datatype Request = Request(actor: Option<Actor>, op: Op)

  // ---------- Queries ----------

  datatype Found = Missing | One(i: nat) | Many

  /** Rows with this name, deleted rows included, as a query that allows at most one row. */
  function Lookup(parts: seq<Part>, name: string): (r: Found)
    ensures r.Missing? <==> forall i | 0 <= i < |parts| :: parts[i].name != name
    ensures r.One? ==> r.i < |parts| && parts[r.i].name == name
                       && forall i | 0 <= i < |parts| && i != r.i :: parts[i].name != name
    ensures r.Many? <==> exists i, j | 0 <= i < j < |parts| :: parts[i].name == name && parts[j].name == name
  {
    if parts == [] then Missing
    else
      var n := |parts| - 1;
      var r := Lookup(parts[..n], name);
      assert forall i | 0 <= i < n :: parts[..n][i] == parts[i];
      if parts[n].name != name then r
      else if r.Missing? then One(n)
      else
        assert exists i | 0 <= i < n :: parts[i].name == name;
        Many
  }

  /** The live row with this name: the first, and by the unique index the only one. */
  function FindLive(parts: seq<Part>, name: string): (r: Option<nat>)
    ensures r.Some? ==> r.value < |parts| && parts[r.value].name == name && parts[r.value].Live()
    ensures r.None? ==> forall i | 0 <= i < |parts| && parts[i].Live() :: parts[i].name != name
  {
    if parts == [] then None
    else
      var n := |parts| - 1;
      assert forall i | 0 <= i < n :: parts[..n][i] == parts[i];
      var r := FindLive(parts[..n], name);
      if r.Some? then r else if parts[n].name == name && parts[n].Live() then Some(n) else None
  }

  // The lookup every write to a part starts with.
  function FindPart(s: Db, name: string): (r: Result<nat>)
    ensures r.Ok? ==> r.value < |s.parts| && s.parts[r.value].Live() && s.parts[r.value].name == name
  {
    match Lookup(s.parts, name)
    case Missing => Refused(NotFound)
    case Many => Refused(MultipleRows)
    case One(i) => if s.parts[i].Live() then Ok(i) else Refused(NotFound)
  }

  function FindContract(s: Db, c: nat): (r: Result<nat>)
    ensures r.Ok? ==> r.value == c < |s.contracts| && s.contracts[c].Live()
  {
    if c < |s.contracts| && s.contracts[c].Live() then Ok(c) else Refused(NotFound)
  }

  predicate NameTaken(parts: seq<Part>, name: string, except: Option<nat>) {
    exists i | 0 <= i < |parts| :: parts[i].Live() && parts[i].name == name && (except.Some? ==> i != except.value)
  }

  predicate EdgeTaken(contracts: seq<Contract>, owner: nat, counterparty: nat, shape: Shape, except: Option<nat>) {
    exists i | 0 <= i < |contracts| ::
      && contracts[i].Live() && contracts[i].owner == owner && contracts[i].counterparty == counterparty
      && contracts[i].shape == shape && (except.Some? ==> i != except.value)
  }

  predicate HasLiveContract(contracts: seq<Contract>, part: nat) {
    exists i | 0 <= i < |contracts| :: contracts[i].Live() && contracts[i].Touches(part)
  }

  predicate IsAgent(agents: seq<AgentRow>, a: Actor) {
    exists i | 0 <= i < |agents| :: agents[i].revoked.None? && agents[i].actor == a
  }

  /** The live allowlist. */
  function ActiveAgents(agents: seq<AgentRow>): (r: set<Actor>)
    ensures forall a :: a in r <==> IsAgent(agents, a)
  {
    set i | 0 <= i < |agents| && agents[i].revoked.None? :: agents[i].actor
  }

  // The three source/target checks, on the subtypes the parts have now.
  function RegistrationRule(s: Db, shape: Shape, owner: nat, counterparty: nat): Option<Refusal>
    requires owner < |s.parts| && counterparty < |s.parts|
  {
    CheckRegistration(ConnectionRules, shape.subtype, shape.connectionType, s.parts[owner].subtype,
        s.parts[counterparty].subtype)
  }

  function ShapeRule(s: Db, shape: Shape, owner: nat, counterparty: nat): Option<Refusal>
    requires owner < |s.parts| && counterparty < |s.parts|
  {
    CheckShapeShift(ConnectionRules, shape.subtype, shape.connectionType, s.parts[owner].subtype,
        s.parts[counterparty].subtype)
  }

  function EndpointRule(s: Db, shape: Shape, owner: nat, counterparty: nat): Option<Refusal>
    requires owner < |s.parts| && counterparty < |s.parts|
  {
    CheckEndpointShift(ConnectionRules, shape.subtype, shape.connectionType, s.parts[owner].subtype,
        s.parts[counterparty].subtype)
  }

  // Foreign keys.
  predicate EndpointsExist(s: Db, c: Contract) {
    c.owner < |s.parts| && c.counterparty < |s.parts|
  }

  // Aliases reach the handlers cleaned: none empty, no control characters.
  predicate IsControl(c: char) { c < ' ' || c == '\U{7F}' }

  predicate AliasOk(a: string) { a != "" && forall i | 0 <= i < |a| :: !IsControl(a[i]) }

  predicate AliasesOk(aliases: seq<string>) { forall i | 0 <= i < |aliases| :: AliasOk(aliases[i]) }

  // ---------- Effects ----------

  datatype Effect =
    | AddPart(name: string, subtype: PartSubtype, aliases: seq<string>, markdown: string, version: Version)
    | SetPart(part: nat, partMove: PartMove)
    | DropPartEffect(part: nat, row: nat, cascade: bool)
    | AddContract(owner: nat, counterparty: nat, shape: Shape, markdown: string, version: Version)
    | SetContract(contract: nat, contractMove: ContractMove)
    | SetTemplate(kind: TemplateKind, body: BodyMove)
    | AddAgent(agent: Actor)
    | EndAgent(row: nat, rationale: string)

  /** What the handler has established about the whole catalog before it writes. */
  predicate Enabled(s: Db, e: Effect, actor: Option<Actor>) {
    match e
    case AddPart(name, _, aliases, _, version) =>
      IsSlug(name) && AliasesOk(aliases) && !version.IsPrerelease() && !NameTaken(s.parts, name, None)
    case SetPart(i, m) =>
      && i < |s.parts| && PartMoveEnabled(s.parts[i], m, actor)
      && (m.AddVersion? && m.aliases.Some? ==> AliasesOk(m.aliases.value))
      && (m.AcceptName? ==> !NameTaken(s.parts, s.parts[i].nameProposals[m.row].change.target, Some(i)))
    case DropPartEffect(i, k, cascade) =>
      && i < |s.parts| && DropEnabled(s.parts[i], k, actor)
      && actor.value !in ActiveAgents(s.agents)
      && (HasLiveContract(s.contracts, i) ==> cascade)
    case AddContract(owner, counterparty, shape, _, version) =>
      && owner < |s.parts| && counterparty < |s.parts| && owner != counterparty
      && s.parts[owner].Live() && s.parts[counterparty].Live()
      && shape.WellFormed() && !version.IsPrerelease()
      && RegistrationRule(s, shape, owner, counterparty).None?
      && !EdgeTaken(s.contracts, owner, counterparty, shape, None)
    case SetContract(j, m) =>
      && j < |s.contracts| && ContractMoveEnabled(s.contracts[j], m, actor, s.clock + 1)
      && var c := s.contracts[j];
      && (m.AcceptShape? ==>
            EndpointsExist(s, c) && ShapeRule(s, c.shapeProposals[m.row].change.target, c.owner, c.counterparty).None?)
      && (m.ProposeEndpoints? ==>
            && (m.change.owner.Some? ==> m.change.owner.value < |s.parts|)
            && (m.change.counterparty.Some? ==> m.change.counterparty.value < |s.parts|))
      && (m.AcceptEndpoints? ==>
            var owner, counterparty :=
              TargetOwner(c, c.endpointProposals[m.row].change),
                  TargetCounterparty(c, c.endpointProposals[m.row].change);
            && owner < |s.parts| && counterparty < |s.parts|
            && EndpointsExist(s, c)
            && m.ownerName == s.parts[c.owner].name && m.counterpartyName == s.parts[c.counterparty].name
            && EndpointRule(s, c.shape, owner, counterparty).None?
            && !EdgeTaken(s.contracts, owner, counterparty, c.shape, Some(j)))
    case SetTemplate(kind, body) =>
      kind in s.templates && MoveLog(s.templates[kind], body, actor, s.clock + 1).Ok?
    case AddAgent(a) => !IsAgent(s.agents, a)
    case EndAgent(k, _) =>
      && k < |s.agents| && s.agents[k].revoked.None?
      && actor.Some? && actor.value !in ActiveAgents(s.agents)
  }

  /** Every live contract that touches the part gets the deletion stamp; no other row changes. */
  function CascadeContracts(contracts: seq<Contract>, part: nat, stamp: Deletion): (r: seq<Contract>)
    ensures |r| == |contracts|
  {
    seq(|contracts|, j requires 0 <= j < |contracts| =>
      if contracts[j].Live() && contracts[j].Touches(part) then contracts[j].(deleted := Some(stamp)) else contracts[j])
  }

  function Apply(s: Db, e: Effect, actor: Option<Actor>): Db
    requires Enabled(s, e, actor)
  {
    var now := s.clock + 1;
    match e
    case AddPart(name, subtype, aliases, markdown, version) =>
      s.(parts := s.parts + [NewPart(name, subtype, aliases, markdown, version, now)], clock := now)
    case SetPart(i, m) =>
      s.(parts := s.parts[i := MovePart(s.parts[i], m, actor, now)], clock := now)
    case DropPartEffect(i, k, cascade) =>
      s.(parts := s.parts[i := DropPart(s.parts[i], k, actor, cascade, now)],
         contracts := if cascade then CascadeContracts(s.contracts, i, CascadeDeletion(s.parts[i], k, actor, now))
             else s.contracts,
         clock := now)
    case AddContract(owner, counterparty, shape, markdown, version) =>
      s.(contracts := s.contracts + [NewContract(owner, counterparty, shape, markdown, version, now)], clock := now)
    case SetContract(j, m) =>
      s.(contracts := s.contracts[j := MoveContract(s.contracts[j], m, actor, now)], clock := now)
    case SetTemplate(kind, body) =>
      s.(templates := s.templates[kind := MoveLog(s.templates[kind], body, actor, now).value], clock := now)
    case AddAgent(a) =>
      s.(agents := s.agents + [AgentRow(a, actor, now, None)], clock := now)
    case EndAgent(k, rationale) =>
      s.(agents := s.agents[k := s.agents[k].(revoked := Some(Revocation(now, actor, rationale)))], clock := now)
  }

  /** What one effect does to one part row. */
  ghost predicate PartEffect(s: Db, e: Effect, actor: Option<Actor>, i: nat, p: Part, p': Part) {
    || p' == p
    || (e.SetPart? && e.part == i && PartMoveEnabled(p, e.partMove, actor)
        && (e.partMove.AddVersion? && e.partMove.aliases.Some? ==> AliasesOk(e.partMove.aliases.value))
        && p' == MovePart(p, e.partMove, actor, s.clock + 1))
    || (e.DropPartEffect? && e.part == i && DropEnabled(p, e.row, actor)
        && p' == DropPart(p, e.row, actor, e.cascade, s.clock + 1))
  }

  lemma PartAfter(s: Db, e: Effect, actor: Option<Actor>, i: nat)
    requires Enabled(s, e, actor) && i < |s.parts|
    ensures i < |Apply(s, e, actor).parts| && PartEffect(s, e, actor, i, s.parts[i], Apply(s, e, actor).parts[i])
  {
  }

  /** What one effect does to one contract row. */
  ghost predicate ContractEffect(s: Db, e: Effect, actor: Option<Actor>, j: nat, c: Contract, c': Contract) {
    || c' == c
    || (e.SetContract? && e.contract == j && ContractMoveEnabled(c, e.contractMove, actor, s.clock + 1)
        && (e.contractMove.ProposeEndpoints? ==>
              && (e.contractMove.change.owner.Some? ==> e.contractMove.change.owner.value < |s.parts|)
              && (e.contractMove.change.counterparty.Some? ==> e.contractMove.change.counterparty.value < |s.parts|))
        && c' == MoveContract(c, e.contractMove, actor, s.clock + 1))
    || (e.DropPartEffect? && e.cascade && c.Live() && c.Touches(e.part)
        && e.part < |s.parts| && e.row < |s.parts[e.part].deletionProposals|
        && c' == c.(deleted := Some(CascadeDeletion(s.parts[e.part], e.row, actor, s.clock + 1))))
  }

  lemma ContractAfter(s: Db, e: Effect, actor: Option<Actor>, j: nat)
    requires Enabled(s, e, actor) && j < |s.contracts|
    ensures j < |Apply(s, e, actor).contracts|
    ensures ContractEffect(s, e, actor, j, s.contracts[j], Apply(s, e, actor).contracts[j])
  {
  }

  lemma TableSizes(s: Db, e: Effect, actor: Option<Actor>)
    requires Enabled(s, e, actor)
    ensures |Apply(s, e, actor).parts| == |s.parts| + if e.AddPart? then 1 else 0
    ensures |Apply(s, e, actor).contracts| == |s.contracts| + if e.AddContract? then 1 else 0
    ensures Apply(s, e, actor).clock == s.clock + 1
  {
  }

  // ---------- Handlers: parts ----------

  function DecideRegisterPart(s: Db, name: string, subtype: PartSubtype, aliases: seq<string>, markdown: string,
                              version: Version, actor: Option<Actor>): (r: Result<Effect>)
    ensures r.Ok? ==> Enabled(s, r.value, actor)
    ensures r.Ok? ==> r.value == AddPart(name, subtype, aliases, markdown, version)
  {
    if version.IsPrerelease() || !IsSlug(name) || !AliasesOk(aliases) then Refused(Unprocessable)
    else if NameTaken(s.parts, name, None) then Refused(Conflict)
    else Ok(AddPart(name, subtype, aliases, markdown, version))
  }

  function DecideUpdatePart(s: Db, name: string, version: Version, markdown: string, aliases: Option<seq<string>>,
                            actor: Option<Actor>): (r: Result<Effect>)
    ensures r.Ok? ==> Enabled(s, r.value, actor) && r.value.SetPart?
  {
    if version.IsPrerelease() || (aliases.Some? && !AliasesOk(aliases.value)) then Refused(Unprocessable)
    else match FindPart(s, name)
      case Refused(why) => Refused(why)
      case Ok(i) =>
        var latest := LatestPartVersion(s.parts[i].versions);
        if latest.Some? && !Less(latest.value.version, version) then Refused(Conflict)
        else Ok(SetPart(i, AddVersion(version, markdown, aliases)))
  }

  function DecideProposePartSubtype(s: Db, name: string, subtype: PartSubtype, rationale: string,
                                    actor: Option<Actor>): (r: Result<Effect>)
    ensures r.Ok? ==> Enabled(s, r.value, actor) && r.value.SetPart?
  {
    match FindPart(s, name)
    case Refused(why) => Refused(why)
    case Ok(i) =>
      if subtype == s.parts[i].subtype then Refused(Conflict)
      else Ok(SetPart(i, ProposeSubtype(subtype, rationale)))
  }

  function DecideAcceptPartSubtype(s: Db, name: string, row: nat, single: bool,
      actor: Option<Actor>): (r: Result<Effect>)
    ensures r.Ok? ==> Enabled(s, r.value, actor) && r.value.SetPart?
  {
    match FindPart(s, name)
    case Refused(why) => Refused(why)
    case Ok(i) =>
      var p := s.parts[i];
      var check := CheckAcceptable(p.subtypeProposals, row, actor, single);
      if check.Some? then Refused(check.value)
      else if p.subtypeProposals[row].change.target == p.subtype then Refused(Conflict)
      else Ok(SetPart(i, AcceptSubtype(row, single)))
  }

  function DecideProposePartName(s: Db, name: string, newName: string, rationale: string,
                                 actor: Option<Actor>): (r: Result<Effect>)
    ensures r.Ok? ==> Enabled(s, r.value, actor) && r.value.SetPart?
  {
    if !IsSlug(newName) then Refused(Unprocessable)
    else match FindPart(s, name)
      case Refused(why) => Refused(why)
      case Ok(i) =>
        if newName == s.parts[i].name then Refused(Conflict)
        else if NameTaken(s.parts, newName, None) then Refused(Conflict)
        else Ok(SetPart(i, ProposeName(newName, rationale)))
  }

  function DecideAcceptPartName(s: Db, name: string, row: nat, single: bool, actor: Option<Actor>): (r: Result<Effect>)
    ensures r.Ok? ==> Enabled(s, r.value, actor) && r.value.SetPart?
  {
    match FindPart(s, name)
    case Refused(why) => Refused(why)
    case Ok(i) =>
      var p := s.parts[i];
      var check := CheckAcceptable(p.nameProposals, row, actor, single);
      if check.Some? then Refused(check.value)
      else if p.nameProposals[row].change.target == p.name then Refused(Conflict)
      else if NameTaken(s.parts, p.nameProposals[row].change.target, Some(i)) then Refused(Conflict)
      else Ok(SetPart(i, AcceptName(row, single)))
  }

  function DecideProposePartDeletion(s: Db, name: string, rationale: string, actor: Option<Actor>): (r: Result<Effect>)
    ensures r.Ok? ==> Enabled(s, r.value, actor) && r.value.SetPart?
  {
    match FindPart(s, name)
    case Refused(why) => Refused(why)
    case Ok(i) => Ok(SetPart(i, PartMove.ProposePartDeletion(rationale)))
  }

  function DecideAcceptPartDeletion(s: Db, name: string, row: nat, single: bool, cascade: bool,
                                    actor: Option<Actor>): (r: Result<Effect>)
    ensures r.Ok? ==> Enabled(s, r.value, actor) && r.value.DropPartEffect?
  {
    if single then Refused(Unprocessable)
    else match FindPart(s, name)
      case Refused(why) => Refused(why)
      case Ok(i) =>
        var check := CheckAcceptable(s.parts[i].deletionProposals, row, actor, false);
        if check.Some? then Refused(check.value)
        else
          var human := EnforceHuman(actor, ActiveAgents(s.agents));
          if human.Some? then Refused(human.value)
          else if HasLiveContract(s.contracts, i) && !cascade then Refused(Unprocessable)
          else Ok(DropPartEffect(i, row, cascade))
  }

  // ---------- Handlers: contracts ----------

  function DecideRegisterContract(s: Db, ownerName: string, counterpartyName: string, shape: Shape, markdown: string,
                                  version: Version, actor: Option<Actor>): (r: Result<Effect>)
    ensures r.Ok? ==> Enabled(s, r.value, actor)
    ensures r.Ok? ==> r.value.AddContract? && r.value.shape == shape
                      && FindLive(s.parts, ownerName) == Some(r.value.owner)
                      && FindLive(s.parts, counterpartyName) == Some(r.value.counterparty)
  {
    if version.IsPrerelease() || !IsSlug(ownerName) || !IsSlug(counterpartyName) then Refused(Unprocessable)
    else if ownerName == counterpartyName then Refused(Unprocessable)
    else if !shape.WellFormed() then Refused(Unprocessable)
    else match FindLive(s.parts, ownerName)
      case None => Refused(NotFound)
      case Some(owner) =>
        match FindLive(s.parts, counterpartyName)
        case None => Refused(NotFound)
        case Some(counterparty) =>
          var rule := RegistrationRule(s, shape, owner, counterparty);
          if rule.Some? then Refused(rule.value)
          else if EdgeTaken(s.contracts, owner, counterparty, shape, None) then Refused(Conflict)
          else Ok(AddContract(owner, counterparty, shape, markdown, version))
  }

  function DecideProposeContractShape(s: Db, contract: nat, shape: Shape, rationale: string,
                                      actor: Option<Actor>): (r: Result<Effect>)
    ensures r.Ok? ==> Enabled(s, r.value, actor) && r.value.SetContract?
  {
    match FindContract(s, contract)
    case Refused(why) => Refused(why)
    case Ok(j) =>
      var c := s.contracts[j];
      if !shape.WellFormed() then Refused(Unprocessable)
      else if shape == c.shape then Refused(Conflict)
      else if !EndpointsExist(s, c) then Refused(NotFound)
      else
        var rule := ShapeRule(s, shape, c.owner, c.counterparty);
        if rule.Some? then Refused(rule.value) else Ok(SetContract(j, ProposeShape(shape, rationale)))
  }

  function DecideAcceptContractShape(s: Db, contract: nat, row: nat, single: bool,
      actor: Option<Actor>): (r: Result<Effect>)
    ensures r.Ok? ==> Enabled(s, r.value, actor) && r.value.SetContract?
  {
    match FindContract(s, contract)
    case Refused(why) => Refused(why)
    case Ok(j) =>
      var c := s.contracts[j];
      var check := CheckAcceptable(c.shapeProposals, row, actor, single);
      if check.Some? then Refused(check.value)
      else if !EndpointsExist(s, c) then Refused(NotFound)
      else
        var target := c.shapeProposals[row].change.target;
        var rule := ShapeRule(s, target, c.owner, c.counterparty);
        if rule.Some? then Refused(rule.value)
        else if target == c.shape then Refused(Conflict)
        else Ok(SetContract(j, AcceptShape(row, single)))
  }

  // A side that is named must be a live part; a side that is not named does not move.
  function ResolveSide(s: Db, name: Option<string>): (r: Result<Option<nat>>)
    ensures r.Ok? && r.value.Some? ==> r.value.value < |s.parts| && s.parts[r.value.value].Live()
  {
    match name
    case None => Ok(None)
    case Some(n) =>
      match FindLive(s.parts, n)
      case None => Refused(NotFound)
      case Some(i) => Ok(Some(i))
  }

  function DecideProposeContractEndpoints(s: Db, contract: nat, newOwner: Option<string>,
      newCounterparty: Option<string>,
                                          rationale: string, actor: Option<Actor>): (r: Result<Effect>)
    ensures r.Ok? ==> Enabled(s, r.value, actor) && r.value.SetContract?
  {
    if (newOwner.Some? && !IsSlug(newOwner.value)) || (newCounterparty.Some? && !IsSlug(newCounterparty.value))
    then Refused(Unprocessable)
    else match FindContract(s, contract)
    case Refused(why) => Refused(why)
    case Ok(j) =>
      var c := s.contracts[j];
      if newOwner.None? && newCounterparty.None? then Refused(Unprocessable)
      else match ResolveSide(s, newOwner)
        case Refused(why) => Refused(why)
        case Ok(owner) =>
          match ResolveSide(s, newCounterparty)
          case Refused(why) => Refused(why)
          case Ok(counterparty) =>
            if !EndpointsExist(s, c) then Refused(NotFound)
            else
              var change := EndpointChange(s.parts[c.owner].name, s.parts[c.counterparty].name, owner, counterparty);
              var targets := CheckTargets(c, change);
              if targets.Some? then Refused(targets.value)
              else
                var rule := EndpointRule(s, c.shape, TargetOwner(c, change), TargetCounterparty(c, change));
                if rule.Some? then Refused(rule.value)
                else if EdgeTaken(s.contracts, TargetOwner(c, change), TargetCounterparty(c, change), c.shape, Some(j))
                then Refused(Conflict)
                else Ok(SetContract(j, ProposeEndpoints(change, rationale)))
  }

  function DecideAcceptContractEndpoints(s: Db, contract: nat, row: nat, single: bool,
      actor: Option<Actor>): (r: Result<Effect>)
    ensures r.Ok? ==> Enabled(s, r.value, actor) && r.value.SetContract?
  {
    match FindContract(s, contract)
    case Refused(why) => Refused(why)
    case Ok(j) =>
      var c := s.contracts[j];
      var check := CheckAcceptable(c.endpointProposals, row, actor, single);
      if check.Some? then Refused(check.value)
      else
        var change := c.endpointProposals[row].change;
        // A target that is missing from the table is refused; one that is only soft-deleted passes.
        if change.owner.Some? && change.owner.value >= |s.parts| then Refused(Conflict)
        else if change.counterparty.Some? && change.counterparty.value >= |s.parts| then Refused(Conflict)
        else if !EndpointsExist(s, c) then Refused(NotFound)
        else
          var targets := CheckTargets(c, change);
          if targets.Some? then Refused(targets.value)
          else
            var rule := EndpointRule(s, c.shape, TargetOwner(c, change), TargetCounterparty(c, change));
            if rule.Some? then Refused(rule.value)
            else if EdgeTaken(s.contracts, TargetOwner(c, change), TargetCounterparty(c, change), c.shape, Some(j))
            then Refused(Conflict)
            else Ok(SetContract(j, AcceptEndpoints(row, single, s.parts[c.owner].name, s.parts[c.counterparty].name)))
  }

  function DecideProposeContractDeletion(s: Db, contract: nat, rationale: string,
      actor: Option<Actor>): (r: Result<Effect>)
    ensures r.Ok? ==> Enabled(s, r.value, actor) && r.value.SetContract?
  {
    match FindContract(s, contract)
    case Refused(why) => Refused(why)
    case Ok(j) => Ok(SetContract(j, ProposeDeletion(rationale)))
  }

  function DecideAcceptContractDeletion(s: Db, contract: nat, row: nat, single: bool,
      actor: Option<Actor>): (r: Result<Effect>)
    ensures r.Ok? ==> Enabled(s, r.value, actor) && r.value.SetContract?
  {
    match FindContract(s, contract)
    case Refused(why) => Refused(why)
    case Ok(j) =>
      var check := CheckAcceptable(s.contracts[j].deletionProposals, row, actor, single);
      if check.Some? then Refused(check.value) else Ok(SetContract(j, AcceptDeletion(row, single)))
  }

  // The version of a new proposal is checked before anything is looked up.
  predicate PayloadParses(body: BodyMove) {
    body.ProposeBody? ==> body.version.WellFormed()
  }

  function DecideContractBody(s: Db, contract: nat, body: BodyMove, actor: Option<Actor>): (r: Result<Effect>)
    ensures r.Ok? ==> Enabled(s, r.value, actor) && r.value.SetContract?
  {
    if !PayloadParses(body) then Refused(Unprocessable)
    else match FindContract(s, contract)
    case Refused(why) => Refused(why)
    case Ok(j) =>
      match MoveLog(s.contracts[j].log, body, actor, s.clock + 1)
      case Refused(why) => Refused(why)
      case Ok(_) => Ok(SetContract(j, MoveBody(body)))
  }

  // ---------- Handlers: templates and agents ----------

  function DecideTemplateBody(s: Db, kind: TemplateKind, body: BodyMove, actor: Option<Actor>): (r: Result<Effect>)
    ensures r.Ok? ==> Enabled(s, r.value, actor) && r.value.SetTemplate?
  {
    if !PayloadParses(body) then Refused(Unprocessable)
    else if kind !in s.templates then Refused(NotFound)
    else match MoveLog(s.templates[kind], body, actor, s.clock + 1)
      case Refused(why) => Refused(why)
      case Ok(_) => Ok(SetTemplate(kind, body))
  }

  function DecideRegisterAgent(s: Db, agent: Actor, actor: Option<Actor>): (r: Result<Effect>)
    ensures r.Ok? ==> Enabled(s, r.value, actor) && r.value.AddAgent?
  {
    if !IsSlug(agent) then Refused(Unprocessable)
    else if IsAgent(s.agents, agent) then Refused(Conflict)
    else Ok(AddAgent(agent))
  }

  function FindAgent(agents: seq<AgentRow>, a: Actor): (r: Option<nat>)
    ensures r.Some? ==> r.value < |agents| && agents[r.value].revoked.None? && agents[r.value].actor == a
    ensures r.None? <==> !IsAgent(agents, a)
  {
    if agents == [] then None
    else
      var n := |agents| - 1;
      assert forall i | 0 <= i < n :: agents[..n][i] == agents[i];
      var r := FindAgent(agents[..n], a);
      if r.Some? then r else if agents[n].revoked.None? && agents[n].actor == a then Some(n) else None
  }

  function DecideRevokeAgent(s: Db, agent: Actor, rationale: string, actor: Option<Actor>): (r: Result<Effect>)
    ensures r.Ok? ==> Enabled(s, r.value, actor) && r.value.EndAgent?
  {
    var human := EnforceHuman(actor, ActiveAgents(s.agents));
    if human.Some? then Refused(human.value)
    else match FindAgent(s.agents, agent)
      case None => Refused(NotFound)
      case Some(k) => Ok(EndAgent(k, rationale))
  }

  /** Every handler's checks, in the handler's order. */
  function Decide(s: Db, q: Request): (r: Result<Effect>)
    ensures r.Ok? ==> Enabled(s, r.value, q.actor)
    ensures r.Ok? && r.value.AddPart? ==>
              q.op.RegisterPart? && q.op.name == r.value.name && q.op.subtype == r.value.subtype
    ensures r.Ok? && r.value.AddContract? ==>
              && q.op.RegisterContract? && q.op.shape == r.value.shape
              && FindLive(s.parts, q.op.ownerName) == Some(r.value.owner)
              && FindLive(s.parts, q.op.counterpartyName) == Some(r.value.counterparty)
  {
    match q.op
    case RegisterPart(name, subtype, aliases, markdown, version) =>
      DecideRegisterPart(s, name, subtype, aliases, markdown, version, q.actor)
    case UpdatePart(name, version, markdown, aliases) => DecideUpdatePart(s, name, version, markdown, aliases, q.actor)
    case ProposePartSubtype(name, subtype, rationale) => DecideProposePartSubtype(s, name, subtype, rationale, q.actor)
    case AcceptPartSubtype(name, row, single) => DecideAcceptPartSubtype(s, name, row, single, q.actor)
    case ProposePartName(name, newName, rationale) => DecideProposePartName(s, name, newName, rationale, q.actor)
    case AcceptPartName(name, row, single) => DecideAcceptPartName(s, name, row, single, q.actor)
    case ProposePartDeletion(name, rationale) => DecideProposePartDeletion(s, name, rationale, q.actor)
    case AcceptPartDeletion(name, row, single, cascade) => DecideAcceptPartDeletion(s, name, row, single, cascade,
        q.actor)
    case RegisterContract(owner, counterparty, shape, markdown, version) =>
      DecideRegisterContract(s, owner, counterparty, shape, markdown, version, q.actor)
    case ProposeContractShape(c, shape, rationale) => DecideProposeContractShape(s, c, shape, rationale, q.actor)
    case AcceptContractShape(c, row, single) => DecideAcceptContractShape(s, c, row, single, q.actor)
    case ProposeContractEndpoints(c, owner, counterparty, rationale) =>
      DecideProposeContractEndpoints(s, c, owner, counterparty, rationale, q.actor)
    case AcceptContractEndpoints(c, row, single) => DecideAcceptContractEndpoints(s, c, row, single, q.actor)
    case ProposeContractDeletion(c, rationale) => DecideProposeContractDeletion(s, c, rationale, q.actor)
    case AcceptContractDeletion(c, row, single) => DecideAcceptContractDeletion(s, c, row, single, q.actor)
    case ContractBody(c, body) => DecideContractBody(s, c, body, q.actor)
    case TemplateBody(kind, body) => DecideTemplateBody(s, kind, body, q.actor)
    case RegisterAgent(agent) => DecideRegisterAgent(s, agent, q.actor)
    case RevokeAgent(agent, rationale) => DecideRevokeAgent(s, agent, rationale, q.actor)
  }

  // ---------- Database constraints ----------

  ghost predicate NamesUnique(parts: seq<Part>) {
    forall i, j | 0 <= i < j < |parts| && parts[i].Live() && parts[j].Live() :: parts[i].name != parts[j].name
  }

  // connection_type compares null equal to null.
  ghost predicate EdgesUnique(contracts: seq<Contract>) {
    forall i, j | 0 <= i < j < |contracts| && contracts[i].Live() && contracts[j].Live() ::
      !contracts[i].SameEdge(contracts[j])
  }

  ghost predicate AgentsUnique(agents: seq<AgentRow>) {
    forall i, j | 0 <= i < j < |agents| && agents[i].revoked.None? && agents[j].revoked.None? ::
      agents[i].actor != agents[j].actor
  }

  ghost predicate PartRowChecks(p: Part) {
    forall i, j | 0 <= i < j < |p.versions| :: !SameTriple(p.versions[i].version, p.versions[j].version)
  }

  ghost predicate LogChecks(log: Log) {
    && (forall i, j | 0 <= i < j < |log| :: log[i].version != log[j].version)
    && (forall i | 0 <= i < |log| :: log[i].version.WellFormed() && (log[i].active ==> !log[i].version.IsPrerelease()))
  }

  ghost predicate ContractRowChecks(c: Contract) {
    && c.owner != c.counterparty
    && c.shape.WellFormed()
    && LogChecks(c.log)
    && (forall k | 0 <= k < |c.shapeProposals| :: c.shapeProposals[k].change.target.WellFormed())
    && (forall k | 0 <= k < |c.endpointProposals| ::
          c.endpointProposals[k].change.owner.Some? || c.endpointProposals[k].change.counterparty.Some?)
  }

  /** Everything the unique indexes and CHECK constraints demand of a committed state. */
  ghost predicate Constraints(s: Db) {
    && NamesUnique(s.parts) && EdgesUnique(s.contracts) && AgentsUnique(s.agents)
    && (forall i | 0 <= i < |s.parts| :: PartRowChecks(s.parts[i]))
    && (forall j | 0 <= j < |s.contracts| :: ContractRowChecks(s.contracts[j]))
    && (forall k | k in s.templates :: LogChecks(s.templates[k]))
  }

  // ---------- Steps and runs ----------

  datatype Outcome = Done(db: Db) | Rejected(why: Refusal)

  /** One request as one transaction: checks, writes, and a commit the constraints may abort. */
  ghost function Step(s: Db, q: Request): Outcome {
    match Decide(s, q)
    case Refused(why) => Rejected(why)
    case Ok(e) =>
      var s' := Apply(s, e, q.actor);
      if Constraints(s') then Done(s') else Rejected(ConstraintFailed)
  }

  ghost function After(s: Db, q: Request): Db {
    match Step(s, q)
    case Done(s') => s'
    case Rejected(_) => s
  }

  ghost function Run(s: Db, qs: seq<Request>): Db {
    if qs == [] then s else After(Run(s, qs[..|qs| - 1]), qs[|qs| - 1])
  }

  /** A request either changes nothing or commits the effect its handler decided on. */
  lemma AfterIs(s: Db, q: Request)
    ensures After(s, q) == s || Commits(s, q, After(s, q))
  {
    hide Decide;
    hide Apply;
    hide Enabled;
  }

  ghost predicate Commits(s: Db, q: Request, s': Db) {
    Decide(s, q).Ok? && Enabled(s, Decide(s, q).value, q.actor) && s' == Apply(s, Decide(s, q).value, q.actor)
        && Constraints(s')
  }

  lemma RunNone(s: Db)
    ensures Run(s, []) == s
  {
  }

  lemma RunUnfolds(s: Db, qs: seq<Request>)
    requires qs != []
    ensures Run(s, qs) == After(Run(s, qs[..|qs| - 1]), qs[|qs| - 1])
  {
    hide After;
  }

  /** A catalog as installed: no parts, no contracts, some agents, and templates that each carry
      a sound version log. */
  ghost predicate Installed(s: Db) {
    && s.parts == [] && s.contracts == []
    && AgentsUnique(s.agents)
    && forall k | k in s.templates :: LogOk(s.templates[k], s.clock)
  }
}
