/** The rows of a part and of a contract, each with its own child rows, and every way the write
    endpoints change one of them. */
module Records {
  import opened Common
  import opened Handshake
  import opened History
  import opened Rules
  import opened Timeline
  import opened Versioning
  import opened VersionLog

  datatype PartVersion = PartVersion(version: Version, markdown: string, createdAt: Time)

  // The shifted_from and shifted_at columns of the most recent accepted shift.
  datatype Shifted<+T> = Shifted(from: T, at: Time)

  datatype Deletion = Deletion(at: Time, proposer: Option<Actor>, acceptor: Option<Actor>,
                               rationale: string, overridden: bool)

  // A proposed value together with the value it was proposed against.
  datatype Change<+T> = Change(current: T, target: T)

  datatype Part = Part(
    name: string, subtype: PartSubtype, aliases: seq<string>, createdAt: Time,
    subtypeShift: Option<Shifted<PartSubtype>>, nameShift: Option<Shifted<string>>,
    deleted: Option<Deletion>,
    versions: seq<PartVersion>,
    subtypeProposals: seq<Proposal<Change<PartSubtype>>>,
    nameProposals: seq<Proposal<Change<string>>>,
    deletionProposals: seq<Proposal<()>>)
  {
    predicate Live() { deleted.None? }
  }

  // A contract's subtype and connection_type, which always shift together.
  datatype Shape = Shape(subtype: ContractSubtype, connectionType: Option<ConnectionType>) {
    predicate WellFormed() { subtype.Connection? <==> connectionType.Some? }
  }

  // New endpoints by part id; a side that does not move is None. The names are the endpoints'
  // names when the shift was proposed.
  datatype EndpointChange = EndpointChange(currentOwner: string, currentCounterparty: string,
                                           owner: Option<nat>, counterparty: Option<nat>)

  datatype EndpointShifted = EndpointShifted(fromOwner: Option<string>, fromCounterparty: Option<string>, at: Time)

  datatype Contract = Contract(
    owner: nat, counterparty: nat, shape: Shape, createdAt: Time,
    shapeShift: Option<Shifted<Shape>>, endpointShift: Option<EndpointShifted>,
    deleted: Option<Deletion>,
    log: Log,
    shapeProposals: seq<Proposal<Change<Shape>>>,
    endpointProposals: seq<Proposal<EndpointChange>>,
    deletionProposals: seq<Proposal<()>>)
  {
    predicate Live() { deleted.None? }

    predicate Touches(part: nat) { owner == part || counterparty == part }

    predicate SameEdge(c: Contract) { owner == c.owner && counterparty == c.counterparty && shape == c.shape }
  }

  // ---------- Part names ----------

  predicate IsSlugChar(c: char) { 'a' <= c <= 'z' || '0' <= c <= '9' || c == '-' }

  predicate IsSlug(s: string) {
    && 1 <= |s| <= 64
    && (forall i | 0 <= i < |s| :: IsSlugChar(s[i]))
    && s[0] != '-' && s[|s| - 1] != '-'
  }

  // The grammar of slugs: a letter or digit; or one, at most 62 slug characters, and another one.
  predicate IsSlugEdge(c: char) { 'a' <= c <= 'z' || '0' <= c <= '9' }

  ghost predicate SpellsSlug(s: string, first: char, middle: string, last: char) {
    && IsSlugEdge(first) && IsSlugEdge(last) && |middle| <= 62
    && (forall i | 0 <= i < |middle| :: IsSlugChar(middle[i]))
    && s == [first] + middle + [last]
  }

  /** The test accepts exactly the texts of the grammar. */
  lemma SlugGrammar(s: string)
    ensures IsSlug(s)
            <==> (|s| == 1 && IsSlugEdge(s[0])) || exists first, middle, last :: SpellsSlug(s, first, middle, last)
  {
    if IsSlug(s) && |s| > 1 {
      var n := |s| - 1;
      assert s == [s[0]] + s[1..n] + [s[n]];
      assert SpellsSlug(s, s[0], s[1..n], s[n]);
    }
    if first, middle, last :| SpellsSlug(s, first, middle, last) {
      forall i | 0 <= i < |s| ensures IsSlugChar(s[i]) {
        assert s[i] == if i == 0 then first else if i <= |middle| then middle[i - 1] else last;
      }
    }
  }

  // ---------- Parts ----------

  function NewPart(name: string, subtype: PartSubtype, aliases: seq<string>, markdown: string, version: Version,
                   now: Time): Part
  {
    Part(name, subtype, aliases, now, None, None, None, [PartVersion(version, markdown, now)], [], [], [])
  }

  /** Ordered by the three integers, descending; the first one. */
  function LatestPartVersion(versions: seq<PartVersion>): (r: Option<PartVersion>)
    ensures r.None? <==> versions == []
    ensures r.Some? ==> r.value in versions && forall i | 0 <= i < |versions| ::
        !TripleLess(r.value.version, versions[i].version)
  {
    if versions == [] then None
    else
      var init, last := versions[..|versions| - 1], versions[|versions| - 1];
      assert versions == init + [last];
      var r := LatestPartVersion(init);
      if r.None? || TripleLess(r.value.version, last.version) then Some(last) else r
  }

  datatype PartMove =
    | AddVersion(version: Version, markdown: string, aliases: Option<seq<string>>)
    | ProposeSubtype(subtype: PartSubtype, rationale: string)
    | AcceptSubtype(row: nat, single: bool)
    | ProposeName(name: string, rationale: string)
    | AcceptName(row: nat, single: bool)
    | ProposePartDeletion(rationale: string)

  /** What a handler has established about its part before it writes. */
  predicate PartMoveEnabled(p: Part, m: PartMove, actor: Option<Actor>) {
    && p.Live()
    && match m
       case AddVersion(v, _, _) =>
         && !v.IsPrerelease()
         && (LatestPartVersion(p.versions).Some? ==> Less(LatestPartVersion(p.versions).value.version, v))
       case ProposeSubtype(subtype, _) => subtype != p.subtype
       case AcceptSubtype(k, single) =>
         && CheckAcceptable(p.subtypeProposals, k, actor, single).None?
         && p.subtypeProposals[k].change.target != p.subtype
       case ProposeName(name, _) => name != p.name && IsSlug(name)
       case AcceptName(k, single) =>
         && CheckAcceptable(p.nameProposals, k, actor, single).None?
         && p.nameProposals[k].change.target != p.name
       case ProposePartDeletion(_) => true
  }

  function MovePart(p: Part, m: PartMove, actor: Option<Actor>, now: Time): Part
    requires PartMoveEnabled(p, m, actor)
  {
    match m
    case AddVersion(v, markdown, aliases) =>
      p.(versions := p.versions + [PartVersion(v, markdown, now)], aliases := aliases.GetOr(p.aliases))
    case ProposeSubtype(subtype, rationale) =>
      p.(subtypeProposals := p.subtypeProposals + [Open(Change(p.subtype, subtype), rationale, actor, now)])
    case AcceptSubtype(k, single) =>
      p.(subtype := p.subtypeProposals[k].change.target,
         subtypeShift := Some(Shifted(p.subtype, now)),
         subtypeProposals := Accept(p.subtypeProposals, k, Acceptance(now, actor, single, false)))
    case ProposeName(name, rationale) =>
      p.(nameProposals := p.nameProposals + [Open(Change(p.name, name), rationale, actor, now)])
    case AcceptName(k, single) =>
      p.(name := p.nameProposals[k].change.target,
         nameShift := Some(Shifted(p.name, now)),
         nameProposals := Accept(p.nameProposals, k, Acceptance(now, actor, single, false)))
    case ProposePartDeletion(rationale) =>
      p.(deletionProposals := p.deletionProposals + [Open((), rationale, actor, now)])
  }

  predicate DropEnabled(p: Part, k: nat, actor: Option<Actor>) {
    p.Live() && CheckAcceptable(p.deletionProposals, k, actor, false).None? && actor.Some?
  }

  /** Accepting deletion proposal k of a part. */
  function DropPart(p: Part, k: nat, actor: Option<Actor>, cascade: bool, now: Time): Part
    requires k < |p.deletionProposals|
  {
    p.(deleted := Some(Deletion(now, p.deletionProposals[k].proposer, actor, p.deletionProposals[k].rationale, false)),
       deletionProposals := Accept(p.deletionProposals, k, Acceptance(now, actor, false, cascade)))
  }

  // ---------- Contracts ----------

  function NewContract(owner: nat, counterparty: nat, shape: Shape, markdown: string, version: Version,
                       now: Time): Contract
  {
    Contract(owner, counterparty, shape, now, None, None, None, [Registered(version, markdown, now)], [], [], [])
  }

  datatype ContractMove =
    | ProposeShape(shape: Shape, rationale: string)
    | AcceptShape(row: nat, single: bool)
    | ProposeEndpoints(change: EndpointChange, rationale: string)
    | AcceptEndpoints(row: nat, single: bool, ownerName: string, counterpartyName: string)
    | ProposeDeletion(rationale: string)
    | AcceptDeletion(row: nat, single: bool)
    | MoveBody(body: BodyMove)

  // The endpoints a change leads to.
  function TargetOwner(c: Contract, change: EndpointChange): nat { change.owner.GetOr(c.owner) }

  function TargetCounterparty(c: Contract, change: EndpointChange): nat { change.counterparty.GetOr(c.counterparty) }

  /** No-op and self-loop shifts are refused. */
  function CheckTargets(c: Contract, change: EndpointChange): Option<Refusal> {
    var owner, counterparty := TargetOwner(c, change), TargetCounterparty(c, change);
    if owner == c.owner && counterparty == c.counterparty then Some(Unprocessable)
    else if owner == counterparty then Some(Unprocessable)
    else None
  }

  predicate ContractMoveEnabled(c: Contract, m: ContractMove, actor: Option<Actor>, now: Time) {
    && c.Live()
    && match m
       case ProposeShape(shape, _) => shape.WellFormed() && shape != c.shape
       case AcceptShape(k, single) =>
         && CheckAcceptable(c.shapeProposals, k, actor, single).None?
         && c.shapeProposals[k].change.target != c.shape
       case ProposeEndpoints(change, _) =>
         && (change.owner.Some? || change.counterparty.Some?)
         && CheckTargets(c, change).None?
       case AcceptEndpoints(k, single, _, _) =>
         && CheckAcceptable(c.endpointProposals, k, actor, single).None?
         && CheckTargets(c, c.endpointProposals[k].change).None?
       case ProposeDeletion(_) => true
       case AcceptDeletion(k, single) => CheckAcceptable(c.deletionProposals, k, actor, single).None?
       case MoveBody(body) => MoveLog(c.log, body, actor, now).Ok?
  }

  function MoveContract(c: Contract, m: ContractMove, actor: Option<Actor>, now: Time): Contract
    requires ContractMoveEnabled(c, m, actor, now)
  {
    match m
    case ProposeShape(shape, rationale) =>
      c.(shapeProposals := c.shapeProposals + [Open(Change(c.shape, shape), rationale, actor, now)])
    case AcceptShape(k, single) =>
      c.(shape := c.shapeProposals[k].change.target,
         shapeShift := Some(Shifted(c.shape, now)),
         shapeProposals := Accept(c.shapeProposals, k, Acceptance(now, actor, single, false)))
    case ProposeEndpoints(change, rationale) =>
      c.(endpointProposals := c.endpointProposals + [Open(change, rationale, actor, now)])
    case AcceptEndpoints(k, single, ownerName, counterpartyName) =>
      var change := c.endpointProposals[k].change;
      c.(owner := TargetOwner(c, change), counterparty := TargetCounterparty(c, change),
         endpointShift := Some(EndpointShifted(
           if change.owner.Some? then Some(ownerName) else None,
           if change.counterparty.Some? then Some(counterpartyName) else None, now)),
         endpointProposals := Accept(c.endpointProposals, k, Acceptance(now, actor, single, false)))
    case ProposeDeletion(rationale) =>
      c.(deletionProposals := c.deletionProposals + [Open((), rationale, actor, now)])
    case AcceptDeletion(k, single) =>
      c.(deleted := Some(Deletion(now, c.deletionProposals[k].proposer, actor, c.deletionProposals[k].rationale,
          single)),
         deletionProposals := Accept(c.deletionProposals, k, Acceptance(now, actor, single, false)))
    case MoveBody(body) => c.(log := MoveLog(c.log, body, actor, now).value)
  }

  // ---------- Cascaded contract deletion ----------

  function CascadeRationale(partName: string, rationale: string): string {
    "cascaded from /propose-part-deletion on '" + partName + "': " + rationale
  }

  /** The stamp a contract gets when part p is dropped by accepting proposal k. */
  function CascadeDeletion(p: Part, k: nat, actor: Option<Actor>, now: Time): Deletion
    requires k < |p.deletionProposals|
  {
    Deletion(now, p.deletionProposals[k].proposer, actor, CascadeRationale(p.name, p.deletionProposals[k].rationale),
        false)
  }

  // ---------- History ----------

  function PartBodies(versions: seq<PartVersion>): (r: seq<Body>)
    ensures |r| == |versions|
  {
    seq(|versions|, i requires 0 <= i < |versions| =>
      Body(versions[i].createdAt, i, versions[i].version, None, None, false))
  }

  function RowBody(r: VersionRow, id: nat): seq<Body> {
    if r.active then [Body(r.acceptedAt.GetOr(r.createdAt), id, r.version, r.proposer, r.acceptor, r.overridden)]
        else []
  }

  function ContractBodies(log: Log): seq<Body> {
    if log == [] then []
    else
      var n := |log| - 1;
      ContractBodies(log[..n]) + RowBody(log[n], n)
  }

  function PartEvents(p: Part, includeDeleted: bool): seq<Row<Event>> {
    Events(PartBodies(p.versions), p.subtypeProposals, p.nameProposals, NameShift, p.deletionProposals, includeDeleted)
  }

  function ContractEvents(c: Contract, includeDeleted: bool): seq<Row<Event>> {
    Events(ContractBodies(c.log), c.shapeProposals, c.endpointProposals, EndpointShift, c.deletionProposals,
        includeDeleted)
  }
}
