/** Every proposal row was filed by one request of the run and accepted by at most one: its change, its
    rationale, its actors and its times are those requests'. */
module Provenance {
  import opened Common
  import opened Endpoints
  import opened Evolution
  import opened Graph
  import opened Handshake
  import opened Invariants
  import opened Records
  import opened Rules
  import opened State

  // ---------- One table over a run ----------

  /** One proposal table of the catalog: where it is, which requests file a row of it, and which accept row k. */
  datatype TableView<!T(!new)> = TableView(rows: Db -> seq<Proposal<T>>, filed: (Db, Request, Proposal<T>) -> bool,
                                          accepted: (Db, Request, nat, Acceptance) -> bool)

  /** What one request does to a table: nothing, or it files one open row, or it accepts one. */
  ghost predicate TableWritten<T(!new)>(s: Db, q: Request, ps: seq<Proposal<T>>, ps': seq<Proposal<T>>,
                                        view: TableView<T>)
  {
    || ps' == ps
    || (|ps'| == |ps| + 1 && ps'[..|ps|] == ps && ps'[|ps|].accepted.None? && view.filed(s, q, ps'[|ps|]))
    || exists k: nat :: RowAccepted(s, q, ps, ps', view, k)
  }

  ghost predicate RowAccepted<T(!new)>(s: Db, q: Request, ps: seq<Proposal<T>>, ps': seq<Proposal<T>>,
                                       view: TableView<T>, k: nat)
  {
    && k < |ps| == |ps'| && ps[k].accepted.None? && ps'[k].accepted.Some?
    && ps'[k] == ps[k].(accepted := ps'[k].accepted) && view.accepted(s, q, k, ps'[k].accepted.value)
    && forall n | 0 <= n < |ps| && n != k :: ps'[n] == ps[n]
  }

  ghost predicate OnlySoWritten<T(!new)>(view: TableView<T>) {
    // What is filed does not depend on a later acceptance.
    && (forall s: Db, q: Request, p: Proposal<T>, a: Option<Acceptance> ::
          view.filed(s, q, p) ==> view.filed(s, q, p.(accepted := a)))
    && forall s: Db, q: Request | Inv(s) :: TableWritten(s, q, view.rows(s), view.rows(After(s, q)), view)
  }

  /** Request m of the run filed row k. */
  ghost predicate FiledAt<T(!new)>(s: Db, qs: seq<Request>, view: TableView<T>, k: nat, m: nat) {
    && m < |qs| && |view.rows(Run(s, qs[..m]))| == k && |view.rows(Run(s, qs[..m + 1]))| == k + 1
    && k < |view.rows(Run(s, qs))| && view.filed(Run(s, qs[..m]), qs[m], view.rows(Run(s, qs))[k])
  }

  /** Request n of the run accepted row k, which was open until then. */
  ghost predicate AcceptedBy<T(!new)>(s: Db, qs: seq<Request>, view: TableView<T>, k: nat, n: nat) {
    && n < |qs| && k < |view.rows(Run(s, qs[..n]))| && view.rows(Run(s, qs[..n]))[k].accepted.None?
    && k < |view.rows(Run(s, qs))| && view.rows(Run(s, qs))[k].accepted.Some?
    && view.accepted(Run(s, qs[..n]), qs[n], k, view.rows(Run(s, qs))[k].accepted.value)
  }

  /** Row k is told by the run: one request filed it, and one request accepted it if it is accepted. */
  ghost predicate Told<T(!new)>(s: Db, qs: seq<Request>, view: TableView<T>, k: nat) {
    && (exists m: nat :: FiledAt(s, qs, view, k, m))
    && k < |view.rows(Run(s, qs))|
    && (view.rows(Run(s, qs))[k].accepted.Some? ==> exists n: nat :: AcceptedBy(s, qs, view, k, n))
  }

  lemma StepWrites<T(!new)>(s: Db, q: Request, view: TableView<T>)
    requires Inv(s) && OnlySoWritten(view)
    ensures TableWritten(s, q, view.rows(s), view.rows(After(s, q)), view)
  {
    hide Inv; hide After; hide TableWritten;
  }

  // What is told of a row stays told: the row changes in its acceptance only, and that is given once.
  lemma RowStays<T(!new)>(s: Db, q: Request, ps: seq<Proposal<T>>, ps': seq<Proposal<T>>, view: TableView<T>, k: nat)
    requires TableWritten(s, q, ps, ps', view) && k < |ps|
    ensures k < |ps'| && ps'[k] == ps[k].(accepted := ps'[k].accepted)
    ensures ps[k].accepted.Some? ==> ps'[k] == ps[k]
    ensures ps'[k] == ps[k] || RowAccepted(s, q, ps, ps', view, k)
  {
    if |ps'| == |ps| + 1 {
      assert ps'[k] == ps'[..|ps|][k];
    } else if ps' != ps {
      var n: nat :| RowAccepted(s, q, ps, ps', view, n);
    }
  }

  // A row that is new is the one that was filed.
  lemma NewRowFiled<T(!new)>(s: Db, q: Request, ps: seq<Proposal<T>>, ps': seq<Proposal<T>>, view: TableView<T>, k: nat)
    requires TableWritten(s, q, ps, ps', view) && |ps| <= k < |ps'|
    ensures k == |ps| && |ps'| == k + 1 && view.filed(s, q, ps'[k]) && ps'[k].accepted.None?
  {
  }

  lemma ToldLater<T(!new)>(s: Db, qs: seq<Request>, view: TableView<T>, k: nat)
    requires qs != [] && Inv(Run(s, qs[..|qs| - 1])) && OnlySoWritten(view)
    requires Told(s, qs[..|qs| - 1], view, k)
    ensures Told(s, qs, view, k)
  {
    hide Inv; hide Run; hide After; hide TableWritten;
    var init, q := qs[..|qs| - 1], qs[|qs| - 1];
    RunUnfolds(s, qs);
    StepWrites(Run(s, init), q, view);
    var was, now := view.rows(Run(s, init)), view.rows(Run(s, qs));
    RowStays(Run(s, init), q, was, now, view, k);
    var m: nat :| FiledAt(s, init, view, k, m);
    assert init[..m] == qs[..m] && init[..m + 1] == qs[..m + 1];
    assert view.filed(Run(s, qs[..m]), qs[m], was[k].(accepted := now[k].accepted));
    assert FiledAt(s, qs, view, k, m);
    if was[k].accepted.Some? {
      var n: nat :| AcceptedBy(s, init, view, k, n);
      assert init[..n] == qs[..n];
      assert AcceptedBy(s, qs, view, k, n);
    } else if now[k].accepted.Some? {
      assert AcceptedBy(s, qs, view, k, |qs| - 1);
    }
  }

  /** Every row of a table that is empty at the start is told by the run. */
  lemma {:induction false} RowsAreTold<T(!new)>(s: Db, qs: seq<Request>, view: TableView<T>, k: nat)
    requires Inv(s) && view.rows(s) == [] && OnlySoWritten(view) && k < |view.rows(Run(s, qs))|
    ensures Told(s, qs, view, k)
  {
    hide Inv; hide Run; hide After; hide OnlySoWritten; hide TableWritten;
    if qs == [] {
      RunNone(s);
    } else {
      var init, q := qs[..|qs| - 1], qs[|qs| - 1];
      RunKeepsInv(s, init);
      if k < |view.rows(Run(s, init))| {
        RowsAreTold(s, init, view, k);
        ToldLater(s, qs, view, k);
      } else {
        RunUnfolds(s, qs);
        StepWrites(Run(s, init), q, view);
        NewRowFiled(Run(s, init), q, view.rows(Run(s, init)), view.rows(Run(s, qs)), view, k);
        assert qs[..|qs| - 1 + 1] == qs;
        assert FiledAt(s, qs, view, k, |qs| - 1);
      }
    }
  }

  // A table never loses a row.
  lemma {:induction false} TableGrows<T(!new)>(s: Db, qs: seq<Request>, view: TableView<T>, a: nat, b: nat)
    requires Inv(s) && OnlySoWritten(view) && a <= b <= |qs|
    ensures |view.rows(Run(s, qs[..a]))| <= |view.rows(Run(s, qs[..b]))|
    decreases b
  {
    hide Inv; hide Run; hide After; hide OnlySoWritten;
    if a == b {
    } else {
      TableGrows(s, qs, view, a, b - 1);
      RunKeepsInv(s, qs[..b - 1]);
      RunUnfolds(s, qs[..b]);
      assert qs[..b][..b - 1] == qs[..b - 1];
      StepWrites(Run(s, qs[..b - 1]), qs[b - 1], view);
    }
  }

  /** It is one request only. */
  lemma FiledOnce<T(!new)>(s: Db, qs: seq<Request>, view: TableView<T>, k: nat, m: nat, m': nat)
    requires Inv(s) && OnlySoWritten(view)
    requires FiledAt(s, qs, view, k, m) && FiledAt(s, qs, view, k, m')
    ensures m == m'
  {
    hide Inv; hide Run; hide OnlySoWritten;
    if m < m' {
      TableGrows(s, qs, view, m + 1, m');
    } else if m' < m {
      TableGrows(s, qs, view, m' + 1, m);
    }
  }

  /** A row is filed before it is accepted. */
  lemma FiledFirst<T(!new)>(s: Db, qs: seq<Request>, view: TableView<T>, k: nat, m: nat, n: nat)
    requires Inv(s) && OnlySoWritten(view)
    requires FiledAt(s, qs, view, k, m) && AcceptedBy(s, qs, view, k, n)
    ensures m < n
  {
    hide Inv; hide Run; hide OnlySoWritten;
    if n <= m {
      TableGrows(s, qs, view, n, m);
    }
  }

  // ---------- The six tables ----------

  // The row says what the request asked for, who asked, and when.
  ghost predicate Says<T>(s: Db, q: Request, p: Proposal<T>, change: T, rationale: string) {
    p.change == change && p.rationale == rationale && p.proposer == q.actor && p.createdAt == s.clock + 1
  }

  ghost predicate SubtypeAsked(s: Db, q: Request, i: nat, p: Proposal<Change<PartSubtype>>) {
    && q.op.ProposePartSubtype? && LiveNamed(s.parts, q.op.name, i)
    && Says(s, q, p, Change(s.parts[i].subtype, q.op.subtype), q.op.rationale)
  }

  ghost predicate SubtypeGranted(s: Db, q: Request, i: nat, k: nat, a: Acceptance) {
    && q.op.AcceptPartSubtype? && LiveNamed(s.parts, q.op.name, i) && q.op.row == k
    && a == Acceptance(s.clock + 1, q.actor, q.op.single, false)
  }

  ghost function SubtypeView(i: nat): TableView<Change<PartSubtype>> {
    TableView((s: Db) => if i < |s.parts| then s.parts[i].subtypeProposals else [],
              (s: Db, q: Request, p: Proposal<Change<PartSubtype>>) => SubtypeAsked(s, q, i, p),
              (s: Db, q: Request, k: nat, a: Acceptance) => SubtypeGranted(s, q, i, k, a))
  }

  ghost predicate NameAsked(s: Db, q: Request, i: nat, p: Proposal<Change<string>>) {
    && q.op.ProposePartName? && LiveNamed(s.parts, q.op.name, i)
    && Says(s, q, p, Change(s.parts[i].name, q.op.newName), q.op.rationale)
  }

  ghost predicate NameGranted(s: Db, q: Request, i: nat, k: nat, a: Acceptance) {
    && q.op.AcceptPartName? && LiveNamed(s.parts, q.op.name, i) && q.op.row == k
    && a == Acceptance(s.clock + 1, q.actor, q.op.single, false)
  }

  ghost function NameView(i: nat): TableView<Change<string>> {
    TableView((s: Db) => if i < |s.parts| then s.parts[i].nameProposals else [],
              (s: Db, q: Request, p: Proposal<Change<string>>) => NameAsked(s, q, i, p),
              (s: Db, q: Request, k: nat, a: Acceptance) => NameGranted(s, q, i, k, a))
  }

  ghost predicate PartDeletionAsked(s: Db, q: Request, i: nat, p: Proposal<()>) {
    q.op.ProposePartDeletion? && LiveNamed(s.parts, q.op.name, i) && Says(s, q, p, (), q.op.rationale)
  }

  ghost predicate PartDeletionGranted(s: Db, q: Request, i: nat, k: nat, a: Acceptance) {
    && q.op.AcceptPartDeletion? && LiveNamed(s.parts, q.op.name, i) && q.op.row == k
    && a == Acceptance(s.clock + 1, q.actor, false, q.op.cascade)
  }

  ghost function PartDeletionView(i: nat): TableView<()> {
    TableView((s: Db) => if i < |s.parts| then s.parts[i].deletionProposals else [],
              (s: Db, q: Request, p: Proposal<()>) => PartDeletionAsked(s, q, i, p),
              (s: Db, q: Request, k: nat, a: Acceptance) => PartDeletionGranted(s, q, i, k, a))
  }

  ghost predicate ShapeAsked(s: Db, q: Request, j: nat, p: Proposal<Change<Shape>>) {
    && q.op.ProposeContractShape? && q.op.contract == j < |s.contracts|
    && Says(s, q, p, Change(s.contracts[j].shape, q.op.shape), q.op.rationale)
  }

  ghost predicate ShapeGranted(s: Db, q: Request, j: nat, k: nat, a: Acceptance) {
    && q.op.AcceptContractShape? && q.op.contract == j && q.op.row == k
    && a == Acceptance(s.clock + 1, q.actor, q.op.single, false)
  }

  ghost function ShapeView(j: nat): TableView<Change<Shape>> {
    TableView((s: Db) => if j < |s.contracts| then s.contracts[j].shapeProposals else [],
              (s: Db, q: Request, p: Proposal<Change<Shape>>) => ShapeAsked(s, q, j, p),
              (s: Db, q: Request, k: nat, a: Acceptance) => ShapeGranted(s, q, j, k, a))
  }

  // The change names the endpoints of then, and holds the parts that carried the names asked for.
  ghost predicate EndpointsAsked(s: Db, q: Request, j: nat, p: Proposal<EndpointChange>) {
    && q.op.ProposeContractEndpoints? && q.op.contract == j < |s.contracts|
    && ChangeAsked(s.parts, s.contracts[j], q.op.newOwner, q.op.newCounterparty, p.change)
    && Says(s, q, p, p.change, q.op.rationale)
  }

  ghost predicate EndpointsGranted(s: Db, q: Request, j: nat, k: nat, a: Acceptance) {
    && q.op.AcceptContractEndpoints? && q.op.contract == j && q.op.row == k
    && a == Acceptance(s.clock + 1, q.actor, q.op.single, false)
  }

  ghost function EndpointView(j: nat): TableView<EndpointChange> {
    TableView((s: Db) => if j < |s.contracts| then s.contracts[j].endpointProposals else [],
              (s: Db, q: Request, p: Proposal<EndpointChange>) => EndpointsAsked(s, q, j, p),
              (s: Db, q: Request, k: nat, a: Acceptance) => EndpointsGranted(s, q, j, k, a))
  }

  ghost predicate ContractDeletionAsked(s: Db, q: Request, j: nat, p: Proposal<()>) {
    q.op.ProposeContractDeletion? && q.op.contract == j && Says(s, q, p, (), q.op.rationale)
  }

  ghost predicate ContractDeletionGranted(s: Db, q: Request, j: nat, k: nat, a: Acceptance) {
    && q.op.AcceptContractDeletion? && q.op.contract == j && q.op.row == k
    && a == Acceptance(s.clock + 1, q.actor, q.op.single, false)
  }

  ghost function ContractDeletionView(j: nat): TableView<()> {
    TableView((s: Db) => if j < |s.contracts| then s.contracts[j].deletionProposals else [],
              (s: Db, q: Request, p: Proposal<()>) => ContractDeletionAsked(s, q, j, p),
              (s: Db, q: Request, k: nat, a: Acceptance) => ContractDeletionGranted(s, q, j, k, a))
  }

  // ---------- One request and one row ----------

  // A table that gains the filed row, or in which row k is accepted, is so written.
  lemma FilesIsWritten<T(!new)>(s: Db, q: Request, ps: seq<Proposal<T>>, ps': seq<Proposal<T>>, change: T,
                                rationale: string, view: TableView<T>)
    requires Files(ps, ps', change, rationale, q.actor, s.clock + 1)
    requires view.filed(s, q, Proposal(change, rationale, q.actor, s.clock + 1, None))
    ensures TableWritten(s, q, ps, ps', view)
  {
  }

  lemma AcceptsIsWritten<T(!new)>(s: Db, q: Request, ps: seq<Proposal<T>>, ps': seq<Proposal<T>>, k: nat, single: bool,
                                  view: TableView<T>)
    requires MayAcceptRow(ps, k, q.actor, single) && Accepts(ps, ps', k, q.actor, single, s.clock + 1)
    requires view.accepted(s, q, k, Acceptance(s.clock + 1, q.actor, single, false))
    ensures TableWritten(s, q, ps, ps', view)
  {
    assert RowAccepted(s, q, ps, ps', view, k);
  }

  /** What a request does to the child tables of one part. */
  ghost predicate PartTablesWritten(s: Db, q: Request, i: nat, p: Part, p': Part) {
    && TableWritten(s, q, p.subtypeProposals, p'.subtypeProposals, SubtypeView(i))
    && TableWritten(s, q, p.nameProposals, p'.nameProposals, NameView(i))
    && TableWritten(s, q, p.deletionProposals, p'.deletionProposals, PartDeletionView(i))
  }

  lemma PartRowTables(s: Db, q: Request, s': Db, i: nat)
    requires OnPart(q.op) && MayOnPart(s, q, i) && PartChanged(s, q, s', i)
    ensures PartTablesWritten(s, q, i, s.parts[i], s'.parts[i])
  {
    hide TableWritten; hide Files; hide Accepts; hide MayAcceptRow; hide OnlyLive; hide IsSlug;
    hide FreeName; hide AliasesOk;
    var p, p' := s.parts[i], s'.parts[i];
    assert LiveNamed(s.parts, q.op.name, i) by { OnlyLiveIsLive(s.parts, q.op.name, i); }
    Unwritten(s, q, p.subtypeProposals, SubtypeView(i));
    Unwritten(s, q, p.nameProposals, NameView(i));
    Unwritten(s, q, p.deletionProposals, PartDeletionView(i));
    match q.op
    case UpdatePart(_, _, _, _) =>
    case ProposePartSubtype(_, subtype, rationale) =>
      FilesIsWritten(s, q, p.subtypeProposals, p'.subtypeProposals, Change(p.subtype, subtype), rationale,
          SubtypeView(i));
    case AcceptPartSubtype(_, row, single) =>
      AcceptsIsWritten(s, q, p.subtypeProposals, p'.subtypeProposals, row, single, SubtypeView(i));
    case ProposePartName(_, newName, rationale) =>
      FilesIsWritten(s, q, p.nameProposals, p'.nameProposals, Change(p.name, newName), rationale, NameView(i));
    case AcceptPartName(_, row, single) =>
      AcceptsIsWritten(s, q, p.nameProposals, p'.nameProposals, row, single, NameView(i));
    case ProposePartDeletion(_, rationale) =>
      FilesIsWritten(s, q, p.deletionProposals, p'.deletionProposals, (), rationale, PartDeletionView(i));
  }

  lemma OnlyLiveIsLive(parts: seq<Part>, name: string, i: nat)
    requires OnlyLive(parts, name, i)
    ensures LiveNamed(parts, name, i)
    ensures forall n: nat | LiveNamed(parts, name, n) || OnlyLive(parts, name, n) :: n == i
  {
  }

  lemma Unwritten<T(!new)>(s: Db, q: Request, ps: seq<Proposal<T>>, view: TableView<T>)
    ensures TableWritten(s, q, ps, ps, view)
  {
  }

  // Accepting a part deletion, which also deletes the part.
  lemma DropTables(s: Db, q: Request, s': Db, i: nat)
    requires q.op.AcceptPartDeletion? && MayDelete(s, q, i) && PartDropped(s, s', i, q.op.row, q.actor, q.op.cascade)
    ensures PartTablesWritten(s, q, i, s.parts[i], s'.parts[i])
  {
    hide TableWritten; hide Dropped;
    var p, p', k := s.parts[i], s'.parts[i], q.op.row;
    Unwritten(s, q, p.subtypeProposals, SubtypeView(i));
    Unwritten(s, q, p.nameProposals, NameView(i));
    var ps, ps' := p.deletionProposals, p'.deletionProposals;
    assert LiveNamed(s.parts, q.op.name, i);
    assert PartDeletionGranted(s, q, i, k, Acceptance(s.clock + 1, q.actor, false, q.op.cascade));
    assert RowAccepted(s, q, ps, ps', PartDeletionView(i), k);
    AcceptedIsWritten(s, q, ps, ps', k, PartDeletionView(i));
  }

  lemma AcceptedIsWritten<T(!new)>(s: Db, q: Request, ps: seq<Proposal<T>>, ps': seq<Proposal<T>>, k: nat,
                                   view: TableView<T>)
    requires RowAccepted(s, q, ps, ps', view, k)
    ensures TableWritten(s, q, ps, ps', view)
  {
  }

  lemma UntouchedPart(s: Db, q: Request, i: nat, p: Part, p': Part)
    requires p' == p
    ensures PartTablesWritten(s, q, i, p, p')
  {
    hide TableWritten;
    Unwritten(s, q, p.subtypeProposals, SubtypeView(i));
    Unwritten(s, q, p.nameProposals, NameView(i));
    Unwritten(s, q, p.deletionProposals, PartDeletionView(i));
  }

  lemma PartTables(s: Db, q: Request, i: nat)
    requires Inv(s) && i < |s.parts|
    ensures i < |After(s, q).parts| && PartTablesWritten(s, q, i, s.parts[i], After(s, q).parts[i])
  {
    hide Inv; hide After; hide PartTablesWritten; hide MayChangePart; hide PartWritten; hide MayOnContract;
    hide OnlyLive; hide MayDelete; hide Deleted; hide Dropped; hide ContractWritten; hide BodyWritten;
    AnsweredIff(s, q);
    var s' := After(s, q);
    if s' == s {
      UntouchedPart(s, q, i, s.parts[i], s'.parts[i]);
    } else if OnPart(q.op) {
      var n: nat :| PartChanged(s, q, s', n);
      var m: nat :| MayOnPart(s, q, m);
      OnlyLiveIsLive(s.parts, q.op.name, n);
      if i == n { PartRowTables(s, q, s', i); } else { UntouchedPart(s, q, i, s.parts[i], s'.parts[i]); }
    } else if q.op.AcceptPartDeletion? {
      var n: nat :| MayDelete(s, q, n) && PartDropped(s, s', n, q.op.row, q.actor, q.op.cascade);
      if i == n { DropTables(s, q, s', i); } else { UntouchedPart(s, q, i, s.parts[i], s'.parts[i]); }
    } else {
      assert s'.parts[i] == s.parts[i];
      UntouchedPart(s, q, i, s.parts[i], s'.parts[i]);
    }
  }

  /** What a request does to the child tables of one contract. */
  ghost predicate ContractTablesWritten(s: Db, q: Request, j: nat, c: Contract, c': Contract) {
    && TableWritten(s, q, c.shapeProposals, c'.shapeProposals, ShapeView(j))
    && TableWritten(s, q, c.endpointProposals, c'.endpointProposals, EndpointView(j))
    && TableWritten(s, q, c.deletionProposals, c'.deletionProposals, ContractDeletionView(j))
  }

  lemma UntouchedContract(s: Db, q: Request, j: nat, c: Contract, c': Contract)
    requires c'.shapeProposals == c.shapeProposals && c'.endpointProposals == c.endpointProposals
    requires c'.deletionProposals == c.deletionProposals
    ensures ContractTablesWritten(s, q, j, c, c')
  {
    hide TableWritten;
    Unwritten(s, q, c.shapeProposals, ShapeView(j));
    Unwritten(s, q, c.endpointProposals, EndpointView(j));
    Unwritten(s, q, c.deletionProposals, ContractDeletionView(j));
  }

  lemma ContractRowTables(s: Db, q: Request, s': Db)
    requires OnContract(q.op) && MayOnContract(s, q) && ContractChanged(s, q, s')
    ensures var j := q.op.contract; ContractTablesWritten(s, q, j, s.contracts[j], s'.contracts[j])
  {
    hide TableWritten; hide Accepts; hide MayAcceptRow; hide MayMove; hide MayJoin; hide FreeEdge; hide MayShift;
    hide ChangeAsked; hide EndpointsMoved; hide BodyWritten; hide MayWriteBody;
    var j := q.op.contract;
    var c, c' := s.contracts[j], s'.contracts[j];
    UntouchedContract(s, q, j, c, c);
    match q.op
    case ProposeContractShape(_, shape, rationale) =>
      FilesIsWritten(s, q, c.shapeProposals, c'.shapeProposals, Change(c.shape, shape), rationale, ShapeView(j));
    case AcceptContractShape(_, row, single) =>
      AcceptsIsWritten(s, q, c.shapeProposals, c'.shapeProposals, row, single, ShapeView(j));
    case ProposeContractEndpoints(_, newOwner, newCounterparty, rationale) =>
      var change: EndpointChange :| ChangeAsked(s.parts, c, newOwner, newCounterparty, change)
        && Files(c.endpointProposals, c'.endpointProposals, change, rationale, q.actor, s.clock + 1);
      FilesIsWritten(s, q, c.endpointProposals, c'.endpointProposals, change, rationale, EndpointView(j));
    case AcceptContractEndpoints(_, row, single) =>
      AcceptsIsWritten(s, q, c.endpointProposals, c'.endpointProposals, row, single, EndpointView(j));
    case ProposeContractDeletion(_, rationale) =>
      FilesIsWritten(s, q, c.deletionProposals, c'.deletionProposals, (), rationale, ContractDeletionView(j));
    case AcceptContractDeletion(_, row, single) =>
      AcceptsIsWritten(s, q, c.deletionProposals, c'.deletionProposals, row, single, ContractDeletionView(j));
    case ContractBody(_, _) =>
  }

  // A cascade leaves the child tables alone.
  lemma ContractTables(s: Db, q: Request, j: nat)
    requires Inv(s) && j < |s.contracts|
    ensures j < |After(s, q).contracts|
    ensures ContractTablesWritten(s, q, j, s.contracts[j], After(s, q).contracts[j])
  {
    hide Inv; hide After; hide ContractTablesWritten; hide MayChangeContract; hide ContractWritten; hide MayOnPart;
    hide OnlyLive; hide MayDelete; hide Deleted; hide PartWritten; hide BodyWritten; hide CascadeDeletion;
    AnsweredIff(s, q);
    var s' := After(s, q);
    if s' == s {
      UntouchedContract(s, q, j, s.contracts[j], s'.contracts[j]);
    } else if OnContract(q.op) && q.op.contract == j {
      ContractRowTables(s, q, s');
    } else {
      assert j < |s'.contracts| && (s'.contracts[j] == s.contracts[j]
          || s'.contracts[j] == s.contracts[j].(deleted := s'.contracts[j].deleted));
      UntouchedContract(s, q, j, s.contracts[j], s'.contracts[j]);
    }
  }

  // ---------- New rows start with empty tables ----------

  lemma NewPartIsBare(s: Db, q: Request)
    requires Inv(s)
    ensures |s.parts| <= |After(s, q).parts| <= |s.parts| + 1
    ensures |After(s, q).parts| > |s.parts| ==>
              var p := After(s, q).parts[|s.parts|];
              p.subtypeProposals == [] && p.nameProposals == [] && p.deletionProposals == []
  {
    hide Inv; hide After; hide PartWritten; hide MayChangePart; hide MayOnContract; hide ContractWritten;
    hide MayDelete; hide Deleted; hide Dropped; hide BodyWritten;
    AnsweredIff(s, q);
  }

  lemma NewContractIsBare(s: Db, q: Request)
    requires Inv(s)
    ensures |s.contracts| <= |After(s, q).contracts| <= |s.contracts| + 1
    ensures |After(s, q).contracts| > |s.contracts| ==>
              var c := After(s, q).contracts[|s.contracts|];
              c.shapeProposals == [] && c.endpointProposals == [] && c.deletionProposals == []
  {
    hide Inv; hide After; hide PartWritten; hide MayChangePart; hide MayOnContract; hide ContractWritten;
    hide MayDelete; hide Deleted; hide Dropped; hide BodyWritten;
    AnsweredIff(s, q);
  }

  lemma PartTablesSoWritten(i: nat)
    ensures OnlySoWritten(SubtypeView(i)) && OnlySoWritten(NameView(i)) && OnlySoWritten(PartDeletionView(i))
  {
    hide Inv; hide After; hide TableWritten;
    forall s: Db, q: Request | Inv(s)
      ensures TableWritten(s, q, SubtypeView(i).rows(s), SubtypeView(i).rows(After(s, q)), SubtypeView(i))
      ensures TableWritten(s, q, NameView(i).rows(s), NameView(i).rows(After(s, q)), NameView(i))
      ensures TableWritten(s, q, PartDeletionView(i).rows(s), PartDeletionView(i).rows(After(s, q)),
                PartDeletionView(i))
    {
      if i < |s.parts| {
        PartTables(s, q, i);
      } else {
        NewPartIsBare(s, q);
        Unwritten(s, q, [], SubtypeView(i));
        Unwritten(s, q, [], NameView(i));
        Unwritten(s, q, [], PartDeletionView(i));
      }
    }
  }

  lemma ContractTablesSoWritten(j: nat)
    ensures OnlySoWritten(ShapeView(j)) && OnlySoWritten(EndpointView(j)) && OnlySoWritten(ContractDeletionView(j))
  {
    hide Inv; hide After; hide TableWritten;
    forall s: Db, q: Request | Inv(s)
      ensures TableWritten(s, q, ShapeView(j).rows(s), ShapeView(j).rows(After(s, q)), ShapeView(j))
      ensures TableWritten(s, q, EndpointView(j).rows(s), EndpointView(j).rows(After(s, q)), EndpointView(j))
      ensures TableWritten(s, q, ContractDeletionView(j).rows(s), ContractDeletionView(j).rows(After(s, q)),
                ContractDeletionView(j))
    {
      if j < |s.contracts| {
        ContractTables(s, q, j);
      } else {
        NewContractIsBare(s, q);
        Unwritten(s, q, [], ShapeView(j));
        Unwritten(s, q, [], EndpointView(j));
        Unwritten(s, q, [], ContractDeletionView(j));
      }
    }
  }

  // ---------- Every proposal row of a reachable catalog ----------

  /** In every reachable catalog each proposal row of a part was filed by exactly one request of the run,
      against the value current then, and is accepted only if one later request accepted it. */
  lemma PartProposalsAreTold(s: Db, qs: seq<Request>, i: nat)
    requires Installed(s) && i < |Run(s, qs).parts|
    ensures var p := Run(s, qs).parts[i];
            && (forall k: nat | k < |p.subtypeProposals| :: Told(s, qs, SubtypeView(i), k))
            && (forall k: nat | k < |p.nameProposals| :: Told(s, qs, NameView(i), k))
            && (forall k: nat | k < |p.deletionProposals| :: Told(s, qs, PartDeletionView(i), k))
  {
    hide Run; hide Inv; hide OnlySoWritten; hide Told;
    InstalledInv(s);
    PartTablesSoWritten(i);
    var p := Run(s, qs).parts[i];
    forall k: nat | k < |p.subtypeProposals| ensures Told(s, qs, SubtypeView(i), k) {
      RowsAreTold(s, qs, SubtypeView(i), k);
    }
    forall k: nat | k < |p.nameProposals| ensures Told(s, qs, NameView(i), k) {
      RowsAreTold(s, qs, NameView(i), k);
    }
    forall k: nat | k < |p.deletionProposals| ensures Told(s, qs, PartDeletionView(i), k) {
      RowsAreTold(s, qs, PartDeletionView(i), k);
    }
  }

  /** The same for contracts. A cascade files and accepts no row. */
  lemma ContractProposalsAreTold(s: Db, qs: seq<Request>, j: nat)
    requires Installed(s) && j < |Run(s, qs).contracts|
    ensures var c := Run(s, qs).contracts[j];
            && (forall k: nat | k < |c.shapeProposals| :: Told(s, qs, ShapeView(j), k))
            && (forall k: nat | k < |c.endpointProposals| :: Told(s, qs, EndpointView(j), k))
            && (forall k: nat | k < |c.deletionProposals| :: Told(s, qs, ContractDeletionView(j), k))
  {
    hide Run; hide Inv; hide OnlySoWritten; hide Told;
    InstalledInv(s);
    ContractTablesSoWritten(j);
    var c := Run(s, qs).contracts[j];
    forall k: nat | k < |c.shapeProposals| ensures Told(s, qs, ShapeView(j), k) {
      RowsAreTold(s, qs, ShapeView(j), k);
    }
    forall k: nat | k < |c.endpointProposals| ensures Told(s, qs, EndpointView(j), k) {
      RowsAreTold(s, qs, EndpointView(j), k);
    }
    forall k: nat | k < |c.deletionProposals| ensures Told(s, qs, ContractDeletionView(j), k) {
      RowsAreTold(s, qs, ContractDeletionView(j), k);
    }
  }

  // ---------- Two operators ----------

  // The predicates give both actors away, and the times.
  ghost predicate Credits<T(!new)>(view: TableView<T>) {
    && (forall s: Db, q: Request, p: Proposal<T> | view.filed(s, q, p) ::
          p.proposer == q.actor && p.createdAt == s.clock + 1)
    && (forall s: Db, q: Request, k: nat, a: Acceptance | view.accepted(s, q, k, a) ::
          a.acceptor == q.actor && a.at == s.clock + 1)
  }

  /** If the request that filed row k and the request that accepted it came from one known actor, the row
      carries an override. */
  ghost predicate OwnNeedsOverride<T(!new)>(s: Db, qs: seq<Request>, view: TableView<T>, k: nat) {
    forall m: nat, n: nat | FiledAt(s, qs, view, k, m) && AcceptedBy(s, qs, view, k, n) ::
      qs[m].actor.Some? && qs[m].actor == qs[n].actor ==> view.rows(Run(s, qs))[k].accepted.value.overridden
  }

  lemma OwnRow<T(!new)>(s: Db, qs: seq<Request>, view: TableView<T>, k: nat)
    requires Credits(view) && k < |view.rows(Run(s, qs))| && TwoParties(view.rows(Run(s, qs))[k])
    ensures OwnNeedsOverride(s, qs, view, k)
  {
    hide Run;
  }

  /** In every reachable catalog no request of a known actor accepted a row that a request of the same actor
      had filed, unless it overrode the rule; a part deletion cannot override it. */
  lemma NobodyAcceptsTheirOwn(s: Db, qs: seq<Request>)
    requires Installed(s)
    ensures forall i: nat, k: nat | i < |Run(s, qs).parts| ::
              && (k < |Run(s, qs).parts[i].subtypeProposals| ==>
                    OwnNeedsOverride(s, qs, SubtypeView(i), k))
              && (k < |Run(s, qs).parts[i].nameProposals| ==>
                    OwnNeedsOverride(s, qs, NameView(i), k))
              && (k < |Run(s, qs).parts[i].deletionProposals| ==>
                    OwnNeedsOverride(s, qs, PartDeletionView(i), k))
    ensures forall j: nat, k: nat | j < |Run(s, qs).contracts| ::
              && (k < |Run(s, qs).contracts[j].shapeProposals| ==>
                    OwnNeedsOverride(s, qs, ShapeView(j), k))
              && (k < |Run(s, qs).contracts[j].endpointProposals| ==>
                    OwnNeedsOverride(s, qs, EndpointView(j), k))
              && (k < |Run(s, qs).contracts[j].deletionProposals| ==>
                    OwnNeedsOverride(s, qs, ContractDeletionView(j), k))
  {
    hide Run; hide OwnNeedsOverride; hide TwoParties; hide Installed; hide Credits;
    HandshakesHold(s, qs);
    forall i: nat, k: nat | i < |Run(s, qs).parts|
      ensures k < |Run(s, qs).parts[i].subtypeProposals| ==>
                OwnNeedsOverride(s, qs, SubtypeView(i), k)
      ensures k < |Run(s, qs).parts[i].nameProposals| ==>
                OwnNeedsOverride(s, qs, NameView(i), k)
      ensures k < |Run(s, qs).parts[i].deletionProposals| ==>
                OwnNeedsOverride(s, qs, PartDeletionView(i), k)
    {
      var p := Run(s, qs).parts[i];
      PartCredits(i);
      if k < |p.subtypeProposals| { OwnRow(s, qs, SubtypeView(i), k); }
      if k < |p.nameProposals| { OwnRow(s, qs, NameView(i), k); }
      if k < |p.deletionProposals| {
        OwnRow(s, qs, PartDeletionView(i), k);
      }
    }
    forall j: nat, k: nat | j < |Run(s, qs).contracts|
      ensures k < |Run(s, qs).contracts[j].shapeProposals| ==>
                OwnNeedsOverride(s, qs, ShapeView(j), k)
      ensures k < |Run(s, qs).contracts[j].endpointProposals| ==>
                OwnNeedsOverride(s, qs, EndpointView(j), k)
      ensures k < |Run(s, qs).contracts[j].deletionProposals| ==>
                OwnNeedsOverride(s, qs, ContractDeletionView(j), k)
    {
      var c := Run(s, qs).contracts[j];
      ContractCredits(j);
      if k < |c.shapeProposals| { OwnRow(s, qs, ShapeView(j), k); }
      if k < |c.endpointProposals| { OwnRow(s, qs, EndpointView(j), k); }
      if k < |c.deletionProposals| {
        OwnRow(s, qs, ContractDeletionView(j), k);
      }
    }
  }

  lemma PartCredits(i: nat)
    ensures Credits(SubtypeView(i)) && Credits(NameView(i))
    ensures Credits(PartDeletionView(i))
  {
  }

  lemma ContractCredits(j: nat)
    ensures Credits(ShapeView(j)) && Credits(EndpointView(j))
    ensures Credits(ContractDeletionView(j))
  {
  }
}
