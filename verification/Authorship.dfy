/** Every version row was written by one request of the run: its version, its text and its actors are that
    request's, unless the row was there from the start. */
module Authorship {
  import opened Common
  import opened Endpoints
  import opened Graph
  import opened Invariants
  import opened Records
  import opened State
  import opened Versioning
  import opened VersionLog

  // ---------- One log over a run ----------

  /** One log of the catalog: where it is, which requests write it, and the row it begins with. */
  datatype LogView = LogView(rows: Db -> Log, writes: Request -> Option<BodyMove>,
                             begins: (Db, Request) -> Option<VersionRow>)

  /** What one request does to a log: nothing, or it begins it, or it proposes or accepts a version. */
  ghost predicate LogWritten(s: Db, q: Request, view: LogView, log: Log, log': Log) {
    || log' == log
    || (log == [] && view.begins(s, q).Some? && log' == [view.begins(s, q).value])
    || (log != [] && view.writes(q).Some? && BodyWritten(log, log', view.writes(q).value, q.actor, s.clock + 1))
  }

  ghost predicate OnlySoWritten(view: LogView) {
    forall s: Db, q: Request | Inv(s) :: LogWritten(s, q, view, view.rows(s), view.rows(After(s, q)))
  }

  // Row k was added by request m.
  ghost predicate AddedAt(s: Db, qs: seq<Request>, view: LogView, k: nat, m: nat) {
    m < |qs| && |view.rows(Run(s, qs[..m]))| == k && |view.rows(Run(s, qs[..m + 1]))| == k + 1
  }

  /** Row r, number k, began the log. */
  ghost predicate BegunAt(s: Db, qs: seq<Request>, view: LogView, r: VersionRow, k: nat, m: nat) {
    AddedAt(s, qs, view, k, m) && k == 0 && view.begins(Run(s, qs[..m]), qs[m]) == Some(r)
  }

  /** It was proposed: version, text, proposer and time are the proposal's. */
  ghost predicate ProposedAt(s: Db, qs: seq<Request>, view: LogView, r: VersionRow, k: nat, m: nat) {
    && AddedAt(s, qs, view, k, m) && k > 0 && view.writes(qs[m]) == Some(ProposeBody(r.version, r.markdown))
    && r.proposer == qs[m].actor && r.createdAt == Run(s, qs[..m]).clock + 1 && r.promotedFrom.None?
  }

  /** It is the stable row of a candidate that was accepted: text and proposer are the candidate's, acceptor
      and override the request's. */
  ghost predicate PromotedAt(s: Db, qs: seq<Request>, view: LogView, r: VersionRow, k: nat, m: nat) {
    && AddedAt(s, qs, view, k, m)
    && exists i: nat :: i < k && PromotedFrom(Run(s, qs[..m]), qs[m], view, view.rows(Run(s, qs[..m]))[i], r)
  }

  ghost predicate PromotedFrom(s: Db, q: Request, view: LogView, rc: VersionRow, r: VersionRow) {
    && rc.version.IsPrerelease() && view.writes(q) == Some(AcceptBody(rc.version, r.overridden))
    && r == VersionRow(rc.version.Stable(), rc.markdown, true, s.clock + 1, Some(s.clock + 1), rc.version.prerelease,
         rc.proposer, q.actor, r.overridden)
  }

  /** It was accepted in place: acceptor, time and override are the request's. */
  ghost predicate ActivatedAt(s: Db, qs: seq<Request>, view: LogView, r: VersionRow, k: nat, n: nat) {
    && n < |qs| && k < |view.rows(Run(s, qs[..n]))| && !view.rows(Run(s, qs[..n]))[k].active
    && view.writes(qs[n]) == Some(AcceptBody(r.version, r.overridden)) && r.acceptor == qs[n].actor
    && r.acceptedAt == Some(Run(s, qs[..n]).clock + 1)
  }

  // What is never rewritten.
  ghost predicate SameText(was: VersionRow, r: VersionRow) {
    && r.version == was.version && r.markdown == was.markdown && r.proposer == was.proposer
    && r.createdAt == was.createdAt && r.promotedFrom == was.promotedFrom
  }

  ghost predicate Written(s: Db, qs: seq<Request>, view: LogView, r: VersionRow, k: nat, m: nat) {
    BegunAt(s, qs, view, r, k, m) || ProposedAt(s, qs, view, r, k, m) || PromotedAt(s, qs, view, r, k, m)
  }

  /** The run tells row k: one request wrote it, or it was there; and if it was accepted in place, one request
      accepted it. */
  ghost predicate Told(s: Db, qs: seq<Request>, view: LogView, k: nat) {
    && k < |view.rows(Run(s, qs))|
    && var r := view.rows(Run(s, qs))[k];
    && ((k < |view.rows(s)| && SameText(view.rows(s)[k], r)) || exists m: nat :: Written(s, qs, view, r, k, m))
    && (r.active && r.acceptedAt.Some? && r.promotedFrom.None? ==>
          (k < |view.rows(s)| && view.rows(s)[k] == r) || exists n: nat :: ActivatedAt(s, qs, view, r, k, n))
  }

  // ---------- One request and one row ----------

  // An old row keeps its text. It changes when it is accepted in place, or when it is a candidate.
  lemma RowStays(s: Db, q: Request, view: LogView, log: Log, log': Log, k: nat)
    requires LogWritten(s, q, view, log, log') && k < |log|
    ensures k < |log'| && SameText(log[k], log'[k]) && (log[k].active ==> log'[k] == log[k])
    ensures log'[k] == log[k] || (!log'[k].active && log'[k] == log[k].(overridden := log'[k].overridden))
            || (&& !log[k].active && view.writes(q) == Some(AcceptBody(log'[k].version, log'[k].overridden))
                && log'[k].acceptor == q.actor && log'[k].acceptedAt == Some(s.clock + 1))
  {
    if log' != log && view.writes(q).Some? && BodyWritten(log, log', view.writes(q).value, q.actor, s.clock + 1)
       && view.writes(q).value.AcceptBody?
    {
      var m := view.writes(q).value;
      var i: nat :| BodyAccepted(log, log', i, m.target, q.actor, m.single, s.clock + 1);
    }
  }

  lemma NewRow(s: Db, q: Request, view: LogView, log: Log, log': Log, k: nat)
    requires LogWritten(s, q, view, log, log') && |log| <= k < |log'|
    ensures k == |log| && |log'| == k + 1
    ensures || (k == 0 && view.begins(s, q) == Some(log'[k]))
            || (&& k > 0 && view.writes(q) == Some(ProposeBody(log'[k].version, log'[k].markdown))
                && log'[k].proposer == q.actor && log'[k].createdAt == s.clock + 1 && log'[k].promotedFrom.None?
                && !log'[k].active)
            || exists i: nat :: i < k && PromotedFrom(s, q, view, log[i], log'[k])
  {
    if view.writes(q).Some? && BodyWritten(log, log', view.writes(q).value, q.actor, s.clock + 1)
       && view.writes(q).value.AcceptBody?
    {
      var m := view.writes(q).value;
      var i: nat :| BodyAccepted(log, log', i, m.target, q.actor, m.single, s.clock + 1);
      assert PromotedFrom(s, q, view, log[i], log'[k]);
    }
  }

  // ---------- Runs ----------

  lemma StepWrites(s: Db, q: Request, view: LogView)
    requires Inv(s) && OnlySoWritten(view)
    ensures LogWritten(s, q, view, view.rows(s), view.rows(After(s, q)))
  {
    hide Inv; hide After; hide LogWritten;
  }

  // What was written stays written, as the row keeps its text and an active row does not change.
  lemma WrittenLater(s: Db, qs: seq<Request>, view: LogView, was: VersionRow, r: VersionRow, k: nat, m: nat)
    requires qs != [] && Written(s, qs[..|qs| - 1], view, was, k, m)
    requires SameText(was, r) && (was.active ==> r == was)
    requires BegunAt(s, qs[..|qs| - 1], view, was, k, m) ==> was.active
    ensures Written(s, qs, view, r, k, m)
  {
    hide Run; hide PromotedFrom;
    var init := qs[..|qs| - 1];
    assert init[..m] == qs[..m] && init[..m + 1] == qs[..m + 1];
    assert AddedAt(s, qs, view, k, m);
    if PromotedAt(s, init, view, was, k, m) {
      var i: nat :| i < k && PromotedFrom(Run(s, init[..m]), init[m], view, view.rows(Run(s, init[..m]))[i], was);
      PromotedIsActive(Run(s, init[..m]), init[m], view, view.rows(Run(s, init[..m]))[i], was);
      assert PromotedAt(s, qs, view, r, k, m);
    }
  }

  lemma PromotedIsActive(s: Db, q: Request, view: LogView, rc: VersionRow, r: VersionRow)
    requires PromotedFrom(s, q, view, rc, r)
    ensures r.active && r.promotedFrom.Some?
  {
  }

  // A log begins with an active row that nobody had to accept.
  ghost predicate BeginsActive(view: LogView) {
    forall s: Db, q: Request | view.begins(s, q).Some? ::
      view.begins(s, q).value.active && view.begins(s, q).value.acceptedAt.None?
  }

  lemma ToldLater(s: Db, qs: seq<Request>, view: LogView, k: nat)
    requires qs != [] && Inv(Run(s, qs[..|qs| - 1])) && OnlySoWritten(view) && BeginsActive(view)
    requires Told(s, qs[..|qs| - 1], view, k)
    ensures Told(s, qs, view, k)
  {
    hide Inv; hide Run; hide After; hide LogWritten; hide BegunAt; hide ProposedAt; hide PromotedAt; hide OnlySoWritten;
    var init, q := qs[..|qs| - 1], qs[|qs| - 1];
    RunUnfolds(s, qs);
    StepWrites(Run(s, init), q, view);
    RowStays(Run(s, init), q, view, view.rows(Run(s, init)), view.rows(Run(s, qs)), k);
    var was, r := view.rows(Run(s, init))[k], view.rows(Run(s, qs))[k];
    if m: nat :| Written(s, init, view, was, k, m) {
      BegunIsActive(s, init, view, was, k, m);
      WrittenLater(s, qs, view, was, r, k, m);
    }
    if r.active && r.acceptedAt.Some? && r.promotedFrom.None? {
      if was.active {
        if n: nat :| ActivatedAt(s, init, view, was, k, n) {
          assert init[..n] == qs[..n];
          assert ActivatedAt(s, qs, view, r, k, n);
        }
      } else {
        assert ActivatedAt(s, qs, view, r, k, |qs| - 1);
      }
    }
  }

  lemma BegunIsActive(s: Db, qs: seq<Request>, view: LogView, r: VersionRow, k: nat, m: nat)
    requires BeginsActive(view)
    ensures BegunAt(s, qs, view, r, k, m) ==> r.active
  {
    hide Run;
  }

  /** Every row of the log is told by the run. */
  lemma {:induction false} RowsAreTold(s: Db, qs: seq<Request>, view: LogView, k: nat)
    requires Inv(s) && OnlySoWritten(view) && BeginsActive(view) && k < |view.rows(Run(s, qs))|
    ensures Told(s, qs, view, k)
  {
    hide Inv; hide Run; hide After; hide LogWritten; hide OnlySoWritten;
    if qs == [] {
      RunNone(s);
    } else {
      var init, q := qs[..|qs| - 1], qs[|qs| - 1];
      RunKeepsInv(s, init);
      if k < |view.rows(Run(s, init))| {
        RowsAreTold(s, init, view, k);
        ToldLater(s, qs, view, k);
      } else {
        RunUnfolds(s, qs);
        StepWrites(Run(s, init), q, view);
        assert qs[..|qs| - 1 + 1] == qs;
        NewRow(Run(s, init), q, view, view.rows(Run(s, init)), view.rows(Run(s, qs)), k);
        assert AddedAt(s, qs, view, k, |qs| - 1);
        assert Written(s, qs, view, view.rows(Run(s, qs))[k], k, |qs| - 1);
      }
    }
  }

  // ---------- Contracts and templates ----------

  ghost function ContractView(j: nat): LogView {
    LogView((s: Db) => if j < |s.contracts| then s.contracts[j].log else [],
            (q: Request) => if q.op.ContractBody? && q.op.contract == j then Some(q.op.body) else None,
            (s: Db, q: Request) =>
              if q.op.RegisterContract? && j == |s.contracts| then
                Some(VersionRow(q.op.version, q.op.markdown, true, s.clock + 1, None, None, None, None, false))
              else None)
  }

  ghost function TemplateView(kind: TemplateKind): LogView {
    LogView((s: Db) => if kind in s.templates then s.templates[kind] else [],
            (q: Request) => if q.op.TemplateBody? && q.op.kind == kind then Some(q.op.body) else None,
            (s: Db, q: Request) => None)
  }

  lemma LogsAreThere(s: Db)
    requires Inv(s)
    ensures forall j | 0 <= j < |s.contracts| :: s.contracts[j].log != []
    ensures forall kind | kind in s.templates :: s.templates[kind] != []
  {
    hide Constraints;
    forall j | 0 <= j < |s.contracts| ensures s.contracts[j].log != [] {
      assert ContractOk(s.contracts[j], |s.parts|, s.clock);
    }
  }

  // Only the body requests write the log of a contract.
  lemma ContractWritesLog(parts: seq<Part>, c: Contract, c': Contract, q: Request, now: Time)
    requires OnContract(q.op) && ContractWritten(parts, c, c', q, now)
    ensures if q.op.ContractBody? then BodyWritten(c.log, c'.log, q.op.body, q.actor, now) else c'.log == c.log
  {
    hide BodyWritten; hide EndpointsMoved; hide ChangeAsked;
  }

  // No other request touches the log of contract j.
  lemma OtherLogsStay(s: Db, q: Request, s': Db, j: nat)
    requires Writes(s, q, s') && j < |s.contracts| && !(OnContract(q.op) && q.op.contract == j)
    ensures j < |s'.contracts| && s'.contracts[j].log == s.contracts[j].log
  {
    hide PartWritten; hide ContractWritten; hide BodyWritten; hide CascadeDeletion; hide Deleted; hide MayDelete;
    hide OnlyLive; hide MayRegisterContract;
  }

  lemma NewLogBegins(s: Db, q: Request, s': Db, j: nat)
    requires Writes(s, q, s') && j >= |s.contracts|
    ensures j < |s'.contracts| ==> ContractView(j).begins(s, q) == Some(s'.contracts[j].log[0])
                                   && |s'.contracts[j].log| == 1
  {
    hide PartWritten; hide ContractWritten; hide BodyWritten; hide CascadeDeletion; hide Deleted; hide MayDelete;
    hide OnlyLive; hide MayRegisterContract;
  }

  lemma ContractLogStep(s: Db, q: Request, j: nat)
    requires Inv(s)
    ensures var view := ContractView(j); LogWritten(s, q, view, view.rows(s), view.rows(After(s, q)))
  {
    hide Inv; hide After; hide May; hide Writes; hide BodyWritten;
    LogsAreThere(s);
    AnsweredIff(s, q);
    var s' := After(s, q);
    if s' == s {
    } else if j >= |s.contracts| {
      NewLogBegins(s, q, s', j);
    } else if OnContract(q.op) && q.op.contract == j {
      ContractWriteIs(s, q, s');
    } else {
      OtherLogsStay(s, q, s', j);
    }
  }

  lemma ContractWriteIs(s: Db, q: Request, s': Db)
    requires OnContract(q.op) && Writes(s, q, s')
    ensures var j := q.op.contract;
            && j < |s.contracts| && j < |s'.contracts|
            && if q.op.ContractBody? then
                 BodyWritten(s.contracts[j].log, s'.contracts[j].log, q.op.body, q.actor, s.clock + 1)
               else s'.contracts[j].log == s.contracts[j].log
  {
    hide ContractWritten; hide BodyWritten;
    ContractWritesLog(s.parts, s.contracts[q.op.contract], s'.contracts[q.op.contract], q, s.clock + 1);
  }

  // Templates are written by requests on them only.
  lemma OtherTemplatesStay(s: Db, q: Request, s': Db, kind: TemplateKind)
    requires Writes(s, q, s') && !(q.op.TemplateBody? && q.op.kind == kind)
    ensures kind in s'.templates <==> kind in s.templates
    ensures kind in s.templates ==> s'.templates[kind] == s.templates[kind]
  {
    hide PartWritten; hide ContractWritten; hide BodyWritten; hide CascadeDeletion; hide Deleted; hide MayDelete;
    hide OnlyLive; hide MayRegisterContract; hide Dropped;
  }

  lemma TemplateLogStep(s: Db, q: Request, kind: TemplateKind)
    requires Inv(s)
    ensures var view := TemplateView(kind); LogWritten(s, q, view, view.rows(s), view.rows(After(s, q)))
  {
    hide Inv; hide After; hide May; hide BodyWritten; hide OnlyPartChanges; hide PartWritten; hide ContractChanged;
    LogsAreThere(s);
    AnsweredIff(s, q);
    if After(s, q) != s && !(q.op.TemplateBody? && q.op.kind == kind) {
      hide Writes;
      OtherTemplatesStay(s, q, After(s, q), kind);
    }
  }

  lemma ContractSoWritten(j: nat)
    ensures OnlySoWritten(ContractView(j)) && BeginsActive(ContractView(j))
  {
    hide Inv; hide After; hide LogWritten;
    var view := ContractView(j);
    forall s: Db, q: Request | Inv(s) ensures LogWritten(s, q, view, view.rows(s), view.rows(After(s, q))) {
      ContractLogStep(s, q, j);
    }
  }

  lemma TemplateSoWritten(kind: TemplateKind)
    ensures OnlySoWritten(TemplateView(kind)) && BeginsActive(TemplateView(kind))
  {
    hide Inv; hide After; hide LogWritten;
    var view := TemplateView(kind);
    forall s: Db, q: Request | Inv(s) ensures LogWritten(s, q, view, view.rows(s), view.rows(After(s, q))) {
      TemplateLogStep(s, q, kind);
    }
  }

  /** In every reachable catalog the first row of a contract's log is the registration's; every other row was
      proposed, with the version and the text it has, or is the stable row of an accepted candidate. */
  lemma ContractRowsAreTold(s: Db, qs: seq<Request>, j: nat, k: nat)
    requires Installed(s) && j < |Run(s, qs).contracts| && k < |Run(s, qs).contracts[j].log|
    ensures Told(s, qs, ContractView(j), k)
    ensures k == 0 ==> exists m: nat :: BegunAt(s, qs, ContractView(j), Run(s, qs).contracts[j].log[0], 0, m)
  {
    hide Run; hide Inv; hide OnlySoWritten; hide BeginsActive; hide AddedAt; hide PromotedFrom;
    InstalledInv(s);
    ContractSoWritten(j);
    RowsAreTold(s, qs, ContractView(j), k);
  }

  /** The same for a template, whose log starts with the seeded rows. */
  lemma TemplateRowsAreTold(s: Db, qs: seq<Request>, kind: TemplateKind, k: nat)
    requires Installed(s) && kind in Run(s, qs).templates && k < |Run(s, qs).templates[kind]|
    ensures Told(s, qs, TemplateView(kind), k)
  {
    hide Run; hide Inv; hide OnlySoWritten; hide BeginsActive; hide Told;
    InstalledInv(s);
    TemplateSoWritten(kind);
    RowsAreTold(s, qs, TemplateView(kind), k);
  }

  // ---------- The text of a row ----------

  /** Some committed request of the run proposed the text of the row, for a version of its triple, and its actor
      is the row's proposer. */
  ghost predicate TextProposedAt(s: Db, qs: seq<Request>, view: LogView, r: VersionRow, m: nat, v: Version) {
    && m < |qs| && |view.rows(Run(s, qs[..m]))| < |view.rows(Run(s, qs[..m + 1]))|
    && view.writes(qs[m]) == Some(ProposeBody(v, r.markdown)) && SameTriple(v, r.version) && r.proposer == qs[m].actor
  }

  ghost predicate TextProposed(s: Db, qs: seq<Request>, view: LogView, r: VersionRow) {
    exists m: nat, v: Version :: TextProposedAt(s, qs, view, r, m, v)
  }

  // A promoted row takes its text from a candidate that was in the log before it.
  lemma PromotedText(s: Db, qs: seq<Request>, view: LogView, r: VersionRow, k: nat, m: nat) returns (i: nat)
    requires PromotedAt(s, qs, view, r, k, m)
    ensures m < |qs| && i < k == |view.rows(Run(s, qs[..m]))|
    ensures var rc := view.rows(Run(s, qs[..m]))[i];
            rc.version.IsPrerelease() && SameTriple(rc.version, r.version) && rc.markdown == r.markdown
            && rc.proposer == r.proposer
  {
    hide Run;
    i :| i < k && PromotedFrom(Run(s, qs[..m]), qs[m], view, view.rows(Run(s, qs[..m]))[i], r);
  }

  lemma ProposedText(s: Db, qs: seq<Request>, view: LogView, r: VersionRow, k: nat, m: nat)
    requires ProposedAt(s, qs, view, r, k, m)
    ensures TextProposed(s, qs, view, r)
  {
    hide Run;
    assert TextProposedAt(s, qs, view, r, m, r.version);
  }

  // A text that was proposed in a prefix of the run was proposed in the run.
  lemma EarlierText(s: Db, qs: seq<Request>, view: LogView, rc: VersionRow, r: VersionRow, m: nat)
    requires m <= |qs| && TextProposed(s, qs[..m], view, rc)
    requires SameTriple(rc.version, r.version) && rc.markdown == r.markdown && rc.proposer == r.proposer
    ensures TextProposed(s, qs, view, r)
  {
    hide Run;
    var n: nat, v: Version :| TextProposedAt(s, qs[..m], view, rc, n, v);
    assert qs[..m][..n] == qs[..n] && qs[..m][..n + 1] == qs[..n + 1];
    assert TextProposedAt(s, qs, view, r, n, v);
  }

  /** So whatever text is in force in a contract, beyond its registration, was proposed by the actor the row
      names. */
  lemma ContractTextsWereProposed(s: Db, qs: seq<Request>, j: nat, k: nat)
    requires Installed(s) && j < |Run(s, qs).contracts| && 0 < k < |Run(s, qs).contracts[j].log|
    ensures TextProposed(s, qs, ContractView(j), Run(s, qs).contracts[j].log[k])
    decreases |qs|
  {
    hide Run; hide ProposedAt; hide PromotedAt; hide TextProposed; hide AddedAt;
    var view, r := ContractView(j), Run(s, qs).contracts[j].log[k];
    ContractRowsAreTold(s, qs, j, k);
    var m: nat :| Written(s, qs, view, r, k, m);
    if ProposedAt(s, qs, view, r, k, m) {
      ProposedText(s, qs, view, r, k, m);
    } else {
      var i := PromotedText(s, qs, view, r, k, m);
      FirstIsStable(s, qs[..m], j);
      ContractTextsWereProposed(s, qs[..m], j, i);
      EarlierText(s, qs, view, Run(s, qs[..m]).contracts[j].log[i], r, m);
    }
  }

  lemma FirstIsStable(s: Db, qs: seq<Request>, j: nat)
    requires Installed(s) && j < |Run(s, qs).contracts|
    ensures Run(s, qs).contracts[j].log != [] && !Run(s, qs).contracts[j].log[0].version.IsPrerelease()
  {
    hide Run; hide Constraints; hide Installed;
    InstalledInv(s);
    RunKeepsInv(s, qs);
    assert ContractOk(Run(s, qs).contracts[j], |Run(s, qs).parts|, Run(s, qs).clock);
    assert RowOk(Run(s, qs).contracts[j].log[0], Run(s, qs).clock);
  }

  /** The same for a template, or the text was seeded, for a version of the triple. */
  lemma TemplateTextsWereProposed(s: Db, qs: seq<Request>, kind: TemplateKind, k: nat)
    requires Installed(s) && kind in Run(s, qs).templates && k < |Run(s, qs).templates[kind]|
    ensures var r := Run(s, qs).templates[kind][k];
            TextProposed(s, qs, TemplateView(kind), r) || TextSeeded(s, kind, r)
    decreases |qs|
  {
    hide Run; hide ProposedAt; hide PromotedAt; hide TextProposed; hide AddedAt;
    var view, r := TemplateView(kind), Run(s, qs).templates[kind][k];
    TemplateRowsAreTold(s, qs, kind, k);
    if m: nat :| Written(s, qs, view, r, k, m) {
      if ProposedAt(s, qs, view, r, k, m) {
        ProposedText(s, qs, view, r, k, m);
      } else {
        var i := PromotedText(s, qs, view, r, k, m);
        var rc := view.rows(Run(s, qs[..m]))[i];
        TemplateTextsWereProposed(s, qs[..m], kind, i);
        if TextProposed(s, qs[..m], view, rc) { EarlierText(s, qs, view, rc, r, m); }
      }
    }
  }

  ghost predicate TextSeeded(s: Db, kind: TemplateKind, r: VersionRow) {
    kind in s.templates && exists seeded | seeded in s.templates[kind] ::
      SameTriple(seeded.version, r.version) && seeded.markdown == r.markdown && seeded.proposer == r.proposer
  }
}
