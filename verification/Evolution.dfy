/** How single rows may change over a run, and what that means for deleted rows, accepted
    proposals and version logs. */
module Evolution {
  import opened Common
  import opened Handshake
  import opened Invariants
  import opened Records
  import opened State
  import opened Versioning
  import opened VersionLog

  /** Child rows are only added, accepted ones are frozen, and a deleted part changes no more. */
  ghost predicate PartGrows(p: Part, p': Part) {
    && (p.deleted.Some? ==> p' == p)
    && RowsGrow(p.subtypeProposals, p'.subtypeProposals)
    && RowsGrow(p.nameProposals, p'.nameProposals)
    && RowsGrow(p.deletionProposals, p'.deletionProposals)
    && p.versions <= p'.versions && p.createdAt == p'.createdAt
  }

  ghost predicate ContractGrows(c: Contract, c': Contract) {
    && (c.deleted.Some? ==> c' == c)
    && RowsGrow(c.shapeProposals, c'.shapeProposals)
    && RowsGrow(c.endpointProposals, c'.endpointProposals)
    && RowsGrow(c.deletionProposals, c'.deletionProposals)
    && LogGrows(c.log, c'.log) && c.createdAt == c'.createdAt
  }

  ghost predicate Grows(s: Db, s': Db) {
    && |s.parts| <= |s'.parts| && |s.contracts| <= |s'.contracts| && s.templates.Keys <= s'.templates.Keys
    && s.clock <= s'.clock
    && (forall i | 0 <= i < |s.parts| :: PartGrows(s.parts[i], s'.parts[i]))
    && (forall j | 0 <= j < |s.contracts| :: ContractGrows(s.contracts[j], s'.contracts[j]))
    && (forall k | k in s.templates :: LogGrows(s.templates[k], s'.templates[k]))
  }

  lemma AcceptGrowsRows<T>(ps: seq<Proposal<T>>, k: nat, stamp: Acceptance)
    requires k < |ps| && ps[k].accepted.None?
    ensures RowsGrow(ps, Accept(ps, k, stamp))
  {
  }

  lemma PartMoveGrows(p: Part, m: PartMove, actor: Option<Actor>, now: Time)
    requires PartMoveEnabled(p, m, actor)
    ensures PartGrows(p, MovePart(p, m, actor, now))
  {
  }

  lemma ContractMoveGrows(c: Contract, m: ContractMove, actor: Option<Actor>, parts: nat, clock: Time)
    requires ContractOk(c, parts, clock) && ContractMoveEnabled(c, m, actor, clock + 1)
    ensures ContractGrows(c, MoveContract(c, m, actor, clock + 1))
  {
    var now := clock + 1;
    match m
    case AcceptShape(k, single) => AcceptGrowsRows(c.shapeProposals, k, Acceptance(now, actor, single, false));
    case AcceptEndpoints(k, single, _, _) => AcceptGrowsRows(c.endpointProposals, k,
        Acceptance(now, actor, single, false));
    case AcceptDeletion(k, single) => AcceptGrowsRows(c.deletionProposals, k, Acceptance(now, actor, single, false));
    case MoveBody(body) => MoveLogKeeps(c.log, body, actor, clock, now);
    case _ =>
  }

  lemma PartEffectGrows(s: Db, e: Effect, actor: Option<Actor>, i: nat, p: Part, p': Part)
    requires PartEffect(s, e, actor, i, p, p')
    ensures PartGrows(p, p')
  {
    hide MovePart; hide PartMoveEnabled;
    if p' == p {
    } else if e.SetPart? {
      PartMoveGrows(p, e.partMove, actor, s.clock + 1);
    } else {
      AcceptGrowsRows(p.deletionProposals, e.row, Acceptance(s.clock + 1, actor, false, e.cascade));
    }
  }

  lemma ContractEffectGrows(s: Db, e: Effect, actor: Option<Actor>, j: nat, c: Contract, c': Contract)
    requires ContractOk(c, |s.parts|, s.clock) && ContractEffect(s, e, actor, j, c, c')
    ensures ContractGrows(c, c')
  {
    hide MoveContract; hide ContractMoveEnabled;
    if e.SetContract? && c' != c {
      ContractMoveGrows(c, e.contractMove, actor, |s.parts|, s.clock);
    }
  }

  lemma EffectGrows(s: Db, e: Effect, actor: Option<Actor>)
    requires Inv(s) && Enabled(s, e, actor)
    ensures Grows(s, Apply(s, e, actor))
  {
    hide LogOk; hide LogGrows; hide PartOk; hide ContractOk; hide PartGrows; hide ContractGrows; hide Constraints;
    hide PartEffect; hide ContractEffect; hide MoveLog; hide MovePart; hide MoveContract; hide DropPart;
    var s' := Apply(s, e, actor);
    forall i | 0 <= i < |s.parts| ensures PartGrows(s.parts[i], s'.parts[i]) {
      PartAfter(s, e, actor, i);
      PartEffectGrows(s, e, actor, i, s.parts[i], s'.parts[i]);
    }
    forall j | 0 <= j < |s.contracts| ensures ContractGrows(s.contracts[j], s'.contracts[j]) {
      ContractAfter(s, e, actor, j);
      ContractEffectGrows(s, e, actor, j, s.contracts[j], s'.contracts[j]);
    }
    forall k | k in s.templates ensures LogGrows(s.templates[k], s'.templates[k]) {
      TemplateGrows(s, e, actor, k);
    }
  }

  lemma TemplateGrows(s: Db, e: Effect, actor: Option<Actor>, k: TemplateKind)
    requires k in s.templates && LogOk(s.templates[k], s.clock) && Enabled(s, e, actor)
    ensures k in Apply(s, e, actor).templates && LogGrows(s.templates[k], Apply(s, e, actor).templates[k])
  {
    hide LogOk; hide MoveLog;
    if e.SetTemplate? && k == e.kind {
      MoveLogKeeps(s.templates[k], e.body, actor, s.clock, s.clock + 1);
    }
  }

  lemma GrowsReflexive(s: Db)
    ensures Grows(s, s)
  {
  }

  lemma PartGrowsTransitive(a: Part, b: Part, c: Part)
    requires PartGrows(a, b) && PartGrows(b, c)
    ensures PartGrows(a, c)
  {
  }

  lemma ContractGrowsTransitive(a: Contract, b: Contract, c: Contract)
    requires ContractGrows(a, b) && ContractGrows(b, c)
    ensures ContractGrows(a, c)
  {
  }

  lemma GrowsTransitive(a: Db, b: Db, c: Db)
    requires Grows(a, b) && Grows(b, c)
    ensures Grows(a, c)
  {
    forall i | 0 <= i < |a.parts| ensures PartGrows(a.parts[i], c.parts[i]) {
      PartGrowsTransitive(a.parts[i], b.parts[i], c.parts[i]);
    }
    forall j | 0 <= j < |a.contracts| ensures ContractGrows(a.contracts[j], c.contracts[j]) {
      ContractGrowsTransitive(a.contracts[j], b.contracts[j], c.contracts[j]);
    }
    forall k | k in a.templates ensures LogGrows(a.templates[k], c.templates[k]) {
      LogGrowsTransitive(a.templates[k], b.templates[k], c.templates[k]);
    }
  }

  lemma StepGrows(s: Db, q: Request)
    requires Inv(s)
    ensures Grows(s, After(s, q))
  {
    hide Decide; hide Apply; hide Enabled; hide Inv; hide Constraints; hide After; hide Grows;
    AfterIs(s, q);
    if After(s, q) == s {
      GrowsReflexive(s);
    } else {
      EffectGrows(s, Decide(s, q).value, q.actor);
    }
  }

  /** Over any run: every proposal row is accepted at most once and then frozen, no version row
      disappears or changes its version or text, and rows keep their place. */
  lemma {:induction false} RunGrows(s: Db, qs: seq<Request>)
    requires Inv(s)
    ensures Grows(s, Run(s, qs))
  {
    hide After; hide Inv; hide Grows;
    if qs == [] {
      GrowsReflexive(s);
    } else {
      var mid := Run(s, qs[..|qs| - 1]);
      RunGrows(s, qs[..|qs| - 1]);
      RunKeepsInv(s, qs[..|qs| - 1]);
      StepGrows(mid, qs[|qs| - 1]);
      GrowsTransitive(s, mid, Run(s, qs));
    }
  }

  /** Soft deletion is absorbing: in every continuation a deleted part or contract keeps its row,
      its version rows and its proposal rows, and gains none, whatever is registered under its
      name or edge. */
  // No automatic induction: it would unfold the run.
  lemma {:induction false} DeletionIsAbsorbing(s: Db, qs: seq<Request>)
    requires Inv(s)
    ensures forall i | 0 <= i < |s.parts| && s.parts[i].deleted.Some? ::
              i < |Run(s, qs).parts| && Run(s, qs).parts[i] == s.parts[i]
    ensures forall j | 0 <= j < |s.contracts| && s.contracts[j].deleted.Some? ::
              j < |Run(s, qs).contracts| && Run(s, qs).contracts[j] == s.contracts[j]
  {
    hide Run; hide Inv; hide LogGrows; hide RowsGrow;
    RunGrows(s, qs);
  }

  /** Over any run the latest active version of a contract or a template never decreases. */
  // No automatic induction: it would unfold the run.
  lemma {:induction false} ActiveVersionsNeverDecrease(s: Db, qs: seq<Request>)
    requires Inv(s)
    ensures |s.contracts| <= |Run(s, qs).contracts| && s.templates.Keys <= Run(s, qs).templates.Keys
    ensures forall j | 0 <= j < |s.contracts| :: NotBelow(s.contracts[j].log, Run(s, qs).contracts[j].log)
    ensures forall k | k in s.templates :: NotBelow(s.templates[k], Run(s, qs).templates[k])
  {
    hide Run; hide Constraints;
    var s' := Run(s, qs);
    RunGrows(s, qs);
    RunKeepsInv(s, qs);
    forall j | 0 <= j < |s.contracts| ensures NotBelow(s.contracts[j].log, s'.contracts[j].log) {
      assert ContractOk(s.contracts[j], |s.parts|, s.clock) && ContractOk(s'.contracts[j], |s'.parts|, s'.clock);
      LatestNeverDecreases(s.contracts[j].log, s'.contracts[j].log, s.clock, s'.clock);
    }
    forall k | k in s.templates ensures NotBelow(s.templates[k], s'.templates[k]) {
      LatestNeverDecreases(s.templates[k], s'.templates[k], s.clock, s'.clock);
    }
  }

  ghost predicate NotBelow(log: Log, log': Log) {
    && LatestActive(log).Some? && LatestActive(log').Some?
    && !Less(LatestActive(log').value.version, LatestActive(log).value.version)
  }

  /** Over any run, a release candidate whose triple is active is not listed as open again. */
  // No automatic induction: it would unfold the run.
  lemma {:induction false} SupersededStaysClosed(s: Db, qs: seq<Request>, j: nat, i: nat, rc: nat)
    requires Inv(s) && j < |s.contracts| && i < |s.contracts[j].log| && s.contracts[j].log[i].active
    requires j < |Run(s, qs).contracts| && rc < |Run(s, qs).contracts[j].log|
    requires Run(s, qs).contracts[j].log[rc].version.IsPrerelease()
    requires SameTriple(s.contracts[j].log[i].version, Run(s, qs).contracts[j].log[rc].version)
    ensures !IsOpen(Run(s, qs).contracts[j].log, Run(s, qs).contracts[j].log[rc])
  {
    hide Run; hide Constraints;
    var s' := Run(s, qs);
    RunGrows(s, qs);
    RunKeepsInv(s, qs);
    assert ContractGrows(s.contracts[j], s'.contracts[j]) && ContractOk(s'.contracts[j], |s'.parts|, s'.clock);
    SupersededIsNeverOpen(s.contracts[j].log, s'.contracts[j].log, s'.clock, i, rc);
  }

  /** The same for templates. */
  // No automatic induction: it would unfold the run.
  lemma {:induction false} SupersededStaysClosedInTemplates(s: Db, qs: seq<Request>, kind: TemplateKind, i: nat,
      rc: nat)
    requires Inv(s) && kind in s.templates && i < |s.templates[kind]| && s.templates[kind][i].active
    requires kind in Run(s, qs).templates && rc < |Run(s, qs).templates[kind]|
    requires Run(s, qs).templates[kind][rc].version.IsPrerelease()
    requires SameTriple(s.templates[kind][i].version, Run(s, qs).templates[kind][rc].version)
    ensures !IsOpen(Run(s, qs).templates[kind], Run(s, qs).templates[kind][rc])
  {
    hide Run; hide Constraints; hide LogOk; hide LogGrows;
    var s' := Run(s, qs);
    RunGrows(s, qs);
    RunKeepsInv(s, qs);
    SupersededIsNeverOpen(s.templates[kind], s'.templates[kind], s'.clock, i, rc);
  }

  /** The version-log promises, without the bookkeeping: versions pairwise different under numeric rc
      equality; active rows stable; every promoted row has its candidate, unchanged, still in the log;
      one promotion per triple; and the query by three integers returns the greatest active version. */
  ghost predicate LogSafe(log: Log) {
    && (forall i, j | 0 <= i < j < |log| :: !Same(log[i].version, log[j].version))
    && (forall i | 0 <= i < |log| && log[i].active :: !log[i].version.IsPrerelease())
    && (forall i | 0 <= i < |log| && log[i].promotedFrom.Some? :: exists j | 0 <= j < |log| :: MadeFrom(log[i], log[j]))
    && (forall i, j | 0 <= i < j < |log| && log[i].promotedFrom.Some? && log[j].promotedFrom.Some? ::
          !SameTriple(log[i].version, log[j].version))
    && LatestActive(log).Some?
    && (forall i | 0 <= i < |log| && log[i].active :: !Less(LatestActive(log).value.version, log[i].version))
  }

  lemma LogIsSafe(log: Log, clock: Time)
    requires LogOk(log, clock)
    ensures LogSafe(log)
  {
  }

  /** In every reachable catalog every version log, of a contract or of a template, is safe. */
  // No automatic induction: it would unfold the run.
  lemma {:induction false} ReachableLogsAreSafe(s: Db, qs: seq<Request>)
    requires Installed(s)
    ensures forall j | 0 <= j < |Run(s, qs).contracts| :: LogSafe(Run(s, qs).contracts[j].log)
    ensures forall k | k in Run(s, qs).templates :: LogSafe(Run(s, qs).templates[k])
  {
    hide Run; hide Constraints; hide Installed; hide LogSafe; hide LogOk;
    var s' := Run(s, qs);
    InstalledInv(s);
    RunKeepsInv(s, qs);
    forall j | 0 <= j < |s'.contracts| ensures LogSafe(s'.contracts[j].log) {
      assert ContractOk(s'.contracts[j], |s'.parts|, s'.clock);
      LogIsSafe(s'.contracts[j].log, s'.clock);
    }
    forall k | k in s'.templates ensures LogSafe(s'.templates[k]) { LogIsSafe(s'.templates[k], s'.clock); }
  }

  /** In every reachable catalog, over all proposal families: an accepted row without override
      whose two sides are both known has two different actors, and an accepted part deletion has
      a known acceptor and no override. */
  // No automatic induction: it would unfold the run.
  lemma {:induction false} HandshakesHold(s: Db, qs: seq<Request>)
    requires Installed(s)
    ensures forall i | 0 <= i < |Run(s, qs).parts| ::
              var p := Run(s, qs).parts[i];
              && AllTwoParties(p.subtypeProposals) && AllTwoParties(p.nameProposals)
                  && AllTwoParties(p.deletionProposals)
              && forall k | 0 <= k < |p.deletionProposals| && p.deletionProposals[k].accepted.Some? ::
                   var a := p.deletionProposals[k].accepted.value; a.acceptor.Some? && !a.overridden
    ensures forall j | 0 <= j < |Run(s, qs).contracts| ::
              var c := Run(s, qs).contracts[j];
              && AllTwoParties(c.shapeProposals) && AllTwoParties(c.endpointProposals)
                  && AllTwoParties(c.deletionProposals)
              && LogTwoParties(c.log)
    ensures forall k | k in Run(s, qs).templates :: LogTwoParties(Run(s, qs).templates[k])
  {
    hide Run; hide Constraints; hide Installed;
    var s' := Run(s, qs);
    InstalledInv(s);
    RunKeepsInv(s, qs);
    forall i | 0 <= i < |s'.parts|
      ensures var p := s'.parts[i];
              && AllTwoParties(p.subtypeProposals) && AllTwoParties(p.nameProposals)
                  && AllTwoParties(p.deletionProposals)
              && forall k | 0 <= k < |p.deletionProposals| && p.deletionProposals[k].accepted.Some? ::
                   var a := p.deletionProposals[k].accepted.value; a.acceptor.Some? && !a.overridden
    {
      assert PartOk(s'.parts[i], s'.clock);
    }
    forall j | 0 <= j < |s'.contracts|
      ensures var c := s'.contracts[j];
              && AllTwoParties(c.shapeProposals) && AllTwoParties(c.endpointProposals)
                  && AllTwoParties(c.deletionProposals)
              && LogTwoParties(c.log)
    {
      assert ContractOk(s'.contracts[j], |s'.parts|, s'.clock);
    }
  }

  ghost predicate AllTwoParties<T>(ps: seq<Proposal<T>>) {
    forall k | 0 <= k < |ps| :: TwoParties(ps[k])
  }

  ghost predicate LogTwoParties(log: Log) {
    forall i | 0 <= i < |log| ::
      log[i].active && !log[i].overridden && log[i].proposer.Some? && log[i].acceptor.Some?
      ==> log[i].proposer != log[i].acceptor
  }
}
