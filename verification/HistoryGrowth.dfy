/** History grows only at its new end: one event per audited step, and no earlier event ever
    changes its place, its label or its actors. */
module HistoryGrowth {
  import opened Common
  import opened Handshake
  import opened History
  import opened Invariants
  import opened Records
  import opened State
  import opened Timeline
  import opened Versioning
  import opened VersionLog

  // ---------- One table or the body list changes, the rest stay ----------

  lemma BodiesChange<A, B, C>(was: seq<Body>, now: seq<Body>, first: seq<Proposal<A>>, second: seq<Proposal<B>>,
                              kind: EventKind, deletions: seq<Proposal<C>>, t: Time)
    requires BodiesGain(was, now, t)
    requires DatedBefore(first, t) && DatedBefore(second, t) && DatedBefore(deletions, t)
    ensures Gains(Events(was, first, second, kind, deletions, true), Events(now, first, second, kind, deletions, true),
        t)
  {
    BodyEventsGain(was, now, t);
    ShiftEventsKeepLabels(first, SubtypeShift, was, now, t);
    ShiftEventsKeepLabels(second, kind, was, now, t);
    DeletionEventsKeepLabels(deletions, was, now, t);
    GainsFirst(BodyEvents(was), BodyEvents(now), ShiftEvents(first, SubtypeShift, was),
               ShiftEvents(second, kind, was), DeletionEvents(deletions, was), t);
  }

  lemma GainsFirst<T>(a: seq<Row<T>>, b: seq<Row<T>>, x: seq<Row<T>>, y: seq<Row<T>>, z: seq<Row<T>>, t: Time)
    requires Gains(a, b, t)
    ensures Gains(a + x + y + z, b + x + y + z, t)
  {
    GainsInContext([], a, b, x + y + z, t);
    assert [] + a + (x + y + z) == a + x + y + z && [] + b + (x + y + z) == b + x + y + z;
  }

  lemma FirstChanges<A, B, C>(bodies: seq<Body>, was: seq<Proposal<A>>, now: seq<Proposal<A>>, second: seq<Proposal<B>>,
                              kind: EventKind, deletions: seq<Proposal<C>>, t: Time)
    requires TableStep(was, now, t)
    ensures Gains(Events(bodies, was, second, kind, deletions, true),
        Events(bodies, now, second, kind, deletions, true), t)
  {
    ShiftEventsGain(was, now, SubtypeShift, bodies, t);
    var a, b := ShiftEvents(was, SubtypeShift, bodies), ShiftEvents(now, SubtypeShift, bodies);
    var x, y, z := BodyEvents(bodies), ShiftEvents(second, kind, bodies), DeletionEvents(deletions, bodies);
    GainsInContext(x, a, b, y + z, t);
    assert x + a + (y + z) == x + a + y + z && x + b + (y + z) == x + b + y + z;
  }

  lemma SecondChanges<A, B, C>(bodies: seq<Body>, first: seq<Proposal<A>>, was: seq<Proposal<B>>, now: seq<Proposal<B>>,
                               kind: EventKind, deletions: seq<Proposal<C>>, t: Time)
    requires TableStep(was, now, t)
    ensures Gains(Events(bodies, first, was, kind, deletions, true), Events(bodies, first, now, kind, deletions, true),
        t)
  {
    ShiftEventsGain(was, now, kind, bodies, t);
    var x := BodyEvents(bodies) + ShiftEvents(first, SubtypeShift, bodies);
    GainsInContext(x, ShiftEvents(was, kind, bodies), ShiftEvents(now, kind, bodies),
        DeletionEvents(deletions, bodies), t);
  }

  lemma DeletionsChange<A, B, C>(bodies: seq<Body>, first: seq<Proposal<A>>, second: seq<Proposal<B>>, kind: EventKind,
                                 was: seq<Proposal<C>>, now: seq<Proposal<C>>, t: Time)
    requires TableStep(was, now, t)
    ensures Gains(Events(bodies, first, second, kind, was, true), Events(bodies, first, second, kind, now, true), t)
  {
    DeletionEventsGain(was, now, bodies, t);
    var x := BodyEvents(bodies) + ShiftEvents(first, SubtypeShift, bodies) + ShiftEvents(second, kind, bodies);
    var a, b := DeletionEvents(was, bodies), DeletionEvents(now, bodies);
    GainsInContext(x, a, b, [], t);
    assert x + a + [] == x + a && x + b + [] == x + b;
  }

  lemma AcceptIsTableStep<T>(ps: seq<Proposal<T>>, k: nat, stamp: Acceptance)
    requires k < |ps| && ps[k].accepted.None?
    ensures TableStep(ps, Accept(ps, k, stamp), stamp.at)
  {
    assert AcceptsAt(ps, Accept(ps, k, stamp), k, stamp.at);
  }

  lemma OpenIsTableStep<T>(ps: seq<Proposal<T>>, p: Proposal<T>)
    requires p.accepted.None?
    ensures TableStep(ps, ps + [p], p.createdAt)
  {
  }

  // ---------- Parts ----------

  lemma PartBodiesAppend(vs: seq<PartVersion>, v: PartVersion)
    ensures BodiesGain(PartBodies(vs), PartBodies(vs + [v]), v.createdAt)
  {
    var was, now := PartBodies(vs), PartBodies(vs + [v]);
    assert now == was[..|was|] + [now[|was|]] + was[|was|..];
    assert BodiesGainAt(was, now, |was|, v.createdAt);
  }

  lemma PartMoveGains(p: Part, m: PartMove, actor: Option<Actor>, clock: Time)
    requires PartOk(p, clock) && PartMoveEnabled(p, m, actor)
    ensures Gains(PartEvents(p, true), PartEvents(MovePart(p, m, actor, clock + 1), true), clock + 1)
  {
    var now := clock + 1;
    var bodies := PartBodies(p.versions);
    match m
    case AddVersion(v, markdown, _) =>
      var pv := PartVersion(v, markdown, now);
      PartBodiesAppend(p.versions, pv);
      BodiesChange(bodies, PartBodies(p.versions + [pv]), p.subtypeProposals, p.nameProposals, NameShift,
          p.deletionProposals, now);
    case ProposeSubtype(subtype, rationale) =>
      var row := Open(Change(p.subtype, subtype), rationale, actor, now);
      OpenIsTableStep(p.subtypeProposals, row);
      FirstChanges(bodies, p.subtypeProposals, p.subtypeProposals + [row], p.nameProposals, NameShift,
          p.deletionProposals,
          now);
    case AcceptSubtype(k, single) =>
      var stamp := Acceptance(now, actor, single, false);
      AcceptIsTableStep(p.subtypeProposals, k, stamp);
      FirstChanges(bodies, p.subtypeProposals, Accept(p.subtypeProposals, k, stamp), p.nameProposals, NameShift,
          p.deletionProposals, now);
    case ProposeName(name, rationale) =>
      var row := Open(Change(p.name, name), rationale, actor, now);
      OpenIsTableStep(p.nameProposals, row);
      SecondChanges(bodies, p.subtypeProposals, p.nameProposals, p.nameProposals + [row], NameShift,
          p.deletionProposals,
          now);
    case AcceptName(k, single) =>
      var stamp := Acceptance(now, actor, single, false);
      AcceptIsTableStep(p.nameProposals, k, stamp);
      SecondChanges(bodies, p.subtypeProposals, p.nameProposals, Accept(p.nameProposals, k, stamp), NameShift,
          p.deletionProposals, now);
    case ProposePartDeletion(rationale) =>
      var row := Open((), rationale, actor, now);
      OpenIsTableStep(p.deletionProposals, row);
      DeletionsChange(bodies, p.subtypeProposals, p.nameProposals, NameShift, p.deletionProposals,
          p.deletionProposals + [row], now);
  }

  lemma DropPartGains(p: Part, k: nat, actor: Option<Actor>, cascade: bool, clock: Time)
    requires PartOk(p, clock) && DropEnabled(p, k, actor)
    ensures Gains(PartEvents(p, true), PartEvents(DropPart(p, k, actor, cascade, clock + 1), true), clock + 1)
  {
    var stamp := Acceptance(clock + 1, actor, false, cascade);
    AcceptIsTableStep(p.deletionProposals, k, stamp);
    DeletionsChange(PartBodies(p.versions), p.subtypeProposals, p.nameProposals, NameShift,
                    p.deletionProposals, Accept(p.deletionProposals, k, stamp), clock + 1);
  }

  // ---------- Contracts ----------

  lemma {:induction false} ContractBodiesUpdate(log: Log, i: nat, r: VersionRow, t: Time)
    requires i < |log| && !log[i].active && (r.active ==> r.acceptedAt == Some(t))
    ensures BodiesGain(ContractBodies(log), ContractBodies(log[i := r]), t)
    ensures !r.active ==> ContractBodies(log[i := r]) == ContractBodies(log)
  {
    var n := |log| - 1;
    if i == n {
      assert log[i := r][..n] == log[..n];
      assert log[i := r][n] == r;
      var was, now := ContractBodies(log), ContractBodies(log[i := r]);
      if r.active {
        assert BodiesGainAt(was, now, |was|, t);
      }
    } else {
      assert log[i := r][..n] == log[..n][i := r] && log[i := r][n] == log[n];
      ContractBodiesUpdate(log[..n], i, r, t);
      BodiesGainFollowed(ContractBodies(log[..n]), ContractBodies(log[..n][i := r]), RowBody(log[n], n), t);
    }
  }

  lemma BodiesGainFollowed(a: seq<Body>, b: seq<Body>, rest: seq<Body>, t: Time)
    requires BodiesGain(a, b, t)
    ensures BodiesGain(a + rest, b + rest, t)
  {
    if a != b {
      var k: nat :| BodiesGainAt(a, b, k, t);
      var was, now := a + rest, b + rest;
      assert now[k] == b[k];
      assert was[..k] == a[..k] && was[k..] == a[k..] + rest;
      assert now == was[..k] + [now[k]] + was[k..];
      assert BodiesGainAt(was, now, k, t);
    }
  }

  lemma ContractBodiesAppend(log: Log, r: VersionRow, t: Time)
    requires r.active ==> r.acceptedAt == Some(t)
    ensures BodiesGain(ContractBodies(log), ContractBodies(log + [r]), t)
    ensures !r.active ==> ContractBodies(log + [r]) == ContractBodies(log)
  {
    assert (log + [r])[..|log|] == log;
    var was, now := ContractBodies(log), ContractBodies(log + [r]);
    if r.active {
      assert BodiesGainAt(was, now, |was|, t);
    }
  }

  lemma MoveLogGains(log: Log, m: BodyMove, actor: Option<Actor>, clock: Time, now: Time)
    requires LogOk(log, clock) && MoveLog(log, m, actor, now).Ok?
    ensures BodiesGain(ContractBodies(log), ContractBodies(MoveLog(log, m, actor, now).value), now)
  {
    var log' := MoveLog(log, m, actor, now).value;
    match m
    case ProposeBody(_, _) =>
      ContractBodiesAppend(log, log'[|log|], now);
      assert log' == log + [log'[|log|]];
    case AcceptBody(target, single) =>
      var i := FindExact(log, target).value;
      ContractBodiesUpdate(log, i, log'[i], now);
      if target.IsPrerelease() {
        var mid := log[i := log'[i]];
        ContractBodiesAppend(mid, log'[|log|], now);
        assert log' == mid + [log'[|log|]];
      }
  }

  lemma ContractMoveGains(c: Contract, m: ContractMove, actor: Option<Actor>, parts: nat, clock: Time)
    requires ContractOk(c, parts, clock) && ContractMoveEnabled(c, m, actor, clock + 1)
    ensures Gains(ContractEvents(c, true), ContractEvents(MoveContract(c, m, actor, clock + 1), true), clock + 1)
  {
    var now := clock + 1;
    var bodies := ContractBodies(c.log);
    match m
    case ProposeShape(shape, rationale) =>
      var row := Open(Change(c.shape, shape), rationale, actor, now);
      OpenIsTableStep(c.shapeProposals, row);
      FirstChanges(bodies, c.shapeProposals, c.shapeProposals + [row], c.endpointProposals, EndpointShift,
          c.deletionProposals, now);
    case AcceptShape(k, single) =>
      var stamp := Acceptance(now, actor, single, false);
      AcceptIsTableStep(c.shapeProposals, k, stamp);
      FirstChanges(bodies, c.shapeProposals, Accept(c.shapeProposals, k, stamp), c.endpointProposals, EndpointShift,
          c.deletionProposals, now);
    case ProposeEndpoints(change, rationale) =>
      var row := Open(change, rationale, actor, now);
      OpenIsTableStep(c.endpointProposals, row);
      SecondChanges(bodies, c.shapeProposals, c.endpointProposals, c.endpointProposals + [row], EndpointShift,
          c.deletionProposals, now);
    case AcceptEndpoints(k, single, _, _) =>
      var stamp := Acceptance(now, actor, single, false);
      AcceptIsTableStep(c.endpointProposals, k, stamp);
      SecondChanges(bodies, c.shapeProposals, c.endpointProposals, Accept(c.endpointProposals, k, stamp), EndpointShift,
          c.deletionProposals, now);
    case ProposeDeletion(rationale) =>
      var row := Open((), rationale, actor, now);
      OpenIsTableStep(c.deletionProposals, row);
      DeletionsChange(bodies, c.shapeProposals, c.endpointProposals, EndpointShift, c.deletionProposals,
          c.deletionProposals + [row], now);
    case AcceptDeletion(k, single) =>
      var stamp := Acceptance(now, actor, single, false);
      AcceptIsTableStep(c.deletionProposals, k, stamp);
      DeletionsChange(bodies, c.shapeProposals, c.endpointProposals, EndpointShift, c.deletionProposals,
          Accept(c.deletionProposals, k, stamp), now);
    case MoveBody(body) =>
      MoveLogGains(c.log, body, actor, clock, now);
      BodiesChange(bodies, ContractBodies(MoveLog(c.log, body, actor, now).value),
                   c.shapeProposals, c.endpointProposals, EndpointShift, c.deletionProposals, now);
  }

  // ---------- Sorted histories over a run ----------

  function PartHistory(p: Part): seq<Row<Event>> { NewestFirst(PartEvents(p, true)) }

  function ContractHistory(c: Contract): seq<Row<Event>> { NewestFirst(ContractEvents(c, true)) }

  /** was is exactly the older tail of now, row for row. */
  ghost predicate OlderTail(was: seq<Row<Event>>, now: seq<Row<Event>>) {
    |was| <= |now| && now[|now| - |was|..] == was
  }

  // Events lie at or before the clock and at pairwise different times.
  ghost predicate EventsOk(events: seq<Row<Event>>, clock: Time) {
    && (forall i | 0 <= i < |events| :: events[i].at <= clock)
    && (forall i, j | 0 <= i < j < |events| :: events[i].at != events[j].at)
  }

  ghost predicate HistoriesOk(s: Db) {
    && (forall i | 0 <= i < |s.parts| :: EventsOk(PartEvents(s.parts[i], true), s.clock))
    && (forall j | 0 <= j < |s.contracts| :: EventsOk(ContractEvents(s.contracts[j], true), s.clock))
  }

  lemma GainsKeepOk(was: seq<Row<Event>>, now: seq<Row<Event>>, clock: Time)
    requires Gains(was, now, clock + 1) && EventsOk(was, clock)
    ensures EventsOk(now, clock + 1)
  {
  }

  lemma GainsKeepTail(was: seq<Row<Event>>, now: seq<Row<Event>>, clock: Time)
    requires Gains(was, now, clock + 1) && EventsOk(was, clock)
    ensures OlderTail(NewestFirst(was), NewestFirst(now))
  {
    var top := SortedGains(was, now, clock + 1);
  }

  lemma PartStep(s: Db, e: Effect, actor: Option<Actor>, i: nat, p: Part, p': Part)
    requires PartOk(p, s.clock) && PartEffect(s, e, actor, i, p, p')
    ensures Gains(PartEvents(p, true), PartEvents(p', true), s.clock + 1)
  {
    hide MovePart; hide PartMoveEnabled; hide DropPart; hide DropEnabled; hide PartOk; hide PartEvents;
    if p' == p {
    } else if e.SetPart? {
      PartMoveGains(p, e.partMove, actor, s.clock);
    } else {
      DropPartGains(p, e.row, actor, e.cascade, s.clock);
    }
  }

  lemma ContractStep(s: Db, e: Effect, actor: Option<Actor>, j: nat, c: Contract, c': Contract)
    requires ContractOk(c, |s.parts|, s.clock) && ContractEffect(s, e, actor, j, c, c')
    ensures Gains(ContractEvents(c, true), ContractEvents(c', true), s.clock + 1)
  {
    hide MoveContract; hide ContractMoveEnabled; hide ContractOk; hide Events;
    if e.SetContract? && c' != c {
      ContractMoveGains(c, e.contractMove, actor, |s.parts|, s.clock);
    }
  }

  lemma NewRowsOk(s: Db, e: Effect, actor: Option<Actor>)
    requires Enabled(s, e, actor)
    ensures e.AddPart? ==> EventsOk(PartEvents(Apply(s, e, actor).parts[|s.parts|], true), s.clock + 1)
    ensures e.AddContract? ==> EventsOk(ContractEvents(Apply(s, e, actor).contracts[|s.contracts|], true), s.clock + 1)
  {
    if e.AddContract? {
      var r := Registered(e.version, e.markdown, s.clock + 1);
      assert [r][..0] == [];
      assert ContractBodies([r]) == RowBody(r, 0);
    }
  }

  lemma PartHistoryStep(s: Db, e: Effect, actor: Option<Actor>, i: nat)
    requires Inv(s) && HistoriesOk(s) && Enabled(s, e, actor) && i < |s.parts|
    ensures i < |Apply(s, e, actor).parts|
    ensures EventsOk(PartEvents(Apply(s, e, actor).parts[i], true), s.clock + 1)
    ensures OlderTail(PartHistory(s.parts[i]), PartHistory(Apply(s, e, actor).parts[i]))
  {
    hide Apply; hide Enabled; hide PartEffect; hide PartOk; hide PartEvents; hide Constraints; hide ContractOk;
    hide LogOk;
    PartAfter(s, e, actor, i);
    var was, now := PartEvents(s.parts[i], true), PartEvents(Apply(s, e, actor).parts[i], true);
    PartStep(s, e, actor, i, s.parts[i], Apply(s, e, actor).parts[i]);
    GainsKeepOk(was, now, s.clock);
    GainsKeepTail(was, now, s.clock);
  }

  lemma ContractHistoryStep(s: Db, e: Effect, actor: Option<Actor>, j: nat)
    requires Inv(s) && HistoriesOk(s) && Enabled(s, e, actor) && j < |s.contracts|
    ensures j < |Apply(s, e, actor).contracts|
    ensures EventsOk(ContractEvents(Apply(s, e, actor).contracts[j], true), s.clock + 1)
    ensures OlderTail(ContractHistory(s.contracts[j]), ContractHistory(Apply(s, e, actor).contracts[j]))
  {
    hide Apply; hide Enabled; hide ContractEffect; hide PartOk; hide ContractEvents; hide Constraints; hide ContractOk;
    hide LogOk;
    ContractAfter(s, e, actor, j);
    var was, now := ContractEvents(s.contracts[j], true), ContractEvents(Apply(s, e, actor).contracts[j], true);
    ContractStep(s, e, actor, j, s.contracts[j], Apply(s, e, actor).contracts[j]);
    GainsKeepOk(was, now, s.clock);
    GainsKeepTail(was, now, s.clock);
  }

  lemma EffectHistories(s: Db, e: Effect, actor: Option<Actor>)
    requires Inv(s) && HistoriesOk(s) && Enabled(s, e, actor)
    ensures HistoriesOk(Apply(s, e, actor))
  {
    hide EventsOk; hide Inv; hide PartEvents; hide ContractEvents; hide MovePart; hide MoveContract; hide MoveLog;
    hide CheckAcceptable;
    var s' := Apply(s, e, actor);
    NewRowsOk(s, e, actor);
    forall i | 0 <= i < |s'.parts| ensures EventsOk(PartEvents(s'.parts[i], true), s.clock + 1) {
      if i < |s.parts| { PartHistoryStep(s, e, actor, i); }
    }
    forall j | 0 <= j < |s'.contracts| ensures EventsOk(ContractEvents(s'.contracts[j], true), s.clock + 1) {
      if j < |s.contracts| { ContractHistoryStep(s, e, actor, j); }
    }
  }

  ghost predicate HistoriesGrow(s: Db, s': Db) {
    && |s.parts| <= |s'.parts| && |s.contracts| <= |s'.contracts|
    && (forall i | 0 <= i < |s.parts| :: OlderTail(PartHistory(s.parts[i]), PartHistory(s'.parts[i])))
    && (forall j | 0 <= j < |s.contracts| ::
        OlderTail(ContractHistory(s.contracts[j]), ContractHistory(s'.contracts[j])))
  }

  lemma EffectHistoriesGrow(s: Db, e: Effect, actor: Option<Actor>)
    requires Inv(s) && HistoriesOk(s) && Enabled(s, e, actor)
    ensures HistoriesGrow(s, Apply(s, e, actor))
  {
    hide Apply; hide Enabled; hide Inv; hide PartHistory; hide ContractHistory; hide EventsOk; hide OlderTail;
    var s' := Apply(s, e, actor);
    TableSizes(s, e, actor);
    forall i | 0 <= i < |s.parts| ensures OlderTail(PartHistory(s.parts[i]), PartHistory(s'.parts[i])) {
      PartHistoryStep(s, e, actor, i);
    }
    forall j | 0 <= j < |s.contracts|
        ensures OlderTail(ContractHistory(s.contracts[j]), ContractHistory(s'.contracts[j])) {
      ContractHistoryStep(s, e, actor, j);
    }
  }

  lemma StepHistories(s: Db, q: Request)
    requires Inv(s) && HistoriesOk(s)
    ensures HistoriesOk(After(s, q)) && HistoriesGrow(s, After(s, q))
  {
    hide Decide; hide Apply; hide Enabled; hide Inv; hide Constraints; hide After;
    AfterIs(s, q);
    if After(s, q) != s {
      EffectHistories(s, Decide(s, q).value, q.actor);
      EffectHistoriesGrow(s, Decide(s, q).value, q.actor);
    }
  }

  lemma HistoriesGrowTransitive(a: Db, b: Db, c: Db)
    requires HistoriesGrow(a, b) && HistoriesGrow(b, c)
    ensures HistoriesGrow(a, c)
  {
  }

  /** For every part and contract and every later state of a run, the earlier full history is
      exactly the older tail of the later one. */
  lemma {:induction false} HistoryGrowsAtItsNewEnd(s: Db, qs: seq<Request>)
    requires Inv(s) && HistoriesOk(s)
    ensures Inv(Run(s, qs)) && HistoriesOk(Run(s, qs))
    ensures HistoriesGrow(s, Run(s, qs))
  {
    hide After; hide Inv; hide HistoriesOk; hide PartHistory; hide ContractHistory;
    RunKeepsInv(s, qs);
    if qs == [] {
    } else {
      var mid := Run(s, qs[..|qs| - 1]);
      HistoryGrowsAtItsNewEnd(s, qs[..|qs| - 1]);
      StepHistories(mid, qs[|qs| - 1]);
      HistoriesGrowTransitive(s, mid, Run(s, qs));
    }
  }

  /** In every reachable state the events of one row have pairwise different keys, so reading that
      row's history page by page returns all of it, once, newest first. */
  // No automatic induction: it would unfold the run.
  lemma {:induction false} ReachableHistoryPages(s: Db, qs: seq<Request>, i: nat, limit: nat,
      pages: seq<seq<Row<Event>>>)
    requires Installed(s) && limit >= 1
    requires i < |Run(s, qs).parts| && IsWalk(PartEvents(Run(s, qs).parts[i], true), None, limit, pages)
    ensures Flatten(pages) == PartHistory(Run(s, qs).parts[i])
  {
    hide Run; hide Inv; hide PageOf; hide NewestFirst; hide PartEvents; hide ContractEvents;
    InstalledInv(s);
    HistoryGrowsAtItsNewEnd(s, qs);
    PagingIsComplete(PartEvents(Run(s, qs).parts[i], true), limit, pages);
  }

  lemma ReachableContractHistoryPages(s: Db, qs: seq<Request>, j: nat, limit: nat, pages: seq<seq<Row<Event>>>)
    requires Installed(s) && limit >= 1
    requires j < |Run(s, qs).contracts| && IsWalk(ContractEvents(Run(s, qs).contracts[j], true), None, limit, pages)
    ensures Flatten(pages) == ContractHistory(Run(s, qs).contracts[j])
  {
    hide Run; hide Inv; hide PageOf; hide NewestFirst; hide PartEvents; hide ContractEvents;
    InstalledInv(s);
    HistoryGrowsAtItsNewEnd(s, qs);
    PagingIsComplete(ContractEvents(Run(s, qs).contracts[j], true), limit, pages);
  }

  // ---------- Paging while the catalog is written to ----------

  datatype Subject = OfPart(i: nat) | OfContract(j: nat)

  predicate Exists(s: Db, x: Subject) {
    match x
    case OfPart(i) => i < |s.parts|
    case OfContract(j) => j < |s.contracts|
  }

  function FullEvents(s: Db, x: Subject): seq<Row<Event>>
    requires Exists(s, x)
  {
    match x
    case OfPart(i) => PartEvents(s.parts[i], true)
    case OfContract(j) => ContractEvents(s.contracts[j], true)
  }

  function FullHistory(s: Db, x: Subject): seq<Row<Event>>
    requires Exists(s, x)
  {
    NewestFirst(FullEvents(s, x))
  }

  lemma SubjectGrows(s: Db, qs: seq<Request>, x: Subject)
    requires Inv(s) && HistoriesOk(s) && Exists(s, x)
    ensures Inv(Run(s, qs)) && HistoriesOk(Run(s, qs)) && Exists(Run(s, qs), x)
    ensures OlderTail(FullHistory(s, x), FullHistory(Run(s, qs), x))
  {
    hide Inv; hide Run; hide OlderTail; hide PartEvents; hide ContractEvents; hide NewestFirst; hide EventsOk;
    HistoryGrowsAtItsNewEnd(s, qs);
  }

  lemma SubjectKeys(s: Db, x: Subject)
    requires HistoriesOk(s) && Exists(s, x)
    ensures DistinctKeys(FullEvents(s, x))
  {
    hide PartEvents; hide ContractEvents;
    assert EventsOk(FullEvents(s, x), s.clock);
  }

  // A cursor keeps its place relative to the old end.
  lemma CursorMoves(was: seq<Row<Event>>, now: seq<Row<Event>>, k: nat)
    requires OlderTail(was, now) && 1 <= k <= |was|
    ensures CursorAt(now, k + |now| - |was|) == CursorAt(was, k)
  {
    assert now[|now| - |was|..][k - 1] == now[k - 1 + |now| - |was|];
  }

  // A page of one row, read after any cursor its history has handed out, is the same later.
  lemma OldPagesOfRow(s: Db, qs: seq<Request>, x: Subject, k: nat, limit: nat)
    requires Inv(s) && HistoriesOk(s) && Exists(s, x) && limit >= 1 && 1 <= k <= |FullHistory(s, x)|
    ensures Exists(Run(s, qs), x)
    ensures PageOf(FullEvents(Run(s, qs), x), CursorAt(FullHistory(s, x), k), limit)
            == PageOf(FullEvents(s, x), CursorAt(FullHistory(s, x), k), limit)
  {
    hide Inv; hide Run; hide PageOf; hide HistoriesOk; hide FullEvents; hide DistinctKeys; hide NewestFirst;
    var s' := Run(s, qs);
    SubjectGrows(s, qs, x);
    SubjectKeys(s, x);
    SubjectKeys(s', x);
    var was, now := FullHistory(s, x), FullHistory(s', x);
    var d := |now| - |was|;
    CursorMoves(was, now, k);
    PageAt(FullEvents(s, x), k, limit);
    PageAt(FullEvents(s', x), k + d, limit);
    if k + limit < |was| {
      CursorMoves(was, now, k + limit);
      assert now[d..][k..k + limit] == now[k + d..k + d + limit];
    } else {
      assert now[d..][k..] == now[k + d..];
    }
  }

  /** A contract is read by id, so a page read after any cursor its history has handed out is the
      same in every later state. */
  lemma OldPagesNeverChange(s: Db, qs: seq<Request>, j: nat, k: nat, limit: nat)
    requires Inv(s) && HistoriesOk(s) && j < |s.contracts| && limit >= 1 && 1 <= k <= |ContractHistory(s.contracts[j])|
    ensures j < |Run(s, qs).contracts|
    ensures var cursor := CursorAt(ContractHistory(s.contracts[j]), k);
            PageOf(ContractEvents(Run(s, qs).contracts[j], true), cursor, limit)
            == PageOf(ContractEvents(s.contracts[j], true), cursor, limit)
  {
    hide Inv; hide Run; hide PageOf; hide HistoriesOk; hide ContractEvents; hide NewestFirst;
    OldPagesOfRow(s, qs, OfContract(j), k, limit);
  }

  /** A client follows next through the history of row x while others write: gaps[n] are the requests
      served between its page n and its page n + 1. */
  ghost predicate WalkAmongWrites(s: Db, x: Subject, after: Option<Cursor>, limit: nat, gaps: seq<seq<Request>>,
                                  pages: seq<seq<Row<Event>>>)
    requires limit >= 1
    decreases |pages|
  {
    && Exists(s, x) && pages != []
    && var p := PageOf(FullEvents(s, x), after, limit);
    && pages[0] == p.items
    && if p.next.None? then |pages| == 1
       else gaps != [] && WalkAmongWrites(Run(s, gaps[0]), x, p.next, limit, gaps[1..], pages[1..])
  }

  lemma {:induction false} WalkReadsRest(s: Db, x: Subject, k: nat, limit: nat, gaps: seq<seq<Request>>,
                                         pages: seq<seq<Row<Event>>>)
    requires Inv(s) && HistoriesOk(s) && Exists(s, x) && limit >= 1 && k <= |FullHistory(s, x)|
    requires WalkAmongWrites(s, x, CursorAt(FullHistory(s, x), k), limit, gaps, pages)
    ensures Flatten(pages) == FullHistory(s, x)[k..]
    decreases |pages|
  {
    hide Inv; hide Run; hide PageOf; hide HistoriesOk; hide FullEvents; hide DistinctKeys; hide NewestFirst;
    hide Exists;
    var h := FullHistory(s, x);
    SubjectKeys(s, x);
    PageAt(FullEvents(s, x), k, limit);
    if k + limit < |h| {
      SubjectGrows(s, gaps[0], x);
      var now := FullHistory(Run(s, gaps[0]), x);
      var d := |now| - |h|;
      CursorMoves(h, now, k + limit);
      WalkReadsRest(Run(s, gaps[0]), x, k + limit + d, limit, gaps[1..], pages[1..]);
      assert now[k + limit + d..] == now[d..][k + limit..];
      SliceSplit(h, k, k + limit);
    } else {
      assert Flatten(pages[1..]) == [];
    }
  }

  /** Paging a contract is complete among writes: whatever is served between its pages, a client that
      starts at the newest event and follows next reads exactly the history as it was at its first
      page. */
  lemma PagingSurvivesWrites(s: Db, qs: seq<Request>, j: nat, limit: nat, gaps: seq<seq<Request>>,
                             pages: seq<seq<Row<Event>>>)
    requires Installed(s) && limit >= 1 && j < |Run(s, qs).contracts|
    requires WalkAmongWrites(Run(s, qs), OfContract(j), None, limit, gaps, pages)
    ensures Flatten(pages) == ContractHistory(Run(s, qs).contracts[j])
  {
    hide Run; hide Inv; hide WalkAmongWrites; hide NewestFirst; hide ContractEvents;
    InstalledInv(s);
    HistoryGrowsAtItsNewEnd(s, qs);
    WalkReadsRest(Run(s, qs), OfContract(j), 0, limit, gaps, pages);
    assert FullHistory(Run(s, qs), OfContract(j))[0..] == ContractHistory(Run(s, qs).contracts[j]);
  }

  /** For parts the label of an event is the greatest version that existed at its time. */
  lemma LabelIsGreatestVersion(p: Part, clock: Time, t: Time, k: nat)
    requires PartOk(p, clock) && k < |p.versions| && p.versions[k].createdAt <= t
    ensures !Less(LabelAt(PartBodies(p.versions), t), p.versions[k].version)
    ensures exists n | 0 <= n < |p.versions| && p.versions[n].createdAt <= t ::
              LabelAt(PartBodies(p.versions), t) == p.versions[n].version
  {
    hide RowsOk; hide AliasesOk; hide IsSlug;
    var bodies := PartBodies(p.versions);
    assert bodies[k] in bodies && bodies[k].at <= t;
    var b := InForce(bodies, t).value;
    var n :| 0 <= n < |bodies| && bodies[n] == b;
    assert p.versions[k].createdAt <= p.versions[n].createdAt;
    OrderIsStrictTotal(p.versions[n].version, p.versions[k].version, p.versions[k].version);
  }

  // ---------- The label of a contract's events ----------

  // When an active row came into force.
  function InForceSince(r: VersionRow): Time { r.acceptedAt.GetOr(r.createdAt) }

  lemma {:induction false} ContractBodiesAre(log: Log, b: Body)
    ensures b in ContractBodies(log)
            <==> exists i | 0 <= i < |log| :: log[i].active && RowBody(log[i], i) == [b]
  {
    if log == [] {
    } else {
      var n := |log| - 1;
      ContractBodiesAre(log[..n], b);
      assert forall i | 0 <= i < n :: log[..n][i] == log[i];
      assert b in RowBody(log[n], n) <==> log[n].active && RowBody(log[n], n) == [b];
    }
  }

  // The one row that came into force last gives the label from then on.
  lemma NewestBodyLabels(log: Log, n: nat, t: Time)
    requires n < |log| && log[n].active && InForceSince(log[n]) <= t
    requires forall i | 0 <= i < |log| && i != n && log[i].active :: InForceSince(log[i]) < InForceSince(log[n])
    ensures LabelAt(ContractBodies(log), t) == log[n].version
  {
    hide ContractBodies; hide InForce;
    var bodies := ContractBodies(log);
    var b := RowBody(log[n], n)[0];
    ContractBodiesAre(log, b);
    assert b in bodies;
    var r := InForce(bodies, t);
    assert r.Some? by { InForceSome(bodies, b, t); }
    InForceSome(bodies, b, t);
    ContractBodiesAre(log, r.value);
    var i :| 0 <= i < |log| && log[i].active && RowBody(log[i], i) == [r.value];
  }

  lemma InForceSome(bodies: seq<Body>, b: Body, t: Time)
    requires b in bodies && b.at <= t
    ensures InForce(bodies, t).Some? && InForce(bodies, t).value in bodies && b.at <= InForce(bodies, t).value.at
  {
  }

  /** From an accept on, until the next one, a contract's events are labelled with the version that was
      accepted. That is the greatest active version if and only if no greater one was active when it
      was accepted. */
  lemma ContractLabelIsGreatestIff(log: Log, target: Version, actor: Option<Actor>, single: bool, clock: Time,
      now: Time,
                                   t: Time)
    requires LogOk(log, clock) && clock < now <= t && AcceptVersion(log, target, actor, single, now).Ok?
    ensures var log' := AcceptVersion(log, target, actor, single, now).value;
            && LabelAt(ContractBodies(log'), t) == target.Stable()
            && (ActiveIs(log', LabelAt(ContractBodies(log'), t))
                <==> !(LatestActive(log).Some? && Less(target.Stable(), LatestActive(log).value.version)))
  {
    hide LogOk; hide LabelAt; hide ContractBodies; hide LatestActive; hide Less;
    var log' := AcceptVersion(log, target, actor, single, now).value;
    var n := if target.IsPrerelease() then |log| else FindExact(log, target).value;
    AcceptResponseIsLatestIff(log, target, actor, single, clock, now);
    forall i | 0 <= i < |log| && log[i].active ensures InForceSince(log[i]) <= clock {
      RowTimes(log, clock, i);
    }
    NewestBodyLabels(log', n, t);
  }

  lemma RowTimes(log: Log, clock: Time, i: nat)
    requires LogOk(log, clock) && i < |log|
    ensures InForceSince(log[i]) <= clock
  {
    assert RowOk(log[i], clock);
  }

  /** It can be lower: the log of 1.1.0 and 2.0.0, where 2.0.0 is accepted first. */
  lemma ContractLabelCanBeLower()
    ensures exists log: Log, target: Version, t: Time ::
              && LogOk(log, 4) && AcceptVersion(log, target, None, false, 5).Ok? && t >= 5
              && !ActiveIs(AcceptVersion(log, target, None, false, 5).value,
                           LabelAt(ContractBodies(AcceptVersion(log, target, None, false, 5).value), t))
  {
    AcceptResponseCanBeStale();
    var log: Log, target: Version :| LogOk(log, 4) && AcceptVersion(log, target, None, false, 5).Ok?
      && !ActiveIs(AcceptVersion(log, target, None, false, 5).value, target.Stable());
    ContractLabelIsGreatestIff(log, target, None, false, 4, 5, 5);
  }
}
