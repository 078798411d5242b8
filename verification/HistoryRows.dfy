/** What the history tells: which rows of the audit tables stand in it, what a request adds to it, and which
    requests the actors of an event sent. */
module HistoryRows {
  import opened Common
  import opened Endpoints
  import opened Graph
  import opened Handshake
  import opened History
  import opened HistoryGrowth
  import opened Invariants
  import opened Provenance
  import opened Records
  import opened State
  import opened Timeline
  import opened Versioning
  import opened VersionLog

  // ---------- Which rows stand in the history ----------

  // r is the acceptance of its row of this table.
  ghost predicate TellsAcceptance<T>(ps: seq<Proposal<T>>, r: Row<Event>) {
    && r.id < |ps| && ps[r.id].accepted.Some?
    && var a := ps[r.id].accepted.value;
    && r.at == a.at && r.item.proposer == ps[r.id].proposer && r.item.acceptor == a.acceptor
    && r.item.overridden == a.overridden
  }

  // r is the filing of its row of this table.
  ghost predicate TellsFiling<T>(ps: seq<Proposal<T>>, r: Row<Event>) {
    && r.id < |ps| && r.at == ps[r.id].createdAt && r.item.proposer == ps[r.id].proposer && r.item.acceptor.None?
    && !r.item.overridden
  }

  /** r stands for row r.id of the table of its kind, and carries the version in force at its time. */
  ghost predicate PartRow(p: Part, r: Row<Event>) {
    match r.item.kind
    case BodyBump =>
      && r.id < |p.versions| && r.at == p.versions[r.id].createdAt && r.item.version == p.versions[r.id].version
      && r.item.proposer.None? && r.item.acceptor.None? && !r.item.overridden
    case SubtypeShift =>
      TellsAcceptance(p.subtypeProposals, r) && r.item.version == LabelAt(PartBodies(p.versions), r.at)
    case NameShift => TellsAcceptance(p.nameProposals, r) && r.item.version == LabelAt(PartBodies(p.versions), r.at)
    case EndpointShift => false
    case DeletionProposed =>
      TellsFiling(p.deletionProposals, r) && r.item.version == LabelAt(PartBodies(p.versions), r.at)
    case DeletionAccepted =>
      TellsAcceptance(p.deletionProposals, r) && r.item.version == LabelAt(PartBodies(p.versions), r.at)
  }

  ghost predicate ContractRow(c: Contract, r: Row<Event>) {
    match r.item.kind
    case BodyBump =>
      && r.id < |c.log| && c.log[r.id].active && r.at == InForceSince(c.log[r.id])
      && r.item == Event(BodyBump, c.log[r.id].version, c.log[r.id].proposer, c.log[r.id].acceptor,
           c.log[r.id].overridden)
    case SubtypeShift => TellsAcceptance(c.shapeProposals, r) && r.item.version == LabelAt(ContractBodies(c.log), r.at)
    case EndpointShift =>
      TellsAcceptance(c.endpointProposals, r) && r.item.version == LabelAt(ContractBodies(c.log), r.at)
    case NameShift => false
    case DeletionProposed =>
      TellsFiling(c.deletionProposals, r) && r.item.version == LabelAt(ContractBodies(c.log), r.at)
    case DeletionAccepted =>
      TellsAcceptance(c.deletionProposals, r) && r.item.version == LabelAt(ContractBodies(c.log), r.at)
  }

  // The events about deletions, which are shown on request only.
  predicate OnDeletion(kind: EventKind) { kind.DeletionProposed? || kind.DeletionAccepted? }

  lemma {:induction false} ShiftRowIff<T>(ps: seq<Proposal<T>>, kind: EventKind, bodies: seq<Body>, r: Row<Event>)
    ensures r in ShiftEvents(ps, kind, bodies)
            <==> r.item.kind == kind && TellsAcceptance(ps, r) && r.item.version == LabelAt(bodies, r.at)
  {
    hide LabelAt;
    if ps == [] {
    } else {
      ShiftRowIff(ps[..|ps| - 1], kind, bodies, r);
    }
  }

  lemma {:induction false} DeletionRowIff<T>(ps: seq<Proposal<T>>, bodies: seq<Body>, r: Row<Event>)
    ensures r in DeletionEvents(ps, bodies)
            <==> (|| (r.item.kind.DeletionProposed? && TellsFiling(ps, r))
                  || (r.item.kind.DeletionAccepted? && TellsAcceptance(ps, r)))
                 && r.item.version == LabelAt(bodies, r.at)
  {
    hide LabelAt;
    if ps == [] {
    } else {
      DeletionRowIff(ps[..|ps| - 1], bodies, r);
    }
  }

  lemma BodyRowIff(bodies: seq<Body>, r: Row<Event>)
    ensures r in BodyEvents(bodies)
            <==> exists b :: b in bodies && r.at == b.at && r.id == b.id
                   && r.item == Event(BodyBump, b.version, b.proposer, b.acceptor, b.overridden)
  {
    if b: Body :| b in bodies && r.at == b.at && r.id == b.id
                   && r.item == Event(BodyBump, b.version, b.proposer, b.acceptor, b.overridden)
    {
      var n :| 0 <= n < |bodies| && bodies[n] == b;
      assert BodyEvents(bodies)[n] == r;
    }
    if r in BodyEvents(bodies) {
      var n :| 0 <= n < |bodies| && BodyEvents(bodies)[n] == r;
      assert bodies[n] in bodies;
    }
  }

  /** An event stands in a part's history if and only if it is told by a version row or by an accepted proposal
      row, or, where deletions are shown, by a filed deletion proposal. */
  lemma PartRowIff(p: Part, includeDeleted: bool, r: Row<Event>)
    ensures r in PartEvents(p, includeDeleted) <==> PartRow(p, r) && (OnDeletion(r.item.kind) ==> includeDeleted)
  {
    hide BodyEvents; hide ShiftEvents; hide DeletionEvents; hide LabelAt; hide TellsAcceptance; hide TellsFiling;
    var bodies := PartBodies(p.versions);
    BodyRowIff(bodies, r);
    PartBodyIff(p.versions, r);
    ShiftRowIff(p.subtypeProposals, SubtypeShift, bodies, r);
    ShiftRowIff(p.nameProposals, NameShift, bodies, r);
    DeletionRowIff(p.deletionProposals, bodies, r);
    assert r in PartEvents(p, includeDeleted)
           <==> r in BodyEvents(bodies) || r in ShiftEvents(p.subtypeProposals, SubtypeShift, bodies)
                || r in ShiftEvents(p.nameProposals, NameShift, bodies)
                || (includeDeleted && r in DeletionEvents(p.deletionProposals, bodies));
  }

  lemma PartBodyIff(versions: seq<PartVersion>, r: Row<Event>)
    ensures (exists b :: b in PartBodies(versions) && r.at == b.at && r.id == b.id
               && r.item == Event(BodyBump, b.version, b.proposer, b.acceptor, b.overridden))
            <==> r.id < |versions| && r.at == versions[r.id].createdAt
                 && r.item == Event(BodyBump, versions[r.id].version, None, None, false)
  {
    if r.id < |versions| {
      assert PartBodies(versions)[r.id] in PartBodies(versions);
    }
  }

  lemma ContractBodyIff(log: Log, r: Row<Event>)
    ensures (exists b :: b in ContractBodies(log) && r.at == b.at && r.id == b.id
               && r.item == Event(BodyBump, b.version, b.proposer, b.acceptor, b.overridden))
            <==> r.id < |log| && log[r.id].active && r.at == InForceSince(log[r.id])
                 && r.item == Event(BodyBump, log[r.id].version, log[r.id].proposer, log[r.id].acceptor,
                      log[r.id].overridden)
  {
    hide ContractBodies;
    var told := Body(r.at, r.id, r.item.version, r.item.proposer, r.item.acceptor, r.item.overridden);
    ContractBodiesAre(log, told);
    if r.id < |log| && log[r.id].active { assert RowBody(log[r.id], r.id) == [RowBody(log[r.id], r.id)[0]]; }
  }

  /** The same for a contract: its bodies are the rows that are in force or were. */
  lemma ContractRowIff(c: Contract, includeDeleted: bool, r: Row<Event>)
    ensures r in ContractEvents(c, includeDeleted)
            <==> ContractRow(c, r) && (OnDeletion(r.item.kind) ==> includeDeleted)
  {
    hide BodyEvents; hide ShiftEvents; hide DeletionEvents; hide LabelAt; hide TellsAcceptance; hide TellsFiling;
    hide ContractBodies;
    var bodies := ContractBodies(c.log);
    BodyRowIff(bodies, r);
    ContractBodyIff(c.log, r);
    ShiftRowIff(c.shapeProposals, SubtypeShift, bodies, r);
    ShiftRowIff(c.endpointProposals, EndpointShift, bodies, r);
    DeletionRowIff(c.deletionProposals, bodies, r);
    assert r in ContractEvents(c, includeDeleted)
           <==> r in BodyEvents(bodies) || r in ShiftEvents(c.shapeProposals, SubtypeShift, bodies)
                || r in ShiftEvents(c.endpointProposals, EndpointShift, bodies)
                || (includeDeleted && r in DeletionEvents(c.deletionProposals, bodies));
  }

  // ---------- What a request adds ----------

  // The event of accepting row k of a table.
  ghost function AcceptNews<T>(ps: seq<Proposal<T>>, k: nat, kind: EventKind, inForce: Version, acceptor: Option<Actor>,
                               single: bool, now: Time): seq<Row<Event>>
  {
    if k < |ps| then [Row(now, k, Event(kind, inForce, ps[k].proposer, acceptor, single))] else []
  }

  /** The events that a committed request adds to the history of part i: a new body, or one accepted or filed
      proposal with both actors. */
  ghost function PartNews(s: Db, q: Request, i: nat): (r: seq<Row<Event>>)
    ensures |r| <= 1
  {
    var now := s.clock + 1;
    if After(s, q) == s then []
    else if q.op.RegisterPart? then
      if i == |s.parts| then [Row(now, 0, Event(BodyBump, q.op.version, None, None, false))] else []
    else if !((OnPart(q.op) || q.op.AcceptPartDeletion?) && LiveNamed(s.parts, q.op.name, i)) then []
    else
      var p := s.parts[i];
      var inForce := LabelAt(PartBodies(p.versions), now);
      match q.op
      case UpdatePart(_, version, _, _) => [Row(now, |p.versions|, Event(BodyBump, version, None, None, false))]
      case AcceptPartSubtype(_, k, single) =>
        AcceptNews(p.subtypeProposals, k, SubtypeShift, inForce, q.actor, single, now)
      case AcceptPartName(_, k, single) => AcceptNews(p.nameProposals, k, NameShift, inForce, q.actor, single, now)
      case ProposePartDeletion(_, _) =>
        [Row(now, |p.deletionProposals|, Event(DeletionProposed, inForce, q.actor, None, false))]
      case AcceptPartDeletion(_, k, _, _) =>
        AcceptNews(p.deletionProposals, k, DeletionAccepted, inForce, q.actor, false, now)
      case _ => []
  }

  // The rows of the present stand on top of the older ones.
  lemma TopIs(was: seq<Row<Event>>, now: seq<Row<Event>>, news: seq<Row<Event>>, clock: Time)
    requires Gains(was, now, clock + 1) && EventsOk(was, clock) && |news| <= 1
    requires forall r :: r in news <==> r in now && r.at == clock + 1
    ensures NewestFirst(now) == news + NewestFirst(was)
  {
    hide NewestFirst;
    var top := SortedGains(was, now, clock + 1);
    if top == [] {
      if news != [] {
        assert news[0] in now;
        NewestFirstMembers(now, news[0]);
        NewestFirstMembers(was, news[0]);
      }
    } else {
      assert top[0] in NewestFirst(now);
      NewestFirstMembers(now, top[0]);
      assert top[0] in news;
      assert top == [top[0]] && news == [news[0]];
    }
  }

  // An old row is dated before now.
  lemma OldRowsAreOlder(p: Part, r: Row<Event>, clock: Time)
    requires PartOk(p, clock) && PartRow(p, r)
    ensures r.at <= clock
  {
    hide LabelAt; hide AliasesOk; hide IsSlug;
  }

  // Of the changed part's rows, the news are those of now.
  lemma PartNewsIff(s: Db, q: Request, i: nat, r: Row<Event>)
    requires i < |s.parts| && PartOk(s.parts[i], s.clock) && After(s, q) != s && OnPart(q.op)
    requires MayOnPart(s, q, i) && PartChanged(s, q, After(s, q), i)
    ensures r in PartNews(s, q, i) <==> PartRow(After(s, q).parts[i], r) && r.at == s.clock + 1
  {
    hide LabelAt; hide After; hide AliasesOk; hide IsSlug; hide FreeName; hide VersionsOk; hide PartBodies;
    var p, p' := s.parts[i], After(s, q).parts[i];
    OnlyLiveIsLive(s.parts, q.op.name, i);
    assert forall k | 0 <= k < |p.versions| :: p.versions[k].createdAt <= s.clock by { VersionsAreOld(p, s.clock); }
  }

  lemma VersionsAreOld(p: Part, clock: Time)
    requires PartOk(p, clock)
    ensures forall k | 0 <= k < |p.versions| :: p.versions[k].createdAt <= clock
  {
    hide AliasesOk; hide IsSlug; hide RowsOk;
  }

  lemma DropNewsIff(s: Db, q: Request, i: nat, r: Row<Event>)
    requires i < |s.parts| && PartOk(s.parts[i], s.clock) && After(s, q) != s && q.op.AcceptPartDeletion?
    requires MayDelete(s, q, i) && PartDropped(s, After(s, q), i, q.op.row, q.actor, q.op.cascade)
    ensures r in PartNews(s, q, i) <==> PartRow(After(s, q).parts[i], r) && r.at == s.clock + 1
  {
    hide LabelAt; hide After; hide AliasesOk; hide IsSlug; hide VersionsOk; hide PartBodies; hide Dropped;
    VersionsAreOld(s.parts[i], s.clock);
    var ps, ps', k := s.parts[i].deletionProposals, After(s, q).parts[i].deletionProposals, q.op.row;
    assert |ps'| == |ps| && ps'[k].accepted.Some?;
    assert forall n | 0 <= n < |ps| && n != k :: ps'[n] == ps[n];
  }

  // The row a request changes, if it changes a part that was there.
  lemma ChangedPart(s: Db, q: Request) returns (n: nat)
    requires Inv(s) && After(s, q) != s && (OnPart(q.op) || q.op.AcceptPartDeletion?)
    ensures n < |s.parts| == |After(s, q).parts|
    ensures if OnPart(q.op) then MayOnPart(s, q, n) && PartChanged(s, q, After(s, q), n)
            else MayDelete(s, q, n) && PartDropped(s, After(s, q), n, q.op.row, q.actor, q.op.cascade)
    ensures forall i: nat | i < |s.parts| && LiveNamed(s.parts, q.op.name, i) :: i == n
    ensures forall i | 0 <= i < |s.parts| && i != n :: After(s, q).parts[i] == s.parts[i]
  {
    hide Inv; hide After; hide MayChangePart; hide PartWritten; hide MayDelete; hide Deleted; hide Dropped;
    hide OnlyLive; hide CascadeDeletion;
    AnsweredIff(s, q);
    if OnPart(q.op) {
      n :| PartChanged(s, q, After(s, q), n);
      var m: nat :| MayOnPart(s, q, m);
      OnlyLiveIsLive(s.parts, q.op.name, n);
    } else {
      n :| MayDelete(s, q, n) && PartDropped(s, After(s, q), n, q.op.row, q.actor, q.op.cascade);
      MayDeleteNames(s, q, n);
    }
  }

  // Requests that address no part leave the parts that were there alone.
  lemma OtherPartsStay(s: Db, q: Request)
    requires Inv(s) && !OnPart(q.op) && !q.op.AcceptPartDeletion?
    ensures |s.parts| <= |After(s, q).parts|
    ensures forall i | 0 <= i < |s.parts| :: After(s, q).parts[i] == s.parts[i]
    ensures After(s, q) != s && q.op.RegisterPart? ==>
              After(s, q).parts == s.parts + [Part(q.op.name, q.op.subtype, q.op.aliases, s.clock + 1, None, None, None,
                                                [PartVersion(q.op.version, q.op.markdown, s.clock + 1)], [], [], [])]
    ensures !q.op.RegisterPart? ==> After(s, q).parts == s.parts
  {
    hide Inv; hide After; hide ContractWritten; hide BodyWritten; hide MayRegisterContract; hide May;
    AnsweredIff(s, q);
  }

  lemma PartNewsOf(s: Db, q: Request, i: nat, r: Row<Event>)
    requires Inv(s) && i < |s.parts|
    ensures i < |After(s, q).parts|
    ensures r in PartNews(s, q, i) <==> PartRow(After(s, q).parts[i], r) && r.at == s.clock + 1
  {
    assert PartOk(s.parts[i], s.clock);
    hide Inv; hide After; hide PartOk; hide PartRow; hide LabelAt; hide MayOnPart; hide PartChanged; hide MayDelete;
    hide PartDropped;
    if After(s, q) == s {
      if PartRow(s.parts[i], r) { OldRowsAreOlder(s.parts[i], r, s.clock); }
    } else if OnPart(q.op) || q.op.AcceptPartDeletion? {
      var n := ChangedPart(s, q);
      if i != n {
        if PartRow(s.parts[i], r) { OldRowsAreOlder(s.parts[i], r, s.clock); }
      } else if OnPart(q.op) {
        PartNewsIff(s, q, i, r);
      } else {
        DropNewsIff(s, q, i, r);
      }
    } else {
      OtherPartsStay(s, q);
      if PartRow(s.parts[i], r) { OldRowsAreOlder(s.parts[i], r, s.clock); }
    }
  }

  lemma PartGains(s: Db, q: Request, i: nat)
    requires Inv(s) && i < |s.parts|
    ensures i < |After(s, q).parts|
    ensures Gains(PartEvents(s.parts[i], true), PartEvents(After(s, q).parts[i], true), s.clock + 1)
  {
    assert PartOk(s.parts[i], s.clock);
    hide Inv; hide After; hide Decide; hide Apply; hide Enabled; hide PartOk; hide PartEvents; hide PartEffect;
    AfterIs(s, q);
    if After(s, q) != s {
      PartAfter(s, Decide(s, q).value, q.actor, i);
      PartStep(s, Decide(s, q).value, q.actor, i, s.parts[i], After(s, q).parts[i]);
    }
  }

  /** After any request the history of a part is its news followed by the history of before. */
  lemma PartHistoryGains(s: Db, q: Request, i: nat)
    requires Inv(s) && HistoriesOk(s) && i < |After(s, q).parts|
    ensures PartHistory(After(s, q).parts[i])
            == PartNews(s, q, i) + (if i < |s.parts| then PartHistory(s.parts[i]) else [])
  {
    hide Inv; hide After; hide PartEvents; hide ContractEvents; hide NewestFirst; hide PartNews; hide PartRow;
    hide EventsOk;
    if i < |s.parts| {
      PartGains(s, q, i);
      var was, now := PartEvents(s.parts[i], true), PartEvents(After(s, q).parts[i], true);
      forall r ensures r in PartNews(s, q, i) <==> r in now && r.at == s.clock + 1 {
        PartNewsOf(s, q, i, r);
        PartRowIff(After(s, q).parts[i], true, r);
      }
      TopIs(was, now, PartNews(s, q, i), s.clock);
    } else {
      NewPartHistory(s, q, i);
    }
  }

  lemma NewPartHistory(s: Db, q: Request, i: nat)
    requires Inv(s) && |s.parts| <= i < |After(s, q).parts|
    ensures PartHistory(After(s, q).parts[i]) == PartNews(s, q, i)
  {
    hide Inv; hide After;
    if OnPart(q.op) || q.op.AcceptPartDeletion? {
      AnsweredIff(s, q);
      if After(s, q) != s { var n := ChangedPart(s, q); }
    } else {
      OtherPartsStay(s, q);
      var p := After(s, q).parts[i];
      BareHistory(p, q.op.version, q.op.markdown, s.clock + 1);
    }
  }

  lemma BareHistory(p: Part, v: Version, markdown: string, now: Time)
    requires p.versions == [PartVersion(v, markdown, now)] && p.subtypeProposals == [] && p.nameProposals == []
    requires p.deletionProposals == []
    ensures PartHistory(p) == [Row(now, 0, Event(BodyBump, v, None, None, false))]
  {
    var e := Row(now, 0, Event(BodyBump, v, None, None, false));
    assert PartEvents(p, true) == [e];
    assert [e] == [] + [e] && [e][..0] == [];
  }

  // ---------- The history over a run ----------

  /** The news of every request of the run, the last first. */
  ghost function PartStory(s: Db, qs: seq<Request>, i: nat): seq<Row<Event>> {
    if qs == [] then []
    else
      var n := |qs| - 1;
      PartNews(Run(s, qs[..n]), qs[n], i) + PartStory(s, qs[..n], i)
  }

  /** In every reachable catalog the full history of a part is the news of the run's committed requests: nothing
      else stands in it, and nothing of them is missing. */
  lemma {:induction false} PartHistoryIsItsStory(s: Db, qs: seq<Request>, i: nat)
    requires Installed(s) && i < |Run(s, qs).parts|
    ensures PartHistory(Run(s, qs).parts[i]) == PartStory(s, qs, i)
  {
    hide Run; hide Inv; hide After; hide PartHistory; hide PartNews;
    InstalledInv(s);
    if qs == [] {
      RunNone(s);
    } else {
      var n := |qs| - 1;
      var init := qs[..n];
      HistoryGrowsAtItsNewEnd(s, init);
      RunUnfolds(s, qs);
      PartHistoryGains(Run(s, init), qs[n], i);
      if i < |Run(s, init).parts| {
        PartHistoryIsItsStory(s, init, i);
      } else {
        NoStoryYet(s, init, i);
      }
    }
  }

  // A part that is not registered yet has no story.
  lemma {:induction false} NoStoryYet(s: Db, qs: seq<Request>, i: nat)
    requires Inv(s) && i >= |Run(s, qs).parts|
    ensures PartStory(s, qs, i) == []
  {
    hide Run; hide Inv; hide After;
    if qs == [] {
    } else {
      var n := |qs| - 1;
      RunKeepsInv(s, qs[..n]);
      RunUnfolds(s, qs);
      PartsStay(Run(s, qs[..n]), qs[n]);
      NoStoryYet(s, qs[..n], i);
    }
  }

  lemma PartsStay(s: Db, q: Request)
    requires Inv(s)
    ensures |s.parts| <= |After(s, q).parts|
    ensures forall i: nat | i >= |After(s, q).parts| :: PartNews(s, q, i) == []
  {
    hide Inv; hide After; hide LabelAt;
    if OnPart(q.op) || q.op.AcceptPartDeletion? {
      AnsweredIff(s, q);
      if After(s, q) != s { var n := ChangedPart(s, q); }
    } else {
      OtherPartsStay(s, q);
    }
  }

  // ---------- Contracts ----------

  // The event of accepting a version: the row accepted in place, or the new stable row of a candidate.
  ghost function BodyNews(log: Log, body: BodyMove, acceptor: Option<Actor>, now: Time): seq<Row<Event>> {
    match body
    case ProposeBody(_, _) => []
    case AcceptBody(target, single) =>
      match FindExact(log, target)
      case None => []
      case Some(i) =>
        [Row(now, if target.IsPrerelease() then |log| else i,
             Event(BodyBump, target.Stable(), log[i].proposer, acceptor, single))]
  }

  /** The events that a committed request adds to the history of contract j. A cascade adds none. */
  ghost function ContractNews(s: Db, q: Request, j: nat): seq<Row<Event>> {
    var now := s.clock + 1;
    if After(s, q) == s then []
    else if q.op.RegisterContract? then
      if j == |s.contracts| then [Row(now, 0, Event(BodyBump, q.op.version, None, None, false))] else []
    else if !(OnContract(q.op) && q.op.contract == j < |s.contracts|) then []
    else
      var c := s.contracts[j];
      var inForce := LabelAt(ContractBodies(c.log), now);
      match q.op
      case AcceptContractShape(_, k, single) =>
        AcceptNews(c.shapeProposals, k, SubtypeShift, inForce, q.actor, single, now)
      case AcceptContractEndpoints(_, k, single) =>
        AcceptNews(c.endpointProposals, k, EndpointShift, inForce, q.actor, single, now)
      case ProposeContractDeletion(_, _) =>
        [Row(now, |c.deletionProposals|, Event(DeletionProposed, inForce, q.actor, None, false))]
      case AcceptContractDeletion(_, k, single) =>
        AcceptNews(c.deletionProposals, k, DeletionAccepted, inForce, q.actor, single, now)
      case ContractBody(_, body) => BodyNews(c.log, body, q.actor, now)
      case _ => []
  }

  lemma BodiesAreOld(c: Contract, parts: nat, clock: Time)
    requires ContractOk(c, parts, clock)
    ensures forall k | 0 <= k < |c.log| && c.log[k].active :: InForceSince(c.log[k]) <= clock
    ensures RowsOk(c.shapeProposals, clock) && RowsOk(c.endpointProposals, clock) && RowsOk(c.deletionProposals, clock)
  {
    hide LogOk; hide RowsOk; hide InForceSince;
    forall k | 0 <= k < |c.log| && c.log[k].active ensures InForceSince(c.log[k]) <= clock {
      RowTimes(c.log, clock, k);
    }
  }

  lemma OldContractRows(c: Contract, r: Row<Event>, parts: nat, clock: Time)
    requires ContractOk(c, parts, clock) && ContractRow(c, r)
    ensures r.at <= clock
  {
    BodiesAreOld(c, parts, clock);
    hide LabelAt; hide ContractOk;
  }

  // The bodies of a log after a request on it.
  lemma BodyNewsIff(log: Log, log': Log, body: BodyMove, actor: Option<Actor>, clock: Time, k: nat, e: Event)
    requires LogOk(log, clock) && BodyWritten(log, log', body, actor, clock + 1)
    ensures Row(clock + 1, k, e) in BodyNews(log, body, actor, clock + 1)
            <==> k < |log'| && log'[k].active && InForceSince(log'[k]) == clock + 1
                 && e == Event(BodyBump, log'[k].version, log'[k].proposer, log'[k].acceptor, log'[k].overridden)
  {
    LogChecksHold(log, clock);
    OldBodies(log, clock);
    hide LogOk; hide LogChecks; hide FindExact;
    if body.AcceptBody? {
      var i: nat :| BodyAccepted(log, log', i, body.target, actor, body.single, clock + 1);
      ExactIs(log, clock, i);
    }
  }

  lemma OldBodies(log: Log, clock: Time)
    requires LogOk(log, clock)
    ensures forall k | 0 <= k < |log| && log[k].active :: InForceSince(log[k]) <= clock
  {
    forall k | 0 <= k < |log| && log[k].active ensures InForceSince(log[k]) <= clock { RowTimes(log, clock, k); }
  }

  lemma ExactIs(log: Log, clock: Time, i: nat)
    requires LogOk(log, clock) && i < |log|
    ensures FindExact(log, log[i].version) == Some(i)
  {
    LogChecksHold(log, clock);
    var r := FindExact(log, log[i].version);
    hide FindExact;
  }

  // The rows of a contract that was there at that clock.
  ghost predicate DatedBy(c: Contract, clock: Time) {
    && (forall k | 0 <= k < |c.log| && c.log[k].active :: InForceSince(c.log[k]) <= clock)
    && RowsOk(c.shapeProposals, clock) && RowsOk(c.endpointProposals, clock) && RowsOk(c.deletionProposals, clock)
  }

  // Of the changed contract's rows, the news are those of now.
  lemma ShiftNewsIff(s: Db, q: Request, r: Row<Event>)
    requires OnContract(q.op) && !q.op.ContractBody? && q.op.contract < |s.contracts| && After(s, q) != s
    requires DatedBy(s.contracts[q.op.contract], s.clock) && ContractChanged(s, q, After(s, q))
    ensures r in ContractNews(s, q, q.op.contract)
            <==> ContractRow(After(s, q).contracts[q.op.contract], r) && r.at == s.clock + 1
  {
    hide After; hide LabelAt; hide InForceSince; hide EndpointsMoved; hide ChangeAsked; hide ContractBodies;
    hide BodyWritten; hide BodyNews;
  }

  lemma BodyRequestNewsIff(s: Db, q: Request, r: Row<Event>)
    requires q.op.ContractBody? && q.op.contract < |s.contracts| && After(s, q) != s
    requires var c := s.contracts[q.op.contract]; DatedBy(c, s.clock) && LogOk(c.log, s.clock)
    requires ContractChanged(s, q, After(s, q))
    ensures r in ContractNews(s, q, q.op.contract)
            <==> ContractRow(After(s, q).contracts[q.op.contract], r) && r.at == s.clock + 1
  {
    hide After; hide LabelAt; hide InForceSince; hide ContractBodies; hide BodyWritten; hide BodyNews; hide LogOk;
    var c, c' := s.contracts[q.op.contract], After(s, q).contracts[q.op.contract];
    BodyNewsIff(c.log, c'.log, q.op.body, q.actor, s.clock, r.id, r.item);
    BodyNewsNow(c.log, q.op.body, q.actor, s.clock + 1);
    assert r.at == s.clock + 1 ==> r == Row(s.clock + 1, r.id, r.item);
  }

  lemma ContractNewsIff(s: Db, q: Request, r: Row<Event>)
    requires Inv(s) && After(s, q) != s && OnContract(q.op) && ContractChanged(s, q, After(s, q))
    ensures r in ContractNews(s, q, q.op.contract)
            <==> ContractRow(After(s, q).contracts[q.op.contract], r) && r.at == s.clock + 1
  {
    var c := s.contracts[q.op.contract];
    assert ContractOk(c, |s.parts|, s.clock);
    BodiesAreOld(c, |s.parts|, s.clock);
    hide Inv; hide After; hide ContractNews; hide ContractRow; hide ContractWritten; hide RowsOk; hide LogOk;
    if q.op.ContractBody? { BodyRequestNewsIff(s, q, r); } else { ShiftNewsIff(s, q, r); }
  }

  lemma BodyNewsNow(log: Log, body: BodyMove, actor: Option<Actor>, now: Time)
    ensures |BodyNews(log, body, actor, now)| <= 1
    ensures forall r | r in BodyNews(log, body, actor, now) :: r.at == now
  {
    hide FindExact;
  }

  // What other requests do to the rows a history is read from: nothing.
  ghost predicate SameRecord(c: Contract, c': Contract) {
    && c'.log == c.log && c'.shapeProposals == c.shapeProposals && c'.endpointProposals == c.endpointProposals
    && c'.deletionProposals == c.deletionProposals
  }

  lemma OtherContractsStay(s: Db, q: Request, j: nat)
    requires Inv(s) && After(s, q) != s && !(OnContract(q.op) && q.op.contract == j) && j < |s.contracts|
    ensures j < |After(s, q).contracts| && SameRecord(s.contracts[j], After(s, q).contracts[j])
    ensures ContractNews(s, q, j) == []
  {
    hide Inv; hide After; hide PartWritten; hide ContractWritten; hide BodyWritten; hide CascadeDeletion; hide Deleted;
    hide MayDelete; hide OnlyLive; hide MayRegisterContract; hide May; hide LabelAt;
    AnsweredIff(s, q);
  }

  lemma NewsOfOthers(s: Db, q: Request, j: nat, r: Row<Event>)
    requires Inv(s) && j < |s.contracts| && (After(s, q) == s || !(OnContract(q.op) && q.op.contract == j))
    ensures ContractNews(s, q, j) == [] && j < |After(s, q).contracts|
    ensures ContractRow(After(s, q).contracts[j], r) ==> r.at <= s.clock
  {
    assert ContractOk(s.contracts[j], |s.parts|, s.clock);
    hide Inv; hide After; hide ContractOk; hide LabelAt;
    if After(s, q) == s {
      hide ContractRow;
    } else {
      hide ContractNews;
      OtherContractsStay(s, q, j);
      assert ContractRow(After(s, q).contracts[j], r) ==> ContractRow(s.contracts[j], r);
    }
    if ContractRow(s.contracts[j], r) { OldContractRows(s.contracts[j], r, |s.parts|, s.clock); }
  }

  lemma AtMostOneNews(s: Db, q: Request, j: nat)
    ensures |ContractNews(s, q, j)| <= 1
  {
    hide After; hide LabelAt; hide BodyNews;
    if q.op.ContractBody? && j < |s.contracts| {
      BodyNewsNow(s.contracts[j].log, q.op.body, q.actor, s.clock + 1);
    }
  }

  lemma ContractNewsOf(s: Db, q: Request, j: nat, r: Row<Event>)
    requires Inv(s) && j < |s.contracts|
    ensures j < |After(s, q).contracts|
    ensures r in ContractNews(s, q, j) <==> ContractRow(After(s, q).contracts[j], r) && r.at == s.clock + 1
  {
    hide Inv; hide After; hide ContractNews; hide ContractRow; hide MayOnContract; hide ContractWritten;
    if After(s, q) != s && OnContract(q.op) && q.op.contract == j {
      ContractAnswered(s, q);
      ContractNewsIff(s, q, r);
    } else {
      NewsOfOthers(s, q, j, r);
    }
  }

  lemma ContractGains(s: Db, q: Request, j: nat)
    requires Inv(s) && j < |s.contracts|
    ensures j < |After(s, q).contracts|
    ensures Gains(ContractEvents(s.contracts[j], true), ContractEvents(After(s, q).contracts[j], true), s.clock + 1)
  {
    assert ContractOk(s.contracts[j], |s.parts|, s.clock);
    hide Inv; hide After; hide Decide; hide Apply; hide Enabled; hide ContractOk; hide ContractEvents;
    hide ContractEffect;
    AfterIs(s, q);
    if After(s, q) != s {
      ContractAfter(s, Decide(s, q).value, q.actor, j);
      ContractStep(s, Decide(s, q).value, q.actor, j, s.contracts[j], After(s, q).contracts[j]);
    }
  }

  /** After any request the history of a contract is its news followed by the history of before. */
  lemma ContractHistoryGains(s: Db, q: Request, j: nat)
    requires Inv(s) && HistoriesOk(s) && j < |After(s, q).contracts|
    ensures ContractHistory(After(s, q).contracts[j])
            == ContractNews(s, q, j) + (if j < |s.contracts| then ContractHistory(s.contracts[j]) else [])
  {
    hide Inv; hide After; hide PartEvents; hide ContractEvents; hide NewestFirst; hide ContractNews; hide ContractRow;
    hide EventsOk;
    if j < |s.contracts| {
      ContractGains(s, q, j);
      var was, now := ContractEvents(s.contracts[j], true), ContractEvents(After(s, q).contracts[j], true);
      forall r ensures r in ContractNews(s, q, j) <==> r in now && r.at == s.clock + 1 {
        ContractNewsOf(s, q, j, r);
        ContractRowIff(After(s, q).contracts[j], true, r);
      }
      AtMostOneNews(s, q, j);
      TopIs(was, now, ContractNews(s, q, j), s.clock);
    } else {
      NewContractHistory(s, q, j);
    }
  }

  lemma NewContractIs(s: Db, q: Request, j: nat)
    requires Inv(s) && |s.contracts| <= j
    ensures j < |After(s, q).contracts| ==>
              && After(s, q) != s && q.op.RegisterContract? && j == |s.contracts|
              && var c := After(s, q).contracts[j];
              && c.log == [VersionRow(q.op.version, q.op.markdown, true, s.clock + 1, None, None, None, None, false)]
              && c.shapeProposals == [] && c.endpointProposals == [] && c.deletionProposals == []
    ensures j >= |After(s, q).contracts| ==> ContractNews(s, q, j) == []
  {
    hide Inv; hide After; hide PartWritten; hide ContractWritten; hide BodyWritten; hide CascadeDeletion; hide Deleted;
    hide MayDelete; hide OnlyLive; hide MayRegisterContract; hide May; hide LabelAt; hide Dropped;
    AnsweredIff(s, q);
  }

  lemma NewContractHistory(s: Db, q: Request, j: nat)
    requires Inv(s) && |s.contracts| <= j < |After(s, q).contracts|
    ensures ContractHistory(After(s, q).contracts[j]) == ContractNews(s, q, j)
  {
    hide Inv; hide After; hide NewestFirst; hide ContractEvents;
    NewContractIs(s, q, j);
    BareContractHistory(After(s, q).contracts[j], q.op.version, q.op.markdown, s.clock + 1);
  }

  lemma BareContractHistory(c: Contract, v: Version, markdown: string, now: Time)
    requires c.log == [VersionRow(v, markdown, true, now, None, None, None, None, false)]
    requires c.shapeProposals == [] && c.endpointProposals == [] && c.deletionProposals == []
    ensures ContractHistory(c) == [Row(now, 0, Event(BodyBump, v, None, None, false))]
  {
    var e := Row(now, 0, Event(BodyBump, v, None, None, false));
    assert c.log[..0] == [];
    assert ContractBodies(c.log) == [Body(now, 0, v, None, None, false)];
    assert ContractEvents(c, true) == [e];
    assert [e] == [] + [e] && [e][..0] == [];
  }

  ghost function ContractStory(s: Db, qs: seq<Request>, j: nat): seq<Row<Event>> {
    if qs == [] then []
    else
      var n := |qs| - 1;
      ContractNews(Run(s, qs[..n]), qs[n], j) + ContractStory(s, qs[..n], j)
  }

  /** The same for contracts. */
  lemma {:induction false} ContractHistoryIsItsStory(s: Db, qs: seq<Request>, j: nat)
    requires Installed(s) && j < |Run(s, qs).contracts|
    ensures ContractHistory(Run(s, qs).contracts[j]) == ContractStory(s, qs, j)
  {
    hide Run; hide Inv; hide After; hide ContractHistory; hide ContractNews;
    InstalledInv(s);
    if qs == [] {
      RunNone(s);
    } else {
      var n := |qs| - 1;
      var init := qs[..n];
      HistoryGrowsAtItsNewEnd(s, init);
      RunUnfolds(s, qs);
      ContractHistoryGains(Run(s, init), qs[n], j);
      if j < |Run(s, init).contracts| {
        ContractHistoryIsItsStory(s, init, j);
      } else {
        NoContractStoryYet(s, init, j);
      }
    }
  }

  lemma {:induction false} NoContractStoryYet(s: Db, qs: seq<Request>, j: nat)
    requires Inv(s) && j >= |Run(s, qs).contracts|
    ensures ContractStory(s, qs, j) == []
  {
    hide Run; hide Inv; hide After; hide ContractNews;
    if qs == [] {
    } else {
      var n := |qs| - 1;
      RunKeepsInv(s, qs[..n]);
      RunUnfolds(s, qs);
      NewContractIsBare(Run(s, qs[..n]), qs[n]);
      NewContractIs(Run(s, qs[..n]), qs[n], j);
      NoContractStoryYet(s, qs[..n], j);
    }
  }

  // ---------- Who sent the requests behind an event ----------

  /** Request m proposed what event r tells, and request n accepted it: r names their actors and n's time. */
  ghost predicate SentBy(s: Db, qs: seq<Request>, m: nat, n: nat, r: Row<Event>) {
    && m < n < |qs| && r.item.proposer == qs[m].actor && r.item.acceptor == qs[n].actor
    && r.at == Run(s, qs[..n]).clock + 1
  }

  lemma AcceptanceIsSent<T(!new)>(s: Db, qs: seq<Request>, view: TableView<T>, r: Row<Event>)
    returns (m: nat, n: nat)
    requires Inv(s) && view.rows(s) == [] && OnlySoWritten(view) && Credits(view)
    requires TellsAcceptance(view.rows(Run(s, qs)), r)
    ensures SentBy(s, qs, m, n, r) && FiledAt(s, qs, view, r.id, m) && AcceptedBy(s, qs, view, r.id, n)
  {
    hide Inv; hide Run; hide OnlySoWritten;
    RowsAreTold(s, qs, view, r.id);
    m :| FiledAt(s, qs, view, r.id, m);
    n :| AcceptedBy(s, qs, view, r.id, n);
    FiledFirst(s, qs, view, r.id, m, n);
  }

  lemma FilingIsSent<T(!new)>(s: Db, qs: seq<Request>, view: TableView<T>, r: Row<Event>)
    returns (m: nat)
    requires Inv(s) && view.rows(s) == [] && OnlySoWritten(view) && Credits(view)
    requires TellsFiling(view.rows(Run(s, qs)), r)
    ensures FiledAt(s, qs, view, r.id, m) && r.item.proposer == qs[m].actor
    ensures r.at == Run(s, qs[..m]).clock + 1
  {
    hide Inv; hide Run; hide OnlySoWritten;
    RowsAreTold(s, qs, view, r.id);
    m :| FiledAt(s, qs, view, r.id, m);
  }

  /** Each shift or deletion event in a reachable part's history names the actor of the request that proposed it
      as proposer and the actor of the request that accepted it as acceptor. */
  lemma PartEventsNameTheirCallers(s: Db, qs: seq<Request>, i: nat, r: Row<Event>)
    requires Installed(s) && i < |Run(s, qs).parts| && r in PartHistory(Run(s, qs).parts[i])
    ensures r.item.kind.SubtypeShift? ==> exists m: nat, n: nat ::
              && SentBy(s, qs, m, n, r) && qs[m].op.ProposePartSubtype? && qs[n].op.AcceptPartSubtype?
              && qs[n].op.row == r.id && r.item.overridden == qs[n].op.single
    ensures r.item.kind.NameShift? ==> exists m: nat, n: nat ::
              && SentBy(s, qs, m, n, r) && qs[m].op.ProposePartName? && qs[n].op.AcceptPartName?
              && qs[n].op.row == r.id && r.item.overridden == qs[n].op.single
    ensures r.item.kind.DeletionAccepted? ==> exists m: nat, n: nat ::
              && SentBy(s, qs, m, n, r) && qs[m].op.ProposePartDeletion? && qs[n].op.AcceptPartDeletion?
              && qs[n].op.row == r.id && !r.item.overridden
    ensures r.item.kind.DeletionProposed? ==> exists m: nat ::
              && m < |qs| && qs[m].op.ProposePartDeletion?
              && r.item.proposer == qs[m].actor && r.at == Run(s, qs[..m]).clock + 1
  {
    hide Run; hide Inv; hide OnlySoWritten; hide Credits; hide PartEvents; hide NewestFirst; hide LabelAt;
    hide TellsAcceptance; hide TellsFiling; hide SentBy;
    InstalledInv(s);
    PartTablesSoWritten(i);
    PartCredits(i);
    var p := Run(s, qs).parts[i];
    NewestFirstMembers(PartEvents(p, true), r);
    PartRowIff(p, true, r);
    match r.item.kind
    case SubtypeShift =>
      var m, n := AcceptanceIsSent(s, qs, SubtypeView(i), r);
      OverrideTold(p.subtypeProposals, r);
    case NameShift =>
      var m, n := AcceptanceIsSent(s, qs, NameView(i), r);
      OverrideTold(p.nameProposals, r);
    case DeletionAccepted =>
      var m, n := AcceptanceIsSent(s, qs, PartDeletionView(i), r);
      OverrideTold(p.deletionProposals, r);
    case DeletionProposed =>
      var m := FilingIsSent(s, qs, PartDeletionView(i), r);
    case _ =>
  }

  lemma OverrideTold<T>(ps: seq<Proposal<T>>, r: Row<Event>)
    requires TellsAcceptance(ps, r)
    ensures r.id < |ps| && ps[r.id].accepted.Some? && r.item.overridden == ps[r.id].accepted.value.overridden
  {
  }

  /** The same for contracts. */
  lemma ContractEventsNameTheirCallers(s: Db, qs: seq<Request>, j: nat, r: Row<Event>)
    requires Installed(s) && j < |Run(s, qs).contracts| && r in ContractHistory(Run(s, qs).contracts[j])
    ensures r.item.kind.SubtypeShift? ==> exists m: nat, n: nat ::
              && SentBy(s, qs, m, n, r) && qs[m].op.ProposeContractShape? && qs[n].op.AcceptContractShape?
              && qs[m].op.contract == qs[n].op.contract == j
              && qs[n].op.row == r.id && r.item.overridden == qs[n].op.single
    ensures r.item.kind.EndpointShift? ==> exists m: nat, n: nat ::
              && SentBy(s, qs, m, n, r) && qs[m].op.ProposeContractEndpoints? && qs[n].op.AcceptContractEndpoints?
              && qs[m].op.contract == qs[n].op.contract == j
              && qs[n].op.row == r.id && r.item.overridden == qs[n].op.single
    ensures r.item.kind.DeletionAccepted? ==> exists m: nat, n: nat ::
              && SentBy(s, qs, m, n, r) && qs[m].op.ProposeContractDeletion? && qs[n].op.AcceptContractDeletion?
              && qs[m].op.contract == qs[n].op.contract == j
              && qs[n].op.row == r.id && r.item.overridden == qs[n].op.single
    ensures r.item.kind.DeletionProposed? ==> exists m: nat ::
              && m < |qs| && qs[m].op.ProposeContractDeletion?
              && qs[m].op.contract == j && r.item.proposer == qs[m].actor && r.at == Run(s, qs[..m]).clock + 1
  {
    hide Run; hide Inv; hide OnlySoWritten; hide Credits; hide ContractEvents; hide NewestFirst; hide LabelAt;
    hide TellsAcceptance; hide TellsFiling; hide SentBy;
    InstalledInv(s);
    ContractTablesSoWritten(j);
    ContractCredits(j);
    var c := Run(s, qs).contracts[j];
    NewestFirstMembers(ContractEvents(c, true), r);
    ContractRowIff(c, true, r);
    match r.item.kind
    case SubtypeShift =>
      var m, n := AcceptanceIsSent(s, qs, ShapeView(j), r);
      OverrideTold(c.shapeProposals, r);
    case EndpointShift =>
      var m, n := AcceptanceIsSent(s, qs, EndpointView(j), r);
      OverrideTold(c.endpointProposals, r);
    case DeletionAccepted =>
      var m, n := AcceptanceIsSent(s, qs, ContractDeletionView(j),
          r);
      OverrideTold(c.deletionProposals, r);
    case DeletionProposed =>
      var m := FilingIsSent(s, qs, ContractDeletionView(j), r);
    case _ =>
  }
}
