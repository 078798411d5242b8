/** Every soft deletion is explained exactly once by the audit tables. */
module Deletions {
  import opened Common
  import opened Handshake
  import opened Invariants
  import opened Records
  import opened Replay
  import opened State
  import opened VersionLog

  // The accepted proposal p is the reason for the deletion d.
  ghost predicate Justifies(p: Proposal<()>, d: Deletion) {
    && p.accepted.Some? && p.accepted.value.at == d.at && p.accepted.value.acceptor == d.acceptor
    && p.proposer == d.proposer && p.rationale == d.rationale && p.accepted.value.overridden == d.overridden
  }

  /** A live row has no accepted deletion proposal; a row deleted on its own account has exactly
      one, and it matches. */
  ghost predicate OwnDeletion(ps: seq<Proposal<()>>, d: Deletion) {
    var accepted := InAcceptOrder(ps);
    |accepted| == 1 && Justifies(accepted[0], d)
  }

  // Row k justifies the deletion, and no other row of the table was accepted.
  ghost predicate OnlyJustification(ps: seq<Proposal<()>>, k: nat, d: Deletion) {
    && k < |ps| && Justifies(ps[k], d)
    && forall m | 0 <= m < |ps| && m != k :: ps[m].accepted.None?
  }

  /** So an own deletion is one row of the table, and only one. */
  lemma OwnDeletionIsOneRow(ps: seq<Proposal<()>>, d: Deletion)
    ensures OwnDeletion(ps, d) <==> exists k: nat :: OnlyJustification(ps, k, d)
    ensures InAcceptOrder(ps) == [] <==> forall m | 0 <= m < |ps| :: ps[m].accepted.None?
  {
    hide InAcceptOrder; hide AcceptedRows;
    InAcceptOrderPermutes(ps);
    NoneAcceptedIff(ps);
    if OwnDeletion(ps, d) {
      var p := InAcceptOrder(ps)[0];
      InAcceptOrderMembers(ps, p);
      var k := OnlyAccepted(ps);
      InAcceptOrderMembers(ps, ps[k]);
      assert OnlyJustification(ps, k, d);
    }
    if exists k: nat :: OnlyJustification(ps, k, d) {
      var k: nat :| OnlyJustification(ps, k, d);
      AcceptedOfOne(ps, k);
      InAcceptOrderMembers(ps, ps[k]);
    }
  }

  lemma {:induction false} NoneAcceptedIff<T>(ps: seq<Proposal<T>>)
    ensures AcceptedRows(ps) == [] <==> forall m | 0 <= m < |ps| :: ps[m].accepted.None?
  {
    if ps == [] {
    } else {
      NoneAcceptedIff(ps[..|ps| - 1]);
    }
  }

  // The place of the one accepted row.
  lemma {:induction false} OnlyAccepted<T>(ps: seq<Proposal<T>>) returns (k: nat)
    requires |AcceptedRows(ps)| == 1
    ensures k < |ps| && ps[k].accepted.Some? && forall m | 0 <= m < |ps| && m != k :: ps[m].accepted.None?
  {
    var n := |ps| - 1;
    if ps[n].accepted.Some? {
      k := n;
      NoneAcceptedIff(ps[..n]);
    } else {
      k := OnlyAccepted(ps[..n]);
    }
  }

  lemma {:induction false} AcceptedOfOne<T>(ps: seq<Proposal<T>>, k: nat)
    requires k < |ps| && ps[k].accepted.Some? && forall m | 0 <= m < |ps| && m != k :: ps[m].accepted.None?
    ensures |AcceptedRows(ps)| == 1
  {
    var n := |ps| - 1;
    if k == n {
      NoneAcceptedIff(ps[..n]);
    } else {
      AcceptedOfOne(ps[..n], k);
    }
  }

  ghost predicate PartExplained(p: Part) {
    match p.deleted
    case None => InAcceptOrder(p.deletionProposals) == []
    case Some(d) => OwnDeletion(p.deletionProposals, d)
  }

  /** Contract deletion d is a cascade from part p: same time and actors, the prefixed rationale,
      and p's one accepted deletion proposal asked for cascading. */
  ghost predicate CascadedFrom(p: Part, d: Deletion) {
    && p.deleted.Some?
    && p.deleted.value.at == d.at && p.deleted.value.proposer == d.proposer && p.deleted.value.acceptor == d.acceptor
    && d.rationale == CascadeRationale(p.name, p.deleted.value.rationale) && !d.overridden
    && OwnDeletion(p.deletionProposals, p.deleted.value)
    && InAcceptOrder(p.deletionProposals)[0].accepted.value.cascade
  }

  ghost predicate Cascaded(parts: seq<Part>, c: Contract, d: Deletion) {
    && InAcceptOrder(c.deletionProposals) == []
    && ((c.owner < |parts| && CascadedFrom(parts[c.owner], d))
        || (c.counterparty < |parts| && CascadedFrom(parts[c.counterparty], d)))
  }

  // No part was deleted at that time.
  ghost predicate NoPartDeletedAt(parts: seq<Part>, t: Time) {
    forall i | 0 <= i < |parts| && parts[i].deleted.Some? :: parts[i].deleted.value.at != t
  }

  /** Exactly one of the two explanations, never both: the contract's own proposal, and then no
      part was deleted at the same moment; or a cascade, and then it has no accepted proposal. */
  ghost predicate ContractExplained(parts: seq<Part>, c: Contract) {
    match c.deleted
    case None => InAcceptOrder(c.deletionProposals) == []
    case Some(d) =>
      || (OwnDeletion(c.deletionProposals, d) && NoPartDeletedAt(parts, d.at))
      || Cascaded(parts, c, d)
  }

  ghost predicate DeletionsExplained(s: Db) {
    && (forall i | 0 <= i < |s.parts| :: PartExplained(s.parts[i]))
    && (forall j | 0 <= j < |s.contracts| :: ContractExplained(s.parts, s.contracts[j]))
  }

  lemma PartEffectExplained(s: Db, e: Effect, actor: Option<Actor>, i: nat, p: Part, p': Part)
    requires PartOk(p, s.clock) && PartExplained(p) && PartEffect(s, e, actor, i, p, p')
    ensures PartExplained(p')
  {
    var now := s.clock + 1;
    if e.SetPart? && p' != p && e.partMove.ProposePartDeletion? {
      InAcceptOrderOfOpen(p.deletionProposals, Open((), e.partMove.rationale, actor, now));
    } else if e.DropPartEffect? && p' != p {
      AcceptAppends(p.deletionProposals, e.row, Acceptance(now, actor, false, e.cascade), s.clock);
    }
  }

  lemma ContractMoveDeletion(c: Contract, m: ContractMove, actor: Option<Actor>, parts: nat, clock: Time)
    requires ContractOk(c, parts, clock) && ContractMoveEnabled(c, m, actor, clock + 1)
    requires InAcceptOrder(c.deletionProposals) == []
    ensures var c' := MoveContract(c, m, actor, clock + 1);
            if m.AcceptDeletion? then c'.deleted.Some? && c'.deleted.value.at == clock + 1
                && OwnDeletion(c'.deletionProposals, c'.deleted.value)
            else c'.deleted.None? && InAcceptOrder(c'.deletionProposals) == []
  {
    hide MoveLog; hide LogOk; hide InAcceptOrder;
    if m.ProposeDeletion? {
      InAcceptOrderOfOpen(c.deletionProposals, Open((), m.rationale, actor, clock + 1));
    } else if m.AcceptDeletion? {
      AcceptAppends(c.deletionProposals, m.row, Acceptance(clock + 1, actor, m.single, false), clock);
    }
  }

  // A deletion keeps its explanation: deleted parts are frozen, and new deletions are later.
  lemma CascadeStays(s: Db, e: Effect, actor: Option<Actor>, c: Contract, d: Deletion)
    requires Enabled(s, e, actor) && Cascaded(s.parts, c, d)
    ensures Cascaded(Apply(s, e, actor).parts, c, d)
  {
    hide MoveContract; hide MoveLog; hide CascadedFrom; hide CheckAcceptable; hide RegistrationRule; hide ShapeRule;
    hide EndpointRule;
    assert c.owner < |s.parts| && CascadedFrom(s.parts[c.owner], d) ==> s.parts[c.owner].deleted.Some? by {
      CascadeSourceDeleted(s.parts, c.owner, d);
    }
    assert c.counterparty < |s.parts| && CascadedFrom(s.parts[c.counterparty], d) ==>
        s.parts[c.counterparty].deleted.Some? by {
      CascadeSourceDeleted(s.parts, c.counterparty, d);
    }
  }

  lemma CascadeSourceDeleted(parts: seq<Part>, i: nat, d: Deletion)
    ensures i < |parts| && CascadedFrom(parts[i], d) ==> parts[i].deleted.Some?
  {
  }

  lemma NoPartDeletedStays(s: Db, e: Effect, actor: Option<Actor>, t: Time)
    requires Enabled(s, e, actor) && NoPartDeletedAt(s.parts, t) && t <= s.clock
    ensures NoPartDeletedAt(Apply(s, e, actor).parts, t)
  {
    hide MoveContract; hide MoveLog; hide CheckAcceptable; hide RegistrationRule; hide ShapeRule; hide EndpointRule;
  }

  lemma OldDeletionStays(s: Db, e: Effect, actor: Option<Actor>, j: nat)
    requires Inv(s) && Enabled(s, e, actor) && j < |s.contracts| && s.contracts[j].deleted.Some?
    requires ContractExplained(s.parts, s.contracts[j])
    ensures ContractExplained(Apply(s, e, actor).parts, s.contracts[j])
  {
    hide Apply; hide Enabled; hide Cascaded; hide OwnDeletion; hide NoPartDeletedAt; hide Constraints;
    var d := s.contracts[j].deleted.value;
    assert ContractOk(s.contracts[j], |s.parts|, s.clock);
    if Cascaded(s.parts, s.contracts[j], d) {
      CascadeStays(s, e, actor, s.contracts[j], d);
    } else {
      NoPartDeletedStays(s, e, actor, d.at);
    }
  }

  lemma NewCascade(s: Db, e: Effect, actor: Option<Actor>, c: Contract)
    requires Inv(s) && Enabled(s, e, actor) && e.DropPartEffect? && e.cascade
    requires PartExplained(s.parts[e.part])
    requires c.Live() && c.Touches(e.part) && InAcceptOrder(c.deletionProposals) == []
    ensures Cascaded(Apply(s, e, actor).parts, c, CascadeDeletion(s.parts[e.part], e.row, actor, s.clock + 1))
  {
    hide Constraints; hide ContractOk; hide LogOk; hide InAcceptOrder;
    var p := s.parts[e.part];
    assert PartOk(p, s.clock);
    AcceptAppends(p.deletionProposals, e.row, Acceptance(s.clock + 1, actor, false, true), s.clock);
    assert CascadedFrom(Apply(s, e, actor).parts[e.part], CascadeDeletion(p, e.row, actor, s.clock + 1));
  }

  // No part is deleted by an effect that writes a contract, and earlier ones were earlier.
  lemma NoneDeletedNow(s: Db, e: Effect, actor: Option<Actor>)
    requires Inv(s) && Enabled(s, e, actor) && e.SetContract?
    ensures NoPartDeletedAt(Apply(s, e, actor).parts, s.clock + 1)
  {
    hide Constraints; hide ContractOk; hide LogOk; hide MoveContract; hide ContractMoveEnabled;
    forall i | 0 <= i < |s.parts| && s.parts[i].deleted.Some? ensures s.parts[i].deleted.value.at != s.clock + 1 {
      assert PartOk(s.parts[i], s.clock);
    }
  }

  lemma LiveContractStep(s: Db, e: Effect, actor: Option<Actor>, j: nat)
    requires Inv(s) && DeletionsExplained(s) && Enabled(s, e, actor) && j < |s.contracts| && s.contracts[j].Live()
    ensures j < |Apply(s, e, actor).contracts|
    ensures ContractExplained(Apply(s, e, actor).parts, Apply(s, e, actor).contracts[j])
  {
    hide Apply; hide Enabled; hide Cascaded; hide OwnDeletion; hide NoPartDeletedAt; hide Constraints;
    hide MoveContract; hide ContractMoveEnabled; hide InAcceptOrder; hide LogOk; hide CascadeDeletion;
    ContractAfter(s, e, actor, j);
    var c, c' := s.contracts[j], Apply(s, e, actor).contracts[j];
    assert ContractOk(c, |s.parts|, s.clock) && ContractExplained(s.parts, c);
    if c' == c {
    } else if e.SetContract? {
      ContractMoveDeletion(c, e.contractMove, actor, |s.parts|, s.clock);
      NoneDeletedNow(s, e, actor);
    } else {
      assert PartExplained(s.parts[e.part]);
      NewCascade(s, e, actor, c);
      SameProposals(Apply(s, e, actor).parts, c, c', CascadeDeletion(s.parts[e.part], e.row, actor, s.clock + 1));
    }
  }

  lemma SameProposals(parts: seq<Part>, c: Contract, c': Contract, d: Deletion)
    requires Cascaded(parts, c, d) && c' == c.(deleted := Some(d))
    ensures Cascaded(parts, c', d)
  {
  }

  lemma NewContractExplained(s: Db, e: Effect, actor: Option<Actor>)
    requires Enabled(s, e, actor)
    ensures e.AddContract? ==> ContractExplained(Apply(s, e, actor).parts, Apply(s, e, actor).contracts[|s.contracts|])
    ensures e.AddPart? ==> PartExplained(Apply(s, e, actor).parts[|s.parts|])
  {
    hide Enabled;
  }

  lemma EffectExplained(s: Db, e: Effect, actor: Option<Actor>)
    requires Inv(s) && DeletionsExplained(s) && Enabled(s, e, actor)
    ensures DeletionsExplained(Apply(s, e, actor))
  {
    hide Apply; hide Enabled; hide PartExplained; hide ContractExplained; hide Constraints; hide PartEffect;
    hide ContractEffect;
    hide PartOk; hide ContractOk; hide LogOk;
    var s' := Apply(s, e, actor);
    TableSizes(s, e, actor);
    NewContractExplained(s, e, actor);
    forall i | 0 <= i < |s'.parts| ensures PartExplained(s'.parts[i]) {
      if i < |s.parts| {
        PartAfter(s, e, actor, i);
        PartEffectExplained(s, e, actor, i, s.parts[i], s'.parts[i]);
      }
    }
    forall j | 0 <= j < |s'.contracts| ensures ContractExplained(s'.parts, s'.contracts[j]) {
      if j < |s.contracts| {
        if s.contracts[j].Live() {
          LiveContractStep(s, e, actor, j);
        } else {
          OldDeletionStays(s, e, actor, j);
          DeletedRowStays(s, e, actor, j);
        }
      }
    }
  }

  lemma DeletedRowStays(s: Db, e: Effect, actor: Option<Actor>, j: nat)
    requires Enabled(s, e, actor) && j < |s.contracts| && !s.contracts[j].Live()
    ensures j < |Apply(s, e, actor).contracts| && Apply(s, e, actor).contracts[j] == s.contracts[j]
  {
    hide Apply; hide Enabled;
    ContractAfter(s, e, actor, j);
  }

  /** In every reachable catalog each soft-deleted part has exactly one accepted deletion proposal,
      which matches its stamp, and each soft-deleted contract has either exactly one of its own or
      a cascading endpoint part, never both; live rows have none. */
  lemma {:induction false} EveryDeletionIsExplained(s: Db, qs: seq<Request>)
    requires Installed(s)
    ensures DeletionsExplained(Run(s, qs))
  {
    hide After; hide Inv;
    if qs == [] {
    } else {
      var init, q := qs[..|qs| - 1], qs[|qs| - 1];
      hide Run; hide DeletionsExplained; hide Decide; hide Apply; hide Enabled;
      EveryDeletionIsExplained(s, init);
      InstalledInv(s);
      RunKeepsInv(s, init);
      RunUnfolds(s, qs);
      AfterIs(Run(s, init), q);
      if Run(s, qs) != Run(s, init) {
        EffectExplained(Run(s, init), Decide(Run(s, init), q).value, q.actor);
      }
    }
  }
}
