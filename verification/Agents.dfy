/** The agent allowlist: who is on it, and that agents cannot remove each other from it and cannot delete
    parts. */
module Agents {
  import opened Common
  import opened Endpoints
  import opened Graph
  import opened Invariants
  import opened Records
  import opened State

  // Every caller is anonymous or one of these actors.
  predicate CalledBy(qs: seq<Request>, callers: set<Actor>) {
    forall k | 0 <= k < |qs| :: qs[k].actor.None? || qs[k].actor.value in callers
  }

  ghost predicate NoNewDeletion(s: Db, s': Db) {
    && |s.parts| <= |s'.parts|
    && forall i | 0 <= i < |s'.parts| && s'.parts[i].deleted.Some? :: i < |s.parts| && s.parts[i].deleted.Some?
  }

  lemma AgentEffect(s: Db, e: Effect, actor: Option<Actor>)
    requires Enabled(s, e, actor) && (actor.None? || actor.value in ActiveAgents(s.agents))
    ensures ActiveAgents(s.agents) <= ActiveAgents(Apply(s, e, actor).agents)
    ensures NoNewDeletion(s, Apply(s, e, actor))
  {
    AgentEffectKeepsList(s, e, actor);
    AgentEffectDeletesNoPart(s, e, actor);
  }

  lemma AgentEffectKeepsList(s: Db, e: Effect, actor: Option<Actor>)
    requires Enabled(s, e, actor) && (actor.None? || actor.value in ActiveAgents(s.agents))
    ensures ActiveAgents(s.agents) <= ActiveAgents(Apply(s, e, actor).agents)
  {
    hide MovePart; hide MoveContract; hide PartMoveEnabled; hide ContractMoveEnabled;
    var s' := Apply(s, e, actor);
    forall a | a in ActiveAgents(s.agents) ensures a in ActiveAgents(s'.agents) {
      var k :| 0 <= k < |s.agents| && s.agents[k].revoked.None? && s.agents[k].actor == a;
      assert s'.agents[k] == s.agents[k];
    }
  }

  lemma AgentEffectDeletesNoPart(s: Db, e: Effect, actor: Option<Actor>)
    requires Enabled(s, e, actor) && (actor.None? || actor.value in ActiveAgents(s.agents))
    ensures NoNewDeletion(s, Apply(s, e, actor))
  {
    hide MoveContract; hide ContractMoveEnabled;
  }

  /** In a run of any length where every caller is anonymous or was in the allowlist at the start,
      the allowlist loses nobody and no part is ever soft-deleted. */
  lemma {:induction false} AgentsAloneCannotDelete(s: Db, qs: seq<Request>)
    requires CalledBy(qs, ActiveAgents(s.agents))
    ensures ActiveAgents(s.agents) <= ActiveAgents(Run(s, qs).agents)
    ensures NoNewDeletion(s, Run(s, qs))
  {
    if qs == [] {
    } else {
      hide Run; hide After; hide Decide; hide Apply; hide Enabled; hide Constraints;
      var init, q := qs[..|qs| - 1], qs[|qs| - 1];
      AgentsAloneCannotDelete(s, init);
      RunUnfolds(s, qs);
      AfterIs(Run(s, init), q);
      assert q.actor.None? || q.actor.value in ActiveAgents(s.agents);
      if Run(s, qs) != Run(s, init) {
        AgentEffect(Run(s, init), Decide(Run(s, init), q).value, q.actor);
      }
    }
  }

  // ---------- Who is on the list ----------

  // This request commits a registration, or a revocation, of the actor.
  ghost predicate Lists(s: Db, q: Request, a: Actor) {
    After(s, q) != s && q.op.RegisterAgent? && q.op.agent == a
  }

  ghost predicate Unlists(s: Db, q: Request, a: Actor) {
    After(s, q) != s && q.op.RevokeAgent? && q.op.agent == a
  }

  lemma AddedIsListed(agents: seq<AgentRow>, row: AgentRow, a: Actor)
    requires row.revoked.None?
    ensures IsAgent(agents + [row], a) <==> a == row.actor || IsAgent(agents, a)
  {
    var now := agents + [row];
    assert now[|agents|] == row;
    if IsAgent(agents, a) {
      var k :| 0 <= k < |agents| && agents[k].revoked.None? && agents[k].actor == a;
      assert now[k] == agents[k];
    }
  }

  lemma EndedIsOff(s: Db, s': Db, k: nat, agent: Actor, actor: Option<Actor>, rationale: string, a: Actor)
    requires AgentsUnique(s.agents) && AgentEnded(s, s', k, agent, actor, rationale)
    ensures IsAgent(s'.agents, a) <==> a != agent && IsAgent(s.agents, a)
  {
    if IsAgent(s.agents, a) && a != agent {
      var n :| 0 <= n < |s.agents| && s.agents[n].revoked.None? && s.agents[n].actor == a;
      assert s'.agents[n] == s.agents[n];
    }
  }

  /** After any request an actor is on the list if and only if the request commits its registration, or it was
      on the list and the request does not commit its revocation. */
  lemma ListedAfterIff(s: Db, q: Request, a: Actor)
    requires Inv(s)
    ensures IsAgent(After(s, q).agents, a) <==> Lists(s, q, a) || (IsAgent(s.agents, a) && !Unlists(s, q, a))
  {
    hide Inv; hide After; hide Writes; hide May; hide IsAgent;
    AnsweredIff(s, q);
    if After(s, q) != s {
      WrittenList(s, q, After(s, q), a);
    }
  }

  lemma WrittenList(s: Db, q: Request, s': Db, a: Actor)
    requires Inv(s) && Writes(s, q, s')
    ensures if q.op.RegisterAgent? && q.op.agent == a then IsAgent(s'.agents, a)
            else if q.op.RevokeAgent? && q.op.agent == a then !IsAgent(s'.agents, a)
            else IsAgent(s'.agents, a) <==> IsAgent(s.agents, a)
  {
    UniqueAgents(s);
    hide Inv; hide PartWritten; hide ContractWritten; hide BodyWritten; hide MayDelete; hide Deleted; hide Dropped;
    hide MayRegisterContract; hide IsAgent; hide AgentEnded;
    if q.op.RegisterAgent? {
      AddedIsListed(s.agents, AgentRow(q.op.agent, q.actor, s.clock + 1, None), a);
    } else if q.op.RevokeAgent? {
      var k: nat :| AgentEnded(s, s', k, q.op.agent, q.actor, q.op.rationale);
      EndedIsOff(s, s', k, q.op.agent, q.actor, q.op.rationale, a);
    }
  }

  lemma UniqueAgents(s: Db)
    requires Inv(s)
    ensures AgentsUnique(s.agents)
  {
  }

  /** A registration is accepted if and only if the actor is a slug and not on the list; a revocation if and only
      if the caller is known and not on the list and the actor is on it. */
  lemma ListingAcceptedIff(s: Db, actor: Option<Actor>, agent: Actor, rationale: string)
    requires Inv(s)
    ensures Lists(s, Request(actor, RegisterAgent(agent)), agent) <==> IsSlug(agent) && !IsAgent(s.agents, agent)
    ensures Unlists(s, Request(actor, RevokeAgent(agent, rationale)), agent)
            <==> actor.Some? && !IsAgent(s.agents, actor.value) && IsAgent(s.agents, agent)
  {
    hide Inv; hide After; hide IsSlug; hide IsAgent;
    RegisterAgentAnswered(s, Request(actor, RegisterAgent(agent)));
    RevokeAgentAnswered(s, Request(actor, RevokeAgent(agent, rationale)));
  }

  // ---------- The list over a run ----------

  // Request m commits the registration and no later one of the run commits the revocation.
  ghost predicate ListedSince(s: Db, qs: seq<Request>, a: Actor, m: nat) {
    m < |qs| && Lists(Run(s, qs[..m]), qs[m], a) && NotUnlisted(s, qs, a, m + 1)
  }

  ghost predicate NotUnlisted(s: Db, qs: seq<Request>, a: Actor, m: nat) {
    forall n | m <= n < |qs| :: !Unlists(Run(s, qs[..n]), qs[n], a)
  }

  /** At the end of a run an actor is on the list if and only if a request of the run registered it, or it was on
      the list at the start, and no request since has revoked it. */
  lemma {:induction false} ListedOverRunsIff(s: Db, qs: seq<Request>, a: Actor)
    requires Inv(s)
    ensures IsAgent(Run(s, qs).agents, a)
            <==> (IsAgent(s.agents, a) && NotUnlisted(s, qs, a, 0)) || exists m: nat :: ListedSince(s, qs, a, m)
  {
    hide Inv; hide Run; hide After; hide IsAgent; hide Lists; hide Unlists;
    if qs == [] {
      RunNone(s);
    } else {
      var n := |qs| - 1;
      var init, q := qs[..n], qs[n];
      assert forall k | 0 <= k <= n :: init[..k] == qs[..k];
      ListedOverRunsIff(s, init, a);
      RunKeepsInv(s, init);
      RunUnfolds(s, qs);
      ListedAfterIff(Run(s, init), q, a);
      assert NotUnlisted(s, qs, a, 0) <==> NotUnlisted(s, init, a, 0) && !Unlists(Run(s, init), q, a);
      forall m: nat | m < n
        ensures ListedSince(s, qs, a, m) <==> ListedSince(s, init, a, m) && !Unlists(Run(s, init), q, a)
      {
      }
      assert ListedSince(s, qs, a, n) <==> Lists(Run(s, init), q, a);
    }
  }

  /** From the registration of an actor until its revocation, whatever else is served, every part deletion that
      the actor accepts and every revocation it asks for leaves the catalog unchanged. */
  lemma ListedActorIsBarred(s: Db, qs: seq<Request>, a: Actor, m: nat, q: Request)
    requires Inv(s) && ListedSince(s, qs, a, m)
    requires q.actor == Some(a) && (q.op.AcceptPartDeletion? || q.op.RevokeAgent?)
    ensures After(Run(s, qs), q) == Run(s, qs)
  {
    hide Inv; hide Run; hide After; hide ListedSince; hide NotUnlisted; hide IsAgent; hide HasLiveContract;
    ListedOverRunsIff(s, qs, a);
    RunKeepsInv(s, qs);
    AnsweredIff(Run(s, qs), q);
  }
}
