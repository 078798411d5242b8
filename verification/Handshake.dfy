/** The propose / accept handshake shared by every shift and deletion flow. */
module Handshake {
  import opened Common

  /** Two operators sign off unless one overrides; an unknown side cannot be checked. */
  function EnforceTwoParty(proposer: Option<Actor>, acceptor: Option<Actor>, single: bool): Option<Refusal> {
    if single then None
    else if proposer.None? || acceptor.None? then None
    else if proposer == acceptor then Some(Unprocessable)
    else None
  }

  /** Destructive accepts need a known acceptor who is not a registered agent. */
  function EnforceHuman(acceptor: Option<Actor>, agents: set<Actor>): Option<Refusal> {
    if acceptor.None? then Some(Unprocessable)
    else if acceptor.value in agents then Some(Forbidden)
    else None
  }

  // cascade is a column of part deletions only; everywhere else it is false.
  datatype Acceptance = Acceptance(at: Time, acceptor: Option<Actor>, overridden: bool, cascade: bool)

  /** One row of a proposal table. The row is open while accepted is None; change is what the
      family proposes. */
  datatype Proposal<T> = Proposal(change: T, rationale: string, proposer: Option<Actor>,
                                  createdAt: Time, accepted: Option<Acceptance>)

  function Open<T>(change: T, rationale: string, proposer: Option<Actor>, now: Time): Proposal<T> {
    Proposal(change, rationale, proposer, now, None)
  }

  /** Stamp row k as accepted. */
  function Accept<T>(ps: seq<Proposal<T>>, k: nat, stamp: Acceptance): seq<Proposal<T>>
    requires k < |ps|
  {
    ps[k := ps[k].(accepted := Some(stamp))]
  }

  /** The checks every accept starts with: the row exists, is open, and has two parties. */
  function CheckAcceptable<T>(ps: seq<Proposal<T>>, k: nat, actor: Option<Actor>, single: bool): (r: Option<Refusal>)
    ensures r.None? ==> k < |ps| && ps[k].accepted.None?
  {
    if k >= |ps| then Some(NotFound)
    else if ps[k].accepted.Some? then Some(Conflict)
    else EnforceTwoParty(ps[k].proposer, actor, single)
  }

  // ---------- What is true of every row ----------

  ghost predicate TwoParties<T>(p: Proposal<T>) {
    p.accepted.Some? && !p.accepted.value.overridden && p.proposer.Some? && p.accepted.value.acceptor.Some?
    ==> p.proposer != p.accepted.value.acceptor
  }

  ghost predicate Dated<T>(p: Proposal<T>, clock: Time) {
    p.createdAt <= clock && (p.accepted.Some? ==> p.accepted.value.at <= clock)
  }

  ghost predicate RowsOk<T>(ps: seq<Proposal<T>>, clock: Time) {
    forall k | 0 <= k < |ps| :: TwoParties(ps[k]) && Dated(ps[k], clock)
  }

  /** How one row may change over time: an accepted row is frozen, and an open row keeps
      everything but its acceptance, which is given once. */
  ghost predicate RowGrows<T>(was: Proposal<T>, now: Proposal<T>) {
    now == was || (was.accepted.None? && now == was.(accepted := now.accepted))
  }

  ghost predicate RowsGrow<T>(was: seq<Proposal<T>>, now: seq<Proposal<T>>) {
    && |was| <= |now|
    && forall k | 0 <= k < |was| :: RowGrows(was[k], now[k])
  }

  // ---------- The accepted rows in the order of their acceptance ----------

  function AcceptedAt<T>(p: Proposal<T>): Time
    requires p.accepted.Some?
  {
    p.accepted.value.at
  }

  ghost predicate AllAccepted<T>(ps: seq<Proposal<T>>) {
    forall i | 0 <= i < |ps| :: ps[i].accepted.Some?
  }

  ghost function InsertAccepted<T>(ps: seq<Proposal<T>>, p: Proposal<T>): (r: seq<Proposal<T>>)
    requires AllAccepted(ps) && p.accepted.Some?
    ensures AllAccepted(r)
  {
    if ps == [] || AcceptedAt(ps[|ps| - 1]) <= AcceptedAt(p) then ps + [p]
    else InsertAccepted(ps[..|ps| - 1], p) + [ps[|ps| - 1]]
  }

  lemma {:induction false} InsertAcceptedMembers<T>(ps: seq<Proposal<T>>, p: Proposal<T>, x: Proposal<T>)
    requires AllAccepted(ps) && p.accepted.Some?
    ensures x in InsertAccepted(ps, p) <==> x in ps || x == p
  {
    if ps == [] {
    } else {
      assert ps == ps[..|ps| - 1] + [ps[|ps| - 1]];
      if AcceptedAt(ps[|ps| - 1]) > AcceptedAt(p) {
        InsertAcceptedMembers(ps[..|ps| - 1], p, x);
      }
    }
  }

  /** The accepted rows of a table, oldest acceptance first. */
  ghost function InAcceptOrder<T>(ps: seq<Proposal<T>>): (r: seq<Proposal<T>>)
    ensures AllAccepted(r)
  {
    if ps == [] then []
    else
      var before := InAcceptOrder(ps[..|ps| - 1]);
      var last := ps[|ps| - 1];
      if last.accepted.Some? then InsertAccepted(before, last) else before
  }

  lemma InAcceptOrderMembers<T>(ps: seq<Proposal<T>>, p: Proposal<T>)
    ensures p in InAcceptOrder(ps) <==> p in ps && p.accepted.Some?
  {
    if ps == [] {
    } else {
      var before, last := ps[..|ps| - 1], ps[|ps| - 1];
      assert ps == before + [last];
      InAcceptOrderMembers(before, p);
      if last.accepted.Some? {
        InsertAcceptedMembers(InAcceptOrder(before), last, p);
      }
    }
  }

  /** The accepted rows in table order. */
  function AcceptedRows<T>(ps: seq<Proposal<T>>): (r: seq<Proposal<T>>)
    ensures |r| <= |ps|
  {
    if ps == [] then []
    else
      var n := |ps| - 1;
      if ps[n].accepted.Some? then AcceptedRows(ps[..n]) + [ps[n]] else AcceptedRows(ps[..n])
  }

  lemma {:induction false} InsertAcceptedOnce<T>(ps: seq<Proposal<T>>, p: Proposal<T>)
    requires AllAccepted(ps) && p.accepted.Some?
    ensures multiset(InsertAccepted(ps, p)) == multiset(ps) + multiset{p}
  {
    if ps == [] {
    } else {
      assert ps == ps[..|ps| - 1] + [ps[|ps| - 1]];
      if AcceptedAt(ps[|ps| - 1]) > AcceptedAt(p) {
        InsertAcceptedOnce(ps[..|ps| - 1], p);
      }
    }
  }

  /** Putting them in order loses no accepted row and repeats none. */
  lemma {:induction false} InAcceptOrderPermutes<T>(ps: seq<Proposal<T>>)
    ensures multiset(InAcceptOrder(ps)) == multiset(AcceptedRows(ps))
    ensures |InAcceptOrder(ps)| == |AcceptedRows(ps)|
  {
    if ps == [] {
    } else {
      var n := |ps| - 1;
      InAcceptOrderPermutes(ps[..n]);
      if ps[n].accepted.Some? {
        InsertAcceptedOnce(InAcceptOrder(ps[..n]), ps[n]);
      }
      assert |multiset(InAcceptOrder(ps))| == |multiset(AcceptedRows(ps))|;
    }
  }

  ghost predicate TimeSorted<T>(ps: seq<Proposal<T>>)
    requires AllAccepted(ps)
  {
    forall i, j | 0 <= i < j < |ps| :: AcceptedAt(ps[i]) <= AcceptedAt(ps[j])
  }

  lemma {:induction false} InsertKeepsSorted<T>(ps: seq<Proposal<T>>, p: Proposal<T>)
    requires AllAccepted(ps) && p.accepted.Some? && TimeSorted(ps)
    ensures TimeSorted(InsertAccepted(ps, p))
  {
    if ps == [] {
    } else if AcceptedAt(ps[|ps| - 1]) > AcceptedAt(p) {
      var init := ps[..|ps| - 1];
      InsertKeepsSorted(init, p);
      var r := InsertAccepted(init, p);
      forall i | 0 <= i < |r| ensures AcceptedAt(r[i]) <= AcceptedAt(ps[|ps| - 1]) {
        InsertAcceptedMembers(init, p, r[i]);
        assert r[i] in init || r[i] == p;
      }
    }
  }

  /** It is sorted by acceptance time, and holds exactly the accepted rows. */
  lemma InAcceptOrderSorted<T>(ps: seq<Proposal<T>>)
    ensures TimeSorted(InAcceptOrder(ps))
  {
    if ps == [] {
    } else {
      InAcceptOrderSorted(ps[..|ps| - 1]);
      if ps[|ps| - 1].accepted.Some? {
        InsertKeepsSorted(InAcceptOrder(ps[..|ps| - 1]), ps[|ps| - 1]);
      }
    }
  }

  /** A new open row does not show. */
  lemma InAcceptOrderOfOpen<T>(ps: seq<Proposal<T>>, p: Proposal<T>)
    requires p.accepted.None?
    ensures InAcceptOrder(ps + [p]) == InAcceptOrder(ps)
  {
  }

  lemma InsertBelowLatest<T>(ps: seq<Proposal<T>>, a: Proposal<T>, p: Proposal<T>)
    requires AllAccepted(ps) && a.accepted.Some? && p.accepted.Some?
    requires AcceptedAt(p) < AcceptedAt(a)
    ensures InsertAccepted(ps + [a], p) == InsertAccepted(ps, p) + [a]
  {
  }

  lemma InsertLatest<T>(ps: seq<Proposal<T>>, p: Proposal<T>)
    requires AllAccepted(ps) && p.accepted.Some?
    requires forall i | 0 <= i < |ps| :: AcceptedAt(ps[i]) < AcceptedAt(p)
    ensures InsertAccepted(ps, p) == ps + [p]
  {
  }

  lemma InAcceptOrderBefore<T>(ps: seq<Proposal<T>>, now: Time)
    requires forall i | 0 <= i < |ps| && ps[i].accepted.Some? :: AcceptedAt(ps[i]) < now
    ensures forall i | 0 <= i < |InAcceptOrder(ps)| :: AcceptedAt(InAcceptOrder(ps)[i]) < now
  {
    forall i | 0 <= i < |InAcceptOrder(ps)| ensures AcceptedAt(InAcceptOrder(ps)[i]) < now {
      InAcceptOrderMembers(ps, InAcceptOrder(ps)[i]);
    }
  }

  /** Accepting any open row now, wherever it stands in the table, puts it last. */
  lemma {:induction false} InAcceptOrderOfAccept<T>(ps: seq<Proposal<T>>, k: nat, p: Proposal<T>, now: Time)
    requires k < |ps| && ps[k].accepted.None? && p.accepted.Some? && AcceptedAt(p) == now
    requires forall i | 0 <= i < |ps| && ps[i].accepted.Some? :: AcceptedAt(ps[i]) < now
    ensures InAcceptOrder(ps[k := p]) == InAcceptOrder(ps) + [p]
  {
    var n := |ps| - 1;
    var init := ps[..n];
    InAcceptOrderBefore(init, now);
    if k == n {
      assert ps[k := p][..n] == init;
      InsertLatest(InAcceptOrder(init), p);
    } else {
      InAcceptOrderOfAccept(init, k, p, now);
      assert ps[k := p][..n] == init[k := p];
      if ps[n].accepted.Some? {
        InsertBelowLatest(InAcceptOrder(init), p, ps[n]);
      }
    }
  }
}
