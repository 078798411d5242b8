/** The audit history of a part or contract: one event per accepted body, shift and deletion
    step, each labelled with the body version in force at its time. */
module History {
  import opened Common
  import opened Handshake
  import opened Timeline
  import opened Versioning

  datatype EventKind = BodyBump | SubtypeShift | NameShift | EndpointShift | DeletionProposed | DeletionAccepted

  datatype Event = Event(kind: EventKind, version: Version, proposer: Option<Actor>,
                         acceptor: Option<Actor>, overridden: bool)

  // An accepted body version, at the time it came into force.
  datatype Body = Body(at: Time, id: nat, version: Version, proposer: Option<Actor>,
                       acceptor: Option<Actor>, overridden: bool)

  // ---------- The body in force ----------

  function Later(sofar: Option<Body>, b: Body, t: Time): Option<Body> {
    if b.at <= t && (sofar.None? || sofar.value.at <= b.at) then Some(b) else sofar
  }

  /** The newest of the bodies that came into force at or before t. */
  function InForce(bodies: seq<Body>, t: Time): (r: Option<Body>)
    ensures r.Some? ==> r.value in bodies && r.value.at <= t
    ensures r.Some? ==> forall b | b in bodies && b.at <= t :: b.at <= r.value.at
    ensures r.None? ==> forall b | b in bodies :: t < b.at
  {
    if bodies == [] then None
    else
      assert bodies == bodies[..|bodies| - 1] + [bodies[|bodies| - 1]];
      Later(InForce(bodies[..|bodies| - 1], t), bodies[|bodies| - 1], t)
  }

  function LabelAt(bodies: seq<Body>, t: Time): Version {
    match InForce(bodies, t)
    case None => Version(0, 0, 0, None)
    case Some(b) => b.version
  }

  function InsertByTime(bodies: seq<Body>, b: Body): (r: seq<Body>)
    ensures |r| == |bodies| + 1
  {
    var n := |bodies| - 1;
    if bodies == [] || bodies[n].at <= b.at then bodies + [b] else InsertByTime(bodies[..n], b) + [bodies[n]]
  }

  // The stable sort by time.
  function OldestFirst(bodies: seq<Body>): (r: seq<Body>)
    ensures |r| == |bodies|
  {
    if bodies == [] then [] else InsertByTime(OldestFirst(bodies[..|bodies| - 1]), bodies[|bodies| - 1])
  }

  ghost predicate Ascending(bodies: seq<Body>) {
    forall i, j | 0 <= i < j < |bodies| :: bodies[i].at <= bodies[j].at
  }

  lemma InForceAppend(bodies: seq<Body>, b: Body, t: Time)
    ensures InForce(bodies + [b], t) == Later(InForce(bodies, t), b, t)
  {
  }

  lemma {:induction false} InsertSorts(bodies: seq<Body>, b: Body, bound: Time)
    requires Ascending(bodies) && (forall i | 0 <= i < |bodies| :: bodies[i].at <= bound) && b.at <= bound
    ensures Ascending(InsertByTime(bodies, b))
    ensures forall i | 0 <= i <= |bodies| :: InsertByTime(bodies, b)[i].at <= bound
  {
    var n := |bodies| - 1;
    if bodies == [] {
    } else if bodies[n].at > b.at {
      InsertSorts(bodies[..n], b, bodies[n].at);
    }
  }

  lemma {:induction false} InsertInForce(bodies: seq<Body>, b: Body, t: Time)
    ensures InForce(InsertByTime(bodies, b), t) == Later(InForce(bodies, t), b, t)
  {
    var n := |bodies| - 1;
    if bodies == [] || bodies[n].at <= b.at {
      InForceAppend(bodies, b, t);
    } else {
      var init, last := bodies[..n], bodies[n];
      InsertInForce(init, b, t);
      InForceAppend(InsertByTime(init, b), last, t);
      assert Later(Later(InForce(init, t), b, t), last, t) == Later(Later(InForce(init, t), last, t), b, t);
    }
  }

  // Sorting does not change which body is in force.
  lemma {:induction false} SortedInForce(bodies: seq<Body>, t: Time, bound: Time)
    requires forall i | 0 <= i < |bodies| :: bodies[i].at <= bound
    ensures Ascending(OldestFirst(bodies))
    ensures forall i | 0 <= i < |bodies| :: OldestFirst(bodies)[i].at <= bound
    ensures InForce(OldestFirst(bodies), t) == InForce(bodies, t)
  {
    if bodies == [] {
    } else {
      var n := |bodies| - 1;
      SortedInForce(bodies[..n], t, bound);
      InsertSorts(OldestFirst(bodies[..n]), bodies[n], bound);
      InsertInForce(OldestFirst(bodies[..n]), bodies[n], t);
    }
  }

  lemma {:induction false} NothingLaterCounts(sorted: seq<Body>, i: nat, t: Time)
    requires Ascending(sorted) && i < |sorted| && t < sorted[i].at
    ensures InForce(sorted, t) == InForce(sorted[..i], t)
  {
    var n := |sorted| - 1;
    var init, last := sorted[..n], sorted[n];
    assert InForce(sorted, t) == Later(InForce(init, t), last, t);
    if i < n {
      assert sorted[i].at <= last.at;
      NothingLaterCounts(init, i, t);
      assert init[..i] == sorted[..i];
    }
  }

  ghost function LatestTime(bodies: seq<Body>): (t: Time)
    ensures forall i | 0 <= i < |bodies| :: bodies[i].at <= t
  {
    if bodies == [] then 0
    else
      var n := |bodies| - 1;
      var t := LatestTime(bodies[..n]);
      assert forall i | 0 <= i < n :: bodies[..n][i] == bodies[i];
      if t < bodies[n].at then bodies[n].at else t
  }

  /** The early-break loop over the sorted bodies finds the body in force. */
  method VersionAt(bodies: seq<Body>, t: Time) returns (v: Version)
    ensures v == LabelAt(bodies, t)
  {
    hide InForce; hide OldestFirst;
    var sorted := OldestFirst(bodies);
    SortedInForce(bodies, t, LatestTime(bodies));
    var latest: Option<Body> := None;
    var i := 0;
    while i < |sorted|
      invariant i <= |sorted| && latest == InForce(sorted[..i], t)
      invariant forall j | 0 <= j < i :: sorted[j].at <= t
    {
      if sorted[i].at > t {
        NothingLaterCounts(sorted, i, t);
        break;
      }
      InForceAppend(sorted[..i], sorted[i], t);
      assert sorted[..i + 1] == sorted[..i] + [sorted[i]];
      latest := Some(sorted[i]);
      i := i + 1;
    }
    assert i == |sorted| ==> sorted[..i] == sorted;
    v := if latest.None? then Version(0, 0, 0, None) else latest.value.version;
  }

  // ---------- Events ----------

  function BodyEvents(bodies: seq<Body>): (r: seq<Row<Event>>)
    ensures |r| == |bodies|
  {
    seq(|bodies|, i requires 0 <= i < |bodies| =>
      var b := bodies[i]; Row(b.at, b.id, Event(BodyBump, b.version, b.proposer, b.acceptor, b.overridden)))
  }

  function ShiftEvent<T>(p: Proposal<T>, id: nat, kind: EventKind, bodies: seq<Body>): seq<Row<Event>> {
    match p.accepted
    case None => []
    case Some(a) => [Row(a.at, id, Event(kind, LabelAt(bodies, a.at), p.proposer, a.acceptor, a.overridden))]
  }

  function ShiftEvents<T>(ps: seq<Proposal<T>>, kind: EventKind, bodies: seq<Body>): seq<Row<Event>> {
    if ps == [] then []
    else
      var n := |ps| - 1;
      ShiftEvents(ps[..n], kind, bodies) + ShiftEvent(ps[n], n, kind, bodies)
  }

  function ProposedEvent<T>(p: Proposal<T>, id: nat, bodies: seq<Body>): Row<Event> {
    Row(p.createdAt, id, Event(DeletionProposed, LabelAt(bodies, p.createdAt), p.proposer, None, false))
  }

  function DeletionEvents<T>(ps: seq<Proposal<T>>, bodies: seq<Body>): seq<Row<Event>> {
    if ps == [] then []
    else
      var n := |ps| - 1;
      DeletionEvents(ps[..n], bodies) + [ProposedEvent(ps[n], n, bodies)]
      + ShiftEvent(ps[n], n, DeletionAccepted, bodies)
  }

  function Events<A, B, C>(bodies: seq<Body>, first: seq<Proposal<A>>, second: seq<Proposal<B>>, secondKind: EventKind,
                           deletions: seq<Proposal<C>>, includeDeleted: bool): seq<Row<Event>>
  {
    BodyEvents(bodies) + ShiftEvents(first, SubtypeShift, bodies) + ShiftEvents(second, secondKind, bodies)
    + if includeDeleted then DeletionEvents(deletions, bodies) else []
  }

  /** The list-building loops of the history endpoint. */
  method CollectEvents<A, B, C>(bodies: seq<Body>, first: seq<Proposal<A>>, second: seq<Proposal<B>>,
                                secondKind: EventKind, deletions: seq<Proposal<C>>, includeDeleted: bool)
    returns (entries: seq<Row<Event>>)
    ensures entries == Events(bodies, first, second, secondKind, deletions, includeDeleted)
  {
    hide BodyEvents; hide ShiftEvents; hide DeletionEvents;
    entries := CollectBodies(bodies);
    var shifts := CollectShifts(first, SubtypeShift, bodies);
    entries := entries + shifts;
    shifts := CollectShifts(second, secondKind, bodies);
    entries := entries + shifts;
    if includeDeleted {
      shifts := CollectDeletions(deletions, bodies);
      entries := entries + shifts;
    }
  }

  method CollectBodies(bodies: seq<Body>) returns (entries: seq<Row<Event>>)
    ensures entries == BodyEvents(bodies)
  {
    entries := [];
    for i := 0 to |bodies|
      invariant entries == BodyEvents(bodies)[..i]
    {
      var b := bodies[i];
      entries := entries + [Row(b.at, b.id, Event(BodyBump, b.version, b.proposer, b.acceptor, b.overridden))];
    }
  }

  method CollectShifts<T>(ps: seq<Proposal<T>>, kind: EventKind, bodies: seq<Body>) returns (entries: seq<Row<Event>>)
    ensures entries == ShiftEvents(ps, kind, bodies)
  {
    entries := [];
    for i := 0 to |ps|
      invariant entries == ShiftEvents(ps[..i], kind, bodies)
    {
      assert ps[..i + 1][..i] == ps[..i];
      if ps[i].accepted.Some? {
        var a := ps[i].accepted.value;
        var v := VersionAt(bodies, a.at);
        entries := entries + [Row(a.at, i, Event(kind, v, ps[i].proposer, a.acceptor, a.overridden))];
      }
    }
    assert ps[..|ps|] == ps;
  }

  method CollectDeletions<T>(ps: seq<Proposal<T>>, bodies: seq<Body>) returns (entries: seq<Row<Event>>)
    ensures entries == DeletionEvents(ps, bodies)
  {
    entries := [];
    for i := 0 to |ps|
      invariant entries == DeletionEvents(ps[..i], bodies)
    {
      assert ps[..i + 1][..i] == ps[..i];
      var v := VersionAt(bodies, ps[i].createdAt);
      entries := entries + [Row(ps[i].createdAt, i, Event(DeletionProposed, v, ps[i].proposer, None, false))];
      if ps[i].accepted.Some? {
        var a := ps[i].accepted.value;
        v := VersionAt(bodies, a.at);
        entries := entries + [Row(a.at, i, Event(DeletionAccepted, v, ps[i].proposer, a.acceptor, a.overridden))];
      }
    }
    assert ps[..|ps|] == ps;
  }

  // ---------- Growth ----------

  /** now is was with one row of time t put in somewhere. */
  ghost predicate GainsAt<T>(was: seq<Row<T>>, now: seq<Row<T>>, i: nat, t: Time) {
    && i <= |was| && |now| == |was| + 1
    && now[i].at == t && now == was[..i] + [now[i]] + was[i..]
  }

  ghost predicate Gains<T>(was: seq<Row<T>>, now: seq<Row<T>>, t: Time) {
    now == was || exists i: nat :: GainsAt(was, now, i, t)
  }

  ghost predicate OlderThan<T>(rows: seq<Row<T>>, t: Time) {
    forall i | 0 <= i < |rows| :: rows[i].at < t
  }

  lemma GainsInContext<T>(a: seq<Row<T>>, was: seq<Row<T>>, now: seq<Row<T>>, b: seq<Row<T>>, t: Time)
    requires Gains(was, now, t)
    ensures Gains(a + was + b, a + now + b, t)
  {
    if now != was {
      var i: nat :| GainsAt(was, now, i, t);
      var x, y := a + was + b, a + now + b;
      var k := |a| + i;
      assert y[k] == now[i];
      assert x[..k] == a + was[..i] && x[k..] == was[i..] + b;
      assert y == x[..k] + [y[k]] + x[k..];
      assert GainsAt(x, y, k, t);
    }
  }

  /** The sorted history only gains at its new end. */
  lemma SortedGains<T>(was: seq<Row<T>>, now: seq<Row<T>>, t: Time) returns (top: seq<Row<T>>)
    requires Gains(was, now, t) && OlderThan(was, t)
    ensures NewestFirst(now) == top + NewestFirst(was)
    ensures |top| <= 1 && forall e | e in top :: e.at == t
  {
    hide NewestFirst;
    if now == was {
      top := [];
    } else {
      var i: nat :| GainsAt(was, now, i, t);
      var a, e, b := was[..i], now[i], was[i..];
      assert was == a + b;
      forall x: Row<T> | x in a + b ensures Before(x.Key(), e.Key()) {
        assert x in was;
      }
      NewestGoesFirst(a, e, b);
      top := [e];
    }
  }

  /** bodies gain one body of time t. */
  ghost predicate BodiesGainAt(was: seq<Body>, now: seq<Body>, i: nat, t: Time) {
    && i <= |was| && |now| == |was| + 1
    && now[i].at == t && now == was[..i] + [now[i]] + was[i..]
  }

  ghost predicate BodiesGain(was: seq<Body>, now: seq<Body>, t: Time) {
    now == was || exists i: nat :: BodiesGainAt(was, now, i, t)
  }

  lemma {:induction false} LabelStays(a: seq<Body>, b: Body, c: seq<Body>, earlier: Time)
    requires earlier < b.at
    ensures InForce(a + [b] + c, earlier) == InForce(a + c, earlier)
  {
    if c == [] {
      assert a + [b] + c == a + [b] && a + c == a;
      InForceAppend(a, b, earlier);
    } else {
      var init, x := c[..|c| - 1], c[|c| - 1];
      assert c == init + [x];
      assert a + [b] + c == (a + [b] + init) + [x] && a + c == (a + init) + [x];
      LabelStays(a, b, init, earlier);
      InForceAppend(a + [b] + init, x, earlier);
      InForceAppend(a + init, x, earlier);
    }
  }

  lemma LabelsStay(was: seq<Body>, now: seq<Body>, t: Time, earlier: Time)
    requires BodiesGain(was, now, t) && earlier < t
    ensures LabelAt(now, earlier) == LabelAt(was, earlier)
  {
    if now != was {
      var i: nat :| BodiesGainAt(was, now, i, t);
      LabelStays(was[..i], now[i], was[i..], earlier);
      assert was == was[..i] + was[i..];
    }
  }

  lemma BodyEventsGain(was: seq<Body>, now: seq<Body>, t: Time)
    requires BodiesGain(was, now, t)
    ensures Gains(BodyEvents(was), BodyEvents(now), t)
  {
    if now != was {
      var i: nat :| BodiesGainAt(was, now, i, t);
      var x, y := BodyEvents(was), BodyEvents(now);
      assert y == x[..i] + [y[i]] + x[i..];
      assert GainsAt(x, y, i, t);
    }
  }

  ghost predicate DatedBefore<T>(ps: seq<Proposal<T>>, t: Time) {
    forall i | 0 <= i < |ps| :: ps[i].createdAt < t && (ps[i].accepted.Some? ==> ps[i].accepted.value.at < t)
  }

  lemma ShiftEventsKeepLabels<T>(ps: seq<Proposal<T>>, kind: EventKind, was: seq<Body>, now: seq<Body>, t: Time)
    requires BodiesGain(was, now, t) && DatedBefore(ps, t)
    ensures ShiftEvents(ps, kind, now) == ShiftEvents(ps, kind, was)
  {
    if ps == [] {
    } else {
      var n := |ps| - 1;
      ShiftEventsKeepLabels(ps[..n], kind, was, now, t);
      if ps[n].accepted.Some? {
        LabelsStay(was, now, t, ps[n].accepted.value.at);
      }
    }
  }

  lemma {:induction false} DeletionEventsKeepLabels<T>(ps: seq<Proposal<T>>, was: seq<Body>, now: seq<Body>, t: Time)
    requires BodiesGain(was, now, t) && DatedBefore(ps, t)
    ensures DeletionEvents(ps, now) == DeletionEvents(ps, was)
  {
    if ps == [] {
    } else {
      var n := |ps| - 1;
      DeletionEventsKeepLabels(ps[..n], was, now, t);
      LabelsStay(was, now, t, ps[n].createdAt);
      if ps[n].accepted.Some? {
        LabelsStay(was, now, t, ps[n].accepted.value.at);
      }
    }
  }

  /** A table changes by at most one open row added, or one open row accepted, at time t. */
  ghost predicate TableStep<T>(was: seq<Proposal<T>>, now: seq<Proposal<T>>, t: Time) {
    || now == was
    || (|now| == |was| + 1 && now[..|was|] == was && now[|was|].accepted.None? && now[|was|].createdAt == t)
    || exists k: nat :: AcceptsAt(was, now, k, t)
  }

  ghost predicate AcceptsAt<T>(was: seq<Proposal<T>>, now: seq<Proposal<T>>, k: nat, t: Time) {
    && k < |was| && |now| == |was| && was[k].accepted.None? && now[k].accepted.Some? && now[k].accepted.value.at == t
    && now[k] == was[k].(accepted := now[k].accepted) && now == was[k := now[k]]
  }

  lemma {:induction false} ShiftEventsAccept<T>(was: seq<Proposal<T>>, now: seq<Proposal<T>>, k: nat, kind: EventKind,
      bodies: seq<Body>, t: Time)
    requires AcceptsAt(was, now, k, t)
    ensures Gains(ShiftEvents(was, kind, bodies), ShiftEvents(now, kind, bodies), t)
  {
    var n := |was| - 1;
    var x, y := ShiftEvents(was, kind, bodies), ShiftEvents(now, kind, bodies);
    if k == n {
      assert now[..n] == was[..n];
      assert GainsAt(x, y, |x|, t);
    } else {
      assert now[..n] == was[..n][k := now[k]];
      ShiftEventsAccept(was[..n], now[..n], k, kind, bodies, t);
      var rest := ShiftEvent(was[n], n, kind, bodies);
      GainsInContext([], ShiftEvents(was[..n], kind, bodies), ShiftEvents(now[..n], kind, bodies), rest, t);
      assert [] + ShiftEvents(was[..n], kind, bodies) == ShiftEvents(was[..n], kind, bodies);
      assert [] + ShiftEvents(now[..n], kind, bodies) == ShiftEvents(now[..n], kind, bodies);
    }
  }

  lemma ShiftEventsGain<T>(was: seq<Proposal<T>>, now: seq<Proposal<T>>, kind: EventKind, bodies: seq<Body>, t: Time)
    requires TableStep(was, now, t)
    ensures Gains(ShiftEvents(was, kind, bodies), ShiftEvents(now, kind, bodies), t)
  {
    if |now| == |was| && now != was {
      var k: nat :| AcceptsAt(was, now, k, t);
      ShiftEventsAccept(was, now, k, kind, bodies, t);
    }
  }

  lemma {:induction false} DeletionEventsAccept<T>(was: seq<Proposal<T>>, now: seq<Proposal<T>>, k: nat,
      bodies: seq<Body>,
      t: Time)
    requires AcceptsAt(was, now, k, t)
    ensures Gains(DeletionEvents(was, bodies), DeletionEvents(now, bodies), t)
  {
    var n := |was| - 1;
    var x, y := DeletionEvents(was, bodies), DeletionEvents(now, bodies);
    if k == n {
      assert now[..n] == was[..n];
      assert GainsAt(x, y, |x|, t);
    } else {
      assert now[..n] == was[..n][k := now[k]];
      DeletionEventsAccept(was[..n], now[..n], k, bodies, t);
      var a, b := DeletionEvents(was[..n], bodies), DeletionEvents(now[..n], bodies);
      var rest := [ProposedEvent(was[n], n, bodies)] + ShiftEvent(was[n], n, DeletionAccepted, bodies);
      GainsInContext([], a, b, rest, t);
      assert [] + a + rest == x && [] + b + rest == y;
    }
  }

  lemma DeletionEventsGain<T>(was: seq<Proposal<T>>, now: seq<Proposal<T>>, bodies: seq<Body>, t: Time)
    requires TableStep(was, now, t)
    ensures Gains(DeletionEvents(was, bodies), DeletionEvents(now, bodies), t)
  {
    if |now| == |was| + 1 {
      var x, y := DeletionEvents(was, bodies), DeletionEvents(now, bodies);
      assert y == x + [ProposedEvent(now[|was|], |was|, bodies)];
      assert GainsAt(x, y, |x|, t);
    } else if now != was {
      var k: nat :| AcceptsAt(was, now, k, t);
      DeletionEventsAccept(was, now, k, bodies, t);
    }
  }
}
