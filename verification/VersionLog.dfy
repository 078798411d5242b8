/** The content-version protocol: proposals and release candidates of one document, accepted in
    place or promoted to a new stable row. Contracts and templates each keep one such log. */
module VersionLog {
  import opened Common
  import opened Handshake
  import opened Versioning

  datatype VersionRow = VersionRow(version: Version, markdown: string, active: bool,
                                   createdAt: Time, acceptedAt: Option<Time>, promotedFrom: Option<string>,
                                   proposer: Option<Actor>, acceptor: Option<Actor>, overridden: bool)

  type Log = seq<VersionRow>

  function Registered(v: Version, markdown: string, now: Time): VersionRow {
    VersionRow(v, markdown, true, now, None, None, None, None, false)
  }

  // ---------- Queries ----------

  /** The greatest version of any row. */
  function LatestAny(log: Log): (r: Option<Version>)
    ensures r.None? <==> log == []
    ensures r.Some? ==> forall i | 0 <= i < |log| :: !Less(r.value, log[i].version)
  {
    if log == [] then None
    else
      var init, last := log[..|log| - 1], log[|log| - 1].version;
      match LatestAny(init)
      case None => Some(last)
      case Some(m) =>
        assert forall i | 0 <= i < |init| :: init[i] == log[i];
        Some(Max(m, last))
  }

  /** Active rows ordered by the three integers, descending; the first one. */
  function LatestActive(log: Log): (r: Option<VersionRow>)
    ensures r.None? <==> forall i | 0 <= i < |log| :: !log[i].active
    ensures r.Some? ==> r.value in log && r.value.active
    ensures r.Some? ==> forall i | 0 <= i < |log| && log[i].active :: !TripleLess(r.value.version, log[i].version)
  {
    if log == [] then None
    else
      var init, last := log[..|log| - 1], log[|log| - 1];
      var r := LatestActive(init);
      assert log == init + [last];
      if last.active && (r.None? || TripleLess(r.value.version, last.version)) then Some(last) else r
  }

  /** The row that carries exactly this version, rc text included. */
  function FindExact(log: Log, v: Version): (r: Option<nat>)
    ensures r.Some? ==> r.value < |log| && log[r.value].version == v
    ensures r.None? ==> forall i | 0 <= i < |log| :: log[i].version != v
  {
    if log == [] then None
    else
      var n := |log| - 1;
      if log[n].version == v then Some(n)
      else
        assert forall i | 0 <= i < n :: log[..n][i] == log[i];
        FindExact(log[..n], v)
  }

  predicate ActiveIs(log: Log, v: Version) {
    LatestActive(log).Some? && LatestActive(log).value.version == v
  }

  // A proposal row is listed as open while it lies above the latest active version.
  predicate IsOpen(log: Log, r: VersionRow) {
    !r.active && (LatestActive(log).Some? ==> Less(LatestActive(log).value.version, r.version))
  }

  // ---------- Writes ----------

  function Propose(log: Log, v: Version, markdown: string, actor: Option<Actor>, now: Time): Result<Log> {
    var latest := LatestAny(log);
    if latest.Some? && !Less(latest.value, v) then Refused(Conflict)
    else Ok(log + [VersionRow(v, markdown, false, now, None, None, actor, None, false)])
  }

  function Promoted(rc: VersionRow, actor: Option<Actor>, single: bool, now: Time): VersionRow {
    VersionRow(rc.version.Stable(), rc.markdown, true, now, Some(now), rc.version.prerelease,
               rc.proposer, actor, single)
  }

  function AcceptVersion(log: Log, target: Version, actor: Option<Actor>, single: bool, now: Time): Result<Log> {
    match FindExact(log, target)
    case None => Refused(NotFound)
    case Some(i) =>
      var row := log[i];
      if row.active then Refused(Conflict)
      else if EnforceTwoParty(row.proposer, actor, single).Some? then Refused(Unprocessable)
      else if !target.IsPrerelease() then
        Ok(log[i := row.(active := true, acceptedAt := Some(now), acceptor := actor, overridden := single)])
      else if FindExact(log, target.Stable()).Some? then Refused(Conflict)
      else Ok(log[i := row.(overridden := single)] + [Promoted(row, actor, single, now)])
  }

  // The two writes of the protocol, as values.
  datatype BodyMove = ProposeBody(version: Version, markdown: string) | AcceptBody(target: Version, single: bool)

  function MoveLog(log: Log, m: BodyMove, actor: Option<Actor>, now: Time): Result<Log> {
    match m
    case ProposeBody(v, markdown) =>
      if !v.WellFormed() then Refused(Unprocessable) else Propose(log, v, markdown, actor, now)
    case AcceptBody(target, single) =>
      if !target.WellFormed() then Refused(Unprocessable) else AcceptVersion(log, target, actor, single, now)
  }

  // ---------- Invariant ----------

  ghost predicate Distinct(log: Log) {
    forall i, j | 0 <= i < j < |log| :: !Same(log[i].version, log[j].version)
  }

  /** Row r was made from the release candidate rc, which is still there. */
  ghost predicate MadeFrom(r: VersionRow, rc: VersionRow) {
    && !rc.active && SameTriple(rc.version, r.version)
    && rc.version.prerelease == r.promotedFrom
    && rc.markdown == r.markdown && rc.proposer == r.proposer
  }

  ghost predicate Explained(log: Log, r: VersionRow) {
    r.promotedFrom.Some? ==> exists j | 0 <= j < |log| :: MadeFrom(r, log[j])
  }

  ghost predicate RowOk(r: VersionRow, clock: Time) {
    && r.version.WellFormed()
    && (r.active ==> !r.version.IsPrerelease())
    && (!r.active ==> r.acceptedAt.None? && r.promotedFrom.None?)
    && r.createdAt <= clock && (r.acceptedAt.Some? ==> r.createdAt <= r.acceptedAt.value <= clock)
    && (r.promotedFrom.Some? ==> r.acceptedAt == Some(r.createdAt))
    && (r.active && !r.overridden && r.proposer.Some? && r.acceptor.Some? ==> r.proposer != r.acceptor)
  }

  ghost predicate LogOk(log: Log, clock: Time) {
    && log != [] && log[0].active
    && Distinct(log)
    && (forall i | 0 <= i < |log| :: RowOk(log[i], clock))
    && (forall i | 0 <= i < |log| :: Explained(log, log[i]))
  }

  /** How one row may change: its version, text, proposer and origin never; it is accepted at
      most once; once active it is frozen. */
  ghost predicate VersionRowGrows(was: VersionRow, now: VersionRow) {
    && (was.active ==> now == was)
    && now == was.(active := now.active, acceptedAt := now.acceptedAt, acceptor := now.acceptor,
        overridden := now.overridden)
  }

  ghost predicate LogGrows(was: Log, now: Log) {
    && |was| <= |now|
    && forall i | 0 <= i < |was| :: VersionRowGrows(was[i], now[i])
  }

  lemma LogGrowsTransitive(a: Log, b: Log, c: Log)
    requires LogGrows(a, b) && LogGrows(b, c)
    ensures LogGrows(a, c)
  {
  }

  lemma LogOkLater(log: Log, clock: Time, now: Time)
    requires LogOk(log, clock) && clock <= now
    ensures LogOk(log, now)
  {
  }

  lemma RegisteredOk(v: Version, markdown: string, now: Time)
    requires !v.IsPrerelease()
    ensures LogOk([Registered(v, markdown, now)], now)
  {
  }

  lemma ProposeKeeps(log: Log, v: Version, markdown: string, actor: Option<Actor>, clock: Time, now: Time)
    requires LogOk(log, clock) && clock <= now && v.WellFormed()
    requires Propose(log, v, markdown, actor, now).Ok?
    ensures LogOk(Propose(log, v, markdown, actor, now).value, now)
    ensures LogGrows(log, Propose(log, v, markdown, actor, now).value)
  {
    var log' := Propose(log, v, markdown, actor, now).value;
    forall i | 0 <= i < |log| ensures !Same(log[i].version, v) {
      OrderIsStrictTotal(LatestAny(log).value, log[i].version, v);
      OrderIsStrictTotal(log[i].version, LatestAny(log).value, v);
    }
    ExplainedStays(log, log', clock);
  }

  // Promotion records survive any growth that leaves inactive the candidates they point to.
  lemma ExplainedStays(log: Log, log': Log, clock: Time)
    requires LogOk(log, clock) && LogGrows(log, log')
    requires forall i | 0 <= i < |log| && log[i].version.IsPrerelease() :: log'[i].active == log[i].active
    ensures forall i | 0 <= i < |log| :: Explained(log', log'[i])
  {
  }

  lemma AcceptGrows(log: Log, target: Version, actor: Option<Actor>, single: bool, now: Time)
    requires AcceptVersion(log, target, actor, single, now).Ok?
    ensures LogGrows(log, AcceptVersion(log, target, actor, single, now).value)
  {
  }

  lemma AcceptKeeps(log: Log, target: Version, actor: Option<Actor>, single: bool, clock: Time, now: Time)
    requires LogOk(log, clock) && clock <= now
    requires AcceptVersion(log, target, actor, single, now).Ok?
    ensures LogOk(AcceptVersion(log, target, actor, single, now).value, now)
    ensures LogGrows(log, AcceptVersion(log, target, actor, single, now).value)
  {
    var log' := AcceptVersion(log, target, actor, single, now).value;
    var i := FindExact(log, target).value;
    AcceptGrows(log, target, actor, single, now);
    ExplainedStays(log, log', clock);
    assert RowOk(log[i], clock);
    if target.IsPrerelease() {
      var n := |log|;
      assert MadeFrom(log'[n], log'[i]);
      forall k | 0 <= k < n ensures !Same(log'[k].version, log'[n].version) {
        assert log'[k].version == log[k].version != target.Stable();
      }
    }
  }

  lemma MoveLogKeeps(log: Log, m: BodyMove, actor: Option<Actor>, clock: Time, now: Time)
    requires LogOk(log, clock) && clock <= now && MoveLog(log, m, actor, now).Ok?
    ensures LogOk(MoveLog(log, m, actor, now).value, now)
    ensures LogGrows(log, MoveLog(log, m, actor, now).value)
  {
    match m
    case ProposeBody(v, markdown) => ProposeKeeps(log, v, markdown, actor, clock, now);
    case AcceptBody(target, single) => AcceptKeeps(log, target, actor, single, clock, now);
  }

  // ---------- What the protocol promises ----------

  /** Ordering by the three integers finds the greatest active version under the version order,
      release candidates included in the comparison. */
  lemma LatestActiveIsGreatest(log: Log, clock: Time)
    requires LogOk(log, clock)
    ensures LatestActive(log).Some?
    ensures forall i | 0 <= i < |log| && log[i].active :: !Less(LatestActive(log).value.version, log[i].version)
    ensures !LatestActive(log).value.version.IsPrerelease()
  {
  }

  lemma GreatestActiveIsLatest(log: Log, clock: Time, v: Version)
    requires LogOk(log, clock)
    requires exists i | 0 <= i < |log| :: log[i].active && log[i].version == v
    requires forall i | 0 <= i < |log| && log[i].active :: !Less(v, log[i].version)
    ensures ActiveIs(log, v)
  {
  }

  /** Accepting a version makes the latest active version the greater of the old one and the
      accepted version's stable form. */
  // No automatic induction: it would unfold the log.
  lemma {:induction false} AcceptRaisesLatest(log: Log, target: Version, actor: Option<Actor>, single: bool,
      clock: Time, now: Time)
    requires LogOk(log, clock) && clock <= now
    requires AcceptVersion(log, target, actor, single, now).Ok?
    ensures LatestActive(log).Some?
    ensures ActiveIs(AcceptVersion(log, target, actor, single, now).value,
                     Max(LatestActive(log).value.version, target.Stable()))
  {
    var log' := AcceptVersion(log, target, actor, single, now).value;
    AcceptKeeps(log, target, actor, single, clock, now);
    LatestActiveIsGreatest(log, clock);
    var before, accepted := LatestActive(log).value.version, target.Stable();
    var k :| 0 <= k < |log| && log[k] == LatestActive(log).value;
    var i := FindExact(log, target).value;
    assert log'[k] == log[k];
    var n := if target.IsPrerelease() then |log| else i;
    assert log'[n].active && log'[n].version == accepted;
    forall j | 0 <= j < |log'| && log'[j].active ensures !Less(Max(before, accepted), log'[j].version) {
      OrderIsStrictTotal(before, accepted, log'[j].version);
      assert j == n || log[j].active;
    }
    GreatestActiveIsLatest(log', now, Max(before, accepted));
  }

  /** Proposing leaves the latest active version alone. */
  lemma ProposeLeavesLatest(log: Log, v: Version, markdown: string, actor: Option<Actor>, now: Time)
    requires Propose(log, v, markdown, actor, now).Ok?
    ensures LatestActive(Propose(log, v, markdown, actor, now).value) == LatestActive(log)
  {
  }

  /** The accept response names target.Stable() as the active version. That is the latest
      active version exactly when no greater version was already active. */
  // No automatic induction: it would unfold the log.
  lemma {:induction false} AcceptResponseIsLatestIff(log: Log, target: Version, actor: Option<Actor>, single: bool,
      clock: Time, now: Time)
    requires LogOk(log, clock) && clock <= now
    requires AcceptVersion(log, target, actor, single, now).Ok?
    ensures ActiveIs(AcceptVersion(log, target, actor, single, now).value, target.Stable())
            <==> !(LatestActive(log).Some? && Less(target.Stable(), LatestActive(log).value.version))
  {
    AcceptRaisesLatest(log, target, actor, single, clock, now);
    LatestActiveIsGreatest(log, clock);
    OrderIsStrictTotal(LatestActive(log).value.version, target.Stable(), target);
  }

  /** It can be lower: 1.1.0 and 2.0.0 are both proposed, 2.0.0 is accepted first. */
  lemma AcceptResponseCanBeStale()
    ensures exists log: Log, target: Version ::
              LogOk(log, 4) && AcceptVersion(log, target, None, false, 5).Ok?
              && !ActiveIs(AcceptVersion(log, target, None, false, 5).value, target.Stable())
  {
    var a, b := Version(1, 1, 0, None), Version(2, 0, 0, None);
    var log0 := [Registered(Version(1, 0, 0, None), "", 1)];
    RegisteredOk(Version(1, 0, 0, None), "", 1);
    var log1 := Propose(log0, a, "", None, 2).value;
    ProposeKeeps(log0, a, "", None, 1, 2);
    var log2 := Propose(log1, b, "", None, 3).value;
    ProposeKeeps(log1, b, "", None, 2, 3);
    assert log2[1].version == a && log2[2].version == b;
    assert FindExact(log2, b) == Some(2);
    var log3 := AcceptVersion(log2, b, None, false, 4).value;
    AcceptKeeps(log2, b, None, false, 3, 4);
    AcceptRaisesLatest(log2, b, None, false, 3, 4);
    assert FindExact(log3, a).value == 1;
    assert Less(a, LatestActive(log3).value.version);
    AcceptResponseIsLatestIff(log3, a, None, false, 4, 5);
    assert LogOk(log3, 4);
  }

  /** At most one release candidate of a triple is ever promoted. */
  lemma OnePromotionPerTriple(log: Log, clock: Time, i: nat, j: nat)
    requires LogOk(log, clock) && i < |log| && j < |log|
    requires log[i].promotedFrom.Some? && log[j].promotedFrom.Some? && SameTriple(log[i].version, log[j].version)
    ensures i == j
  {
  }

  /** Whatever happens next, a candidate whose triple has an active stable row is never listed
      as open again. */
  lemma SupersededIsNeverOpen(log: Log, log': Log, clock: Time, i: nat, rc: nat)
    requires LogOk(log', clock) && LogGrows(log, log')
    requires i < |log| && log[i].active && rc < |log'|
    requires log'[rc].version.IsPrerelease() && SameTriple(log[i].version, log'[rc].version)
    ensures !IsOpen(log', log'[rc])
  {
  }

  /** The latest active version never decreases. */
  lemma LatestNeverDecreases(log: Log, log': Log, clock: Time, now: Time)
    requires LogOk(log, clock) && LogOk(log', now) && LogGrows(log, log')
    ensures LatestActive(log).Some? && LatestActive(log').Some?
    ensures !Less(LatestActive(log').value.version, LatestActive(log).value.version)
  {
  }
}
