/** What happens to a part that is registered under the name of a deleted one. */
module NameReuse {
  import opened Common
  import opened Evolution
  import opened Handshake
  import opened Invariants
  import opened Lifting
  import opened Records
  import opened State
  import opened VersionLog

  // Some other row, live or deleted, carries the name of part i.
  predicate Shadowed(parts: seq<Part>, i: nat)
    requires i < |parts|
  {
    exists k | 0 <= k < |parts| && k != i :: parts[k].name == parts[i].name
  }

  // The by-name lookup every write to a part starts with finds a live part exactly when no other
  // row, live or deleted, carries its name; otherwise it fails with several rows found.
  lemma FoundByNameIff(s: Db, i: nat)
    requires i < |s.parts| && s.parts[i].Live()
    ensures FindPart(s, s.parts[i].name) == if Shadowed(s.parts, i) then Refused(MultipleRows) else Ok(i)
  {
  }

  // ---------- When every live part can be found ----------

  ghost predicate AllFound(s: Db) {
    forall i | 0 <= i < |s.parts| && s.parts[i].Live() :: FindPart(s, s.parts[i].name) == Ok(i)
  }

  // No two rows share a name of which one is live.
  ghost predicate NoneShadowed(parts: seq<Part>) {
    forall i, k | 0 <= i < |parts| && 0 <= k < |parts| && i != k && parts[i].Live() :: parts[k].name != parts[i].name
  }

  lemma AllFoundIff(s: Db)
    ensures AllFound(s) <==> NoneShadowed(s.parts)
  {
    hide FindPart;
    forall i | 0 <= i < |s.parts| && s.parts[i].Live()
      ensures FindPart(s, s.parts[i].name) == Ok(i) <==> !Shadowed(s.parts, i)
    {
      FoundByNameIff(s, i);
    }
  }

  // Some row other than the exception, live or deleted, carries the name.
  ghost predicate NameUsed(parts: seq<Part>, name: string, except: Option<nat>) {
    exists k | 0 <= k < |parts| && except != Some(k) :: parts[k].name == name
  }

  /** The effect gives a part a name that another row carries: a registration, or an accepted name
      shift. The handlers test live rows only. */
  ghost predicate TakesUsedName(s: Db, e: Effect) {
    || (e.AddPart? && NameUsed(s.parts, e.name, None))
    || (e.SetPart? && e.partMove.AcceptName? && e.part < |s.parts| && e.partMove.row < |s.parts[e.part].nameProposals|
        && NameUsed(s.parts, s.parts[e.part].nameProposals[e.partMove.row].change.target, Some(e.part)))
  }

  lemma UsedNameShadows(s: Db, e: Effect, actor: Option<Actor>)
    requires Enabled(s, e, actor) && TakesUsedName(s, e)
    ensures !NoneShadowed(Apply(s, e, actor).parts)
  {
    hide Apply; hide Enabled; hide NameTaken;
    var parts := Apply(s, e, actor).parts;
    NewNames(s, e, actor);
    var i := if e.AddPart? then |s.parts| else e.part;
    var k :| 0 <= k < |s.parts| && k != i && s.parts[k].name == parts[i].name;
    NameSteps(s, e, actor, k);
    assert parts[k].name == parts[i].name;
  }

  lemma FreshNameShadowsNone(s: Db, e: Effect, actor: Option<Actor>)
    requires Enabled(s, e, actor) && NoneShadowed(s.parts) && !TakesUsedName(s, e)
    ensures NoneShadowed(Apply(s, e, actor).parts)
  {
    hide Apply; hide Enabled; hide NameTaken;
    var parts := Apply(s, e, actor).parts;
    NewNames(s, e, actor);
    forall i | 0 <= i < |s.parts|
      ensures i < |parts| && (parts[i].Live() ==> s.parts[i].Live())
      ensures parts[i].name == s.parts[i].name || (s.parts[i].Live() && Renames(s, e, i, parts[i].name))
    {
      NameSteps(s, e, actor, i);
    }
  }

  lemma StepFound(s: Db, q: Request)
    requires Inv(s) && AllFound(s)
    ensures AllFound(After(s, q)) <==> !StepTakesUsedName(s, q)
  {
    hide After; hide Decide; hide Apply; hide Enabled; hide Inv; hide AllFound; hide NoneShadowed; hide TakesUsedName;
    AfterIs(s, q);
    AllFoundIff(s);
    AllFoundIff(After(s, q));
    if After(s, q) != s {
      if TakesUsedName(s, Decide(s, q).value) {
        UsedNameShadows(s, Decide(s, q).value, q.actor);
      } else {
        FreshNameShadowsNone(s, Decide(s, q).value, q.actor);
      }
    }
  }

  // This request commits a registration or rename onto a used name.
  ghost predicate StepTakesUsedName(s: Db, q: Request) {
    After(s, q) != s && Decide(s, q).Ok? && TakesUsedName(s, Decide(s, q).value)
  }

  lemma FoundLost()
    ensures LostExactlyBy(AllFound, StepTakesUsedName)
  {
    hide Inv; hide After; hide StepTakesUsedName; hide AllFound;
    forall s: Db, q: Request | Inv(s) && AllFound(s) ensures AllFound(After(s, q)) <==> !StepTakesUsedName(s, q) {
      StepFound(s, q);
    }
  }

  /** Over a whole run: every live part can be found by its name at every moment if and only if no
      accepted registration or rename takes a name that any other row, live or deleted, carries. */
  lemma FoundOverRuns(s: Db, qs: seq<Request>)
    requires Installed(s)
    ensures Always(s, qs, AllFound) <==> Never(s, qs, StepTakesUsedName)
  {
    hide Inv; hide After; hide StepTakesUsedName; hide LostExactlyBy; hide Always; hide Never;
    InstalledInv(s);
    assert LostExactlyBy(AllFound, StepTakesUsedName) by { FoundLost(); }
    AlwaysIffNever(s, qs, AllFound, StepTakesUsedName);
  }

  // ---------- A part that cannot be found is stuck ----------

  // An effect on an existing part went through the lookup.
  ghost predicate FoundByName(s: Db, i: nat) {
    exists name :: FindPart(s, name) == Ok(i)
  }

  lemma PartWritesAreByName(s: Db, q: Request)
    requires Decide(s, q).Ok?
    ensures Decide(s, q).value.SetPart? ==> FoundByName(s, Decide(s, q).value.part)
    ensures Decide(s, q).value.DropPartEffect? ==> FoundByName(s, Decide(s, q).value.part)
  {
    hide FindPart; hide Enabled; hide MoveLog; hide CheckAcceptable; hide Lookup; hide RegistrationRule;
    hide ShapeRule; hide EndpointRule; hide EdgeTaken;
    if Decide(s, q).value.SetPart? || Decide(s, q).value.DropPartEffect? {
      assert FindPart(s, q.op.name) == Ok(Decide(s, q).value.part);
    }
  }

  lemma ShadowedNotFound(s: Db, i: nat)
    requires i < |s.parts| && Shadowed(s.parts, i)
    ensures !FoundByName(s, i)
  {
  }

  lemma StuckStep(s: Db, q: Request, i: nat)
    requires i < |s.parts| && Shadowed(s.parts, i)
    ensures i < |After(s, q).parts| && After(s, q).parts[i] == s.parts[i]
  {
    hide Decide; hide Apply; hide Enabled; hide Constraints; hide After; hide Shadowed; hide FoundByName;
    AfterIs(s, q);
    if After(s, q) != s {
      PartWritesAreByName(s, q);
      ShadowedNotFound(s, i);
      PartAfter(s, Decide(s, q).value, q.actor, i);
    }
  }

  /** So a part registered under the name of a deleted one can never be changed, renamed or deleted
      again: in every continuation its row stays exactly as it is. */
  lemma ReusedNameIsStuck(s: Db, qs: seq<Request>, k: nat, i: nat)
    requires Inv(s) && k < |s.parts| && i < |s.parts| && k != i
    requires s.parts[k].deleted.Some? && s.parts[k].name == s.parts[i].name
    ensures i < |Run(s, qs).parts| && Run(s, qs).parts[i] == s.parts[i]
  {
    if qs == [] {
    } else {
      hide Run; hide Inv; hide After;
      var init, q := qs[..|qs| - 1], qs[|qs| - 1];
      ReusedNameIsStuck(s, init, k, i);
      DeletionIsAbsorbing(s, init);
      RunUnfolds(s, qs);
      StuckStep(Run(s, init), q, i);
    }
  }
}
