/** Reading a part's history page by page. The endpoint looks the part up by name for every page, so
    what a client reads depends on who carries the name when each page is read. */
module NamedHistory {
  import opened Common
  import opened History
  import opened HistoryGrowth
  import opened Invariants
  import opened Lifting
  import opened Records
  import opened Rules
  import opened State
  import opened Timeline
  import opened Versioning

  // What reading one row's history answers: a deleted part is shown only on request.
  function PartPage(p: Part, after: Option<Cursor>, limit: nat, includeDeleted: bool): Result<Page<Event>>
    requires limit >= 1
  {
    if !p.Live() && !includeDeleted then Refused(NotFound) else Ok(PageOf(PartEvents(p, includeDeleted), after, limit))
  }

  /** What the endpoint may answer: the page of some row with the name. The query takes the first such
      row in no stated order. */
  ghost predicate Answers(parts: seq<Part>, name: string, after: Option<Cursor>, limit: nat, includeDeleted: bool,
                          r: Result<Page<Event>>)
    requires limit >= 1
  {
    if forall i | 0 <= i < |parts| :: parts[i].name != name then r == Refused(NotFound)
    else exists i | 0 <= i < |parts| :: parts[i].name == name && r == PartPage(parts[i], after, limit, includeDeleted)
  }

  // Row i carries the name and no other row does.
  ghost predicate OnlyRow(s: Db, name: string, i: nat) {
    && i < |s.parts| && s.parts[i].name == name
    && forall k | 0 <= k < |s.parts| && k != i :: s.parts[k].name != name
  }

  predicate HasNext(r: Result<Page<Event>>) { r.Ok? && r.value.next.Some? }

  /** The answers a client gets that follows next by name through the full history while others
      write, as far as it reads on: gaps[n] are the requests served between answer n and n + 1. */
  ghost predicate NamedWalk(s: Db, name: string, after: Option<Cursor>, limit: nat, gaps: seq<seq<Request>>,
                            answers: seq<Result<Page<Event>>>)
    requires limit >= 1
    decreases |answers|
  {
    answers == [] ||
    (&& Answers(s.parts, name, after, limit, true, answers[0])
     && (|answers| == 1 ||
         (&& HasNext(answers[0]) && gaps != []
          && NamedWalk(Run(s, gaps[0]), name, answers[0].value.next, limit, gaps[1..], answers[1..]))))
  }

  function FirstPage(h: seq<Row<Event>>, limit: nat): Page<Event>
    requires limit >= 1
  {
    if limit < |h| then Page(h[..limit], Some(h[limit - 1].Key())) else Page(h, None)
  }

  /** The answers are the pages of h, one after the other. */
  ghost predicate Consecutive(answers: seq<Result<Page<Event>>>, h: seq<Row<Event>>, limit: nat)
    requires limit >= 1
    decreases |answers|
  {
    answers == [] ||
    (&& answers[0] == Ok(FirstPage(h, limit))
     && (|answers| == 1 || (limit < |h| && Consecutive(answers[1..], h[limit..], limit))))
  }

  function Items(answers: seq<Result<Page<Event>>>): seq<Row<Event>> {
    if answers == [] then []
    else (if answers[0].Ok? then answers[0].value.items else []) + Items(answers[1..])
  }

  /** A client that got the pages of h and was told there are no more has read exactly h. */
  lemma {:induction false} ConsecutiveReadsAll(answers: seq<Result<Page<Event>>>, h: seq<Row<Event>>, limit: nat)
    requires limit >= 1 && Consecutive(answers, h, limit) && answers != [] && !HasNext(answers[|answers| - 1])
    ensures Items(answers) == h
  {
    if |answers| == 1 {
      assert Items(answers[1..]) == [];
    } else {
      assert answers[1..][|answers| - 2] == answers[|answers| - 1];
      ConsecutiveReadsAll(answers[1..], h[limit..], limit);
    }
  }

  /** At every page still to be read of the history h, row i carries the name and no other row does. */
  ghost predicate NameHeld(s: Db, name: string, i: nat, limit: nat, gaps: seq<seq<Request>>, h: seq<Row<Event>>)
    requires limit >= 1
    decreases |gaps|
  {
    limit < |h| && gaps != [] ==>
      && OnlyRow(Run(s, gaps[0]), name, i)
      && NameHeld(Run(s, gaps[0]), name, i, limit, gaps[1..], h[limit..])
  }

  lemma RowPage(s: Db, i: nat, k: nat, limit: nat)
    requires HistoriesOk(s) && i < |s.parts| && limit >= 1 && k <= |PartHistory(s.parts[i])|
    ensures PartPage(s.parts[i], CursorAt(PartHistory(s.parts[i]), k), limit, true)
            == Ok(FirstPage(PartHistory(s.parts[i])[k..], limit))
  {
    hide PageOf; hide NewestFirst; hide PartEvents; hide ContractEvents; hide DistinctKeys;
    var h := PartHistory(s.parts[i]);
    SubjectKeys(s, OfPart(i));
    PageAt(PartEvents(s.parts[i], true), k, limit);
    if k + limit < |h| {
      assert h[k..][..limit] == h[k..k + limit] && h[k..][limit - 1] == h[k + limit - 1];
    }
  }

  // The only row with the name is the one that answers.
  lemma OnlyRowAnswers(s: Db, name: string, i: nat, after: Option<Cursor>, limit: nat, r: Result<Page<Event>>)
    requires OnlyRow(s, name, i) && limit >= 1
    ensures Answers(s.parts, name, after, limit, true, r) <==> r == PartPage(s.parts[i], after, limit, true)
  {
    hide PartPage;
  }

  // Row i after a gap: the place of the next page, counted in the later history.
  lemma NextPlace(s: Db, gap: seq<Request>, i: nat, k: nat) returns (k': nat)
    requires Inv(s) && HistoriesOk(s) && i < |s.parts| && 1 <= k <= |PartHistory(s.parts[i])|
    ensures Inv(Run(s, gap)) && HistoriesOk(Run(s, gap)) && i < |Run(s, gap).parts|
    ensures k' <= |PartHistory(Run(s, gap).parts[i])|
    ensures CursorAt(PartHistory(Run(s, gap).parts[i]), k') == CursorAt(PartHistory(s.parts[i]), k)
    ensures PartHistory(Run(s, gap).parts[i])[k'..] == PartHistory(s.parts[i])[k..]
  {
    hide Inv; hide Run; hide HistoriesOk; hide PartEvents; hide ContractEvents; hide NewestFirst;
    SubjectGrows(s, gap, OfPart(i));
    var was, now := FullHistory(s, OfPart(i)), FullHistory(Run(s, gap), OfPart(i));
    var d := |now| - |was|;
    CursorMoves(was, now, k);
    k' := k + d;
    assert now[d..][k..] == now[k'..];
  }

  // While the name is held, the client reads row i to the end.
  lemma {:induction false} HeldNameReads(s: Db, name: string, i: nat, k: nat, limit: nat, gaps: seq<seq<Request>>,
                                         answers: seq<Result<Page<Event>>>)
    requires Inv(s) && HistoriesOk(s) && i < |s.parts| && limit >= 1 && k <= |PartHistory(s.parts[i])|
    requires NameHeld(s, name, i, limit, gaps, PartHistory(s.parts[i])[k..])
    requires NamedWalk(s, name, CursorAt(PartHistory(s.parts[i]), k), limit, gaps, answers)
    requires answers != [] ==> answers[0] == PartPage(s.parts[i], CursorAt(PartHistory(s.parts[i]), k), limit, true)
    ensures Consecutive(answers, PartHistory(s.parts[i])[k..], limit)
    decreases |answers|
  {
    hide Inv; hide Run; hide HistoriesOk; hide PartPage; hide PartHistory; hide OnlyRow; hide Answers;
    if answers == [] {
    } else {
      RowPage(s, i, k, limit);
      var h := PartHistory(s.parts[i])[k..];
      if |answers| > 1 {
        var s' := Run(s, gaps[0]);
        var k' := NextPlace(s, gaps[0], i, k + limit);
        assert PartHistory(s.parts[i])[k + limit..] == h[limit..];
        assert h[limit - 1] == PartHistory(s.parts[i])[k + limit - 1];
        OnlyRowAnswers(s', name, i, answers[0].value.next, limit, answers[1]);
        HeldNameReads(s', name, i, k', limit, gaps[1..], answers[1..]);
      }
    }
  }

  // ---------- Events of different parts ----------

  ghost predicate Apart(a: seq<Row<Event>>, b: seq<Row<Event>>) {
    forall x, y | x in a && y in b :: x.at != y.at
  }

  // No two parts have events at the same time.
  ghost predicate PartsApart(s: Db) {
    forall i, k | 0 <= i < |s.parts| && 0 <= k < |s.parts| && i != k ::
      Apart(PartEvents(s.parts[i], true), PartEvents(s.parts[k], true))
  }

  // One effect changes at most one part.
  lemma OnePartChanges(s: Db, e: Effect, actor: Option<Actor>, i: nat, k: nat)
    requires Enabled(s, e, actor) && i < |s.parts| && k < |s.parts| && i != k
    ensures i < |Apply(s, e, actor).parts| && k < |Apply(s, e, actor).parts|
    ensures Apply(s, e, actor).parts[i] == s.parts[i] || Apply(s, e, actor).parts[k] == s.parts[k]
  {
    hide Apply; hide Enabled; hide MovePart; hide PartMoveEnabled; hide DropPart; hide DropEnabled; hide AliasesOk;
    PartAfter(s, e, actor, i);
    PartAfter(s, e, actor, k);
  }

  lemma GainStaysApart(was: seq<Row<Event>>, now: seq<Row<Event>>, other: seq<Row<Event>>, clock: Time)
    requires Apart(was, other) && Gains(was, now, clock + 1) && EventsOk(other, clock)
    ensures Apart(now, other) && Apart(other, now)
  {
    forall x, y | x in now && y in other ensures x.at != y.at {
      if now != was {
        var n: nat :| GainsAt(was, now, n, clock + 1);
        assert x in was[..n] || x == now[n] || x in was[n..];
      }
    }
  }

  lemma PairStaysApart(s: Db, e: Effect, actor: Option<Actor>, i: nat, k: nat)
    requires Inv(s) && HistoriesOk(s) && PartsApart(s) && Enabled(s, e, actor)
    requires i < |s.parts| && k < |s.parts| && i != k
    ensures i < |Apply(s, e, actor).parts| && k < |Apply(s, e, actor).parts|
    ensures Apart(PartEvents(Apply(s, e, actor).parts[i], true), PartEvents(Apply(s, e, actor).parts[k], true))
  {
    hide Apply; hide Enabled; hide PartEffect; hide PartOk; hide ContractOk; hide Constraints;
    hide PartEvents; hide ContractEvents; hide EventsOk; hide Apart;
    OnePartChanges(s, e, actor, i, k);
    PartAfter(s, e, actor, i);
    PartAfter(s, e, actor, k);
    var parts := Apply(s, e, actor).parts;
    if parts[k] == s.parts[k] {
      PartStep(s, e, actor, i, s.parts[i], parts[i]);
      GainStaysApart(PartEvents(s.parts[i], true), PartEvents(parts[i], true), PartEvents(s.parts[k], true), s.clock);
    } else {
      PartStep(s, e, actor, k, s.parts[k], parts[k]);
      GainStaysApart(PartEvents(s.parts[k], true), PartEvents(parts[k], true), PartEvents(s.parts[i], true), s.clock);
    }
  }

  lemma NewPartIsApart(s: Db, e: Effect, actor: Option<Actor>, i: nat)
    requires HistoriesOk(s) && Enabled(s, e, actor) && e.AddPart? && i < |s.parts|
    ensures |Apply(s, e, actor).parts| == |s.parts| + 1 && Apply(s, e, actor).parts[i] == s.parts[i]
    ensures Apart(PartEvents(Apply(s, e, actor).parts[|s.parts|], true), PartEvents(s.parts[i], true))
    ensures Apart(PartEvents(s.parts[i], true), PartEvents(Apply(s, e, actor).parts[|s.parts|], true))
  {
    assert EventsOk(PartEvents(s.parts[i], true), s.clock);
    hide ContractEvents;
    NewPartEvents(e.name, e.subtype, e.aliases, e.markdown, e.version, s.clock + 1);
  }

  lemma NewPartEvents(name: string, subtype: PartSubtype, aliases: seq<string>, markdown: string, version: Version,
      now: Time)
    ensures forall x | x in PartEvents(NewPart(name, subtype, aliases, markdown, version, now), true) :: x.at == now
  {
  }

  lemma StepStaysApart(s: Db, q: Request)
    requires Inv(s) && HistoriesOk(s) && PartsApart(s)
    ensures PartsApart(After(s, q))
  {
    hide After; hide Decide; hide Apply; hide Enabled; hide Inv; hide HistoriesOk; hide Apart; hide PartEvents;
    AfterIs(s, q);
    if After(s, q) != s {
      var e := Decide(s, q).value;
      var parts := After(s, q).parts;
      TableSizes(s, e, q.actor);
      forall i, k | 0 <= i < |parts| && 0 <= k < |parts| && i != k
        ensures Apart(PartEvents(parts[i], true), PartEvents(parts[k], true))
      {
        if i < |s.parts| && k < |s.parts| {
          PairStaysApart(s, e, q.actor, i, k);
        } else {
          NewPartIsApart(s, e, q.actor, if i < |s.parts| then i else k);
        }
      }
    }
  }

  lemma {:induction false} RunStaysApart(s: Db, qs: seq<Request>)
    requires Inv(s) && HistoriesOk(s) && PartsApart(s)
    ensures PartsApart(Run(s, qs))
  {
    hide Run; hide After; hide Inv; hide HistoriesOk; hide PartsApart;
    if qs == [] {
      RunNone(s);
    } else {
      var init := qs[..|qs| - 1];
      RunStaysApart(s, init);
      HistoryGrowsAtItsNewEnd(s, init);
      RunUnfolds(s, qs);
      StepStaysApart(Run(s, init), qs[|qs| - 1]);
    }
  }

  // A page of another row is never the page the client should get, while there is more to read.
  lemma OtherRowIsWrong(s: Db, i: nat, other: nat, after: Option<Cursor>, limit: nat, h: seq<Row<Event>>)
    requires PartsApart(s) && i < |s.parts| && other < |s.parts| && i != other && limit >= 1 && h != []
    requires forall x | x in h :: x in PartHistory(s.parts[i])
    ensures PartPage(s.parts[other], after, limit, true) != Ok(FirstPage(h, limit))
  {
    hide PartEvents; hide NewestFirst;
    var items := PageOf(PartEvents(s.parts[other], true), after, limit).items;
    if items != [] {
      KeptIsThere(NewestFirst(PartEvents(s.parts[other], true)), after, items[0]);
      NewestFirstMembers(PartEvents(s.parts[other], true), items[0]);
      assert h[0] in h;
      NewestFirstMembers(PartEvents(s.parts[i], true), h[0]);
    }
  }

  lemma {:induction false} KeptIsThere(rows: seq<Row<Event>>, after: Option<Cursor>, r: Row<Event>)
    requires r in KeepBefore(rows, after)
    ensures r in rows
  {
    if rows == [] {
    } else if after.Some? && r != rows[0] {
      KeptIsThere(rows[1..], after, r);
    }
  }

  // ---------- When a client reads the history it started ----------

  /** When the name is not held, the client may get something else than the next page. */
  lemma {:induction false} LostNameMisreads(s: Db, name: string, i: nat, k: nat, limit: nat, gaps: seq<seq<Request>>)
    returns (answers: seq<Result<Page<Event>>>)
    requires Inv(s) && HistoriesOk(s) && PartsApart(s) && i < |s.parts| && s.parts[i].name == name
    requires limit >= 1 && k <= |PartHistory(s.parts[i])|
    requires !NameHeld(s, name, i, limit, gaps, PartHistory(s.parts[i])[k..])
    ensures NamedWalk(s, name, CursorAt(PartHistory(s.parts[i]), k), limit, gaps, answers)
    ensures answers != [] && answers[0] == PartPage(s.parts[i], CursorAt(PartHistory(s.parts[i]), k), limit, true)
    ensures !Consecutive(answers, PartHistory(s.parts[i])[k..], limit)
    decreases |gaps|
  {
    hide Inv; hide Run; hide HistoriesOk; hide PartsApart; hide PartPage; hide PartHistory;
    var h := PartHistory(s.parts[i])[k..];
    var s' := Run(s, gaps[0]);
    var first := PartPage(s.parts[i], CursorAt(PartHistory(s.parts[i]), k), limit, true);
    RowPage(s, i, k, limit);
    RunStaysApart(s, gaps[0]);
    var k' := NextPlace(s, gaps[0], i, k + limit);
    var rest := h[limit..];
    assert PartHistory(s.parts[i])[k + limit..] == rest && h[limit - 1] == PartHistory(s.parts[i])[k + limit - 1];
    var next := first.value.next;
    if OnlyRow(s', name, i) {
      var more := LostNameMisreads(s', name, i, k', limit, gaps[1..]);
      answers := [first] + more;
      assert answers[1..] == more;
    } else {
      var second := WrongAnswer(s', name, i, next, limit, rest);
      answers := [first, second];
      assert answers[1..] == [second];
      assert NamedWalk(s', name, next, limit, gaps[1..], [second]);
      assert !Consecutive([second], rest, limit);
    }
    assert Answers(s.parts, name, CursorAt(PartHistory(s.parts[i]), k), limit, true, first);
  }

  lemma WrongAnswer(s: Db, name: string, i: nat, after: Option<Cursor>, limit: nat, h: seq<Row<Event>>)
    returns (r: Result<Page<Event>>)
    requires PartsApart(s) && i < |s.parts| && limit >= 1 && h != [] && !OnlyRow(s, name, i)
    requires forall x | x in h :: x in PartHistory(s.parts[i])
    ensures Answers(s.parts, name, after, limit, true, r) && r != Ok(FirstPage(h, limit))
  {
    hide PartsApart; hide PartPage; hide PartHistory;
    if forall k | 0 <= k < |s.parts| :: s.parts[k].name != name {
      r := Refused(NotFound);
    } else {
      var other :| 0 <= other < |s.parts| && other != i && s.parts[other].name == name;
      r := PartPage(s.parts[other], after, limit, true);
      OtherRowIsWrong(s, i, other, after, limit, h);
    }
  }

  /** A client starts to read the history of the part with a name, and its first page comes from row
      i. Whatever is served between the pages, it is sure to get the pages of that history, as it
      was at the first page, if and only if at every later page row i still carries the name and no
      other row, live or deleted, does. */
  lemma NamedPagingIff(s: Db, qs: seq<Request>, name: string, i: nat, limit: nat, gaps: seq<seq<Request>>)
    requires Installed(s) && limit >= 1 && i < |Run(s, qs).parts| && Run(s, qs).parts[i].name == name
    ensures SureToRead(Run(s, qs), name, i, limit, gaps)
            <==> NameHeld(Run(s, qs), name, i, limit, gaps, PartHistory(Run(s, qs).parts[i]))
  {
    hide Run; hide Inv; hide HistoriesOk; hide PartsApart; hide NamedWalk; hide Consecutive; hide PartPage;
    hide NameHeld;
    hide PartHistory;
    var s' := Run(s, qs);
    ReachableApart(s, qs);
    var h := PartHistory(s'.parts[i]);
    assert h[0..] == h && CursorAt(h, 0) == None;
    if NameHeld(s', name, i, limit, gaps, h) {
      forall answers | ReadFrom(s', name, i, limit, gaps, answers) ensures Consecutive(answers, h, limit) {
        HeldNameReads(s', name, i, 0, limit, gaps, answers);
      }
    } else {
      var answers := LostNameMisreads(s', name, i, 0, limit, gaps);
      assert ReadFrom(s', name, i, limit, gaps, answers);
    }
  }

  // What a client may get whose first page comes from row i.
  ghost predicate ReadFrom(s: Db, name: string, i: nat, limit: nat, gaps: seq<seq<Request>>,
                           answers: seq<Result<Page<Event>>>)
    requires limit >= 1 && i < |s.parts|
  {
    && NamedWalk(s, name, None, limit, gaps, answers)
    && (answers != [] ==> answers[0] == PartPage(s.parts[i], None, limit, true))
  }

  ghost predicate SureToRead(s: Db, name: string, i: nat, limit: nat, gaps: seq<seq<Request>>)
    requires limit >= 1 && i < |s.parts|
  {
    forall answers | ReadFrom(s, name, i, limit, gaps, answers) :: Consecutive(answers, PartHistory(s.parts[i]), limit)
  }

  lemma ReachableApart(s: Db, qs: seq<Request>)
    requires Installed(s)
    ensures Inv(Run(s, qs)) && HistoriesOk(Run(s, qs)) && PartsApart(Run(s, qs))
  {
    hide Run; hide Inv;
    InstalledInv(s);
    HistoryGrowsAtItsNewEnd(s, qs);
    RunStaysApart(s, qs);
  }

  // ---------- What a gap may hold ----------

  /** The effect renames row i, or gives its name to another row. */
  ghost predicate MovesName(s: Db, e: Effect, name: string, i: nat) {
    || (e.AddPart? && e.name == name)
    || (e.SetPart? && e.partMove.AcceptName? && e.part < |s.parts| && e.partMove.row < |s.parts[e.part].nameProposals|
        && (e.part == i || s.parts[e.part].nameProposals[e.partMove.row].change.target == name))
  }

  lemma OnlyRowStaysIff(s: Db, e: Effect, actor: Option<Actor>, name: string, i: nat)
    requires Enabled(s, e, actor) && OnlyRow(s, name, i)
    ensures OnlyRow(Apply(s, e, actor), name, i) <==> !MovesName(s, e, name, i)
  {
    hide Apply; hide Enabled; hide NameTaken;
    NewNames(s, e, actor);
    if e.SetPart? && e.partMove.AcceptName? {
      RenamesChange(s, e, actor);
    }
    var parts := Apply(s, e, actor).parts;
    forall k | 0 <= k < |s.parts|
      ensures k < |parts| && (parts[k].name == s.parts[k].name || Renames(s, e, k, parts[k].name))
    {
      NameSteps(s, e, actor, k);
    }
  }

  lemma RenamesChange(s: Db, e: Effect, actor: Option<Actor>)
    requires Enabled(s, e, actor) && e.SetPart? && e.partMove.AcceptName?
    ensures e.part < |s.parts| && e.partMove.row < |s.parts[e.part].nameProposals|
    ensures s.parts[e.part].nameProposals[e.partMove.row].change.target != s.parts[e.part].name
  {
  }

  // This request commits such an effect.
  ghost predicate StepMovesName(s: Db, q: Request, name: string, i: nat) {
    After(s, q) != s && Decide(s, q).Ok? && MovesName(s, Decide(s, q).value, name, i)
  }

  lemma StepKeepsOnlyRow(s: Db, q: Request, name: string, i: nat)
    requires OnlyRow(s, name, i)
    ensures OnlyRow(After(s, q), name, i) <==> !StepMovesName(s, q, name, i)
  {
    hide After; hide Decide; hide Apply; hide Enabled; hide OnlyRow; hide MovesName;
    AfterIs(s, q);
    if After(s, q) != s {
      OnlyRowStaysIff(s, Decide(s, q).value, q.actor, name, i);
    }
  }

  /** Over a run: row i is the only one with the name at every moment if and only if no committed
      request renames it or gives its name to another row. */
  lemma OnlyRowOverRuns(s: Db, qs: seq<Request>, name: string, i: nat)
    requires Inv(s) && OnlyRow(s, name, i)
    ensures Always(s, qs, t => OnlyRow(t, name, i)) <==> Never(s, qs, (t, q) => StepMovesName(t, q, name, i))
  {
    hide Inv; hide After; hide OnlyRow; hide StepMovesName; hide LostExactlyBy; hide Always; hide Never;
    var good := t => OnlyRow(t, name, i);
    var bad := (t, q) => StepMovesName(t, q, name, i);
    assert LostExactlyBy(good, bad) by { OnlyRowLost(name, i, good, bad); }
    AlwaysIffNever(s, qs, good, bad);
  }

  lemma OnlyRowLost(name: string, i: nat, good: Db -> bool, bad: (Db, Request) -> bool)
    requires forall t :: good(t) <==> OnlyRow(t, name, i)
    requires forall t, q :: bad(t, q) <==> StepMovesName(t, q, name, i)
    ensures LostExactlyBy(good, bad)
  {
    hide Inv; hide After; hide OnlyRow; hide StepMovesName;
    forall s: Db, q: Request | Inv(s) && good(s) ensures good(After(s, q)) <==> !bad(s, q) {
      StepKeepsOnlyRow(s, q, name, i);
    }
  }

  // No request of any gap renames row i or gives its name to another row.
  ghost predicate NameLeftAlone(s: Db, name: string, i: nat, gaps: seq<seq<Request>>)
    decreases |gaps|
  {
    gaps == [] ||
    (&& Never(s, gaps[0], (t, q) => StepMovesName(t, q, name, i))
     && NameLeftAlone(Run(s, gaps[0]), name, i, gaps[1..]))
  }

  /** A client that starts with the only row of the name reads all of its history whenever no request
      served between its pages renames the row or gives its name to another. */
  lemma {:induction false} NameLeftAloneHolds(s: Db, name: string, i: nat, limit: nat, gaps: seq<seq<Request>>,
                                              h: seq<Row<Event>>)
    requires Inv(s) && OnlyRow(s, name, i) && limit >= 1 && NameLeftAlone(s, name, i, gaps)
    ensures NameHeld(s, name, i, limit, gaps, h)
    decreases |gaps|
  {
    hide Inv; hide Run; hide OnlyRow; hide StepMovesName;
    if gaps == [] || limit >= |h| {
    } else {
      OnlyRowOverRuns(s, gaps[0], name, i);
      assert gaps[0][..|gaps[0]|] == gaps[0];
      RunKeepsInv(s, gaps[0]);
      NameLeftAloneHolds(Run(s, gaps[0]), name, i, limit, gaps[1..], h[limit..]);
    }
  }
}
