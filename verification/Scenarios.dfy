/** Two concrete runs: one gives a live contract a deleted endpoint, one reuses a deleted name. */
module Scenarios {
  import opened Common
  import opened Graph
  import opened Handshake
  import opened History
  import opened HistoryGrowth
  import opened Invariants
  import opened NameReuse
  import opened NamedHistory
  import opened Records
  import opened Rules
  import opened State
  import opened Timeline
  import opened Versioning

  const ONE: Version := Version(1, 0, 0, None)
  const PLAIN: Shape := Shape(Interaction, None)

  ghost const START: Db := Db([], [], [], map[], 0)

  function Anonymous(op: Op): Request { Request(None, op) }

  function Fresh(name: string, now: Time): Part { NewPart(name, Software, [], "", ONE, now) }

  // A part with one open deletion proposal, and after a human accepted it.
  function Doomed(name: string, now: Time, asked: Time): Part {
    Fresh(name, now).(deletionProposals := [Open((), "", None, asked)])
  }

  function Gone(name: string, now: Time, asked: Time, answered: Time): Part {
    DropPart(Doomed(name, now, asked), 0, Some("human"), false, answered)
  }

  lemma RunAppend(s: Db, qs: seq<Request>, q: Request)
    ensures Run(s, qs + [q]) == After(Run(s, qs), q)
  {
    hide After;
    assert (qs + [q])[..|qs|] == qs;
  }

  // ---------- Single steps ----------

  lemma Registers(s: Db, name: string)
    requires Inv(s) && IsSlug(name) && !NameTaken(s.parts, name, None)
    ensures After(s, Anonymous(RegisterPart(name, Software, [], "", ONE)))
            == s.(parts := s.parts + [Fresh(name, s.clock + 1)], clock := s.clock + 1)
    ensures Inv(After(s, Anonymous(RegisterPart(name, Software, [], "", ONE))))
  {
    hide Inv; hide Constraints; hide Step; hide IsSlug; hide NameTaken;
    var q := Anonymous(RegisterPart(name, Software, [], "", ONE));
    Committed(s, q);
    assert After(s, q) == Apply(s, Decide(s, q).value, None);
  }

  lemma ProposesDeletion(s: Db, i: nat, name: string)
    requires Inv(s) && FindPart(s, name) == Ok(i)
    ensures var q := Anonymous(Op.ProposePartDeletion(name, ""));
            && Inv(After(s, q))
            && After(s, q) == s.(parts := s.parts[i := s.parts[i].(deletionProposals :=
                                   s.parts[i].deletionProposals + [Open((), "", None, s.clock + 1)])],
                                       clock := s.clock + 1)
  {
    hide Inv; hide Constraints; hide FindPart; hide Step;
    var q := Anonymous(Op.ProposePartDeletion(name, ""));
    Committed(s, q);
    assert After(s, q) == Apply(s, Decide(s, q).value, None);
  }

  lemma AcceptsDeletion(s: Db, i: nat, name: string)
    requires Inv(s) && FindPart(s, name) == Ok(i) && s.agents == [] && !HasLiveContract(s.contracts, i)
    requires |s.parts[i].deletionProposals| == 1 && s.parts[i].deletionProposals[0] == Open((), "", None, s.clock)
    ensures var q := Request(Some("human"), AcceptPartDeletion(name, 0, false, false));
            && Inv(After(s, q))
            && After(s, q) == s.(parts := s.parts[i := DropPart(s.parts[i], 0, Some("human"), false, s.clock + 1)],
                clock := s.clock + 1)
  {
    hide Inv; hide Constraints; hide FindPart; hide HasLiveContract; hide Step; hide DropPart;
    var q := Request(Some("human"), AcceptPartDeletion(name, 0, false, false));
    assert Decide(s, q) == Ok(DropPartEffect(i, 0, false));
    Committed(s, q);
    assert After(s, q) == Apply(s, Decide(s, q).value, Some("human"));
  }

  // ---------- A deleted name is used again ----------

  ghost function ReuseRun(): seq<Request> {
    [Anonymous(RegisterPart("a", Software, [], "", ONE)),
     Anonymous(Op.ProposePartDeletion("a", "")),
     Request(Some("human"), AcceptPartDeletion("a", 0, false, false)),
     Anonymous(RegisterPart("a", Software, [], "", ONE))]
  }

  lemma RunOfFour(s: Db, a: Request, b: Request, c: Request, d: Request)
    ensures Run(s, [a, b, c, d]) == After(After(After(After(s, a), b), c), d)
  {
    hide After; hide Run;
    RunAppend(s, [], a);
    RunAppend(s, [a], b);
    RunAppend(s, [a, b], c);
    RunAppend(s, [a, b, c], d);
    assert Run(s, []) == s by { RunNone(s); }
    assert [] + [a] == [a] && [a] + [b] == [a, b] && [a, b] + [c] == [a, b, c] && [a, b, c] + [d] == [a, b, c, d];
  }

  // The first three requests leave one row, deleted.
  lemma DeletesA()
    ensures var s3 := Db([Gone("a", 1, 2, 3)], [], [], map[], 3);
            && After(After(After(START, ReuseRun()[0]), ReuseRun()[1]), ReuseRun()[2]) == s3
            && Inv(s3)
  {
    hide After; hide Inv; hide Constraints; hide Decide; hide NewPart; hide DropPart; hide FindPart;
    InstalledInv(START);
    var s1 := Db([Fresh("a", 1)], [], [], map[], 1);
    Registers(START, "a");
    assert After(START, ReuseRun()[0]) == s1;
    NamesOfFresh("a", 1);
    FoundByNameIff(s1, 0);
    ProposesDeletion(s1, 0, "a");
    var s2 := Db([Doomed("a", 1, 2)], [], [], map[], 2);
    assert s1.parts[0 := Doomed("a", 1, 2)] == s2.parts;
    assert After(s1, ReuseRun()[1]) == s2;
    FoundByNameIff(s2, 0);
    AcceptsDeletion(s2, 0, "a");
    assert s2.parts[0 := Gone("a", 1, 2, 3)] == [Gone("a", 1, 2, 3)];
  }

  lemma NamesOfFresh(name: string, now: Time)
    ensures Fresh(name, now).name == name && Fresh(name, now).Live() && Fresh(name, now).deletionProposals == []
    ensures forall p: Proposal<()> :: [] + [p] == [p]
  {
  }

  /** By-name reachability of live parts is not kept: this run ends with a live part that the
      lookup cannot find, and that nothing can change any more. */
  lemma LivePartsGetLost()
    ensures Installed(START)
    ensures var s := Run(START, ReuseRun());
            |s.parts| == 2 && s.parts[1].Live() && FindPart(s, s.parts[1].name) == Refused(MultipleRows)
  {
    hide After; hide Run; hide Inv; hide Constraints; hide Decide;
    DeletesA();
    var s3 := Db([Gone("a", 1, 2, 3)], [], [], map[], 3);
    Registers(s3, "a");
    var s4 := Db([Gone("a", 1, 2, 3), Fresh("a", 4)], [], [], map[], 4);
    assert After(s3, ReuseRun()[3]) == s4;
    RunOfFour(START, ReuseRun()[0], ReuseRun()[1], ReuseRun()[2], ReuseRun()[3]);
    assert s4.parts[0].name == s4.parts[1].name;
    FoundByNameIff(s4, 1);
  }

  // ---------- An endpoint shift onto a part deleted in between ----------

  const TO_C: EndpointChange := EndpointChange("a", "b", None, Some(2))

  lemma RegistersContract(s: Db, ownerName: string, counterpartyName: string, owner: nat, counterparty: nat)
    requires Inv(s) && s.contracts == [] && ownerName != counterpartyName
    requires IsSlug(ownerName) && IsSlug(counterpartyName) && owner != counterparty
    requires FindLive(s.parts, ownerName) == Some(owner) && FindLive(s.parts, counterpartyName) == Some(counterparty)
    ensures var q := Anonymous(RegisterContract(ownerName, counterpartyName, PLAIN, "", ONE));
            && Inv(After(s, q))
            && After(s, q) == s.(contracts := [NewContract(owner, counterparty, PLAIN, "", ONE, s.clock + 1)],
                clock := s.clock + 1)
  {
    hide Inv; hide Constraints; hide FindLive; hide Step; hide IsSlug;
    var q := Anonymous(RegisterContract(ownerName, counterpartyName, PLAIN, "", ONE));
    Committed(s, q);
    assert After(s, q) == Apply(s, Decide(s, q).value, None);
  }

  function Linked(now: Time): Contract { NewContract(0, 1, PLAIN, "", ONE, now) }

  function Asked(now: Time, asked: Time): Contract {
    Linked(now).(endpointProposals := [Open(TO_C, "", None, asked)])
  }

  lemma ProposesShift(s: Db, now: Time)
    requires Inv(s) && s.contracts == [Linked(now)] && FindLive(s.parts, "c") == Some(2) && |s.parts| == 3
    requires s.parts[0].name == "a" && s.parts[1].name == "b"
    ensures var q := Anonymous(ProposeContractEndpoints(0, None, Some("c"), ""));
            && Inv(After(s, q))
            && After(s, q) == s.(contracts := [Asked(now, s.clock + 1)], clock := s.clock + 1)
  {
    hide Inv; hide Constraints; hide FindLive; hide Step; hide IsSlug;
    var q := Anonymous(ProposeContractEndpoints(0, None, Some("c"), ""));
    assert IsSlug("c") by { SlugNames(); }
    assert Decide(s, q) == Ok(SetContract(0, ProposeEndpoints(TO_C, "")));
    Committed(s, q);
    assert After(s, q) == Apply(s, Decide(s, q).value, None);
    var row := Open(TO_C, "", None, s.clock + 1);
    assert [] + [row] == [row];
    assert s.contracts[0 := Asked(now, s.clock + 1)] == [Asked(now, s.clock + 1)];
  }

  lemma SlugNames()
    ensures IsSlug("a") && IsSlug("b") && IsSlug("c")
  {
  }

  // The accept tests that part 2 exists, not that it is live.
  lemma AcceptsShift(s: Db, now: Time, asked: Time)
    requires Inv(s) && s.contracts == [Asked(now, asked)] && |s.parts| == 3
    ensures var s' := After(s, Anonymous(AcceptContractEndpoints(0, 0, false)));
            && |s'.contracts| == 1 && s'.contracts[0].counterparty == 2 && s'.contracts[0].Live() && s'.parts == s.parts
  {
    hide Inv; hide Constraints; hide Step;
    var q := Anonymous(AcceptContractEndpoints(0, 0, false));
    assert Decide(s, q) == Ok(SetContract(0, AcceptEndpoints(0, false, s.parts[0].name, s.parts[1].name)));
    Committed(s, q);
    assert After(s, q) == Apply(s, Decide(s, q).value, None);
  }

  ghost function ShiftRun(): seq<Request> {
    [Anonymous(RegisterPart("a", Software, [], "", ONE)),
     Anonymous(RegisterPart("b", Software, [], "", ONE)),
     Anonymous(RegisterPart("c", Software, [], "", ONE)),
     Anonymous(RegisterContract("a", "b", PLAIN, "", ONE)),
     Anonymous(ProposeContractEndpoints(0, None, Some("c"), "")),
     Anonymous(Op.ProposePartDeletion("c", "")),
     Request(Some("human"), AcceptPartDeletion("c", 0, false, false)),
     Anonymous(AcceptContractEndpoints(0, 0, false))]
  }

  ghost const ABC: seq<Part> := [Fresh("a", 1), Fresh("b", 2), Fresh("c", 3)]

  lemma RegistersThree()
    ensures After(After(After(START, ShiftRun()[0]), ShiftRun()[1]), ShiftRun()[2]) == Db(ABC, [], [], map[], 3)
    ensures Inv(Db(ABC, [], [], map[], 3))
  {
    hide After; hide Inv; hide Constraints; hide NewPart;
    SlugNames();
    InstalledInv(START);
    NamesOfFresh("a", 1);
    NamesOfFresh("b", 2);
    Registers(START, "a");
    var s1 := Db([Fresh("a", 1)], [], [], map[], 1);
    assert After(START, ShiftRun()[0]) == s1;
    Registers(s1, "b");
    var s2 := Db([Fresh("a", 1), Fresh("b", 2)], [], [], map[], 2);
    assert After(s1, ShiftRun()[1]) == s2;
    Registers(s2, "c");
  }

  // The three parts, c with any child rows, are found by their names.
  lemma NamesResolve(s: Db)
    requires |s.parts| == 3 && s.parts[0].name == "a" && s.parts[1].name == "b" && s.parts[2].name == "c"
    requires s.parts[0].Live() && s.parts[1].Live() && s.parts[2].Live()
    ensures FindLive(s.parts, "a") == Some(0) && FindLive(s.parts, "b") == Some(1) && FindLive(s.parts, "c") == Some(2)
    ensures FindPart(s, "c") == Ok(2)
  {
    FoundByNameIff(s, 2);
    var a, b, c := FindLive(s.parts, "a"), FindLive(s.parts, "b"), FindLive(s.parts, "c");
    hide FindLive;
  }

  lemma LinksAndAsks()
    ensures After(After(Db(ABC, [], [], map[], 3), ShiftRun()[3]), ShiftRun()[4]) == Db(ABC, [Asked(4, 5)], [], map[],
        5)
    ensures Inv(Db(ABC, [Asked(4, 5)], [], map[], 5))
  {
    hide After; hide Inv; hide Constraints; hide FindLive; hide FindPart;
    SlugNames();
    var s3 := Db(ABC, [], [], map[], 3);
    RegistersThree();
    NamesResolve(s3);
    RegistersContract(s3, "a", "b", 0, 1);
    ProposesShift(Db(ABC, [Linked(4)], [], map[], 4), 4);
  }

  lemma DeletesC()
    ensures var s7 := Db([Fresh("a", 1), Fresh("b", 2), Gone("c", 3, 6, 7)], [Asked(4, 5)], [], map[], 7);
            && After(After(Db(ABC, [Asked(4, 5)], [], map[], 5), ShiftRun()[5]), ShiftRun()[6]) == s7
            && Inv(s7)
  {
    hide After; hide Inv; hide Constraints; hide FindLive; hide FindPart; hide DropPart;
    var s5 := Db(ABC, [Asked(4, 5)], [], map[], 5);
    LinksAndAsks();
    NamesResolve(s5);
    ProposesDeletion(s5, 2, "c");
    NamesOfFresh("c", 3);
    var s6 := Db([Fresh("a", 1), Fresh("b", 2), Doomed("c", 3, 6)], [Asked(4, 5)], [], map[], 6);
    assert s5.parts[2 := Doomed("c", 3, 6)] == s6.parts;
    assert After(s5, ShiftRun()[5]) == s6;
    NamesResolve(s6);
    AcceptsDeletion(s6, 2, "c");
    assert s6.parts[2 := Gone("c", 3, 6, 7)] == [Fresh("a", 1), Fresh("b", 2), Gone("c", 3, 6, 7)];
  }

  lemma RunOfEight(s: Db, qs: seq<Request>, mid: Db)
    requires |qs| == 8
    requires After(After(After(After(s, qs[0]), qs[1]), qs[2]), qs[3]) == mid
    ensures Run(s, qs) == After(After(After(After(mid, qs[4]), qs[5]), qs[6]), qs[7])
  {
    hide After; hide Run;
    RunOfFour(s, qs[0], qs[1], qs[2], qs[3]);
    assert qs[..4] == [qs[0], qs[1], qs[2], qs[3]];
    RunAppend(s, qs[..4], qs[4]);
    RunAppend(s, qs[..5], qs[5]);
    RunAppend(s, qs[..6], qs[6]);
    RunAppend(s, qs[..7], qs[7]);
    assert qs[..4] + [qs[4]] == qs[..5] && qs[..5] + [qs[5]] == qs[..6] && qs[..6] + [qs[6]] == qs[..7]
        && qs[..7] + [qs[7]] == qs;
  }

  /** The condition on endpoint shifts is needed: this run from an installed catalog commits a
      shift onto a part deleted in between and ends with a live contract whose counterparty is
      deleted. */
  lemma LiveEndpointsCanBreak()
    ensures Installed(START) && !LiveEndpoints(Run(START, ShiftRun()))
  {
    hide After; hide Run; hide Inv; hide Constraints; hide DropPart;
    var qs := ShiftRun();
    RegistersThree();
    LinksAndAsks();
    DeletesC();
    var s7 := Db([Fresh("a", 1), Fresh("b", 2), Gone("c", 3, 6, 7)], [Asked(4, 5)], [], map[], 7);
    AcceptsShift(s7, 4, 5);
    RunOfEight(START, qs, After(Db(ABC, [], [], map[], 3), qs[3]));
    var s8 := Run(START, qs);
    assert s8 == After(s7, qs[7]);
    assert s8.parts[2] == Gone("c", 3, 6, 7);
    GoneIsDeleted("c", 3, 6, 7);
    assert !EndpointsLive(s8.parts, s8.contracts[0]);
  }

  lemma GoneIsDeleted(name: string, now: Time, asked: Time, answered: Time)
    ensures !Gone(name, now, asked, answered).Live()
  {
  }

  // ---------- A rename between two pages of a history ----------

  const TWO: Version := Version(1, 1, 0, None)

  // Part "a" after an update, after a rename is proposed, and after it is accepted.
  function Updated(): Part {
    Fresh("a", 1).(versions := [PartVersion(ONE, "", 1), PartVersion(TWO, "", 2)])
  }

  function RenameAsked(): Part {
    Updated().(nameProposals := [Open(Change("a", "b"), "", None, 3)])
  }

  function Renamed(): Part {
    RenameAsked().(name := "b", nameShift := Some(Shifted("a", 4)),
                   nameProposals := Accept(RenameAsked().nameProposals, 0, Acceptance(4, None, false, false)))
  }

  ghost const BEFORE_READING: seq<Request> :=
    [Anonymous(RegisterPart("a", Software, [], "", ONE)), Anonymous(UpdatePart("a", TWO, "", None))]

  ghost const BETWEEN_PAGES: seq<Request> :=
    [Anonymous(ProposePartName("a", "b", "")), Anonymous(AcceptPartName("a", 0, false)),
     Anonymous(RegisterPart("a", Software, [], "", ONE))]

  lemma Updates()
    ensures var s2 := Db([Updated()], [], [], map[], 2);
            Inv(s2) && After(After(START, BEFORE_READING[0]), BEFORE_READING[1]) == s2
  {
    hide Inv; hide Constraints; hide Step; hide FindPart; hide After;
    InstalledInv(START);
    SlugNames();
    Registers(START, "a");
    var s1 := Db([Fresh("a", 1)], [], [], map[], 1);
    assert After(START, BEFORE_READING[0]) == s1;
    FoundByNameIff(s1, 0);
    UpdateOf(s1);
  }

  lemma UpdateOf(s1: Db)
    requires s1 == Db([Fresh("a", 1)], [], [], map[], 1) && Inv(s1) && FindPart(s1, "a") == Ok(0)
    ensures var s2 := Db([Updated()], [], [], map[], 2); Inv(s2) && After(s1, BEFORE_READING[1]) == s2
  {
    hide Inv; hide Constraints; hide Step; hide FindPart;
    var q := BEFORE_READING[1];
    OnlyVersion();
    assert Decide(s1, q) == Ok(SetPart(0, AddVersion(TWO, "", None)));
    Committed(s1, q);
    assert After(s1, q) == Apply(s1, Decide(s1, q).value, None);
    assert Fresh("a", 1).versions + [PartVersion(TWO, "", 2)] == Updated().versions;
    assert s1.parts[0 := Updated()] == [Updated()];
  }

  lemma OnlyVersion()
    ensures LatestPartVersion([PartVersion(ONE, "", 1)]) == Some(PartVersion(ONE, "", 1))
  {
    assert [PartVersion(ONE, "", 1)][..0] == [];
  }

  lemma AsksRename()
    ensures var s2, s3 := Db([Updated()], [], [], map[], 2), Db([RenameAsked()], [], [], map[], 3);
            Inv(s3) && After(s2, BETWEEN_PAGES[0]) == s3
  {
    hide Inv; hide After;
    var s2 := Db([Updated()], [], [], map[], 2);
    Updates();
    FoundByNameIff(s2, 0);
    RenameAskedOf(s2);
  }

  lemma RenameAskedOf(s2: Db)
    requires s2 == Db([Updated()], [], [], map[], 2) && Inv(s2) && FindPart(s2, "a") == Ok(0)
    ensures var s3 := Db([RenameAsked()], [], [], map[], 3); Inv(s3) && After(s2, BETWEEN_PAGES[0]) == s3
  {
    hide Inv; hide Constraints; hide Step; hide FindPart; hide IsSlug;
    var q := BETWEEN_PAGES[0];
    assert IsSlug("b") by { SlugNames(); }
    assert Decide(s2, q) == Ok(SetPart(0, ProposeName("b", "")));
    Committed(s2, q);
    assert After(s2, q) == Apply(s2, Decide(s2, q).value, None);
    var row := Open(Change("a", "b"), "", None, 3);
    assert [] + [row] == [row];
    assert s2.parts[0 := RenameAsked()] == [RenameAsked()];
  }

  lemma AcceptsRename()
    ensures var s3, s4 := Db([RenameAsked()], [], [], map[], 3), Db([Renamed()], [], [], map[], 4);
            Inv(s4) && After(s3, BETWEEN_PAGES[1]) == s4
  {
    hide Inv; hide After;
    var s3 := Db([RenameAsked()], [], [], map[], 3);
    AsksRename();
    FoundByNameIff(s3, 0);
    RenamedOf(s3);
  }

  lemma RenamedOf(s3: Db)
    requires s3 == Db([RenameAsked()], [], [], map[], 3) && Inv(s3) && FindPart(s3, "a") == Ok(0)
    ensures var s4 := Db([Renamed()], [], [], map[], 4); Inv(s4) && After(s3, BETWEEN_PAGES[1]) == s4
  {
    hide Inv; hide Constraints; hide Step; hide FindPart; hide IsSlug;
    var q := BETWEEN_PAGES[1];
    assert Decide(s3, q) == Ok(SetPart(0, AcceptName(0, false)));
    Committed(s3, q);
    assert After(s3, q) == Apply(s3, Decide(s3, q).value, None);
    assert s3.parts[0 := Renamed()] == [Renamed()];
  }

  // The states at the two pages.
  lemma StatesAtPages()
    ensures Run(START, BEFORE_READING) == Db([Updated()], [], [], map[], 2)
    ensures Run(Db([Updated()], [], [], map[], 2), BETWEEN_PAGES) == Db([Renamed(), Fresh("a", 5)], [], [], map[], 5)
  {
    hide After; hide Run; hide Inv; hide Constraints;
    Updates();
    AsksRename();
    AcceptsRename();
    SlugNames();
    var s2, s4 := Db([Updated()], [], [], map[], 2), Db([Renamed()], [], [], map[], 4);
    Registers(s4, "a");
    assert [Renamed()] + [Fresh("a", 5)] == [Renamed(), Fresh("a", 5)];
    RunNone(START);
    RunAppend(START, [], BEFORE_READING[0]);
    RunAppend(START, [BEFORE_READING[0]], BEFORE_READING[1]);
    assert [] + [BEFORE_READING[0]] == [BEFORE_READING[0]];
    assert [BEFORE_READING[0]] + [BEFORE_READING[1]] == BEFORE_READING;
    RunNone(s2);
    RunAppend(s2, [], BETWEEN_PAGES[0]);
    RunAppend(s2, [BETWEEN_PAGES[0]], BETWEEN_PAGES[1]);
    RunAppend(s2, [BETWEEN_PAGES[0], BETWEEN_PAGES[1]], BETWEEN_PAGES[2]);
    assert [] + [BETWEEN_PAGES[0]] == [BETWEEN_PAGES[0]];
    assert [BETWEEN_PAGES[0]] + [BETWEEN_PAGES[1]] == [BETWEEN_PAGES[0], BETWEEN_PAGES[1]];
    assert [BETWEEN_PAGES[0], BETWEEN_PAGES[1]] + [BETWEEN_PAGES[2]] == BETWEEN_PAGES;
  }

  function BodyRow(v: Version, at: Time, id: nat): Row<Event> {
    Row(at, id, Event(BodyBump, v, None, None, false))
  }

  lemma EventsAtPages()
    ensures PartEvents(Updated(), true) == [BodyRow(ONE, 1, 0), BodyRow(TWO, 2, 1)]
    ensures PartEvents(Fresh("a", 5), true) == [BodyRow(ONE, 5, 0)]
  {
  }

  lemma PagesRead()
    ensures PartPage(Updated(), None, 1, true) == Ok(Page([BodyRow(TWO, 2, 1)], Some(Cursor(2, 1))))
    ensures PartPage(Fresh("a", 5), Some(Cursor(2, 1)), 1, true) == Ok(Page([], None))
    ensures PartHistory(Updated()) == [BodyRow(TWO, 2, 1), BodyRow(ONE, 1, 0)]
  {
    EventsAtPages();
    var x, y, z := BodyRow(ONE, 1, 0), BodyRow(TWO, 2, 1), BodyRow(ONE, 5, 0);
    assert [x, y] == [x] + [y] && [z] == [] + [z] && [x] == [] + [x];
    NewestFirstAppend([], x);
    NewestFirstAppend([x], y);
    NewestFirstAppend([], z);
    assert [x][..0] == [];
    assert Insert([x], y) == [y, x];
    assert [z][1..] == [] && [y, x][..1] == [y];
  }

  /** The condition on names is needed: a client reads page one of the history of "a", the part is
      renamed and "a" is registered again, and the client is told that there is no more, with half of
      the history unread. */
  lemma RenameTruncatesReading()
    ensures Installed(START)
    ensures var s := Run(START, BEFORE_READING);
            && |s.parts| == 1 && s.parts[0].name == "a" && |PartHistory(s.parts[0])| == 2
            && NamedWalk(s, "a", None, 1, [BETWEEN_PAGES], [PartPage(s.parts[0], None, 1, true), Ok(Page([], None))])
            && |Items([PartPage(s.parts[0], None, 1, true), Ok(Page([], None))])| == 1
  {
    hide Run; hide PartPage; hide PartHistory;
    StatesAtPages();
    PagesRead();
    var s2, s5 := Db([Updated()], [], [], map[], 2), Db([Renamed(), Fresh("a", 5)], [], [], map[], 5);
    var first, second: Result<Page<Event>> := PartPage(s2.parts[0], None, 1, true), Ok(Page([], None));
    assert Answers(s2.parts, "a", None, 1, true, first);
    assert s5.parts[1].name == "a";
    assert Answers(s5.parts, "a", first.value.next, 1, true, second);
    assert NamedWalk(s5, "a", first.value.next, 1, [], [second]);
    assert [first, second][1..] == [second] && [BETWEEN_PAGES][1..] == [];
    assert Items([second]) == [] && Items([first, second]) == first.value.items + Items([second]);
  }
}
