# A verified model of the parts-and-contracts catalog

The catalog keeps a versioned graph. Parts are nodes, contracts are directed edges between two parts, and templates are
versioned documents. Nearly every structural change is proposed by one operator and accepted by another, and is checked
again when it is accepted. This project models the catalog as a state machine over its tables and proves what every
request keeps, what whole runs guarantee, and where the code guarantees less than its documentation says.

`dafny verify dfyconfig.toml` checks everything.

## Layout

| file | what it holds |
|---|---|
| Common.dfy | options, results, the ways a request can be refused |
| Versioning.dfy | MAJOR.MINOR.PATCH with -rcN: grammar, parser, printer, order |
| Rules.dfy | the source/target rule table and the checks made against it |
| Handshake.dfy | proposal rows, the two-party and human-confirmation checks, rows in accept order |
| VersionLog.dfy, OpenListing.dfy | the content-version protocol, used by contracts and templates alike, and its listing |
| Timeline.dfy | newest-first sorting and keyset paging |
| History.dfy | audit events and the body version in force |
| Records.dfy | part and contract rows with their child rows, and every way to change one |
| State.dfy | the tables, the handlers' checks (`Decide`), their writes (`Apply`), the constraints, `Step` and `Run` |
| Catalog.dfy | the class whose methods are the endpoints, assigning tables in place, proved against `Step` |
| Endpoints.dfy, Refusals.dfy | what each request asks for and writes, and why it is refused, stated on the tables alone |
| Invariants.dfy | what every reachable catalog satisfies, and when a commit is aborted |
| Lifting.dfy | from one step to a whole run |
| Provenance.dfy, Authorship.dfy, HistoryRows.dfy | which request of a run wrote each proposal row, version row and event |
| Evolution.dfy, Replay.dfy, Deletions.dfy, HistoryGrowth.dfy, Graph.dfy, Agents.dfy, NameReuse.dfy | theorems over runs |
| Scenarios.dfy | concrete runs that show a stated condition is needed |
| NamedHistory.dfy, ListingAmongWrites.dfy | paging through a part's history by name, and through the listings, while others write |
| Impact.dfy, Listing.dfy, Search.dfy, Tokens.dfy, Aliases.dfy, CursorCodec.dfy | reads, previews and text algorithms |

## Modelling assumptions

- Each request is one atomic transaction. A uniqueness or CHECK failure, or a lookup that finds more rows than it
  allows, ends it without any change.
- One clock: an accepted request is stamped with the next instant, so time stamps of different requests differ.
- A row's id is its position in its table; rows are never removed, so ids are fresh. A proposal or version row is kept
  inside the row of the part or contract it belongs to. Order among ids matters only as a tie-break between equal times.
- A proposal row's `status` and acceptance columns are one optional value; a version row keeps `active` for its status.
- Versions reach the handlers parsed, aliases cleaned, agent names slug-checked, as the request schemas leave them.
- `_check_part_subtype_implemented` refuses nothing, because every part subtype is implemented, and is not written out.
- Case folding works character by character and neither makes nor removes backslash, %, _ or U+001F. Case folding and
  stripping are otherwise arbitrary.
- In the run theorems an installed catalog has no parts and no contracts, any agents, and any templates whose version
  logs are sound.

## Where the code and its documentation differ

The model follows the code.

- Accepting an endpoint shift claims to refuse a target that has been deleted. It refuses only a target that is missing
  from the table; a soft-deleted one passes (`Graph.LiveEndpointsIff`, `Scenarios.LiveEndpointsCanBreak`).
- A deleted part's name is meant to be reusable. It can be registered again, but every by-name write to the new part
  then sees two rows and fails, for ever (`NameReuse.FoundOverRuns`, `NameReuse.ReusedNameIsStuck`,
  `Scenarios.LivePartsGetLost`).
- The `active_version` an accept answers with can lie below the real latest (`VersionLog.AcceptResponseIsLatestIff`).
- The impact block counts every version row that is not active as an open proposal, promoted candidates included
  (`Impact.InactiveAgainstListing`, `Impact.PromotionsAreStillCounted`).
- The separator U+001F cannot occur in an alias, but it can occur in the search text, which is then matched across two
  aliases of a part that has them (`Search.AlwaysLiteralIff`, `Search.SeparatorMisfires`).
- Following a cursor through a part's history is meant to read all of it. The part is looked up by name for every page,
  so a rename or a reuse of the name between two pages ends or truncates the reading (`NamedHistory.NamedPagingIff`,
  `Scenarios.RenameTruncatesReading`). Contracts are looked up by id (`HistoryGrowth.PagingSurvivesWrites`).
- docs/api.md:84-86 says contracts are listed by `accepted_at`; the code sorts by `created_at`
  (`Listing.DocumentedOrderIff`). That key can fall, so a contract can be listed twice among writes
  (`ListingAmongWrites.AcceptLowersKeyIff`).
- Open proposals are listed in the order of their labels as text, not in version order
  (`OpenListing.ListingInVersionOrderIff`).
- Accepting a contract subtype shift has no uniqueness test; only the index stops a collision
  (`Invariants.CommitAbortsIff`).

## Model

| member | source | states |
|---|---|---|
| `Catalog.Catalog.RegisterPart` | src/routers/parts.py:251-307 | refines one step of the state machine and keeps every invariant: refused on a malformed payload or a taken live name, otherwise exactly one new row |
| `Catalog.Catalog.UpdatePart` | src/routers/parts.py:363-432 | refines one step; the same strict-increase test, and only the version list and, when given, the aliases change |
| `Catalog.Catalog.ProposePartSubtype` | src/routers/parts.py:992-1046 | refines one step, and the returned impact is exactly the set of contracts, live or deleted, whose rule would fail |
| `Catalog.Catalog.AcceptPartSubtype` | src/routers/parts.py:1114-1202 | refines one step: re-checks the proposal at accept time and writes subtype, shifted-from, shifted-at and the proposal row |
| `Catalog.Catalog.ProposePartName` | src/routers/parts.py:1210-1272 | refines one step, including both name-conflict tests |
| `Catalog.Catalog.AcceptPartName` | src/routers/parts.py:1328-1427 | refines one step: re-checks the name at accept time, ignoring the part's own row |
| `Catalog.Catalog.ProposePartDeletion` | src/routers/parts.py:1561-1597 | refines one step, one open deletion row and nothing else, and answers with the exact impact block of the tables before it |
| `Catalog.Catalog.AcceptPartDeletion` | src/routers/parts.py:1652-1787 | refines one step; answers with the exact impact block before the writes; the cascaded ids are its touching contracts when cascading, none otherwise |
| `Impact.TouchingContracts` | src/routers/parts.py:1465-1478 | finds exactly the live contracts on either side of the part, each once |
| `Catalog.Catalog.StampContracts` | src/routers/parts.py:1742-1760 | the stamping loop turns the contract table into the one in which every live touching contract, and no other, carries the stamp |
| `Catalog.Catalog.RegisterContract` | src/routers/contracts.py:145-289 | refines one step, with its order of refusals: payload, endpoints, source/target rule, edge |
| `Catalog.Catalog.ProposeContractShape` | src/routers/contracts.py:908-980 | refines one step of a subtype shift proposal |
| `Catalog.Catalog.AcceptContractShape` | src/routers/contracts.py:1048-1165 | refines one step: the shift commits, or is aborted by the unique index exactly when another live contract has the target edge |
| `Catalog.Catalog.ProposeContractEndpoints` | src/routers/contracts.py:1303-1396 | refines one step: named sides must be live parts, no no-op, no self-loop, rule, edge |
| `Catalog.Catalog.AcceptContractEndpoints` | src/routers/contracts.py:1467-1620 | refines one step: targets are re-resolved by id, and only a missing one is refused |
| `Catalog.Catalog.ProposeContractDeletion` | src/routers/contracts.py:1771-1812 | refines one step, one open deletion row and nothing else, and answers with the exact impact block of the tables before it |
| `Catalog.Catalog.AcceptContractDeletion` | src/routers/contracts.py:1859-1937 | refines one step, the stamp copies the proposal row, and answers with the exact impact block without the accepted proposal |
| `Catalog.Catalog.FindByName` | src/routers/parts.py:369-375 | the query for one row by name counts deleted rows, fails on a second one, and finds live rows only |
| `Catalog.Catalog.EdgeIsTaken` | src/routers/contracts.py:1259-1290 | the query for a colliding contract: live, same endpoints, same shape with null equal to null, other than the row itself |
| `Catalog.Catalog.NameIsTaken` | src/routers/parts.py:1388-1398 | the query for a live row with the name, other than the row itself |
| `Catalog.Catalog.FindLiveByName` | src/routers/contracts.py:123-136 | the query for the live row with a name, deleted rows left out |
| `Catalog.Catalog.FindLiveAgent` | src/routers/agent_actors.py:68-75 | the query for the live allowlist row of an actor |
| `Catalog.Catalog.LatestVersion` | src/routers/proposals.py:31-40 | the loop over all rows returns the greatest version, candidates included |
| `Catalog.Catalog.WriteBody` | src/routers/proposals.py:178-246 | the accept that writes a row in place, or adds a promoted row, computes the version-log protocol |
| `Catalog.Catalog.ContractBody` | src/routers/proposals.py:49-246 | refines one step on a contract's log; the active version an accept answers with is the latest active one if and only if no greater one was active before |
| `Catalog.Catalog.TemplateBody` | src/routers/templates.py:115-311 | the same for a template's log |
| `Catalog.Catalog.RegisterAgent` | src/routers/agent_actors.py:63-88 | refines one step: one new row unless the actor is live already |
| `Catalog.Catalog.RevokeAgent` | src/routers/agent_actors.py:163-202 | refines one step: only a human known by name ends a live row |
| `Catalog.Catalog.ListProposals` | src/routers/proposals.py:92-139 | answers with the latest active version and exactly the inactive rows above it, each once, in the order of the query |
| `Catalog.Catalog.ListTemplateProposals` | src/routers/templates.py:151-199 | the same for a template |
| `Catalog.Catalog.GetPartHistory` | src/routers/parts.py:486-687 | the loops, the sort and the cut give one page of the events of some part with the name; not found when there is none |
| `Catalog.Catalog.GetContractHistory` | src/routers/contracts.py:603-804 | the same for a contract |
| `Invariants.CommitAbortsIff` | src/models.py:202-249 | the handlers' own checks are complete: no unique index or CHECK constraint ever aborts a commit, except an accepted contract subtype shift onto a taken edge, and that one always |
| `Invariants.Committed` | src/routers/contracts.py:1114-1138 | a request that passes its checks commits exactly its effect, unless it is that shift, and every invariant holds afterwards |
| `Invariants.StepKeepsInv` | src/models.py:202-249 | every request, accepted or refused, keeps every invariant |
| `Invariants.RunKeepsInv` | src/models.py:202-249 | over all runs: live names distinct, live edges distinct with null equal to null, no self-loop, connection_type exactly on connections, sound logs and proposal rows |
| `Evolution.HandshakesHold` | src/routers/_subtype_helpers.py:78-162 | in every reachable catalog, over all proposal families and version logs: accepted without override by two known actors means two different actors; accepted part deletions have a known acceptor and no override |
| `Evolution.RunGrows` | src/routers/proposals.py:178-246 | over any run a proposal row is accepted at most once and then frozen; no version row disappears or changes its version, text or proposer |
| `Evolution.DeletionIsAbsorbing` | src/routers/contracts.py:1479-1486 | a deleted part or contract never changes again and gains no child row, in any continuation |
| `Evolution.ActiveVersionsNeverDecrease` | src/routers/parts.py:875-887 | over any run the latest active version of a contract or template never decreases |
| `Evolution.SupersededStaysClosed` | src/routers/proposals.py:121-126 | over any run a contract's candidate whose triple is active is never listed as open again |
| `Evolution.SupersededStaysClosedInTemplates` | src/routers/templates.py:178-182 | the same for templates |
| `Evolution.ReachableLogsAreSafe` | src/routers/proposals.py:192-246 | in every reachable catalog every log has pairwise different versions under numeric rc equality, stable active rows, a surviving unchanged candidate for each promoted row, one promotion per triple, and a latest query that returns the greatest active version |
| `History.VersionAt` | src/routers/parts.py:572-588 | the early-break loop over the sorted bodies returns the label of the body in force, for any input order |
| `History.SortedInForce` | src/routers/contracts.py:692-706 | sorting the bodies does not change which one is in force at any time |
| `History.CollectEvents` | src/routers/contracts.py:720-780 | the list-building loops produce one event per accepted body, shift and deletion step, each with its label |
| `HistoryGrowth.HistoryGrowsAtItsNewEnd` | src/routers/contracts.py:603-804 | for every part and contract and every later state, the earlier full history is exactly the older tail of the later one, row for row |
| `HistoryGrowth.LabelIsGreatestVersion` | src/routers/parts.py:569-588 | a part event's label is the greatest version that existed at its time |
| `HistoryGrowth.ReachableHistoryPages` | src/routers/parts.py:660-687 | in every reachable catalog, reading one part row's history page by page gives all of it once, newest first |
| `HistoryGrowth.ReachableContractHistoryPages` | src/routers/contracts.py:782-804 | the same for contracts |
| `HistoryGrowth.OldPagesNeverChange` | src/routers/contracts.py:784-804 | a contract is read by id: a page read after any cursor its history has handed out is the same in every later state |
| `HistoryGrowth.PagingSurvivesWrites` | src/routers/contracts.py:615-804 | whatever requests are served between its pages, a client that follows next through a contract's history reads exactly that history as it was at its first page |
| `HistoryGrowth.ContractLabelIsGreatestIff` | src/routers/contracts.py:692-706 | from an accept on, a contract's events carry the accepted version, which is the greatest active one if and only if no greater one was active when it was accepted |
| `HistoryGrowth.ContractLabelCanBeLower` | src/routers/contracts.py:692-706 | a concrete log in which it is lower |
| `NamedHistory.NamedPagingIff` | src/routers/parts.py:486-507 | a part is read by name: a client whose first page came from row i is sure to get the pages of that history if and only if at every later page row i still carries the name and no other row, live or deleted, does |
| `NamedHistory.ConsecutiveReadsAll` | src/routers/parts.py:660-687 | a client that got those pages, and was told there are no more, has read exactly the history as it was at its first page |
| `NamedHistory.OnlyRowOverRuns` | src/routers/parts.py:1388-1411 | row i is the only one with the name at every moment of a run if and only if no committed request renames it or gives its name to another row |
| `NamedHistory.NameLeftAloneHolds` | src/routers/parts.py:486-507 | so a client reads everything when no request between its pages renames the part or reuses its name |
| `Scenarios.RenameTruncatesReading` | src/routers/parts.py:496-507 | the condition is needed: after page one of two the part is renamed and its name registered again, and the client is told that there is no more |
| `Endpoints.AnsweredIff` | src/routers/contracts.py:145-1937 | for every write request: it changes the catalog if and only if everything it asks for holds of the tables, and then exactly the rows it writes differ, with every column given |
| `Endpoints.PartAnswered` | src/routers/parts.py:363-1597 | an update, a subtype or name proposal, its accept, or a deletion proposal is accepted if and only if the name is one live row's alone and the conditions on that row hold; an update stores the version, the text and the given aliases, a proposal row stores the value current, the value asked, the rationale and the caller |
| `Endpoints.ContractAnswered` | src/routers/contracts.py:908-1937 | a shape or endpoint shift, its accept, a deletion step or a body step is accepted if and only if the contract is live, the row open and signed by two hands, and the resulting pair new, no self-loop, allowed by the rule and free; what it writes, side by side |
| `Endpoints.RegisterPartAnswered` | src/routers/parts.py:251-307 | accepted if and only if the payload is well formed and no live part has the name; the new row column by column |
| `Endpoints.RegisterContractAnswered` | src/routers/contracts.py:145-289 | accepted if and only if two different live parts carry the names, the shape is well formed, the rule admits them and no live contract has the edge; the new row column by column |
| `Endpoints.TemplateAnswered` | src/routers/templates.py:115-311 | a proposal is accepted if and only if it lies above every row; an accept if and only if the row is there, inactive, signed by two hands and its stable form free; the rows written |
| `Endpoints.RegisterAgentAnswered` | src/routers/agent_actors.py:63-88 | accepted if and only if the actor is a slug and not on the list; the new row is live and names the caller |
| `Endpoints.RevokeAgentAnswered` | src/routers/agent_actors.py:163-202 | accepted if and only if the caller is known and not on the list and the actor is; exactly its live row is ended by the caller |
| `Refusals.RefusedForCause` | src/routers/contracts.py:145-1937 | every refusal has a cause of its own kind: not found, conflict, unprocessable, forbidden, several rows, or the index |
| `Records.SlugGrammar` | src/schemas.py:19 | the slug test accepts exactly the texts of the pattern |
| `Provenance.PartProposalsAreTold` | src/routers/parts.py:992-1787 | in every reachable catalog each proposal row of a part was filed by one request of the run, with the change it asked for against the value current then, its rationale, its actor and its time, and is accepted only by one request, with that request's actor, override and time |
| `Provenance.ContractProposalsAreTold` | src/routers/contracts.py:908-1937 | the same for contracts |
| `Provenance.FiledOnce` | src/routers/parts.py:1024-1034 | no two requests filed one row |
| `Provenance.NobodyAcceptsTheirOwn` | src/routers/_subtype_helpers.py:129-162 | over any run, in every family: if the request that filed a row and the request that accepted it came from one known actor, the row carries an override |
| `Authorship.ContractRowsAreTold` | src/routers/proposals.py:49-246 | in every reachable catalog a contract's first version row is its registration's, every other row is a committed proposal's, with its version, text, actor and time, or the stable row of an accepted candidate, and an accept in place is one request's |
| `Authorship.TemplateRowsAreTold` | src/routers/templates.py:115-311 | the same for a template, beyond its seeded rows |
| `Authorship.ContractTextsWereProposed` | src/routers/proposals.py:70-81 | every text of a contract after the first was proposed by the actor its row names, for a version of the same triple |
| `Authorship.TemplateTextsWereProposed` | src/routers/templates.py:115-145 | the same for a template, or the text was seeded |
| `HistoryRows.PartRowIff` | src/routers/parts.py:590-658 | an event stands in a part's history if and only if it is told by a version row, by an accepted proposal row with that row's time, proposer, acceptor and override, or, where deletions are shown, by a filed deletion proposal |
| `HistoryRows.ContractRowIff` | src/routers/contracts.py:708-780 | the same for a contract |
| `HistoryRows.PartHistoryIsItsStory` | src/routers/parts.py:486-687 | a reachable part's full history is exactly the concatenation of what each committed request of the run adds, the last first: who proposed, who accepted, when, and under which version |
| `HistoryRows.ContractHistoryIsItsStory` | src/routers/contracts.py:603-804 | the same for a contract; a cascade adds nothing |
| `HistoryRows.PartEventsNameTheirCallers` | src/routers/parts.py:608-658 | each shift or deletion event names as proposer the actor of the request that proposed it and as acceptor the actor of the later request that accepted it |
| `HistoryRows.ContractEventsNameTheirCallers` | src/routers/contracts.py:726-780 | the same for contracts |
| `Handshake.InAcceptOrderSorted` | src/routers/parts.py:1409-1417 | the order the replays below follow is the order of the accepted_at stamps |
| `Handshake.InAcceptOrderPermutes` | src/routers/parts.py:1409-1417 | and it holds every row with status accepted exactly as often as the table does |
| `Replay.PartsReplay` | src/routers/parts.py:1159-1417 | each reachable part was registered by one accepted request of the run; its name, subtype and shifted-from and shifted-at columns are its accepted shifts replayed in accept order over that request's values |
| `Replay.ContractsReplay` | src/routers/contracts.py:1114-1138 | the same for a contract's endpoints, subtype and connection_type |
| `Replay.EndpointColumnsReplay` | src/routers/contracts.py:1576-1596 | the endpoint shifted-from columns hold, for each side that moved, the name its part had just before the committed accept of this run that wrote them |
| `Deletions.EveryDeletionIsExplained` | src/routers/parts.py:1741-1773 | each deleted part has exactly one accepted deletion proposal, matching its stamp; each deleted contract has either exactly one of its own or a cascading endpoint part, never both; live rows have none |
| `Deletions.OwnDeletionIsOneRow` | src/routers/contracts.py:1915-1924 | exactly one means one row of the table, which justifies the stamp, while every other row is unaccepted |
| `Rules.ChecksAgree` | src/routers/_rules.py:104-126 | for every rule table the three separate checks, at registration, at a subtype shift and at an endpoint shift, and the preview all decide one predicate on the pair |
| `Graph.RuleBreaksOnlyAfterEndpointShift` | src/routers/contracts.py:1212-1256 | a reachable contract breaks its rule only if an endpoint's subtype shift was accepted after its registration and its last own shift |
| `Graph.PartShiftImpact` | src/routers/parts.py:893-983 | for every rule table the preview loop reports exactly the touching contracts, live or deleted, that would break, once each |
| `Graph.ShiftBreaksExactlyItsPreview` | src/routers/parts.py:1159-1177 | accepting the shift breaks exactly the contracts the preview lists at that moment; all others keep their rule as it was |
| `Graph.RulesKeptIff` | src/routers/parts.py:901-907 | if every contract keeps its rule, every effect preserves that, unless it is a subtype shift with a contract to list |
| `Graph.RulesKeptOverRuns` | src/routers/parts.py:901-907 | over a whole run: every contract keeps its rule at every moment if and only if no accepted subtype shift had a contract to list |
| `Graph.PartDeletionAcceptedIff` | src/routers/parts.py:1665-1740 | a part deletion is accepted if and only if there is no override, the name is one live row's alone, the proposal is open, the acceptor is known, not the proposer and not an agent, and cascade is set when live contracts touch the part |
| `Graph.PartDeletionIsExact` | src/routers/parts.py:1741-1773 | an accepted part deletion writes exactly the part's stamp and its proposal row, stamps exactly the live touching contracts if cascading, and changes nothing else |
| `Graph.LiveEndpointsIff` | src/routers/contracts.py:1520-1541 | an effect keeps live contracts on live parts if and only if it is not an endpoint shift onto a part deleted since |
| `Graph.LiveEndpointsOverRuns` | src/routers/contracts.py:123-136 | over a whole run: live contracts have live endpoints at every moment if and only if no accepted endpoint shift names a deleted part |
| `Scenarios.LiveEndpointsCanBreak` | src/routers/contracts.py:1520-1541 | the condition is needed: an eight-request run from an empty catalog ends with a live contract on a deleted part |
| `NameReuse.FoundOverRuns` | src/routers/parts.py:260-275 | over a whole run: every live part can be found by its name at every moment if and only if no accepted registration or rename takes a name another row, live or deleted, carries |
| `NameReuse.ReusedNameIsStuck` | src/routers/parts.py:1656-1683 | a part registered under a deleted part's name can never be changed, renamed or deleted, in any continuation |
| `Scenarios.LivePartsGetLost` | src/routers/parts.py:251-275 | a four-request run that reaches that situation |
| `Agents.AgentsAloneCannotDelete` | src/routers/_subtype_helpers.py:57-126 | in any run whose callers are anonymous or start in the allowlist, the allowlist loses nobody and no part is ever deleted |
| `Agents.ListedAfterIff` | src/routers/_subtype_helpers.py:57-75 | after any request an actor is on the list if and only if the request commits its registration, or it was on the list and the request does not commit its revocation |
| `Agents.ListingAcceptedIff` | src/routers/agent_actors.py:63-202 | a registration commits if and only if the actor is a slug and not on the list; a revocation if and only if the caller is known and not on it and the actor is |
| `Agents.ListedOverRunsIff` | src/routers/agent_actors.py:63-202 | at the end of a run an actor is on the list if and only if it was registered, or there at the start, and not revoked since |
| `Agents.ListedActorIsBarred` | src/routers/parts.py:1714-1722 | from an actor's registration until its revocation, every part deletion it accepts and every revocation it asks for leaves the catalog unchanged |
| `Impact.ContractDeletionImpact` | src/routers/contracts.py:1635-1756 | names exactly the endpoints whose latest body holds the other's name as a whole token; the history count is the length of the history without deletion events; every child row is counted once, as open or as history; more is reported open than the listings show exactly when a version row is superseded |
| `Impact.PartDeletionImpact` | src/routers/parts.py:1453-1552 | exactly the live touching contracts, exactly the other live parts that mention the name, and the length of the history |
| `Impact.InactiveAgainstListing` | src/routers/contracts.py:1679-1687 | the open count of a sound log exceeds its proposal listing exactly when an inactive row lies at or below the latest active version |
| `Impact.PromotionsAreStillCounted` | src/routers/contracts.py:1679-1687 | so it does whenever a candidate of the log has been promoted |
| `VersionLog.ProposeKeeps` | src/routers/proposals.py:58-81 | a proposal above every row keeps the log sound and every old row unchanged |
| `VersionLog.AcceptKeeps` | src/routers/proposals.py:178-246 | an accept keeps the log sound and only accepts, never rewrites, old rows |
| `VersionLog.LatestActiveIsGreatest` | src/routers/parts.py:875-887 | ordering active rows by three integers finds the greatest one under the full version order |
| `VersionLog.AcceptRaisesLatest` | src/routers/proposals.py:192-246 | accepting v makes the latest active version the greater of the old one and v's stable form |
| `VersionLog.ProposeLeavesLatest` | src/routers/proposals.py:70-81 | proposing leaves the latest active row alone |
| `VersionLog.AcceptResponseIsLatestIff` | src/routers/proposals.py:198-206 | the answered active version is the real latest if and only if no greater version was active |
| `VersionLog.AcceptResponseCanBeStale` | src/routers/proposals.py:198-206 | a concrete log in which it is not |
| `VersionLog.OnePromotionPerTriple` | src/routers/proposals.py:208-225 | at most one candidate of a triple is ever promoted |
| `VersionLog.SupersededIsNeverOpen` | src/routers/proposals.py:107-126 | however a log grows, a candidate of an active triple is not open |
| `OpenListing.ListOpen` | src/routers/proposals.py:107-133 | the listing returns the latest active version and the open rows, each as often as it stands in the log, ordered by the three integers and then by the candidate label as text, stable last |
| `OpenListing.ListingInVersionOrderIff` | src/routers/proposals.py:107-133 | the listing is in version order if and only if no two open candidates of one triple compare one way as text and the other way as numbers |
| `OpenListing.CanonicalListingInVersionOrderIff` | src/routers/proposals.py:107-133 | for labels without leading zeros: if and only if no longer label of a triple comes before a shorter one as text |
| `OpenListing.TextIsNumeric` | src/routers/proposals.py:109-115 | digit strings of one length compare as text exactly as the numbers they denote |
| `OpenListing.ListingCanBeOutOfOrder` | src/routers/proposals.py:109-115 | a sound log, rc2 and then rc10 proposed, whose listing is out of order |
| `Versioning.ParseAcceptsGrammar` | src/versioning.py:8-37 | every text a.b.c or a.b.c-rcN parses, to the numbers its digits denote, candidates only where they are allowed |
| `Versioning.ParseRejectsOthers` | src/versioning.py:26-37 | nothing else parses |
| `Versioning.Decimal` | src/versioning.py:39-41 | printed decimals are non-empty digit strings that denote the number printed |
| `Versioning.PrintParse` | src/versioning.py:26-41 | parsing a printed version gives the version back |
| `Versioning.NormaliseIdempotent` | src/versioning.py:26-41 | printing after parsing is idempotent and keeps the parsed value |
| `Versioning.OrderIsStrictTotal` | src/versioning.py:51-71 | a strict total order up to numeric rc equality |
| `Versioning.CandidatesSitBelowTheirStable` | src/versioning.py:51-61 | a candidate lies above every smaller triple and below its own stable, with only higher candidates between |
| `Versioning.TripleOrderIsNumeric` | src/versioning.py:51-61 | triples compare as the numbers their three integers spell in any base above the last two: major, then minor, then patch |
| `Timeline.NewestFirstMultiset` | src/routers/contracts.py:782 | sorting is a permutation |
| `Timeline.NewestFirstStrict` | src/routers/contracts.py:782 | rows with different keys sort strictly descending |
| `Timeline.PagingIsComplete` | src/routers/contracts.py:782-804 | following next visits every row exactly once, strictly descending, in ceil(n / limit) pages, or one when there are none |
| `Timeline.PagingEnds` | src/routers/contracts.py:788-804 | such a walk exists from every position |
| `Listing.PartListingIsComplete` | src/routers/parts.py:104-242 | in every reachable catalog, reading the part listing to its end shows exactly the wanted parts, searched text literally in the name or one alias, each once, newest first |
| `Listing.ContractListingIsComplete` | src/routers/parts.py:725-872 | in every reachable catalog, reading the contract listing to its end shows exactly the wanted contracts, each once, in strictly descending order of the latest active version's created_at and the id; no contract is lost for want of an active version |
| `Listing.DocumentedOrderIff` | src/routers/parts.py:807-822 | that order is the documented one, by accepted_at, if and only if no shown contract's latest version was accepted in place past another shown contract that stands above it |
| `ListingAmongWrites.PageIsWindow` | src/routers/parts.py:202-242 | a page shows exactly the selected rows below its cursor and at or above the next one |
| `ListingAmongWrites.PartsListedAmongWrites` | src/routers/parts.py:202-242 | among writes no part is shown twice, and a part wanted at every page is shown if and only if no update between two pages moves it past the cursor |
| `ListingAmongWrites.ContractsListedAmongWrites` | src/routers/parts.py:814-872 | among writes a contract wanted at every page under the same time is shown exactly once, and one whose time never falls at most once |
| `ListingAmongWrites.AcceptLowersKeyIff` | src/routers/parts.py:807-822 | an accept makes a contract's listed time fall if and only if it accepts in place a greater version proposed before the latest active row was created |
| `ListingAmongWrites.FallingRowIsShownTwice` | src/routers/parts.py:814-872 | a concrete walk that shows such a row twice |
| `Search.EscapedIsEscapeEach` | src/routers/parts.py:190-191 | the three replacements, one after the other, escape each special character once |
| `Search.PatternMeansContains` | src/routers/parts.py:191-200 | LIKE on an escaped text means containment up to case folding, whatever wildcards the text holds |
| `Search.SearchIsLiteral` | src/routers/parts.py:186-200 | for every text free of U+001F the search hits exactly when the text occurs in the name or in one single alias |
| `Search.AlwaysLiteralIff` | src/routers/parts.py:187-199 | for a stored part the search is right for every text, U+001F included, if and only if the part has at most one alias |
| `Search.SeparatorMisfires` | src/routers/parts.py:194-199 | a concrete text that is found across two aliases |
| `Aliases.CleanAliases` | src/schemas.py:125-145 | the loop refuses exactly the lists with an unacceptable alias and otherwise keeps the first alias of every folded key |
| `Aliases.KeptAliasesAreFirst` | src/schemas.py:125-145 | every kept alias is the first of its key in the input |
| `Aliases.CleanedAliases` | src/schemas.py:125-145 | the cleaned list has no key twice and every key of the input |
| `Tokens.SearchFindsTokens` | src/routers/contracts.py:1668-1676 | the bounded search finds a slug exactly when the slug is one of the maximal runs of slug characters |
| `CursorCodec.CursorRoundTrip` | src/pagination.py:15-25 | base64url with stripped padding, re-padded from the length and decoded, gives the payload back; the stripped length is never 1 mod 4 |
| `CursorCodec.CursorIsUrlSafe` | src/pagination.py:15-18 | a cursor holds letters, digits, hyphen and underscore only, never padding |
| `CursorCodec.StandardVectors` | src/pagination.py:15-18 | the encoder agrees with test vectors of section 10 of RFC 4648 |
| `CursorCodec.CursorInjective` | src/pagination.py:15-25 | two payloads never share a cursor |

## Left out

- HTTP routing, status text, response shapes and error wording: a refusal keeps only its kind.
- Database sessions, locks and isolation-level races: requests are atomic transactions.
- Token authentication, OIDC, scopes, command line, CORS, health checks, schema migrations: the caller's actor is an input.
- Projects, repository and issue-tracker addresses, descriptions, owner reassignment: free metadata; part rows therefore
  carry no owner column, and reassignment leaves no history entry.
- Catalog.Catalog.ProposePartSubtype: the body-realignment flag, which is read off a stamp in the document text, stored
  on the proposal row and returned, but consulted by no handler, is not modelled.
- Catalog.Catalog.ProposeContractShape: the same flag is not modelled.
- Rows as shared mutable objects: tables are fields of the class and are assigned in place, but a row inside a table is a
  value that a handler copies, changes field by field and stores back, so aliasing between two reads of one row in a
  session is not captured.
- Catalog.Catalog.GetPartHistory: when a deleted part shares the name, the query takes either row; the contract holds of
  whichever it takes. `get_part` resolves names the same way and is not modelled.
- OpenListing.ListOpen: text is compared by character code, which for the labels, rc and digits, is what a database
  collation does too.
- Versioning.ParseAcceptsGrammar: ASCII digits only; the pattern's acceptance of other decimal digits and of a trailing
  newline is not modelled.
- Versioning.ParseRejectsOthers: the same restriction, on the side of refusal.
- Version numbers are unbounded; a number too large for its database column, which would abort the insert, is not modelled.
- CursorCodec.CursorRoundTrip: the payload is opaque bytes; its JSON, date and UUID text is not modelled, and neither is
  the decoder's skipping of characters outside the alphabet in texts that no encoder wrote.
- Aliases.CleanAliases: stripping and case folding are inputs; dropping `null` and refusing non-strings are not modelled.
- Impact.ContractDeletionImpact: the block names parts by row, not by name.
- Listing.PartListingIsComplete: filters on project and owner are left out with those columns.
- Listing.ContractListingIsComplete: the same filters are left out. In the listing of one part's contracts the part is the
  row its name resolved to; the endpoint resolves the name again for every page.
- Listings of agents, of the subtype, endpoint, name and deletion proposals, and the text of templates: same paging, no
  further rule.
- Limits on the page size and on text length at the request boundary, other than those of names and aliases.
