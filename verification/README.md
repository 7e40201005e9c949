# Sanka CLI: verified models

Dafny models of the parts of the Sanka command line whose correctness rests on an argument rather
than on a glance: graph searches over shared objects, files that several processes create at once, a
request stream to a process that may die, document codecs with elided defaults, a planned and
journaled migration, and the contracts of the Flow extension protocol. Each module states what the
source promises of one component and proves it for every input, every run or every reachable state.

The project is for Dafny 4.11: `dafny verify dfyconfig.toml` verifies all of it.

## What is modelled

| module | component |
|---|---|
| `Basics`, `Ordering`, `JsonValues` | shared vocabulary: options, whitespace, string order and canonical sorting, parsed JSON |
| `JsonGuard` | the strict JSON guards, a depth-first search over an explicit heap of shared and cyclic objects |
| `IntentFiles` | the idempotent-intent files of `sanka fix` and the cloud code commands, with any number of processes that stop anywhere |
| `ConnectorChannel`, `Framing` | the connector client and its host processes: queues, reader threads, timeouts, kills, restarts, and the line framing between them |
| `WireCodec`, `WireForms` | the tagged encoding of sets and dataclasses on that channel; and exactly what is sent and what is read |
| `PlanPayload`, `MigrationRuns` | the migration plan, its payload and hash; the run row, the fenced journal and the apply loop |
| `RouteBatches`, `RoutePlaces` | one batch of an apply under its exact scope: pages, writes, checkpoints, route completion; and where it leaves each route |
| `MigrationProgress`, `MigrationPages` | when the apply loop ends, for any batches and for those of `RouteBatches` over a fixed source |
| `MigrationArrival`, `MigrationReplan` | which candidates an applied run has brought, and what planning again makes of it |
| `Candidates` | freezing the source identities that a plan approves |
| `Ledger` | the two result ledgers and the reads that join them |
| `BillingDeliveries`, `FixturePages`, `Decimals` | native billing verification: deliveries, paged fixtures, decimal numerals and prices |
| `FlowModel`, `FlowExample` | Flow Blueprints v1 and v2: records, constructors, validation; and one that is accepted |
| `FlowBuild` | dependency rounds and what building in them meets |
| `FlowProgress`, `FlowRules` | evaluating graphs on scenario events; what acceptance promises of references, workflows and scenarios |
| `FlowCanonical`, `FlowWire`, `FlowDocuments`, `FlowResponse`, `FlowExact` | canonical construction and the wire form, up to the response of an extension; and that nothing is read loosely |
| `LocalIo` | crash-atomic replacement, bounded reading and copying of one file |
| `BoundedMap` | bounded concurrent fan-out |

Code that updates objects in place is a class (`Guard`, `Run`, `Snapshot`, `Store`, `Directory`) or a method with
a loop, proved against a specification function; concurrent protocols are state machines whose runs
are sequences of events; the rest is functions and lemmas.

## Findings

Seven promises hold only under a condition, which is stated and proved exactly.

* **A run that makes no progress is stopped** (`engine.py:457-460`, `engine.py:535-550`). The loop
  compares a marker with the one before only. Where an approved record has gone from the source since
  the plan, its route is never completed and its pages are read again from the first; over two pages
  or more the marker goes round with them and the apply never ends. A first apply over a fixed source
  ends if and only if every route that lacks a candidate is read in one page
  (`MigrationPages.EndsIffLostRoutesHaveOnePage`, with the smallest endless apply in
  `DeletedRecordNeverStalls`). For any batches that see only the marker, `MigrationProgress.StopsIffOrbitHalts`
  gives the exact condition on the markers.
* **Applied means the reviewed plan was applied** (`engine.py:464-467`). A completed journal makes
  `apply` run nothing and report success, whatever plan has been saved since; and the journal keeps
  which routes are completed but not for which candidates. A run that reads applied has run the
  reviewed plan if and only if its journal was open (`MigrationRuns.Run.Apply`), and has brought all of
  its candidates if and only if those of the routes it skipped had arrived before
  (`MigrationArrival.AppliedBringsAllIffSkippedHadArrived`).
* **Verified means every candidate arrived** (`engine.py:411-436`). Verification counts. Of a verified
  route every candidate has arrived if and only if nothing else has
  (`Ledger.VerifiedMeansArrivedIffNothingElseDid`); after planning again a route verifies exactly if its
  candidates are as many as before (`MigrationReplan.ReplannedRouteVerifiesByCount`), and
  `MigrationReplan.PlannedTwice` is a run in which none of them arrived.
* **Terminal counts and route keys** (`state.py:294-362`). The summary and the terminal identities of a
  route agree exactly when the older ledger adds nothing to the newer results
  (`Ledger.SummaryCountsTerminalRecords`), and a route key names its pair exactly when neither name
  holds a bar (`RouteNamesItsPair`; `BarsMisleadTheSplit` is what happens otherwise).
* **Alias of a generated key** (`fix.py:76-78`). An invocation without a key that is killed between
  its two links leaves a key that is shown and submitted but has no path of its own; an explicit
  retry then files another body under it. `IntentFiles.KilledBeforeAlias` is such a run.
  A key shown by an invocation that ran on is always found again (`ShownKeysAreFound`).
  `AgreementStep` and `RunsAgreeIffLinksDo` say for every file operation and every run whether keys and
  requests stay in agreement, and `OneRequestPerKey` proves the promise for runs in which no generated
  key is passed explicitly under its binding before it can be found.
* **Sets of tuples** (`connector_host.py:135-228`). A set element containing a tuple or a frozen set is
  encoded but refused by the decoder, since it comes back as an unhashable list or set.
  `WireCodec.RoundTrip` is an if-and-only-if.
* **Empty candidate hash** (`planner.py:99-123`). A plan with an empty candidate hash reads back with
  none. `PlanPayload.PlansAreLossless` is an if-and-only-if; the engine never makes such a plan.

Two more facts that a reader of the code may not expect: a host that is slow to start and then fails
has its error refused for a wrong id (`ConnectorChannel.SlowStartIsRefused`), and `_price` admits
several spellings of one number, with minus zero among them (`Decimals.PricesAreNotUnique`).

## Model

| member | source | states |
|---|---|---|
| JsonGuard.AcceptsIffStrictJson | packages/sanka-cli/src/sanka_extensions/flow/_wire.py:77-99 | on every finite heap, shared or cyclic, the guard accepts exactly when no cycle is reachable, every reachable key is a string and every reachable leaf a finite JSON scalar |
| JsonGuard.AcceptsIffUnfolds | packages/sanka-cli/src/sanka_extension_sdk/contract.py:88-121 | independent reference: a value is accepted exactly when it has a finite tree unfolding, so sharing is no obstacle |
| JsonGuard.ExactAcceptsIffUnfoldsExactly | packages/sanka-cli/src/sanka_extensions/flow/_wire.py:77-99 | the exact-type guard accepts exactly what has a finite tree unfolding and reaches nothing, container, key or leaf other than None, whose type is not a built-in type itself |
| JsonGuard.UnfoldingIsUnique | packages/sanka-cli/src/sanka_extension_sdk/contract.py:88-121 | a value has at most one unfolding, so the copy returned is determined |
| JsonGuard.UnfoldingForbidsCycles | packages/sanka-cli/src/sanka_extension_sdk/contract.py:100-119 | what has an unfolding reaches no cycle |
| JsonGuard.AcceptedPath | packages/sanka-cli/src/sanka_extensions/flow/_wire.py:82-97 | from an accepted object every path is free of repetition, avoids the ancestors and ends in an acceptable object |
| JsonGuard.CleanIsAccepted | packages/sanka-cli/src/sanka_extensions/flow/_wire.py:77-99 | conversely, an object from which no cycle, ancestor or unacceptable object is reachable is accepted |
| JsonGuard.Guard.ValidateJson | packages/sanka-cli/src/sanka_extensions/flow/definition.py:40-64 | the search with a mutable ancestor set: it ends, gives the verdict of the specification and restores the set on every exit |
| JsonGuard.Guard.CopyJson | packages/sanka-cli/src/sanka_extension_sdk/contract.py:88-121 | the copying search returns the unfolding of what it accepts and restores the ancestor set |
| JsonGuard.CanonicalGuard | packages/sanka-cli/src/sanka_extensions/flow/_wire.py:102-106 | a call from outside accepts exactly what unfolds to a finite tree and, in exact-type mode, is of built-in types throughout; said also as reachability of cycles and bad objects |
| JsonGuard.JsonObject | packages/sanka-cli/src/sanka_extension_sdk/contract.py:124-128 | accepted exactly when the value unfolds to a dict; the tree returned is its unfolding |
| IntentFiles.IntentsAreForever | packages/sanka-cli/src/sanka_cli/commands/fix.py:59-88 | once an intent path exists no file operation of any process changes what it holds |
| IntentFiles.RunKeepsInv | packages/sanka-cli/src/sanka_cli/commands/fix.py:34-88 | over any interleaving with crashes, intents are never partial and what they hold persists to the end of the run |
| IntentFiles.FirstWriterWins | packages/sanka-cli/src/sanka_cli/commands/code_cloud.py:37-77 | every path shows a whole record, all submissions of one path are one request under one key, an explicit key is the key sent, and nobody submits a request saved for other inputs |
| IntentFiles.LaterSubmissionsRepeatIt | packages/sanka-cli/src/sanka_cli/commands/fix.py:190-244 | after an intent exists, everything its path ever submits, before or after, is that intent |
| IntentFiles.OperationsAreInOrder | packages/sanka-cli/src/sanka_cli/commands/fix.py:34-88 | every invocation does its file operations in order, and what it submits is the record it looked up or read back |
| IntentFiles.FoundOrRefused | packages/sanka-cli/src/sanka_cli/commands/fix.py:34-56 | an invocation that finds an intent takes exactly what the path holds, or stops where it was saved for other inputs |
| IntentFiles.AliasMakesPath | packages/sanka-cli/src/sanka_cli/commands/fix.py:76-78 | after the second link the key that an intent carries has its own path, the very file of the intent where it had none |
| IntentFiles.ShownKeysAreFound | packages/sanka-cli/src/sanka_cli/commands/fix.py:76-78 | over every run, a key that was submitted by the invocation that made its intent is found again: a later invocation given that key reads a saved request under it, and the very request that was submitted if no link of the run put another beside the key |
| IntentFiles.DisciplinedLinksAgree | packages/sanka-cli/src/sanka_cli/commands/fix.py:72-78 | under the discipline of `OneRequestPerKey` no link puts another request beside a key, so every shown key leads to the very request that was submitted |
| IntentFiles.SaversCreate | packages/sanka-cli/src/sanka_cli/commands/fix.py:59-88 | the invocations that make their intent are those that created a temporary somewhere in the run |
| IntentFiles.AgreementStep | packages/sanka-cli/src/sanka_cli/commands/fix.py:72-78 | a file operation keeps "one key, one request" if and only if it is not a link that files a known key with another request |
| IntentFiles.RunsAgreeIffLinksDo | packages/sanka-cli/src/sanka_cli/commands/fix.py:59-88 | and so, over whole runs from any agreeing state, the intents agree at the end if and only if no link of the run did that |
| IntentFiles.DisciplinedStep | packages/sanka-cli/src/sanka_cli/commands/fix.py:72-78 | the alias invariant is kept by every step that does not pass, under the binding it was generated for, a key whose alias does not exist yet |
| IntentFiles.OneRequestPerKey | packages/sanka-cli/src/sanka_cli/commands/fix.py:190-244 | under that discipline no idempotency key of a binding reaches the server with two requests |
| IntentFiles.KilledBeforeAlias | packages/sanka-cli/src/sanka_cli/commands/fix.py:76-78 | without it a concrete run submits two bodies under one key |
| ConnectorChannel.RunKeepsInv | packages/sanka-cli/src/sanka/runtime/connector_client.py:82-150 | the channel invariant survives every run of requests, timeouts, interrupted waits, failed starts, host deaths, kills and restarts |
| ConnectorChannel.RepliesBelong | packages/sanka-cli/src/sanka/runtime/connector_client.py:171-294 | every value returned is what a host computed for that very request, request ids never repeat, and a reply is refused for its id only if it is the id-0 error of a host that failed to start or the late answer to an abandoned request |
| ConnectorChannel.TakeReturnsIff | packages/sanka-cli/src/sanka/runtime/connector_client.py:212-257 | a waiting client that takes a line returns its value if and only if nothing but its own request is under way |
| ConnectorChannel.CalmRunsRefuseNothing | packages/sanka-cli/src/sanka/runtime/connector_client.py:110-150 | without failed starts and interrupted waits no reply is ever refused: output of a killed process is never looked at |
| ConnectorChannel.SlowStartIsRefused | packages/sanka-cli/src/sanka/runtime/connector_host.py:447-452 | a start that fails after the client stopped waiting for unasked output puts an id-0 error before the first request, which refuses it |
| ConnectorChannel.LateAnswerIsRefused | packages/sanka-cli/src/sanka/runtime/connector_client.py:205-257 | the answer to an interrupted request reaches the next request and is refused, not returned |
| ConnectorChannel.LiveHostCompletes | packages/sanka-cli/src/sanka/runtime/connector_client.py:205-257 | while the host lives, answering, moving the line and taking it completes the request with the host's outcome |
| ConnectorChannel.SendsOnlyWhenSilent | packages/sanka-cli/src/sanka/runtime/connector_client.py:171-186 | a request goes out, under the next id, exactly if the host lives and has said nothing unasked; otherwise the process is let go |
| ConnectorChannel.LetGoIsDead | packages/sanka-cli/src/sanka/runtime/connector_client.py:278-294 | a process the client lets go is dead, and the client is idle on a fresh queue |
| ConnectorChannel.GoneForGood | packages/sanka-cli/src/sanka/runtime/connector_client.py:278-294 | over any run a process that was let go is never used again, is sent nothing, and computes and writes nothing |
| ConnectorChannel.EndComesLast | packages/sanka-cli/src/sanka/runtime/connector_client.py:145-150 | the end of a host's output is reported once, after every line it wrote |
| ConnectorChannel.DeadHostEndsTheRequest | packages/sanka-cli/src/sanka/runtime/connector_client.py:212-223 | a client waiting for a host that died is told so and gives the request up without a value |
| Framing.FramedIffWithinLimit | packages/sanka-cli/src/sanka/runtime/connector_client.py:145-150 | a one-line document passes a bounded `readline` whole, with nothing else consumed, if and only if it is within the limit |
| Framing.StreamsAreLossless | packages/sanka-cli/src/sanka/runtime/connector_host.py:447-479 | a stream of documents that fit is read back as exactly those documents |
| Framing.EmittedLinesFit | packages/sanka-cli/src/sanka/runtime/connector_host.py:424-445 | every line either side emits, the limit error included, fits the other side's limit |
| Framing.EmitsIffRead | packages/sanka-cli/src/sanka/runtime/connector_client.py:198-204 | a request is sent exactly if the host would read it, and a reply is replaced by the limit error exactly if the client would not |
| Framing.CutOffLinesAreRefused | packages/sanka-cli/src/sanka/runtime/connector_client.py:224-228 | a line cut off before its newline is never accepted, whatever came before it |
| WireCodec.RoundTrip | packages/sanka-cli/src/sanka/runtime/connector_host.py:135-228 | an encoded value decodes to itself, tuples read as lists and frozen sets as sets, if and only if no set element contains a tuple or a frozen set, and is refused otherwise; dicts holding the marker key at any depth included |
| WireCodec.ScalarSetsTravel | packages/sanka-cli/src/sanka/runtime/connector_host.py:150-158 | sets of scalars are always safe, whatever surrounds them |
| WireCodec.HashableAfterTheWire | packages/sanka-cli/src/sanka/runtime/connector_host.py:186-196 | a hashable element is hashable after the wire exactly when nothing in it changes type |
| WireCodec.SetOfTuplesIsLost | packages/sanka-cli/src/sanka/runtime/connector_host.py:186-196 | a set of one tuple is encoded and then refused |
| WireCodec.DictObjectDecodes | packages/sanka-cli/src/sanka/runtime/connector_host.py:160-176 | a dict travels as a plain object or, when it holds the marker key, as an escaped list of pairs, and is read back as a dict either way, never as a set or dataclass |
| WireForms.SentIffSendable | packages/sanka-cli/src/sanka/runtime/connector_host.py:135-176 | a value is sent if and only if each of its parts may be: no number that is not finite, no foreign object, no key that is not a string, no set that cannot be sorted, no unpublished dataclass |
| WireForms.ReadIffSpelled | packages/sanka-cli/src/sanka/runtime/connector_host.py:179-228 | a document is read as a value if and only if it spells that value: lists item by item, sets by lists of hashable elements, dicts by themselves or by pairs of distinct keys, instances by their name and exactly their fields; every other document is refused |
| WireForms.ReadValuesTravel | packages/sanka-cli/src/sanka/runtime/connector_host.py:135-228 | what is read holds no tuple and no frozen set, and wherever it can be sent on the next reader reads the very same value |
| PlanPayload.FieldsAreLossless | packages/sanka-cli/src/sanka/runtime/planner.py:225-296 | every mapping field reads back as itself although the default empty-value policy is not written |
| PlanPayload.PlansAreLossless | packages/sanka-cli/src/sanka/runtime/planner.py:70-123 | a plan reads back from its payload as itself if and only if its candidate hash is not the empty string |
| PlanPayload.ReviewedHashIsRecomputed | packages/sanka-cli/src/sanka/runtime/planner.py:94-123 | the hash recomputed from the stored document is the hash that was reviewed |
| PlanPayload.HashesSeparatePlans | packages/sanka-cli/src/sanka/runtime/planner.py:94-97 | plans with one hash are one plan |
| MigrationRuns.Run.SavePlan | packages/sanka-cli/src/sanka/runtime/engine.py:240-281 | the row then holds this plan, its payload and the hash of that payload, and nothing else of the run changes |
| MigrationRuns.ClaimsAreFenced | packages/sanka-cli/src/sanka/runtime/execution/local.py:376-425 | a claim is refused where a cancellation was recorded in either place, where the journal is completed and where another attempt holds it, and then changes nothing; otherwise the row becomes the attempt's own |
| MigrationRuns.SavesKeepWork | packages/sanka-cli/src/sanka/runtime/execution/local.py:306-334 | where another attempt holds the row a save is dropped; where a cancellation was recorded first, in either place, the status is cancelled and the batch's marker, count and scope are kept; otherwise the row holds exactly the entry |
| MigrationRuns.BeginKeeps | packages/sanka-cli/src/sanka/runtime/engine.py:464-511 | beginning keeps the marker and the batch count, goes on only if the journal is open and its scope is the approved one, binds the entry to that scope, and reports success only on a completed journal |
| MigrationRuns.Run.Drive | packages/sanka-cli/src/sanka/runtime/engine.py:441-550 | the loop over the mutable run does what the drive of the specification does, batch for batch |
| MigrationRuns.DrivesKeepTheirPromises | packages/sanka-cli/src/sanka/runtime/engine.py:441-550 | in every world: each batch runs under the approval given and continues the one before; none on a completed or cancelled journal, under a scope the journal does not admit, or after a batch without progress; all but possibly the last are counted; success without a batch means the journal was completed before, and only then |
| MigrationRuns.ApprovalIsThePlan | packages/sanka-cli/src/sanka/runtime/engine.py:552-574 | an approval is the plan's own routes in its order, each with exactly the plan's candidates, trimmed, ascending, without empty ones, and the target fields that identify a record |
| MigrationRuns.ScopesMatchIffRoutesDo | packages/sanka-cli/src/sanka/runtime/engine.py:576-590 | a saved scope matches exactly if it lists the same routes with the same identity fields, whatever their order and candidates |
| MigrationRuns.Run.Apply | packages/sanka-cli/src/sanka/runtime/engine.py:327-385 | drives exactly if a plan was saved, its hash was given, and it has bare-named routes under distinct keys of their own and an accepted candidate hash; every refusal has its own cause and changes nothing; the hash of a plan drives that plan or nothing; every batch runs under its approval; it reads applied, cancelled, failed or applying exactly by how the drive ended; and applied without a batch means the journal was completed before |
| MigrationRuns.Lifetime | packages/sanka-cli/src/sanka/runtime/state.py:223-245 | over every sequence of plans and applies, with crashes and foreign writers, the stored hash matches the stored payload, the plan is the last one saved, a run reads applied only with a completed journal, and no apply drove anything but the plan saved last before it, under its hash |
| MigrationRuns.OlderReviewsAreRefused | packages/sanka-cli/src/sanka/runtime/engine.py:327-342 | an older review has the present hash only if it is the same plan |
| MigrationProgress.ClimbingDrivesStop | packages/sanka-cli/src/sanka/runtime/engine.py:515-550 | where every batch that goes on moves the marker up a bounded scale, a drive ends after at most one batch more than there are ranks left |
| MigrationProgress.KilledDrivesStop | packages/sanka-cli/src/sanka/runtime/engine.py:441-550 | a drive whose process is killed ends, whatever its batches do |
| MigrationProgress.StopsIffOrbitHalts | packages/sanka-cli/src/sanka/runtime/engine.py:535-550 | over k markers and batches that see only the marker, the drive ends if and only if the orbit of its start meets a fault, a batch with nothing more to do or a fixed point within k batches, and then ends within k batches |
| MigrationProgress.AlternatingMarkersNeverStall | packages/sanka-cli/src/sanka/runtime/engine.py:535-550 | a source whose cursor alternates between two values is never stopped |
| RouteBatches.ArrivesIffBrought | packages/sanka-cli/src/sanka/runtime/execution/local.py:97-118 | after the writes of a batch a record has a terminal row exactly if it had one or was written with a terminal status |
| RouteBatches.Snapshot.TakeBatch | packages/sanka-cli/src/sanka/runtime/execution/routes.py:353-943 | the loops over routes, records and states leave exactly the checkpoints, completed routes and results that the batch of the specification says, a failing read included |
| RouteBatches.RouteTouchesOne | packages/sanka-cli/src/sanka/runtime/execution/routes.py:394-938 | whatever happens to one route of a batch, the checkpoints, completion and results of the others stay |
| RoutePlaces.PageLeavesRoute | packages/sanka-cli/src/sanka/runtime/execution/routes.py:873-938 | after a page on which some approved record has not arrived the route stays open, its checkpoint the approved record before the first such one, or the cursor it was read at; otherwise the next page, or completed exactly if every candidate has arrived |
| RoutePlaces.SomeFirstMissing | packages/sanka-cli/src/sanka/runtime/execution/routes.py:873-914 | a page on which not every approved record has arrived has a first such record, which is the one those places refer to |
| RoutePlaces.BatchLeavesRoute | packages/sanka-cli/src/sanka/runtime/execution/routes.py:394-943 | the same of the marker and results after the whole batch; and exactly the approved records of the page that the destination takes are brought |
| RoutePlaces.NextReadIsBeforeTheFailure | packages/sanka-cli/src/sanka/runtime/execution/routes.py:508-516 | the next batch reads on at the record before the first that has not arrived |
| RoutePlaces.BatchFailsIffUnreadable | packages/sanka-cli/src/sanka/runtime/execution/routes.py:519-526 | a batch fails exactly if the page of some open route cannot be read, and then no checkpoint moves |
| RoutePlaces.ClosedRoutesRest | packages/sanka-cli/src/sanka/runtime/execution/routes.py:425-446 | a route that is completed or has no candidates is completed after the batch, and nothing of it is read or brought |
| RoutePlaces.BatchWritesAnswers | packages/sanka-cli/src/sanka/runtime/execution/routes.py:823-838 | every result of a batch is what the destination answered for that record |
| RouteBatches.RoutesAreHonest | packages/sanka-cli/src/sanka/runtime/execution/routes.py:424-943 | a batch writes only approved candidates of open routes, completes a route only when every candidate has a terminal row, and reports nothing more to do only when every route is completed |
| MigrationArrival.OnlyCandidatesAreWritten | packages/sanka-cli/src/sanka/runtime/execution/routes.py:353-378 | however a drive ends, it changes no result but those of approved candidates of routes its journal had left open, and loses no terminal one |
| MigrationArrival.AppliedBringsAllIffSkippedHadArrived | packages/sanka-cli/src/sanka/runtime/engine.py:464-550 | after a finished drive every approved candidate has arrived if and only if those of the routes that the journal already called completed had arrived before |
| MigrationPages.BatchMoves | packages/sanka-cli/src/sanka/runtime/execution/routes.py:475-943 | over a fixed source every batch takes every open route to its next page, closes it at the end of a pass exactly if no candidate is lacking, and otherwise starts the pass again |
| MigrationPages.EndsIffLostRoutesHaveOnePage | packages/sanka-cli/src/sanka/runtime/engine.py:441-550 | a first apply over a fixed source ends if and only if every route that lacks a candidate is read in a single page; it is then finished exactly if nothing is lacking, and stalled otherwise |
| MigrationPages.DeletedRecordNeverStalls | packages/sanka-cli/src/sanka/runtime/engine.py:457-460 | one approved record deleted from a source of two pages, and the first apply never ends |
| MigrationReplan.FirstApplyBringsExactly | packages/sanka-cli/src/sanka/runtime/execution/routes.py:915-938 | a first apply that finishes brings exactly the approved candidates, each in a terminal status |
| MigrationReplan.ReplannedRouteVerifiesByCount | packages/sanka-cli/src/sanka/runtime/engine.py:387-439 | whatever is planned afterwards, its apply changes no result, its route verifies if and only if it has as many candidates as the plan that ran, and its candidates have all arrived if and only if each was one of that plan's |
| MigrationReplan.PlannedTwice | packages/sanka-cli/src/sanka/runtime/engine.py:464-467 | a run of plan, apply, plan, apply that reads applied for the second plan, ran nothing under it, verifies, and never brought its one record |
| Candidates.AddPage | packages/sanka-cli/src/sanka/runtime/engine.py:604-622 | one page adds its trimmed identities, or a record without identity or a repeated identity is there |
| Candidates.CandidateIds | packages/sanka-cli/src/sanka/runtime/engine.py:592-635 | ends on finitely many cursors, reads each at most once; the list is ascending, free of duplicates and holds exactly the identities of the pages reached; every refusal is justified |
| Candidates.FrozenListIsCanonical | packages/sanka-cli/src/sanka/runtime/engine.py:633-635 | the frozen list depends only on the set of identities |
| Candidates.SamePagesSameCandidates | packages/sanka-cli/src/sanka/runtime/engine.py:592-635 | two paginations of the same records, in any order and batch size, approve the same list |
| Ledger.Store.RecordResults | packages/sanka-cli/src/sanka/runtime/state.py:267-292 | the batch loop computes the recorded ledger |
| Ledger.LastWriterWins | packages/sanka-cli/src/sanka/runtime/state.py:267-292 | after a batch every record it names has the row of its last entry; all other rows are as before |
| Ledger.ReplayChangesNothing | packages/sanka-cli/src/sanka/runtime/state.py:267-292 | delivering a batch again changes nothing |
| Ledger.Store.UpsertResults | packages/sanka-cli/src/sanka/runtime/execution/local.py:97-118 | the upsert loop computes the merged results |
| Ledger.TerminalIsFinal | packages/sanka-cli/src/sanka/runtime/execution/local.py:97-118 | a terminal status never changes and a known destination is never lost, whatever is delivered later |
| Ledger.UpsertsKeepHistory | packages/sanka-cli/src/sanka/runtime/execution/local.py:97-118 | over any delivered sequence a record keeps the last known destination, the first terminal status, and the message of its last terminal row, or of its last row as long as it has only failed |
| Ledger.CountsAreRecords | packages/sanka-cli/src/sanka/runtime/state.py:322-341 | the status counts of a route add up to its distinct records |
| Ledger.RouteNamesItsPair | packages/sanka-cli/src/sanka/runtime/mapping/record_mapping.py:49-57 | the pair is read back from its route key if and only if neither object name holds a bar |
| Ledger.PlainPairsAreAlone | packages/sanka-cli/src/sanka/runtime/state.py:343-362 | no other pair, whatever its names, has the route key of two names without a bar |
| Ledger.SummaryOfAPair | packages/sanka-cli/src/sanka/runtime/state.py:322-362 | where no other pair has its key, the summary of a route holds the counts of its pair if that has results, and the older ledger's otherwise, in whatever order the database groups the rows |
| Ledger.SharedKeysKeepTheLast | packages/sanka-cli/src/sanka/runtime/state.py:343-362 | where several pairs share a route key the summary holds, status by status, the count of the last group that has rows of it |
| Ledger.SummaryCountsTerminalRecords | packages/sanka-cli/src/sanka/runtime/state.py:294-362 | the terminal counts of a filter-less route of plain names equal its number of terminal records if and only if the pair-keyed results are empty or contain every terminal record of the older ledger |
| Ledger.BarsMisleadTheSplit | packages/sanka-cli/src/sanka/runtime/state.py:308-319 | with a bar in an object name a terminal record is counted but not found |
| Ledger.VerifiedMeansArrivedIffNothingElseDid | packages/sanka-cli/src/sanka/runtime/engine.py:411-436 | of a route that verifies, every candidate has arrived if and only if nothing but candidates has; and where exactly the candidates arrived it verifies if and only if no record failed |
| Ledger.VerifiedWhenAllArrived | packages/sanka-cli/src/sanka/runtime/engine.py:411-436 | as long as only candidates were written, a route verifies if and only if every candidate arrived in a terminal status |
| BillingDeliveries.CheckDeliveries | packages/sanka-cli/src/sanka_extensions/flow/native_verification.py:201-221 | the loop accepts exactly the accepted sequences and ends with their final invoices |
| BillingDeliveries.InvoicesAreBounded | packages/sanka-cli/src/sanka_extensions/flow/native_verification.py:201-221 | for sequences of any length the final invoices stay in the fixture, include the seeded ones and every unharmed complete import, and contain nothing that no complete import billed |
| BillingDeliveries.InvoicesOnlyGrow | packages/sanka-cli/src/sanka_extensions/flow/native_verification.py:201-221 | billed keys never shrink along an accepted sequence |
| BillingDeliveries.IdleDeliveriesCanBeDropped | packages/sanka-cli/src/sanka_extensions/flow/native_verification.py:206-213 | an incomplete delivery, or one that stops after the import, can be left out without changing the outcome |
| BillingDeliveries.CasesEndAlike | packages/sanka-cli/src/sanka_extensions/flow/native_verification.py:224-285 | retry, handoff retry, repeated schedule and overlap end with the invoices of one uninterrupted run; incomplete imports end with the seeded set; a scoped run adds its import and leaves an unbilled Order |
| BillingDeliveries.RetryRecoversCommittedInvoices | packages/sanka-cli/src/sanka_extensions/flow/native_verification.py:214-219 | an interrupted invoice run has committed some invoice and the retry adds the rest |
| BillingDeliveries.AcceptedIffExercises | packages/sanka-cli/src/sanka_extensions/flow/native_verification.py:150-285 | a scenario is accepted exactly if, on a fixture with billed, unbilled and new records, it exercises what its case is named for: who runs when and under which run id, what fails where, what is imported, and exactly what is billed after each attempt |
| BillingDeliveries.EveryCaseExactlyOnce | packages/sanka-cli/src/sanka_extensions/flow/native_verification.py:347-356 | the coverage test, though it only counts, means every case occurs exactly once and is required |
| BillingDeliveries.SuitesExerciseEveryCase | packages/sanka-cli/src/sanka_extensions/flow/native_verification.py:347-370 | an accepted suite has exactly one scenario of each case, required, of its workflow with its mapping and configuration, which exercises that case; the repeated schedule comes exactly one configured interval later |
| FixturePages.PagesAreTheFixture | packages/sanka-cli/src/sanka_extensions/flow/native_fixtures.py:279-328 | pages that pass at their indexes yield each record key of the scenario exactly once, and the keys with an initial Order or invoice are exactly the scenario's |
| FixturePages.PagesCannotBeSwapped | packages/sanka-cli/src/sanka_extensions/flow/native_fixtures.py:253-257 | a page pinned under one index never passes under another |
| FixturePages.PassesIffPinned | packages/sanka-cli/src/sanka_extensions/flow/native_fixtures.py:249-253 | under one manifest exactly one page passes at each index |
| FixturePages.PinnedIffPaged | packages/sanka-cli/src/sanka_extensions/flow/native_fixtures.py:236-328 | pages have an admissible manifest under which they pass exactly if they are pages of one to a hundred records in key order, two to ten thousand in all, no key and no artifact twice, with a baseline of Orders and invoices among them that the records carry |
| Decimals.AcceptsCanonicalNumerals | packages/sanka-cli/src/sanka_extensions/flow/native_fixtures.py:42-57 | `decimal_value` accepts exactly the canonical numerals of at most 64 characters that are zero or from 10^-32 up to below 10^33 in magnitude |
| Decimals.OneSpellingPerNumber | packages/sanka-cli/src/sanka_extensions/flow/native_fixtures.py:42-57 | accepted strings that denote one number are one string |
| Decimals.EveryNumberHasItsSpelling | packages/sanka-cli/src/sanka_extensions/flow/native_fixtures.py:52-57 | and every decimal in the bounds whose canonical text has at most 64 characters has such a spelling |
| Decimals.CanonicalKeepsNumber | packages/sanka-cli/src/sanka_extensions/flow/native_fixtures.py:52-54 | canonicalising any decimal keeps its number |
| Decimals.CanonicalText | packages/sanka-cli/src/sanka_extensions/flow/native_fixtures.py:52-54 | formatting and stripping zeros and the point computes the canonical spelling |
| Decimals.DecimalValue | packages/sanka-cli/src/sanka_extensions/flow/native_fixtures.py:42-57 | returns its argument exactly when it is accepted |
| Decimals.PricesAreFixedPoint | packages/sanka-cli/src/sanka_extensions/flow/native_process_recipes.py:58-71 | `_price` accepts exactly the fixed-notation numerals of at most 30 characters and six places, without superfluous leading zeros, from zero to 10^9 |
| Decimals.PriceIsMillionths | packages/sanka-cli/src/sanka_extensions/flow/native_process_recipes.py:58-71 | an accepted price is an exact number of millionths between 0 and 10^15 |
| Decimals.PricesAreNotUnique | packages/sanka-cli/src/sanka_extensions/flow/native_process_recipes.py:58-71 | "1", "1.0" and "-0" are accepted, so prices have no single spelling |
| Ordering.UniqueIsCanonical | packages/sanka-cli/src/sanka_extensions/flow/_wire.py:62-66 | `unique` is blind to the order of its input, refusals included |
| Ordering.UniqueIsIdempotent | packages/sanka-cli/src/sanka_extensions/flow/_wire.py:62-66 | what it returns ascends and is accepted unchanged a second time |
| Ordering.SortIsCanonical | packages/sanka-cli/src/sanka_extensions/flow/graph.py:373-375 | sorting by a key that tells elements apart is blind to input order and idempotent, repeated elements included |
| Ordering.JoinedOrder | packages/sanka-cli/src/sanka_extensions/flow/blueprint.py:246-250 | comparing keys joined by NUL is comparing the tuples, for parts without NUL |
| FlowBuild.BuildsIffAcyclic | packages/sanka-cli/src/sanka_extensions/flow/blueprint.py:134-144 | the rounds build everything if and only if every dependency resolves and no chain of dependencies returns to its start |
| FlowBuild.CheckDependencies | packages/sanka-cli/src/sanka_extensions/flow/blueprint.py:134-144 | the loops decide exactly that, within as many rounds as there are resources |
| FlowBuild.TakeRounds | packages/sanka-cli/src/sanka_extensions/flow/blueprint.py:140-144 | the shrinking loop ends empty exactly when the resources can be built |
| FlowBuild.UsedIsClosed | packages/sanka-cli/src/sanka_extensions/flow/blueprint.py:379-409 | in an accepted Blueprint the one-step expansion over parents and related objects is everything that following them can reach |
| FlowBuild.NothingIsMetUnbuilt | packages/sanka-cli/src/sanka_extensions/flow/blueprint.py:334-409 | when a resource's round comes, every reference it leads to resolves, and a planned one is the plan of a resource of its kind built in an earlier round |
| FlowBuild.EveryResourceIsBuilt | packages/sanka-cli/src/sanka_extensions/flow/blueprint.py:134-144 | every resource of an accepted Blueprint gets its round |
| FlowBuild.OwnersOwnNothing | packages/sanka-cli/src/sanka_extensions/flow/identity.py:152-167 | parents and related objects are objects, which have neither |
| FlowBuild.MappingsKeepStructure | packages/sanka-cli/src/sanka_extensions/flow/blueprint.py:353-378 | the mappings of an accepted Blueprint are one to one, and the images of mapped references have the images of their parents and related objects |
| FlowExample.ExampleIsAccepted | packages/sanka-cli/src/sanka_extensions/flow/blueprint.py:192-427 | a v2 Blueprint with planned and source references, mappings between them, a workflow and its three required scenarios is accepted exactly as written, so what is proved of accepted Blueprints is not empty |
| FlowExample.MappedPropertyLeadsToMappedObject | packages/sanka-cli/src/sanka_extensions/flow/blueprint.py:353-378 | in it the image of the source property belongs to the image of the source object |
| FlowProgress.EveryEventIsDecided | packages/sanka-cli/src/sanka_extensions/flow/blueprint.py:429-468 | on every event of every accepted scenario the trigger and the condition can be evaluated: no missing field, no reference of the wrong kind or owner |
| FlowProgress.EveryMatchIsDescribed | packages/sanka-cli/src/sanka_extensions/flow/blueprint.py:429-482 | on every match or retry event the created and the expected record can both be described in full, with the same fields and associations |
| FlowProgress.CreationNeverReadsBefore | packages/sanka-cli/src/sanka_extensions/flow/graph.py:414-447 | a record.created graph never reads a before value, nor does what its scenarios expect |
| FlowProgress.EveryWorkflowIsExercised | packages/sanka-cli/src/sanka_extensions/flow/blueprint.py:420-427 | without findings every workflow has, for every case, a required scenario of it: a no_match with one event that can be decided and nothing expected, a match on whose one event its record can be described in full, and a retry that repeats such an event unchanged |
| FlowProgress.AssociationsAreThere | packages/sanka-cli/src/sanka_extensions/flow/graph.py:450-474 | associations that refer well evaluate to a record of the related object |
| FlowProgress.DescribedIffThere | packages/sanka-cli/src/sanka_extensions/flow/graph.py:430-474 | a record is described if and only if its object is known, each field is a property of it whose value the event supplies, and each association leads to a record of the related object |
| FlowProgress.DecidedIffThere | packages/sanka-cli/src/sanka_extensions/flow/blueprint.py:429-468 | an event is decided if and only if its trigger names an object, no watched field of an update is missing and, where what the trigger waits for occurs, both sides of the condition are there |
| FlowRules.ReferencesAreSound | packages/sanka-cli/src/sanka_extensions/flow/identity.py:114-167 | no identity and no meaning occurs twice; each reference belongs to an object of its own side; planned ones are resources of the Blueprint of their kind; a template maps nothing and knows no source |
| FlowRules.MappingsAreSound | packages/sanka-cli/src/sanka_extensions/flow/blueprint.py:353-378 | mappings lead from the source to the target, keep the kind, and neither side occurs twice |
| FlowRules.WorkflowsAreSound | packages/sanka-cli/src/sanka_extensions/flow/graph.py:340-447 | a workflow runs from one trigger, past at most one condition, to one action, along exactly those edges; its nodes are well made; all they read and write are properties, relationships and records of the objects they name; creation reads no before value |
| FlowRules.SimpleResourcesAreSound | packages/sanka-cli/src/sanka_extensions/flow/blueprint.py:66-110 | an object or property is named, and a property belongs to an object of the target |
| FlowRules.ScenariosAreSound | packages/sanka-cli/src/sanka_extensions/flow/blueprint.py:429-482 | a scenario is of one of the workflows and supplies all that the workflow and its own expectations read, through properties of the triggering object alone, with the fields and associations that the action writes |
| FlowRules.CreationDecidesTheCase | packages/sanka-cli/src/sanka_extensions/flow/blueprint.py:444-455 | where nothing but creation decides, the action runs on the events of match and retry scenarios and on none of no_match |
| FlowRules.IdentifiersByExample | packages/sanka-cli/src/sanka_extensions/flow/_wire.py:16-27 | the texts, identifiers and digests at the edges of what is admitted |
| FlowCanonical.GraphsAreCanonical | packages/sanka-cli/src/sanka_extensions/flow/graph.py:340-375 | the order of nodes and edges changes neither acceptance nor the graph that is built |
| FlowCanonical.ActionsAreCanonical | packages/sanka-cli/src/sanka_extensions/flow/graph.py:241-257 | the order of fields and associations makes no difference |
| FlowCanonical.ScenariosAreCanonical | packages/sanka-cli/src/sanka_extensions/flow/scenario.py:93-124 | nor does that of expected fields and associations |
| FlowCanonical.ResourcesAreCanonical | packages/sanka-cli/src/sanka_extensions/flow/blueprint.py:66-110 | nor that of dependencies |
| FlowCanonical.BlueprintsAreCanonical | packages/sanka-cli/src/sanka_extensions/flow/blueprint.py:192-254 | reordering resources, references, mappings, scenarios or findings changes neither acceptance nor the Blueprint that is built |
| FlowCanonical.SpecsSettle | packages/sanka-cli/src/sanka_extensions/flow/graph.py:241-257 | a node specification that was built is built again unchanged |
| FlowCanonical.GraphsSettle | packages/sanka-cli/src/sanka_extensions/flow/graph.py:340-375 | so is a graph, which is what its round trip asks of it |
| FlowCanonical.ScenariosSettle | packages/sanka-cli/src/sanka_extensions/flow/scenario.py:93-124 | so is a scenario |
| FlowCanonical.ResourcesSettle | packages/sanka-cli/src/sanka_extensions/flow/blueprint.py:66-110 | and a resource |
| FlowCanonical.BlueprintsSettle | packages/sanka-cli/src/sanka_extensions/flow/blueprint.py:192-254 | what was built is built again unchanged from its own parts |
| FlowWire.ReferenceRoundTrip | packages/sanka-cli/src/sanka_extensions/flow/identity.py:91-111 | a valid reference reads back as itself |
| FlowWire.BindingRoundTrip | packages/sanka-cli/src/sanka_extensions/flow/graph.py:35-88 | each kind of binding, with its own members, reads back as itself |
| FlowWire.GraphRoundTrip | packages/sanka-cli/src/sanka_extensions/flow/graph.py:377-399 | a graph reads back as itself, with its version, though v1 is not written |
| FlowWire.ExplicitV1IsRefused | packages/sanka-cli/src/sanka_extensions/flow/graph.py:388-393 | a v1 graph that spells its version out is refused |
| FlowDocuments.EventRoundTrip | packages/sanka-cli/src/sanka_extensions/flow/scenario.py:63-79 | an event reads back as itself though its default operation is not written |
| FlowDocuments.ExplicitDefaultIsRead | packages/sanka-cli/src/sanka_extensions/flow/scenario.py:74-79 | and may spell that default out |
| FlowDocuments.ScenarioRoundTrip | packages/sanka-cli/src/sanka_extensions/flow/scenario.py:126-169 | a constructed scenario reads back as itself |
| FlowDocuments.ResourceRoundTrip | packages/sanka-cli/src/sanka_extensions/flow/blueprint.py:115-131 | a constructed resource reads back as itself |
| FlowDocuments.BlueprintRoundTrip | packages/sanka-cli/src/sanka_extensions/flow/blueprint.py:484-565 | every constructible v1 or v2 Blueprint reads back from its document as itself, elided members and recomputed capabilities included |
| FlowDocuments.ReadBlueprintsAreBuilt | packages/sanka-cli/src/sanka_extensions/flow/blueprint.py:504-565 | whatever document is read, the result is constructed, and writing and reading it again changes nothing |
| FlowDocuments.ReadDocumentsAreExact | packages/sanka-cli/src/sanka_extensions/flow/blueprint.py:504-565 | a document that is read has exactly its version's members, unweakened policies and the capabilities its Blueprint requires |
| FlowDocuments.DigestsTellBlueprints | packages/sanka-cli/src/sanka_extensions/flow/blueprint.py:264-266 | digests are equal exactly when the Blueprints are; reordered input has the same digest |
| FlowResponse.ResponsesSurviveTheWire | packages/sanka-cli/src/sanka_extensions/flow/protocol.py:468-563 | a constructed response reads back as itself, so it answers exactly the requests it answered before it was sent |
| FlowResponse.ReadResponsesAreSettled | packages/sanka-cli/src/sanka_extensions/flow/protocol.py:537-563 | a response that was read can be sent on unchanged |
| FlowResponse.AnswersOneRequest | packages/sanka-cli/src/sanka_extensions/flow/protocol.py:468-489 | whatever two requests a response is valid for agree in id, digest and extension, and if it succeeds in template, output version, references and parameters |
| FlowResponse.AnswersCarryTheRequest | packages/sanka-cli/src/sanka_extensions/flow/protocol.py:468-532 | a success carries the requested template, version, target references and parameters, maps nothing, leaves nothing unsupported, needs nothing the target lacks, and exercises each of its workflows in every case |
| FlowResponse.EveryRequestHasAnswers | packages/sanka-cli/src/sanka_extensions/flow/protocol.py:468-532 | every well-formed request can be refused, and a template Blueprint of its version, references and parameters answers it if and only if the target has every capability it requires |
| FlowExact.GraphsAreReadExactly | packages/sanka-cli/src/sanka_extensions/flow/graph.py:383-399 | a graph is read only from the document of nodes and edges that construct it |
| FlowExact.ScenariosAreReadExactly | packages/sanka-cli/src/sanka_extensions/flow/scenario.py:141-169 | a scenario only from the document of parts that construct it, with the creation count of its case |
| FlowExact.ResourcesAreReadExactly | packages/sanka-cli/src/sanka_extensions/flow/blueprint.py:115-131 | a resource likewise |
| FlowExact.BlueprintsAreReadExactly | packages/sanka-cli/src/sanka_extensions/flow/blueprint.py:504-565 | and a Blueprint, under the version, policies and required capabilities that are its own |
| FlowExact.ResponsesAreReadExactly | packages/sanka-cli/src/sanka_extensions/flow/protocol.py:537-563 | a response is read only from its own document, a Blueprint and no error or the reverse |
| LocalIo.SafeIffOwnEntry | packages/sanka-cli/src/sanka/runtime/safe_local_io.py:175-176 | a name is accepted exactly if it is an entry of the directory it is looked up in |
| LocalIo.Directory.WriteAll | packages/sanka-cli/src/sanka/runtime/safe_local_io.py:144-150 | after any short writes everything is written, or a prefix on failure; only the temporary file differs in between; it succeeds whenever each call takes at least a byte |
| LocalIo.Directory.WriteBytesAt | packages/sanka-cli/src/sanka/runtime/safe_local_io.py:166-208 | in every state the directory goes through the target holds its old content or all of the new; on return it holds the new and nothing else changed; it returns whenever no call fails |
| LocalIo.ReadBytes | packages/sanka-cli/src/sanka/runtime/safe_local_io.py:223-249 | returns the whole content of an unchanged file within the limit, always asks for at least one byte, takes at most one byte more than the limit, and refuses only on failure, change or size |
| LocalIo.Directory.CopyFile | packages/sanka-cli/src/sanka/runtime/safe_local_io.py:265-338 | the destination goes from its old content to the whole content of an unchanged source and to nothing else, whatever fails |
| BoundedMap.RunKeepsInvariant | packages/sanka-cli/src/sanka/runtime/concurrency.py:18-24 | permits and active tasks add up to the capacity, each move brings the end one nearer, and finished tasks hold their own results |
| BoundedMap.NeverMoreThanLimit | packages/sanka-cli/src/sanka/runtime/concurrency.py:18-22 | at most max(1, limit) workers are active in every interleaving |
| BoundedMap.AsManyAsLimit | packages/sanka-cli/src/sanka/runtime/concurrency.py:18-22 | and as many workers as max(1, limit) can be active at once if there are that many values |
| BoundedMap.NeverStuck | packages/sanka-cli/src/sanka/runtime/concurrency.py:18-24 | some task can always move until all are finished |
| BoundedMap.EveryRunEndsInOrder | packages/sanka-cli/src/sanka/runtime/concurrency.py:24-24 | every interleaving ends after two moves per value, and the result at each position is the worker's output for that position |

## Left out

Environment:

- JSON text and SHA-256: documents are parsed values and digests are injective functions of them, so text layout, duplicate names and encoding errors are not modelled.
- Python's recursion limit: the searches and codecs end on every finite value, but a very deep one would stop the interpreter first.
- Durability after power loss: files are modelled as processes see them; which directory entries survive a crash of the machine is not.
- Symbolic links, hard-link counts and directory walking in `safe_local_io`: each check is a call that may fail.
- Subprocess start-up, signals, clocks and SQLite: steps, maps and atomic operations; timeouts may happen at any time.
- A second process that writes the temporary file of another: temporary names carry 96 random bits.

Behaviour:

- In `run_batch`: relationships and parked references, owner mapping, field mapping, record-less identities and the counters of the snapshot; a write is a row that the destination returns, and `RouteBatches` keeps what decides cursors, results and completion.
- A process killed between the upsert and the journal of one batch is a death before its save; one killed inside a batch is a fault whose save never came.
- An interrupt in the middle of writing one request line: the line is sent or not sent.
- Plans whose route keys are not those of their objects: the planner makes none, and `RoutesFit` refuses them.
- Two `apply` calls of one run in one process at once: other processes may touch the journal before each operation, but the run row has one writer.
- `plan` construction (`build_plan`), provisioning, validation and retries with back-off: they would add easy members.
- `__post_init__` checks of the published connector dataclasses: `WireCodec` rebuilds the fields, not their validation.
- Native profiles and Blueprint versions v3 to v5: they carry no portable graph; a document of those versions is not read by this model.
- `BlueprintRequest` construction and capability negotiation: `validate_for` is modelled on the request's fields.
- An executor of Flow graphs: the repository declares meaning only, so `FlowProgress` evaluates bindings and nothing else; which changed field fires a trigger is its own reading.
- HTTP clients, command parsing, terminal output, configuration, packaging scripts and re-export modules: plumbing.

Members that say less than the source could be read to promise:

- Decimals.Parse: does not model surrounding whitespace, underscores, non-ASCII digits, NaN and infinities, which Python accepts or names and which neither check ever admits, because none is what `format` prints.
- IntentFiles.OneRequestPerKey: assumes that no generated key is passed explicitly before its alias exists, because the code does not guarantee the promise otherwise.
- MigrationRuns.Run.Drive: assumes that the drive ends (`fuel` turns are enough), because the loop itself need not; `MigrationProgress` and `MigrationPages` say when it does, and a killed drive always does.
- MigrationRuns.Lifetime: assumes the same of every drive of the history; a drive that would go on for ever is represented by its killed beginnings.
- MigrationPages.EndsIffLostRoutesHaveOnePage: assumes a source and a destination that answer alike every time, writes that succeed, no foreign journal writer and no object named like a route key.
- MigrationProgress.StopsIffOrbitHalts: assumes batches that depend on the marker alone; where they depend on more, only the sufficient condition of `ClimbingDrivesStop` is given.
- Ledger.VerifiedMeansArrivedIffNothingElseDid: assumes that no other pair of the run has the same route key, which `PlainPairsAreAlone` gives for names without a bar.
- MigrationReplan.ReplannedRouteVerifiesByCount: assumes that nothing was recorded for the route before the first apply.
- FlowProgress.EveryEventIsDecided: does not describe the record an unexpected match would create on a no_match event, because validation does not look at those fields.
- LocalIo.ReadBytes: assumes that every change of a file shows in what fstat compares.
- Ledger.SummaryCountsTerminalRecords: assumes object names without a bar, because the route key is split at bars.
