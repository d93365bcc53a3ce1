# Verified model of the Trinetra risk platform's backend cores

This project models the deterministic cores of the backend in Dafny and proves what they promise. One module stands for
one source component; code that updates state step by step is a method or a class proved against a specification
function, and the promises are lemmas about that specification.

| component | modules |
|---|---|
| criticality inheritance over the dependency graph | `Contexts`, `Criticality`, `CriticalityLevels` |
| migration waves | `MigrationPlanner`, `PlanItems` |
| scan lifecycle: worker, cancel, rescan, delete, dispatch failure, cache, progress log | `ScanModel`, `ScanStore`, `ScanSteps`, `ScanInvariants`, `ScanRuns`, `ScanOwnership`, `ProgressLog` |
| per-client request limiter | `RateLimiter`, `RateLimiterHosts` |
| two-track risk scoring | `RiskModel`, `ResourceEngine`, `ResourceModels`, `MoscaEngine`, `MoscaEvidence`, `RiskEngine`, `RiskVerdicts`, `RiskMonotonicity`, `RiskExample` |
| artefact merging, scan deduplication, scan diffs | `Artefacts`, `Deduplication`, `Sightings`, `Diff`, `DiffFields` |
| CycloneDX 1.6 CBOM export and ingest (ECMA-424) | `Vocabulary`, `Cyclonedx`, `CbomExportRules`, `CbomIngest`, `CbomRules`, `CbomDocuments`, `CbomRoundTrip` |
| replacement recommendations | `AlgorithmNames`, `Recommendation`, `RecommendationRules` |
| shared | `Wrappers`, `Enums`, `Ordering`, `DistinctBy`, `Text`, `Decimal`, `Spellings` |

`dafny verify dfyconfig.toml` checks everything.

A specification function says once what the code computes. What its constants, labels, fields and branches mean to a caller
is stated apart from it, without its name, in `CriticalityLevels`, `PlanItems`, `ScanSteps`, `RateLimiterHosts`,
`ResourceModels`, `MoscaEvidence`, `RiskVerdicts`, `Sightings`, `DiffFields`, `CbomExportRules`, `CbomRules`,
`RecommendationRules` and `Spellings`.

## Assumptions

- Every `with session_factory()` block of the worker and every request handler up to its commit is one atomic step;
  steps of any number of workers and handlers interleave in any order, a worker may be started again for the same scan
  at any time, and it may vanish between two steps. A dispatch failure may strike at any time.
- `uuid4` draws ids never drawn before; ids of artefacts in a CBOM come from a digest that no two identities share.
- Rate-limiter histories have non-decreasing timestamps, as a monotonic clock gives.
- Scores, years and capability are exact reals. Weights, scenario multipliers and the order of the capability curve
  are what the profile loader enforces; the scoring tables are not inspected by the loader, so their validity is the
  explicit predicate `RiskModel.IsValidScoring`.

## Where the code and its documentation differ

The model follows the code.

- The limiter's docstring says fixed window (`backend/app/api/main.py:36`); the code keeps a sliding log.
- `execute_scan` says that existing artefact rows prevent a second insert
  (`backend/app/services/scan_orchestrator.py:315-321`). The guard calls `__bool__` on a row, which no row has, so it
  would raise; `ScanInvariants.GuardNeverFires` shows that it never meets a row.
- "Terminal" is not final: the error block and the dispatch-failure branch write FAILED without looking at the status.
  `ScanRuns.LateErrorOverwritesCancellation` is a run in which a cancelled scan becomes FAILED, and
  `ScanRuns.TerminalStatusChangesExactlyOnLateFailure` says that nothing else changes a terminal status.
- An exported CBOM cannot be ingested as it stands: `metadata.tools` is written as an object and read as a list
  (`CbomRoundTrip.ExportedEnvelopeIsRefused`). The round trip is therefore stated per component.
- A non-library artefact labelled not applicable, with a lifetime, a migration time and an organisation horizon, makes
  classification raise. `RiskEngine.RaisesExactlyInTheGap` gives the exact condition and
  `RiskEngine.NotApplicableLabelTripsTheValidator` an input.
- Inheritance promises an unknown artefact the highest criticality that reaches it. Where an application has the
  artefact's own id, a reaching value that does not beat the application's own is not written.
  `Criticality.UnknownTakesTheMaximum` states exactly when the maximum is reached, and
  `Criticality.OwnApplicationBlocksInheritance` is an input on which it is not: a low root reaches an unknown artefact
  whose id a critical application shares, and the artefact stays unknown. The function has no caller in `backend/app`
  (only `engines/__init__.py` re-exports it), so the input comes from its signature.
- The cache promises to reuse a finished scan's verified findings (`backend/app/services/cache.py:3-5`). Ingest moves rows
  between scans, so a finished scan can lose its findings to a later one; a cache hit copies only what is left.
  `ScanOwnership.CacheHitReusesWhatIsLeft` states exactly when a hit reuses everything and when nothing, and
  `ScanOwnership.EmptyCacheHit` is a run in which a scan succeeds from the cache with no artefact.

## Model

| member | source | states |
|---|---|---|
| `Criticality.BuildGraph` | backend/app/engines/context_engine.py:38-40 | the adjacency lists hold exactly the edges |
| `Criticality.Relax` | backend/app/engines/context_engine.py:56-64 | popping an entry, stale or not, keeps the worklist invariant and loses no pending update; if it changes anything, the total rank deficit falls |
| `Criticality.Propagate` | backend/app/engines/context_engine.py:53-64 | terminates on every graph, by rank deficit then queue length; every inherited value is the best that reaches the node, beats its own seed, and its root is a seed of exactly that value with a path to the node |
| `Criticality.RaisingLowersDeficit` | backend/app/engines/context_engine.py:59-63 | raising the claim on an edge target strictly lowers the termination measure |
| `Criticality.SettledClaimsAreBest` | backend/app/engines/context_engine.py:55-64 | when nothing is pending, no seed reaches a node with a higher rank than its claim, on cyclic graphs too |
| `Criticality.Enrich` | backend/app/engines/context_engine.py:66-78 | a supplied value is untouched; an unknown one takes the best reaching value with the root that explains it in its provenance |
| `Criticality.InheritDependencyCriticality` | backend/app/engines/context_engine.py:21-79 | the returned contexts are the enrichment of the supplied ones, key by key; a later duplicate id wins |
| `Criticality.UnknownTakesTheMaximum` | backend/app/engines/context_engine.py:55-78 | an unknown artefact ends with the maximum over all seeds that reach it exactly unless an application with its own id already carries as much |
| `Criticality.BlockedStaysUnknown` | backend/app/engines/context_engine.py:58-61 | where the best that reaches an artefact does not beat its own id's seed, the context stays as it was |
| `Criticality.OwnApplicationBlocksInheritance` | backend/app/engines/context_engine.py:49-61 | a concrete input on which the promised maximum is not written |
| `Criticality.InheritedMaximum` | backend/app/engines/context_engine.py:29-34 | with artefact and application ids disjoint, the result is exactly the maximum over everything known that reaches the artefact by one or more edges |
| `Criticality.CriticalityIgnoresOrder` | backend/app/engines/context_engine.py:38-64 | order and multiplicity of edges and the order of seeds never change a criticality |
| `CriticalityLevels.InheritsTheHighestLevel` | backend/app/engines/context_engine.py:35-79 | an unknown artefact becomes critical if anything critical leads to it, else high if anything high does, and so on down; known means an application of the id, else the artefact's own context |
| `CriticalityLevels.InheritanceIsExplained` | backend/app/engines/context_engine.py:66-78 | an inherited value is recorded as an organisation preset naming a root that has it and leads to the artefact |
| `CriticalityLevels.LastContextCounts` | backend/app/engines/context_engine.py:35-37 | of several contexts for one id the last one counts |
| `CriticalityLevels.WaysFollowTheEdges` | backend/app/engines/context_engine.py:38-64 | what leads where: every edge in its direction, two ways in a row, and nothing that does not begin with an edge |
| `MigrationPlanner.WavePlanner.WaveFor` | backend/app/engines/migration_planner.py:104-118 | the memo stays a correct partial layering and grows only; the cycle error is raised only if there is a cycle |
| `MigrationPlanner.CollectPrerequisites` | backend/app/engines/migration_planner.py:67-75 | prerequisites are the targets of in-scope edges |
| `MigrationPlanner.ComputeWaves` | backend/app/engines/migration_planner.py:100-121 | the search fails exactly when the in-scope graph has a cycle |
| `MigrationPlanner.PlanMigrationWaves` | backend/app/engines/migration_planner.py:78-153 | each error exactly under its condition; otherwise the sorted draft of one item per candidate |
| `MigrationPlanner.WaveIsTheLongestChain` | backend/app/engines/migration_planner.py:111-117 | a wave is the length of the longest prerequisite chain |
| `MigrationPlanner.WavesAreLeast` | backend/app/engines/migration_planner.py:111-117 | the waves are pointwise at most those of any schedule that puts prerequisites earlier |
| `MigrationPlanner.NoWaveIsEmpty` | backend/app/engines/migration_planner.py:116 | no wave number up to the last is unused |
| `MigrationPlanner.LayeringExcludesCycles` | backend/app/engines/migration_planner.py:108-109 | a layering exists only without cycles |
| `MigrationPlanner.PlanIsAPermutation` | backend/app/engines/migration_planner.py:143-153 | the plan is sorted by wave, undated last, deadline and id, and is a permutation of the drafted items |
| `MigrationPlanner.PrerequisitesComeFirst` | backend/app/engines/migration_planner.py:84-86 | in the sorted plan every prerequisite stands before each consumer, in an earlier wave, and is listed among its dependencies |
| `PlanItems.ItemsAreTheirCandidates` | backend/app/engines/migration_planner.py:123-142 | every item is of one candidate, under its ids, with its deadline (assessment year plus whole years of Z, none without Z) and exactly the in-scope targets of its edges |
| `PlanItems.WaveOfItem` | backend/app/engines/migration_planner.py:104-118 | an item stands in the wave of its longest chain of prerequisites |
| `PlanItems.OrderOfItems` | backend/app/engines/migration_planner.py:143-153 | within a wave dated items precede undated ones, earlier deadlines precede later ones, and ids break ties |
| `Ordering.SortBySorts` | backend/app/engines/migration_planner.py:144-152 | the sort orders by its key |
| `Ordering.SortByPermutes` | backend/app/engines/migration_planner.py:144-152 | the sort is a permutation |
| `Ordering.SortedListing` | backend/app/exporters/diff.py:80-86 | `sorted(ids)` lists every id once, in string order |
| `Ordering.FirstDifferenceDecides` | backend/app/exporters/diff.py:80-86 | strings are ordered by the first character in which they differ, a proper prefix first |
| `Ordering.ListingIsUnique` | backend/app/exporters/diff.py:80-86 | a set of ids has one sorted listing |
| `ScanStore.Store.RecordProgress` | backend/app/repositories/__init__.py:169-203 | appends one event numbered one above the scan's maximum |
| `ScanStore.Store.FindCachedScan` | backend/app/services/cache.py:46-66 | finds the latest succeeded or partial scan of the same target and content, and nothing exactly when there is none or the hash is empty |
| `ScanStore.Store.CloneArtefacts` | backend/app/services/cache.py:68-115 | adds one copy of each row of the source under its own new id and returns their number |
| `ScanStore.Store.CreateScan` | backend/app/api/routes.py:587-618 | takes exactly the Create step |
| `ScanStore.Store.RescanScan` | backend/app/api/routes.py:711-744 | takes exactly the Rescan step |
| `ScanStore.Store.FailDispatch` | backend/app/api/routes.py:619-638 | takes exactly the DispatchFailure step; only a first dispatch records an event |
| `ScanStore.Store.CancelScan` | backend/app/api/routes.py:675-700 | takes exactly the Cancel step; a terminal scan is left alone |
| `ScanStore.Store.DeleteScan` | backend/app/api/routes.py:761-776 | takes exactly the Delete step: the row goes with its artefacts and events |
| `ScanStore.Store.BeginScan` | backend/app/services/scan_orchestrator.py:323-371 | the first block takes exactly the Begin step: nothing for a finished scan, a copy on a cache hit, RUNNING otherwise |
| `ScanStore.Store.AnnounceScanning` | backend/app/services/scan_orchestrator.py:374-397 | the second block takes exactly the Announce step |
| `ScanStore.Store.UpsertFindings` | backend/app/services/scan_orchestrator.py:442-481 | the loop over ingested artefacts moves existing rows and inserts the others, in order |
| `ScanStore.Store.IngestResponse` | backend/app/services/scan_orchestrator.py:411-573 | the third block takes exactly the Ingest step, whose row, events and artefacts `ScanSteps` states column by column |
| `ScanStore.Store.RecordError` | backend/app/services/scan_orchestrator.py:591-613 | the error block takes exactly the RecordFailure step |
| `ScanSteps.IngestSettlesTheScan` | backend/app/services/scan_orchestrator.py:421-561 | a live scan is PARTIAL after ingest if and only if its document has gaps, else SUCCEEDED; the row carries the document's scanner, tools, skipped and gap counts and the first hash there is among its own, the worker's and the text's; everything else of the row, and every other scan, is as before |
| `ScanSteps.IngestAnnouncesCompletion` | backend/app/services/scan_orchestrator.py:562-571 | the one new event says 100 percent, completed, with the number of artefacts, numbered next; the worker is done |
| `ScanSteps.IngestWritesTheFindings` | backend/app/services/scan_orchestrator.py:469-481 | the artefact table after ingest row by row, also when ids repeat: the first finding of an id writes a new row, the last labels and places it |
| `ScanSteps.LateResponseIsDropped` | backend/app/services/scan_orchestrator.py:411-419 | a response for a scan that is finished, cancelled or deleted by then changes no table |
| `ScanSteps.CreateQueues` | backend/app/api/routes.py:587-618 | a new scan is QUEUED with its target and scanners and nothing else, and announced |
| `ScanSteps.RescanQueues` | backend/app/api/routes.py:711-744 | a rescan takes over target and scanners of the original and nothing else |
| `ScanSteps.RefusedDispatchFails` | backend/app/api/routes.py:619-638 | a refused dispatch fails the scan whatever its status; only a first dispatch announces it |
| `ScanSteps.CancelStopsPendingScans` | backend/app/api/routes.py:675-700 | cancelling changes status and end of a QUEUED or RUNNING scan, and nothing of any other |
| `ScanSteps.DeleteRemovesExactlyTheScan` | backend/app/api/routes.py:761-776 | row, owned artefacts and events go; everything of every other scan stays |
| `ScanSteps.ReusedScanIsTheLatestMatch` | backend/app/services/scan_orchestrator.py:328-339 | which scan is reused: the latest finished one of the same target under the row's own hash, else the worker's; none without a hash or a match |
| `ScanSteps.CacheHitTakesOverTheReport` | backend/app/services/scan_orchestrator.py:340-360 | a hit takes over status and report of the reused scan, keeps the rest of the row, and announces the number of copies |
| `ScanSteps.CacheMissStartsTheScan` | backend/app/services/scan_orchestrator.py:362-371 | without a hit the scan is RUNNING from now on, with the hash it lacked, and the worker prepares |
| `ScanSteps.RedeliveryDoesNothing` | backend/app/services/scan_orchestrator.py:323-326 | delivering a scan that is over or gone changes nothing |
| `ScanSteps.AnnounceIgnoresStatus` | backend/app/services/scan_orchestrator.py:374-397 | scanning is announced as long as the row exists, whatever its status |
| `ScanSteps.ErrorFailsTheScan` | backend/app/services/scan_orchestrator.py:591-613 | an error fails the scan as long as the row exists, whatever its status, with its code as the only error |
| `ScanInvariants.StepKeepsInvariant` | backend/app/services/scan_orchestrator.py:323-613 | every step of every worker and handler keeps the state invariant and changes each scan only as allowed |
| `ScanInvariants.LiveScansOwnNothing` | backend/app/services/scan_orchestrator.py:411-430 | a scan that has not finished, or was cancelled, owns no artefact |
| `ScanInvariants.GuardNeverFires` | backend/app/services/scan_orchestrator.py:424-430 | the re-delivery guard never meets a row, so its raising branch is dead |
| `ScanInvariants.UpsertMovesExactlyTheFindings` | backend/app/services/scan_orchestrator.py:469-481 | ingesting changes exactly the rows of the findings |
| `ScanInvariants.UpsertRefreshesEachFinding` | backend/app/services/scan_orchestrator.py:469-481 | an existing row keeps what it was first found with and takes owner, label, location and time; a new one is the finding |
| `ScanInvariants.IngestTakesExactlyTheFindings` | backend/app/services/scan_orchestrator.py:442-562 | a completed ingest owns exactly the ingested ids, takes from other scans exactly the shared ones, and drops none from the table |
| `ScanInvariants.CacheHitCopiesOneToOne` | backend/app/services/scan_orchestrator.py:333-360 | a cache hit leaves every existing row alone and gives the scan a one-to-one copy under fresh ids, equal in every copied field |
| `ScanRuns.ReachableStatesAreSafe` | backend/app/services/scan_orchestrator.py:307-613 | the invariant holds in every reachable state of every interleaving |
| `ScanRuns.OverIsForever` | backend/app/services/scan_orchestrator.py:325-326 | no step takes a scan from terminal to non-terminal, and a deleted scan never returns; neither gains artefacts |
| `ScanRuns.CompletedAtMostOnce` | backend/app/services/scan_orchestrator.py:415-419 | each scan is ingested or completed from the cache at most once, however often it is delivered |
| `ScanRuns.CancelledOwnsNothingEver` | backend/app/services/scan_orchestrator.py:415-419 | a scan that was ever cancelled owns no artefact for the rest of the run, even if a late error turns it FAILED |
| `ScanRuns.TerminalStatusChangesExactlyOnLateFailure` | backend/app/services/scan_orchestrator.py:591-596 | a terminal status changes exactly when the error block or a dispatch failure hits a scan that is not FAILED |
| `ScanRuns.LateErrorOverwritesCancellation` | backend/app/services/scan_orchestrator.py:591-596 | a concrete run in which CANCELLED becomes FAILED |
| `ScanRuns.LogOnlyGrows` | backend/app/repositories/__init__.py:169-203 | while a scan exists its recorded events are only extended |
| `ScanRuns.ReaderMissesNothingInRun` | backend/app/api/routes.py:808-822 | a reader that polls at any moments of a run has every event once and in order |
| `ScanOwnership.StepTakesTheIngested` | backend/app/services/scan_orchestrator.py:469-481 | a step takes from a finished scan exactly the ids it ingests |
| `ScanOwnership.OwnsWhatWasNotIngestedSince` | backend/app/services/scan_orchestrator.py:469-481 | from its completion until it is deleted, a scan owns exactly what it owned then, less what other scans have ingested since |
| `ScanOwnership.IngestedScanOwns` | backend/app/services/scan_orchestrator.py:442-562 | an ingested scan owns exactly its findings that no other scan has ingested since |
| `ScanOwnership.CacheHitReusesWhatIsLeft` | backend/app/services/scan_orchestrator.py:331-360 | a cache hit reuses everything its source was completed with exactly when none of it was ingested elsewhere since, and nothing exactly when all of it was |
| `ScanOwnership.EmptyCacheHit` | backend/app/services/scan_orchestrator.py:331-360 | a concrete run in which a scan succeeds from the cache with no artefact |
| `ProgressLog.RecordContinuesLog` | backend/app/repositories/__init__.py:181-203 | recording continues the numbering 1..n of its scan and touches no other log |
| `ProgressLog.SinceIsTheRest` | backend/app/repositories/__init__.py:206-218 | on a numbered log the query is the part after the cursor |
| `ProgressLog.CursorReader.Poll` | backend/app/api/routes.py:809-819 | one turn yields the events after the cursor and moves it to the last |
| `ProgressLog.ReaderMissesNothing` | backend/app/api/routes.py:1747-1757 | whatever is appended between polls, the delivered events are all those after the start, once and in order |
| `RateLimiter.Middleware.Dispatch` | backend/app/api/main.py:49-67 | verdict and stored log are those of the specification, which `RateLimiterHosts` states by address |
| `RateLimiter.RejectedExactlyWhenFull` | backend/app/api/main.py:53-66 | after any history a request is rejected exactly when its client had the limit admitted in the preceding sixty seconds |
| `RateLimiter.WindowNeverOverfull` | backend/app/api/main.py:53-66 | every half-open window of sixty seconds holds at most the limit of admissions of one client |
| `RateLimiter.AdmissionsAreSpaced` | backend/app/api/main.py:53-66 | any limit + 1 successive admissions span at least sixty seconds |
| `RateLimiter.ClientsAreIndependent` | backend/app/api/main.py:52-55 | other clients' requests can be deleted from a history unnoticed |
| `RateLimiterHosts.AdmittedExactlyBelowTheLimit` | backend/app/api/main.py:49-67 | in terms of addresses, an absent one counting as "unknown": whatever other hosts have sent, a request outside the four service paths is admitted exactly when its host had fewer than the limit admitted in the last sixty seconds |
| `RateLimiterHosts.OtherHostsDoNotMatter` | backend/app/api/main.py:52-55 | the verdict is the same after deleting every request of another host from the history |
| `RateLimiterHosts.NoMinuteIsOverfull` | backend/app/api/main.py:53-66 | no sixty seconds see more than the limit of one host's requests admitted |
| `RateLimiterHosts.NewHostIsAdmitted` | backend/app/api/main.py:52-66 | the first request of a host is never rejected, however busy the others are |
| `ResourceEngine.FindAttackModel` | backend/app/engines/resource_engine.py:56-70 | the first model of the first candidate key that has one of the size; `ResourceModels.ModelFitsTheSubject` says which that is |
| `ResourceEngine.ScanCurve` | backend/app/engines/resource_engine.py:117-135 | finds the first crossing, and otherwise the last complete point |
| `ResourceEngine.EvaluateResources` | backend/app/engines/resource_engine.py:77-167 | the track of the specification |
| `ResourceEngine.CrossingIsFirst` | backend/app/engines/resource_engine.py:118-127 | the first complete point meeting both scaled dimensions; none exactly when no point does |
| `ResourceEngine.IncompletePointsAreNoEvidence` | backend/app/engines/resource_engine.py:119-122 | inserting an incomplete point anywhere changes nothing |
| `ResourceEngine.CrossingMovesEarlier` | backend/app/engines/resource_engine.py:124-127 | a larger multiplier never loses a crossing or moves it later |
| `ResourceEngine.ScenarioOnlyScalesCapability` | backend/app/engines/resource_engine.py:85-88 | the reported requirement is the same in every scenario, and a more aggressive one never moves the break year later |
| `ResourceEngine.TrackUnderValidProfile` | backend/app/engines/resource_engine.py:89-167 | under a valid profile the track always exists and each status occurs exactly under its condition |
| `ResourceModels.ModelFitsTheSubject` | backend/app/engines/resource_engine.py:56-70 | the model found has exactly the subject's key size and algorithm, or is the generic curve model for ECDH, ECDSA, X25519 and Ed25519 where there is no own one of the size; no earlier model qualifies, and none is found exactly when none qualifies |
| `ResourceModels.CrossingInWords` | backend/app/engines/resource_engine.py:118-127 | the crossing is the first point that states both dimensions and meets them times 0.5, 1 or 2, by scenario |
| `ResourceModels.TrackReportsModelAndCrossing` | backend/app/engines/resource_engine.py:77-167 | the track reports that model's qubits, gates and assumptions and the crossing's year, distance, confidence and scaled capability, or the last complete point beyond the horizon |
| `MoscaEngine.XIsLongestOfStrongest` | backend/app/engines/mosca_engine.py:98-115 | X is the largest value of the strongest source present, with that source's confidence |
| `MoscaEngine.XIgnoresOrderAndWeakerSources` | backend/app/engines/mosca_engine.py:98-115 | X and its confidence ignore order and everything from weaker sources |
| `MoscaEngine.LifetimeIgnoresOrderAndWeakerSources` | backend/app/engines/mosca_engine.py:85-115 | the same for a whole context, with its direct and category evidence |
| `MoscaEngine.LongerEvidenceLengthensX` | backend/app/engines/mosca_engine.py:105-115 | longer lifetimes never shorten X |
| `MoscaEvidence.UserThenScannerThenOrganisation` | backend/app/engines/mosca_engine.py:20-110 | a user's lifetimes govern X, then the scanner's, the organisation's and last the legal profile's, with high, medium, high and low confidence |
| `MoscaEvidence.EvidenceComesFrom` | backend/app/engines/mosca_engine.py:39-95 | the evidence is what the context lists, a lifetime typed in by a user or preset by the organisation, and the profile's lifetime of a known category; nothing else |
| `MoscaEvidence.HorizonRule` | backend/app/engines/mosca_engine.py:140-153 | Z is the organisation's horizon, else a calculated crossing, else absent |
| `MoscaEvidence.VerdictIsAsSureAsItsInputs` | backend/app/engines/mosca_engine.py:118-178 | a resolved track is exactly as sure as the least sure of X, Y and Z |
| `MoscaEngine.TrackOutcome` | backend/app/engines/mosca_engine.py:125-165 | the track fails exactly on a negative horizon; otherwise X + Y - Z, with the weakest confidence among them, exactly when all three are there |
| `RiskEngine.ContributionsExist` | backend/app/engines/final_risk_engine.py:455-475 | under a valid profile all seven contributions exist, each within its maximum |
| `RiskEngine.MeasuredExactlyWhenObserved` | backend/app/schemas/risk.py:49-78 | a factor counts as measured exactly when its input was observed, and otherwise contributes nothing |
| `RiskEngine.TimingEarnsForAShortfall` | backend/app/engines/final_risk_engine.py:230-246 | timing earns points exactly for a positive shortfall, and all of them exactly when it is long enough |
| `RiskEngine.ShorAddsHalfTheWeight` | backend/app/engines/final_risk_engine.py:200-227 | relabelling a Grover-weakened subject as Shor-breakable raises the total by 12.5, all else equal |
| `RiskEngine.TracksOutcome` | backend/app/engines/final_risk_engine.py:448-454 | each track is resolved exactly when its inputs are there |
| `RiskEngine.ScoreInRange` | backend/app/schemas/risk.py:208-214 | the sum of the contributions lies in 0..100 |
| `RiskEngine.RaisesExactlyInTheGap` | backend/app/engines/final_risk_engine.py:399-517 | under a valid profile classification raises exactly on a negative horizon, or on a not-applicable label with X, Y and an organisation horizon, where no policy applies |
| `RiskEngine.NotApplicableLabelTripsTheValidator` | backend/app/schemas/risk.py:242-256 | a concrete input on which it raises |
| `RiskEngine.ScoredExactlyWhenResolved` | backend/app/engines/final_risk_engine.py:412-516 | SCORED exactly when no policy applies (`RiskVerdicts.PolicyDecidesInOrder` says when one does) and X, Y, Z and a model are there; the score is the sum, the band matches, and other verdicts carry neither |
| `RiskEngine.FinalConfidenceIsNeverStronger` | backend/app/engines/final_risk_engine.py:494-499 | the final confidence is never stronger than a track's, and not high when a factor lacks evidence |
| `RiskVerdicts.PolicyDecidesInOrder` | backend/app/engines/final_risk_engine.py:57-91 | DEPENDENCY_ONLY exactly for a library; POLICY_DECIDED exactly for anything else labelled classically broken or listed as broken; NOT_APPLICABLE exactly for anything else labelled quantum-safe or listed as resistant |
| `RiskVerdicts.TracksFollowTheInputs` | backend/app/engines/final_risk_engine.py:448-454 | a judged assessment runs under the settings' scenario, with the context's migration time and the organisation's horizon, or track B's crossing without one |
| `RiskVerdicts.MissingInputsAreNamed` | backend/app/engines/final_risk_engine.py:399-409 | an assessment that needs context names exactly the inputs that are missing |
| `RiskVerdicts.AlgorithmPoints` | backend/app/engines/final_risk_engine.py:94-227 | 25 points for what Shor breaks, 12.5 for what Grover weakens, by label or, without one, by primitive; none otherwise |
| `RiskVerdicts.TimingPoints` | backend/app/engines/final_risk_engine.py:230-246 | the profile's points for each year of shortfall, up to 20 |
| `RiskVerdicts.FeasibilityPoints` | backend/app/engines/final_risk_engine.py:249-296 | the points of the first band of 5, 10 or 15 years the crossing lies in, or of a later one, up to 15 |
| `RiskVerdicts.DataPoints` | backend/app/engines/final_risk_engine.py:299-330 | the points of the stated classification, or of the category's sensitivity where none is stated |
| `RiskVerdicts.MigrationPoints` | backend/app/engines/final_risk_engine.py:358-396 | a module's firmware decides, then who manages the key, then whether it is an algorithm in source |
| `RiskVerdicts.ScoredBandAndConfidence` | backend/app/engines/final_risk_engine.py:493-516 | the bands begin at 75 and 50; the confidence is the weaker track's, one level lower where a factor went unmeasured |
| `Enums.WeakestIsWeakest` | backend/app/models/enums.py:359-369 | the weakest of the values |
| `RiskMonotonicity.ShortfallGrows` | backend/app/engines/mosca_engine.py:140-165 | longer lifetimes and migrations and a nearer horizon, either basis, lengthen the shortfall |
| `RiskMonotonicity.ContributionsGrow` | backend/app/engines/final_risk_engine.py:230-296 | with a longer shortfall and no later a crossing, the total never falls |
| `RiskMonotonicity.WorseInputsNeverImprove` | backend/app/engines/final_risk_engine.py:448-516 | between two scored runs, worse scenario, lifetime, migration time or horizon never lowers the score or the urgency, also when Z comes from the resource model |
| `RiskMonotonicity.ScoredStaysScored` | backend/app/engines/final_risk_engine.py:448-516 | a scored run stays scored under worse inputs exactly as long as the organisation's horizon is not negative |
| `RiskExample.ScoredRunsExist` | backend/app/engines/final_risk_engine.py:493-516 | under a concrete valid profile RSA-2048 is scored for every stated lifetime, with any organisation horizon and with the resource model's, so the monotonicity theorem is not about nothing |
| `Artefacts.MergedWith` | backend/app/schemas/artefact.py:483-511 | fails exactly on different identities; otherwise the merge |
| `Artefacts.MergeIsAssociative` | backend/app/schemas/artefact.py:483-511 | merging is associative |
| `Artefacts.MergeKeepsEveryObservation` | backend/app/schemas/artefact.py:492-503 | no observation is lost or repeated, the first report of each is kept, and the window stays ordered |
| `Sightings.MergedWindow` | backend/app/schemas/artefact.py:504-511 | each end of the merged window is an end of one of the two, the window contains both, and everything but the evidence is the first artefact's |
| `Sightings.MergedEvidence` | backend/app/schemas/artefact.py:492-503 | the merged evidence is exactly the first report of each path, line, method and rule |
| `DistinctBy.FirstsOfParts` | backend/app/schemas/artefact.py:492-503 | first-occurrence deduplication of a concatenation may start with either half |
| `Deduplication.Deduplicate` | backend/app/schemas/scan.py:191-203 | one artefact per id, in first-occurrence order, each the left-to-right merge; the merge never raises |
| `Deduplication.OutputIdsAreTheFirstIds` | backend/app/schemas/scan.py:191-203 | output ids are unique and in first-occurrence order |
| `Deduplication.CombinedConcat` | backend/app/schemas/scan.py:197-203 | the merge of a concatenation is the merge of the parts' merges |
| `Deduplication.DeduplicateInParts` | backend/app/schemas/scan.py:191-203 | both halves may be deduplicated on their own first |
| `Deduplication.IncrementalIsBatch` | backend/app/schemas/scan.py:191-203 | any chunking, with partial results deduplicated at any points, gives what one pass over everything gives |
| `Sightings.DeduplicatedSpansAllSightings` | backend/app/schemas/scan.py:191-203 | each artefact after deduplication is the first sighting of its id with the least window that contains the windows of all its sightings |
| `Diff.CompareArtefact` | backend/app/exporters/diff.py:127-195 | the changes are exactly the compared fields whose values differ, including an assessment that appears or disappears |
| `Diff.CompareCommon` | backend/app/exporters/diff.py:83-100 | the changed artefacts in id order, and the number of the others |
| `Diff.ComputeDiff` | backend/app/exporters/diff.py:57-124 | the report lists exactly what was added, removed and changed, in id order, with the right counts |
| `Diff.DiffIsUnique` | backend/app/exporters/diff.py:57-124 | the specification determines the report |
| `Diff.PatchingGivesCurrent` | backend/app/exporters/diff.py:76-100 | applying a diff to the baseline's tracked fields gives the current ones |
| `Diff.CountsAddUp` | backend/app/exporters/diff.py:102-114 | added + changed + unchanged is the current size, removed + changed + unchanged the baseline size |
| `Diff.SwappingReverses` | backend/app/exporters/diff.py:57-124 | swapping the scans swaps added and removed, and old and new in every change |
| `Diff.SelfDiffIsEmpty` | backend/app/exporters/diff.py:57-124 | a scan differs from itself in nothing |
| `DiffFields.ReportedChangesAreExact` | backend/app/exporters/diff.py:127-195 | each of the eight fields is listed exactly when it differs, old value first; scores are compared on any assessment, bands and urgency only between two |
| `DiffFields.ChangedExactlyWhenSomethingDiffers` | backend/app/exporters/diff.py:83-100 | an artefact of both scans is reported as changed exactly when a tracked field differs |
| `DiffFields.PostureCounts` | backend/app/exporters/diff.py:102-114 | the posture counts sizes, additions, removals, changes, and on either side the artefacts labelled Shor-broken or Grover-weakened |
| `DiffFields.LastAssessmentWins` | backend/app/exporters/diff.py:70-71 | of several assessments of an artefact the last one is compared |
| `Vocabulary.AssetTypeRoundTrip` | backend/app/schemas/vocab.py:147-170 | every asset type survives the wire, with a hint written exactly where it is needed |
| `Vocabulary.PrimitiveRoundTrip` | backend/app/schemas/vocab.py:58-75 | the primitive tables are inverse |
| `Vocabulary.PurposeRoundTrip` | backend/app/schemas/vocab.py:82-99 | the purpose tables are inverse |
| `Vocabulary.ModeRoundTrip` | backend/app/schemas/vocab.py:106-122 | the mode tables are inverse |
| `Vocabulary.PaddingRoundTrip` | backend/app/schemas/vocab.py:124-139 | the padding tables are inverse |
| `Vocabulary.NormalisePurposes` | backend/app/schemas/vocab.py:189-202 | the first occurrence of each purpose, in order |
| `Vocabulary.NormalisedPurposesOccur` | backend/app/schemas/vocab.py:189-202 | exactly the purposes that occur, each once |
| `Vocabulary.PurposesRoundTrip` | backend/app/schemas/vocab.py:189-202 | a list of purposes survives exactly when it repeats none |
| `Decimal.ParseOfPrint` | backend/app/exporters/cyclonedx.py:277-280 | a printed key size parses back to itself |
| `Decimal.PrintIsInjective` | backend/app/services/cbom_ingest.py:191 | different positions print differently |
| `Spellings.SignsAndBlanks` | backend/app/services/cbom_ingest.py:630-642 | a number is read with its sign and without the blanks around it |
| `Spellings.NumbersAreDigits` | backend/app/services/cbom_ingest.py:630-642 | nothing but digits with single underscores between them is a magnitude |
| `Spellings.StripOfPadded` | backend/app/services/cbom_ingest.py:630-642 | stripping removes exactly the blanks around a text |
| `Cyclonedx.BuildAlgorithmProperties` | backend/app/exporters/cyclonedx.py:250-293 | the properties of the specification, built key by key; a parameter set wins over a key size |
| `Cyclonedx.BuildProperties` | backend/app/exporters/cyclonedx.py:190-240 | the extension properties in the order they are appended |
| `Cyclonedx.BuildComponent` | backend/app/exporters/cyclonedx.py:140-242 | the component of the specification |
| `Cyclonedx.Export` | backend/app/exporters/cyclonedx.py:57-132 | the envelope with one component per deduplicated artefact, in order |
| `CbomExportRules.RedactedSnippetsStayHome` | backend/app/exporters/cyclonedx.py:396-411 | every occurrence gives path and line; the snippet is exported exactly where there is one that was not redacted |
| `CbomExportRules.ComponentIsReferenced` | backend/app/exporters/cyclonedx.py:140-170 | name, reference, OID and the wire word of the asset type |
| `CbomExportRules.ExportedLabel` | backend/app/exporters/cyclonedx.py:190-240 | the quantum label is written in its canonical word, and nothing else is written under its name |
| `CbomExportRules.ExportedNotes` | backend/app/exporters/cyclonedx.py:207-240 | score, priority, urgency and recommendation, each under its name where there is one |
| `CbomExportRules.NotesTravelWithTheirArtefact` | backend/app/exporters/cyclonedx.py:72-81 | every artefact has its own component, with the assessment and recommendation found under its id |
| `CbomExportRules.ExportedProperties` | backend/app/exporters/cyclonedx.py:190-240 | the properties in order: hint, algorithm, label, notes |
| `CbomExportRules.ExportedPrimitive` | backend/app/schemas/vocab.py:58-75 | the primitive in its word |
| `CbomExportRules.ExportedFunctions` | backend/app/schemas/vocab.py:82-99 | the purposes in their words, all and in order |
| `CbomExportRules.ExportedModeAndPadding` | backend/app/schemas/vocab.py:106-139 | mode and padding in their words |
| `CbomExportRules.ExportedIdentifier` | backend/app/exporters/cyclonedx.py:250-293 | the parameter set where there is one, else the key size in decimal, else nothing |
| `CbomIngest.ValidateDocument` | backend/app/services/cbom_ingest.py:117-150 | every problem is reported, in order |
| `CbomIngest.IndexProperties` | backend/app/services/cbom_ingest.py:591-600 | the last readable property of a name wins |
| `CbomIngest.ResolveAlgorithm` | backend/app/services/cbom_ingest.py:576-588 | the explicit name, else the leading token |
| `CbomIngest.LeadingTokenIsCutAtFirstSeparator` | backend/app/services/cbom_ingest.py:585-588 | the three splits together cut the name at its first separator of any kind |
| `CbomIngest.BuildAlgorithmDetail` | backend/app/services/cbom_ingest.py:504-541 | the detail of the specification, whose parts `CbomRules.KeySizeRule` and `CbomRules.AlgorithmDetailRule` state; a hollow one is not attached |
| `CbomIngest.BuildEvidence` | backend/app/services/cbom_ingest.py:544-573 | one piece of evidence per located occurrence, in order; an absolute path is an error |
| `CbomIngest.ComponentToArtefact` | backend/app/services/cbom_ingest.py:225-284 | the conversion of the specification, with each failure |
| `CbomIngest.LibraryCarriesNoAlgorithm` | backend/app/services/cbom_ingest.py:11-12 | a library never acquires an algorithm; every artefact is named, sourced, and has a detail of its own type |
| `CbomIngest.NothingIsInvented` | backend/app/services/cbom_ingest.py:13-14 | every algorithm, purpose, primitive, OID, detail and piece of evidence an ingested artefact carries is the one its component states; unstated confidence is low |
| `CbomRules.ProblemsAreExact` | backend/app/services/cbom_ingest.py:117-150 | each problem of an envelope is reported exactly when it is there |
| `CbomRules.ProblemsAreInOrder` | backend/app/services/cbom_ingest.py:117-150 | problems are reported once each, in the order they are looked for |
| `CbomRules.IndexHoldsTheLast` | backend/app/services/cbom_ingest.py:591-600 | a name has the value of the last readable property of that name, and none exactly when there is no such property |
| `CbomRules.KindRule` | backend/app/schemas/vocab.py:155-170 | a recognised hint decides, then the wire word, and anything else is an algorithm |
| `CbomRules.KeySizeRule` | backend/app/services/cbom_ingest.py:514-523 | the key size is the property's number where that reads as positive, else the parameter set's, else absent; the parameter set is kept exactly unless its number was taken |
| `CbomRules.AlgorithmDetailRule` | backend/app/services/cbom_ingest.py:504-541 | an algorithm has a detail exactly when some part of one is stated, and each part exactly when that is |
| `CbomRules.CloudRule` | backend/app/services/cbom_ingest.py:317-361 | a managed key has a detail exactly when something about it differs from the defaults |
| `CbomRules.OtherDetailsRule` | backend/app/services/cbom_ingest.py:287-464 | a key has a detail exactly when its size is stated; certificates, protocols and libraries always; modules and related material never |
| `CbomRules.RefusedExactly` | backend/app/services/cbom_ingest.py:225-284 | a component is refused exactly for a blank name, an absolute path, no place at all, or rejected dates, in this order |
| `CbomRules.EvidenceMatchesPlaces` | backend/app/services/cbom_ingest.py:544-573 | each located occurrence becomes one piece of evidence with its path, line and context and the component's method, confidence and rule |
| `CbomRules.AcceptedStamp` | backend/app/schemas/artefact.py:412-454 | the id is the digest of target, type, name, first place and position; times and scanner are the document's |
| `CbomRules.AlgorithmRule` | backend/app/services/cbom_ingest.py:576-588 | the explicit algorithm where one is stated, else the leading token; blank counts as none, and a library has none |
| `CbomDocuments.IngestDocument` | backend/app/services/cbom_ingest.py:153-222 | fails with all problems, or yields exactly the outcome of every entry |
| `CbomDocuments.ArtefactsKeepDocumentOrder` | backend/app/services/cbom_ingest.py:175-191 | artefacts stand at ascending positions, each the conversion of its own entry |
| `CbomDocuments.EveryAcceptedEntryIsListed` | backend/app/services/cbom_ingest.py:185-215 | no accepted entry is left out, and no other is listed |
| `CbomDocuments.GapsAreTheFailures` | backend/app/services/cbom_ingest.py:193-206 | gaps are exactly the entries whose conversion failed, in document order |
| `CbomDocuments.MergeNeverFires` | backend/app/services/cbom_ingest.py:191-215 | with injective ids the positional discriminator keeps all artefacts apart |
| `CbomDocuments.ComponentsAreConserved` | backend/app/services/cbom_ingest.py:175-222 | artefacts plus skipped is the number of components |
| `CbomRules.ArtefactsOfADocument` | backend/app/services/cbom_ingest.py:175-222 | the artefacts are exactly what the cryptographic assets convert to, each under its own position |
| `CbomRules.GapsOfADocument` | backend/app/services/cbom_ingest.py:193-222 | the gaps are exactly the positions of assets that do not convert, with the reason; the tools are the listed ones |
| `CbomDocuments.ExportedInventoryByPosition` | backend/app/exporters/cyclonedx.py:72-81 | each exported artefact is accepted exactly when it has a place, and agrees exactly when it survives, whatever the rest |
| `CbomDocuments.ExportedInventoryComesBack` | backend/app/exporters/cyclonedx.py:72-81 | an exported inventory comes back one for one, in order and in full, exactly when every artefact survives |
| `CbomRoundTrip.ExportedEnvelopeIsRefused` | backend/app/exporters/cyclonedx.py:97-106 | an exported document is refused for exactly one reason, its tools |
| `CbomRoundTrip.ExportedLookups` | backend/app/exporters/cyclonedx.py:190-240 | what ingest finds among the exported properties is the hint and the algorithm and no key size, whatever else is attached |
| `CbomRoundTrip.AlgorithmRoundTrip` | backend/app/services/cbom_ingest.py:576-588 | the algorithm comes back exactly if it is lower case and not empty, or absent and not suggested by the name |
| `CbomRoundTrip.DetailRoundTrip` | backend/app/exporters/cyclonedx.py:266-280 | mode, padding, curve and key size or parameter set come back exactly if something is stated, nothing is an empty string, there are no rounds, and a parameter set is alone and not a number |
| `CbomRoundTrip.EvidenceRoundTrip` | backend/app/exporters/cyclonedx.py:396-411 | all places come back exactly if all have a path |
| `CbomRoundTrip.CoreRoundTrip` | backend/app/services/cbom_ingest.py:225-284 | for every asset type: the core fields come back exactly under the stated condition |
| `CbomRoundTrip.AlgorithmComponentRoundTrip` | backend/app/exporters/cyclonedx.py:140-293 | for an algorithm, everything including the typed detail comes back exactly under the stated condition |
| `CbomRoundTrip.ComponentRoundTrip` | backend/app/exporters/cyclonedx.py:140-293 | an artefact of any type comes back exactly when it survives, with the typed detail of an algorithm |
| `AlgorithmNames.KeysAreStable` | backend/app/engines/resource_engine.py:18-35 | case and punctuation never matter, and a key is its own key |
| `Spellings.KeyFamilies` | backend/app/engines/resource_engine.py:18-35 | which key a spelling has: one each for everything of RSA, ECDH and ECDSA, X25519 under both its names, Ed25519, the generic curve key, else itself |
| `Spellings.CompactConcat` | backend/app/engines/resource_engine.py:18-24 | a spelling is read character by character |
| `Recommendation.ProducedExactlyWhenActionable` | backend/app/engines/recommendation_engine.py:124-129 | under a valid profile a result exists exactly for scored P0 and P1 assessments, and no validator fires |
| `Recommendation.AutomaticExactly` | backend/app/engines/recommendation_engine.py:141-179 | automatic for a family exactly when all matching rules agree on it, one parameter set is cited, and hybrid is asked only of a KEM |
| `Recommendation.AutomaticContents` | backend/app/engines/recommendation_engine.py:181-215 | the advice names and cites the one entry, and a rule that matched |
| `Recommendation.AddingRulesNeverSwitches` | backend/app/engines/recommendation_engine.py:141-153 | added rules keep an automatic choice, or send it to manual review exactly when one that matches recommends another family |
| `Recommendation.SelectionIgnoresOrder` | backend/app/engines/recommendation_engine.py:78-88 | neither the order of rules nor that of parameter sets matters, save for the rule the rationale names |
| `RecommendationRules.AdviceExactly` | backend/app/engines/recommendation_engine.py:124-179 | each reason for manual review, and each automatic family, exactly under its condition on algorithm, purpose, key size, statelessness, category and hybrid mode |
| `RecommendationRules.AutomaticInWords` | backend/app/engines/recommendation_engine.py:181-215 | the advice names the one wanted parameter set with its sizes and first cited source, the first rule that applies, no category for AES, and X25519 as the partner exactly in hybrid mode |

## Left out

- MigrationPlanner.PlanMigrationWaves: does not state the hardware action, crypto agility and notes of an item, because they are copied or looked up from the candidate alone and no ordering depends on them.
- ScanStore.Store.IngestResponse: takes the effective vulnerability label of each finding as given, and does not append assessments and recommendations, because their errors are swallowed and they touch none of the modelled tables.
- ResourceEngine.EvaluateResources: does not carry caveats, the deadline year (equal to the break year) or the basis text of the forecast point, because nothing is computed from them.
- MoscaEngine.TrackOutcome: does not state the human-readable descriptions of the evidence, because they are text.
- Cyclonedx.BuildAlgorithmProperties: does not write the execution environment and the certification level, because ingest never reads them.
- Cyclonedx.BuildComponent: does not write certificate, related-material and protocol properties, nor offset and symbol of an occurrence, because ingest reads none of them under these names; the certificate members that both sides share are text.
- Cyclonedx.Export: does not write the target component, schema link, version number and tool vendor of the envelope, because ingest never reads them.
- CbomIngest.ComponentToArtefact: keeps of a certificate, protocol, key or cloud detail only that it is present, and not the raw component, because no round trip of these is intended.
- Repository preparation, scanner HTTP calls, Celery, blob storage: the scanner is a step that returns a document or an error.
- Authentication, tenancy, audit rows, idempotency keys, metrics and the demo seed around the scan handlers.
- Session isolation finer than one block, and database constraints beyond what the handlers rely on.
- Regular-expression tokenisation of the policy (`_security_token`) and `key_size_bits`: their results are inputs (`RiskModel.Subject`, `Recommendation.Context`).
- Rationales, messages, citations, caveats, notes, `hardware_action` and the HNDL narrative; of a recommendation's rationale only the cited rule is kept.
- Certificate, key, protocol, cloud and hardware detail across export and ingest: the two sides use different field names; ingest keeps only that such a detail is present, and whether certificate dates are refused.
- JSON values of a wrong type: numbers or strings for lines, unreadable properties and entries that are not objects are modelled; `Cyclonedx.MistypedAsset` stands for assets on which the conversion raises; other values that the code tolerates, such as a numeric `parameterSetIdentifier`, are not modelled.
- Characters beyond ASCII in blanks, digits and letter case; parsing of timestamps (`Origin.observedAt`).
- Float rounding: scores, years and capability are reals.
- SPDX, SARIF, spreadsheet and PDF exporters, dashboards and compliance routes: formatting and counting.
- Row mapping, migrations and table declarations.
