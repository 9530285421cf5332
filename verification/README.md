# Manga Manager: a verified model of its coordinators

This project models the stateful core of Manga Manager, a durable manga catalogue and downloader,
and proves what its coordinators, indexes and selections promise. Database transactions are atomic
steps over finite tables; code that loops over rows and updates them is a class or a method with
loops, proved equal to a function of the old rows; the properties are then proved of those
functions, of every run, or of every reachable state.

`dafny verify dfyconfig.toml` checks everything.

| files | part of the system |
|---|---|
| `SeriesClusters`, `ProviderDuplicates`, `DuplicateRules` | duplicate listings of one provider: candidate index, greedy cliques, union-find closure |
| `MatchOperations` | reviewed match decisions executed by interleaved workers under series reservations |
| `DownloadPlans`, `PlanProperties`, `PlanStore`, `PlanRuns`, `PlanWaves`, `PlanMerges`, `Rerouting` | download plans: priority wave, rolling backfill window, series merges, rerouting between providers |
| `Artifacts` | activation of downloaded files and quality upgrades |
| `Pacing` | request slots per provider endpoint |
| `LibraryRepair`, `RepairQueue`, `RepairRuns` | coalescing of library repair jobs and their cleanup work |
| `LatestRelease` | the denormalised latest release against the audit query |
| `Scoring`, `ScoreParts` | batched and pairwise match scoring |
| `ChapterNumbers` | canonical chapter numbers and sort numbers |
| `PortableState`, `PortableStore`, `PortableBuild`, `PortableImport`, `PortableRoundTrip`, `PortableExport`, `PortableRepeat`, `PortableLosses`, `PortableKeeps`, `PortableDelivers`, `PortablePlans`, `PortableOverlaps` | portable snapshots: export, planning, import, and the round trip |
| `Options`, `Reals`, `TextOrder`, `Sequences`, `Tables` | optional values, real maxima, text order, lists and table queries used by the others |

## Findings

Where an expected property is false of the code, the code is modelled as it is, a lemma shows the
failure, and the exact condition is proved.

- Match operations: a terminal operation never becomes active again, but its outcome can still flip
  while a worker is between its transactions. Succeeded can become failed exactly while a worker is in
  flight (`SucceededCanFailExactlyWhen`). Failed can become succeeded exactly while a worker stands
  before its second transaction, all its decisions are pending, and the operation rejects or names at
  least two series that all exist (`FailedCanSucceedExactlyWhen`): nothing makes a reviewed decision
  pending again, because outside the operations only an import writes one, and it rejects
  (manga_manager/application/portable_state.py:784). A commit takes a series from another operation
  exactly when it accepts and another operation has reserved a series it absorbs (`CommitTakesExactlyWhen`); an operation that is
  still active takes nothing (`ActiveCommitTakesNothing`), so rechecking the status in the second
  transaction would be the guard. `StaleWorkerCommits` is a concrete run. An active operation holds
  all its series exactly when they all still exist (`ActiveMeansReserved`), because deleting a series
  deletes its reservation row.
- Rerouting: a worker holding a stale snapshot of a job can shrink the set of providers the job has
  used (`StaleRerouteShrinks`). A reroute that moves the job advances it exactly when the job's
  current provider is excluded by the worker, or is the one it falls back to while its own was not
  recorded yet, and the job's release exists on the snapshot's chapter
  (`RerouteAdvancesExactlyWhen`). The bound on moves is proved for all runs whose workers, current or
  stale, satisfy that.
- Download plans: deleting a job row clears the link of its intent (`ondelete="SET NULL"`,
  manga_manager/infrastructure/db_models.py:569-571), and reconcile skips an intent without a link.
  Such an intent stays queued for ever, in every tier, and keeps its plan active
  (`ClearedLinkStaysQueued`, `StuckPriorityChapter`). Retention deletes finished jobs: a queued intent
  whose finished job is pruned is stranded that way, while a reconcile before the pruning would have
  settled it (`PruningStrandsQueued`). An intent whose job is gone is offered again
  exactly when its link still names the missing row and it is no backfill intent or the pass opens the
  backfill (`GoneJobReofferedExactlyWhen`).
- Series merges and download plans: a merge moves the intents of the absorbed series and keeps the
  plan of the target. Pending backfill then stands under a plan outside the backfill phase exactly
  when the target has such a plan and pending backfill of the other series goes over to it
  (`MergeKeepsSafeExactlyWhen`, concretely `MergeBreaksTheWave`); the next pass offers it
  (`PendingIsOffered`). Blocked backfill that comes under a plan in the backfill phase is never
  released (`MergedBackfillStaysBlocked`).
- Pacing: a recovery probe starts an interval or more after the last granted request exactly when the
  end of that interval is at most one interval away; with one interval in force, exactly when that
  request has started already (`ProbeKeepsSpacingExactlyWhen`). In `ProbeOvertakes` the probe starts
  together with a request granted before it.
- Library repair: merging depends on the order of the requests exactly when there is nothing to clean
  up and the reasons are unranked and differ (`MergeOrderMattersExactlyWhen`). Collapsing breaks the
  unique dedupe index, and the transaction fails, exactly when one series number is spelled two ways
  among the active jobs, or a stray job of another, later group holds the key being assigned
  (`CollapseRespectsIndexExactlyWhen`, concretely `SpelledTwiceRollsBack` and
  `StrayRollsBackInOneOrder`). A series merge leaves jobs of the target under the absorbed series'
  key, yet from a table with plain series keys no run, merges included, comes to such a collapse
  (`TidyRunsNeverRollBack`).
- Latest release: a series that lost its last release keeps its old fields and is reported by the
  audit (`StaleLatestSurvives`, `RecomputedMismatchExactlyWhen`).
- Chapter numbers: beyond 28 significant digits two different numbers share one canonical text
  (`TwentyNinthDigitIsLost`, `SortNumberRecoversExactlyWhen`). The text `nan` gets a sort number that is
  not finite (`NanIsNotFinite`).
- Portable snapshots: a round trip fills in missing titles and addresses of alternates and may swap
  the two sides of a separation; an exported snapshot comes back unchanged exactly when neither occurs
  (`CatalogRoundTrip`; concrete catalogues in `AlternateComesBackFilled` and
  `SeparationComesBackSwapped`). Aliases that normalise to nothing are never stored
  (`ExportLosesNoAlias`); only a snapshot written by hand can hold one, and loses it (`AliasIsLost`).
- Portable imports into a catalogue in use: an identifier the snapshot lists for one listing, but another
  listing holds, is lost when a later entry gives that other listing a free value
  (`IdentifierIsForgotten`); an identifier is stored in the end exactly when no such step follows
  (`IdentifierStoredExactlyWhen`), in particular when no later entry lists another value at the same
  provider (`ListedIdentifierStays`). Two sources that the catalogue takes for one listing are written
  to one row, and the first is lost (`ListingIsOverwritten`); a listing carries a source exactly when
  the last one written to it says the same (`ImportedListing`).

## Model

| member | source | states |
|---|---|---|
| SeriesClusters.HalvingKeepsRoot | manga_manager/application/provider_duplicates.py:309-313 | one path-halving write leaves the root of every element unchanged |
| SeriesClusters.LinkingMergesRoot | manga_manager/application/provider_duplicates.py:315-318 | hanging the larger root under the smaller merges exactly those two classes |
| SeriesClusters.UnionFind.Find | manga_manager/application/provider_duplicates.py:309-313 | terminates, returns the class root, changes nobody's root |
| SeriesClusters.UnionFind.Union | manga_manager/application/provider_duplicates.py:315-318 | merges the two classes under the smaller root and touches no other class |
| SeriesClusters.UnionFind.UniteGroup | manga_manager/application/provider_duplicates.py:320-322 | after the pairwise unions all members share a root, and only connected elements were united |
| SeriesClusters.RootsDecideConnected | manga_manager/application/provider_duplicates.py:320-325 | equal roots hold exactly for elements connected by a chain of groups |
| SeriesClusters.EquivalentSeriesClusters | manga_manager/application/provider_duplicates.py:302-331 | every series gets the ascending list of exactly its reflexive-transitive closure, so its first element is the class minimum |
| ProviderDuplicates.BuildIndex | manga_manager/application/provider_duplicates.py:167-206 | every identity is filed under exactly its keys, in id order |
| ProviderDuplicates.CollectPairs | manga_manager/application/provider_duplicates.py:173-213 | the proposed pairs are exactly those sharing a bucket that admits them |
| ProviderDuplicates.EquivalentPairsAreCandidates | manga_manager/application/provider_duplicates.py:65-120 | no same-provider pair that full data calls equivalent escapes the three indexes |
| ProviderDuplicates.JudgePair | manga_manager/application/provider_duplicates.py:233-251 | a verdict from chapters loaded for candidates only equals the verdict on full data |
| ProviderDuplicates.EquivalentPairs | manga_manager/application/provider_duplicates.py:163-251 | the pruned search returns exactly the pairs, with the evidence, of an exhaustive run |
| ProviderDuplicates.FindGroup | manga_manager/application/provider_duplicates.py:260-272 | first group all of whose members are equivalent to the row, or none |
| ProviderDuplicates.GroupRows | manga_manager/application/provider_duplicates.py:255-276 | a partition into cliques no two of which could be joined, singletons included |
| ProviderDuplicates.LookupsSucceed | manga_manager/application/provider_duplicates.py:277-298 | every evidence lookup for a clique finds an entry |
| ProviderDuplicates.Report | manga_manager/application/provider_duplicates.py:277-298 | a report names exactly the clique's identities and series, with the independent verdict on each pair |
| ProviderDuplicates.ProviderDuplicateGroups | manga_manager/application/provider_duplicates.py:123-299 | one partition into unjoinable cliques per provider, and exactly one report for every clique of two or more, provider by provider in text order |
| ProviderDuplicates.SortNames | manga_manager/application/provider_duplicates.py:253-254 | the provider names in strictly ascending text order |
| ProviderDuplicates.EquivalentSeries | manga_manager/application/provider_duplicates.py:302-331 | detection followed by closure gives exactly the connected classes of the reported groups |
| DuplicateRules.EquivalentExactlyWhen | manga_manager/application/provider_duplicates.py:65-120 | two listings are equivalent on the stored tables exactly if they are one listing, or no external identifiers conflict, five chapters on both sides overlap by nine tenths, and a title is shared or covers are within eight bits and two telling words are shared |
| DuplicateRules.SignatureDistanceIsMinimum | manga_manager/application/provider_duplicates.py:39-45 | the cover distance is at most that of every pair of hashes and that of some pair; 64 without hashes |
| DuplicateRules.ReportedPairsAreOneWork | manga_manager/application/provider_duplicates.py:253-298 | any two members of a reported group satisfy that rule, and agree on every external provider unless they are one listing |
| DuplicateRules.ConflictsKeepApart | manga_manager/application/provider_duplicates.py:77-118 | two listings with different identifiers at one external provider are a pair exactly if they are one listing |
| MatchOperations.MatchOperationStore.EnqueueMatchOperation | manga_manager/application/match_operations.py:78-138 | the new tables and answer: an equivalent active operation, a conflict, a missing series, or a reserved new operation |
| MatchOperations.MatchOperationStore.BeginOperation | manga_manager/application/match_operations.py:183-203 | the first worker transaction, including its three refusals |
| MatchOperations.MatchOperationStore.CommitOperation | manga_manager/application/match_operations.py:204-267 | commits all decision, series and reservation changes, or leaves the tables as they were |
| MatchOperations.MatchOperationStore.Execute | manga_manager/application/match_operations.py:183-289 | one worker: commit, or the recorded failure |
| MatchOperations.MatchOperationStore.ReconcileStranded | manga_manager/application/match_operations.py:141-166 | fails exactly the active operations whose job cannot run, and returns their number |
| MatchOperations.RunsStayConsistent | manga_manager/application/match_operations.py:78-289 | in every interleaving a reservation belongs to one active operation and an active operation holds each of its existing series |
| MatchOperations.ActiveMeansReserved | manga_manager/application/match_operations.py:78-166 | an active operation holds all its series exactly when they all exist; a terminal one holds none |
| MatchOperations.SubmissionReserves | manga_manager/application/match_operations.py:78-138 | resubmitting changes nothing; a created operation found every series free and now holds exactly those |
| MatchOperations.SubmissionReusesExactlyWhen | manga_manager/application/match_operations.py:52-96 | a submission is answered with an operation that is there exactly if one that is queued or running asks for the same, and then with the newest |
| MatchOperations.TerminalIsForever | manga_manager/application/match_operations.py:183-289 | over every run a terminal operation never becomes active again and its request never changes |
| MatchOperations.SettledOutcomeIsFinal | manga_manager/application/match_operations.py:183-289 | without a worker in flight the outcome is final |
| MatchOperations.SucceededCanFailExactlyWhen | manga_manager/application/match_operations.py:268-289 | a succeeded operation can become failed in some run exactly while a worker is in flight on it |
| MatchOperations.FailedCanSucceedExactlyWhen | manga_manager/application/match_operations.py:204-267 | a failed operation can become succeeded in some run exactly while a worker stands before the second transaction, all its decisions are pending and the merge can go through |
| MatchOperations.CommitsExactlyWhen | manga_manager/application/match_operations.py:204-267 | the second transaction can commit at once exactly when all decisions are pending and the merge can go through |
| MatchOperations.CommitTakesExactlyWhen | manga_manager/application/match_operations.py:252-267 | a commit takes a reserved series from another operation exactly when it accepts and another operation reserved a series it absorbs |
| MatchOperations.ActiveCommitTakesNothing | manga_manager/application/match_operations.py:183-203 | an operation that is active when it commits takes no series from any other |
| MatchOperations.InFlightOutcomeCanFlip | manga_manager/application/match_operations.py:268-289 | with a worker in flight a succeeded operation can be marked failed while its decisions stay |
| MatchOperations.StaleWorkerCommits | manga_manager/application/match_operations.py:141-267 | a concrete run in which a recovered operation commits and takes a series from another active operation; `CommitTakesExactlyWhen` and `FailedCanSucceedExactlyWhen` give the conditions |
| MatchOperations.CommitMovesAllOrNone | manga_manager/application/match_operations.py:204-267 | a commit moves all decisions from pending to the verdict, or none, and exactly when it refuses |
| MatchOperations.CommitStoresAction | manga_manager/application/match_operations.py:223-234 | a committed decision is accepted exactly if the action accepts, and rejected exactly if it rejects |
| MatchOperations.CommitChanges | manga_manager/application/match_operations.py:252-267 | the operation has succeeded, accepting leaves exactly the target of its series, and only its own reservations and those on absorbed series are gone |
| MatchOperations.FailureChanges | manga_manager/application/match_operations.py:268-289 | a recorded failure fails the operation, frees its series and touches nothing else |
| MatchOperations.RecoveryFailsOrphans | manga_manager/application/match_operations.py:141-166 | recovery fails exactly the active operations whose job ended or is missing, and frees exactly their series |
| MatchOperations.FirstVerdict | manga_manager/application/match_operations.py:223-234 | over runs the first verdict of a decision is the side of an operation that names it, as that commits, or an import's rejection |
| MatchOperations.AcceptedByOperation | manga_manager/application/match_operations.py:223-234 | over runs a decision is only ever accepted by the commit of an accepting operation that names it |
| MatchOperations.ReviewedVerdictsAreFinal | manga_manager/application/portable_state.py:771-788 | over every run, while its row exists, a rejected decision stays rejected and an accepted one is rejected exactly when an import overruled it; no operation changes a verdict (manga_manager/application/match_operations.py:214-234) |
| DownloadPlans.BestIsPreferred | manga_manager/application/download_plans.py:496-512 | the selected release is eligible and no eligible one is preferred to it; none means none is eligible |
| PlanProperties.IntentOrderSorted | manga_manager/application/download_plans.py:492-494 | the visiting order is sorted by tier and id and visits every intent once |
| PlanProperties.EnqueuePass | manga_manager/application/download_plans.py:459-490 | the window counter never passes the larger of its start and the window, and what stays pending is backfill facing a full window |
| PlanProperties.RollingWindow | manga_manager/application/download_plans.py:459-494 | queued backfill is bounded, newly queued backfill precedes everything left pending, and pending backfill means a full window |
| PlanProperties.ReconcileStabilises | manga_manager/application/download_plans.py:364-490 | a third reconcile returns exactly the plan, intents and jobs of the second |
| PlanProperties.ReconcileCounts | manga_manager/application/download_plans.py:364-423 | the counters are the counts over the intents; complete exactly when there are intents and all are settled |
| PlanProperties.GoneJobReofferedExactlyWhen | manga_manager/application/download_plans.py:382-410 | an intent whose job is gone is offered again exactly when its link names the missing row and it is no backfill intent or the pass opens the backfill; a cleared link leaves it queued, otherwise it is blocked |
| PlanProperties.ClearedLinkStaysQueued | manga_manager/application/download_plans.py:387-388 | over any number of reconciles an intent with a cleared link stays queued and its plan active while the chapter is not stored |
| PlanProperties.StuckPriorityChapter | manga_manager/application/download_plans.py:387-388 | a concrete priority chapter with a release ready that is never offered again |
| PlanProperties.LostBackfillStaysBlocked | manga_manager/application/download_plans.py:389-410 | in the backfill phase a backfill intent that is blocked without a job, or links a missing row, is blocked after every reconcile |
| PlanProperties.FinishedJobSettles | manga_manager/application/download_plans.py:382-410 | a reconcile that still finds the finished job settles its intent as satisfied or for attention |
| PlanRuns.PruningStrandsQueued | manga_manager/application/job_retention.py:14-66 | pruning finished jobs, whatever their age, leaves a queued intent of one without a link and queued after any number of reconciles, with its plan active; any reconcile before the pruning settles it |
| PlanMerges.MergeKeepsSafeExactlyWhen | manga_manager/web/app.py:208-312 | after a series merge no backfill is pending outside the backfill phase, exactly unless the target has a plan outside it and pending backfill goes over to it |
| PlanMerges.MergeBreaksTheWave | manga_manager/web/app.py:225-312 | a concrete merge that puts pending backfill under a plan whose priority wave is unsettled |
| PlanMerges.PendingIsOffered | manga_manager/application/download_plans.py:459-490 | a pass offers every pending intent without a job to the queue, settled wave or not |
| PlanMerges.MergedBackfillStaysBlocked | manga_manager/web/app.py:301-312 | blocked backfill that a merge brings under a plan in the backfill phase is blocked after every reconcile |
| PlanStore.DownloadPlanCoordinator.SyncChapters | manga_manager/application/download_plans.py:425-457 | an intent for every chapter without one, tiered by the priority set |
| PlanStore.DownloadPlanCoordinator.EnqueuePending | manga_manager/application/download_plans.py:459-490 | the enqueue pass over jobs and intents in intent order |
| PlanStore.DownloadPlanCoordinator.ReconcilePlan | manga_manager/application/download_plans.py:364-423 | observe, advance the phase, enqueue and count, on the stored rows |
| PlanStore.DownloadPlanCoordinator.ReconcileOne | manga_manager/application/download_plans.py:364-423 | reconciles an active plan and leaves any other series alone |
| PlanStore.DownloadPlanCoordinator.TrackSeries | manga_manager/application/download_plans.py:44-56 | creates or revives the plan, synchronises and reconciles it |
| PlanWaves.ReconcileTiers | manga_manager/application/download_plans.py:425-457 | a new intent is current exactly if its chapter is newer than the plan, priority exactly if it is not and is among the first or last two in the priority phase; old ones keep chapter and tier; every chapter has one |
| PlanWaves.TrackTiers | manga_manager/application/download_plans.py:44-56 | the same for tracking, with a new plan dated from the request and an old one keeping its date |
| PlanWaves.FirstTrackQueuesAtMostFour | manga_manager/application/download_plans.py:436-490 | a first track of a series without newer chapters and with an end not stored creates at most four jobs, each for one of the first or last two chapters, at priority 20, with its best release |
| PlanWaves.FirstTrackQueuesEnds | manga_manager/application/download_plans.py:436-490 | each of those chapters that is not stored and has an available release is queued with an active job |
| PlanWaves.ReconcileQueuesBest | manga_manager/application/download_plans.py:459-490 | every job a reconcile creates belongs to a queued intent and carries that chapter's best available release at the priority of its tier |
| PlanWaves.ReconcileObserves | manga_manager/application/download_plans.py:382-400 | an intent is satisfied, for attention or queued by what is stored and what became of its job |
| PlanWaves.PreferredExactlyWhen | manga_manager/application/download_plans.py:505-509 | the provider decides in the fixed order, quality and then id only between providers that rank alike |
| PlanStore.DownloadPlanCoordinator.UntrackSeries | manga_manager/application/download_plans.py:110-128 | cancels the plan, its unfinished intents and their waiting jobs |
| PlanStore.DownloadPlanCoordinator.RerouteLeased | manga_manager/application/chapter_download.py:382-436 | moves a leased job to the best untried release of its chapter, or refuses |
| PlanStore.DownloadPlanCoordinator.Bypass | manga_manager/application/download_plans.py:244-316 | moves every waiting job of a cooling provider that has a fallback, and returns how many |
| PlanRuns.BackfillWaitsForRelease | manga_manager/application/download_plans.py:364-490 | before the priority wave is settled a reconcile touches no backfill intent and creates no backfill job |
| PlanRuns.RunsStaySafe | manga_manager/application/download_plans.py:44-490 | in every run of the coordinator, workers, retention and catalogue growth, an active plan is in the priority or backfill phase and no backfill is pending during the priority phase; a series merge starts a new run, from tables that are safe exactly under `MergeKeepsSafeExactlyWhen` |
| PlanRuns.BackfillWasReleased | manga_manager/application/download_plans.py:364-410 | a series in the backfill phase got there at a step that saw its whole priority wave settled |
| PlanRuns.BackfillJobsFollowRelease | manga_manager/application/download_plans.py:364-490 | over whole runs a step that gives a backfill intent a new job comes with or after a step that saw the priority wave settled |
| PlanRuns.UntrackStops | manga_manager/application/download_plans.py:110-128 | no unfinished intent remains, exactly the waiting jobs they own are cancelled, other series keep their intents |
| Rerouting.StepAdvances | manga_manager/application/download_plans.py:152-316 | every step whose worker satisfies the exact guard lets the used providers of a job grow with each move and never shrink, on the same chapter |
| Rerouting.MovesAreBounded | manga_manager/application/download_plans.py:152-316 | over any run of such steps a job moves at most one fewer time than there are providers, never leaves its chapter, and a preferred-only job never moves |
| Rerouting.RerouteGrowsExactlyWhen | manga_manager/application/chapter_download.py:382-436 | a reroute that moves the job strictly grows its used providers exactly under a condition on the rows before it, whatever the snapshot |
| Rerouting.RerouteAdvancesExactlyWhen | manga_manager/application/chapter_download.py:382-436 | such a reroute advances the job exactly under the guard of the bound |
| Rerouting.RerouteWrites | manga_manager/application/chapter_download.py:382-436 | the failed release is held back; the job moves exactly if it may and an untried available alternative exists, to the best one, and its chapter's intents wait for it |
| Rerouting.BypassWrites | manga_manager/application/download_plans.py:244-316 | a waiting job moves to the best untried alternative, or waits with its release held back, exactly if there is none or it may not move |
| Rerouting.BypassLeavesOthers | manga_manager/application/download_plans.py:244-256 | a bypass leaves every job of another provider and every job that is not waiting as it is |
| Rerouting.BypassRetriesAll | manga_manager/application/download_plans.py:244-316 | afterwards every job that waited on the cooling provider, with a known release, waits for a retry |
| Rerouting.FreshIsCovered | manga_manager/application/chapter_download.py:382-436 | a worker whose snapshot is the job's current release satisfies the guard |
| Rerouting.StaleRerouteShrinks | manga_manager/application/chapter_download.py:382-436 | a concrete stale reroute that forgets a used provider |
| Artifacts.ArtifactRepository.ActivateArtifact | manga_manager/infrastructure/artifact_repository.py:29-118 | the new artifact and projection rows and the answer |
| Artifacts.ActivationsKeep | manga_manager/infrastructure/artifact_repository.py:29-118 | over any activations a chapter has at most one active artifact and its projection names it |
| Artifacts.ActivateWrites | manga_manager/infrastructure/artifact_repository.py:29-118 | the stored file only gains rank and links; another file is quarantined, or retires the active one, with everything the request brought; no other row changes |
| Artifacts.ActivatingAgainIsDuplicate | manga_manager/infrastructure/artifact_repository.py:56-63 | activating the same request again finds the artifact and changes nothing |
| Artifacts.UpgradePlannedExactlyWhen | manga_manager/application/download_plans.py:318-345 | an upgrade is planned exactly for an active artifact of another provider, or a fallback, with an available release of higher rank |
| Artifacts.UpgradeJobsAreUpgrades | manga_manager/application/download_plans.py:318-362 | every job of the pass is the planned upgrade of an active artifact of a wanted chapter, at priority 250 and for no other provider |
| Artifacts.UpgradeRaises | manga_manager/application/download_plans.py:318-362 | activating a planned upgrade strictly raises provider priority and quality, and leaves no further upgrade |
| Artifacts.EnqueuePreferredUpgrades | manga_manager/application/download_plans.py:318-362 | the upgrade pass over the active artifacts, counting the jobs it creates |
| Artifacts.SettledChapterGetsNoUpgrade | manga_manager/application/download_plans.py:318-362 | a chapter whose active artifact is already best gets no job |
| Artifacts.NoUpgradeAfterUpgrade | manga_manager/application/chapter_download.py:339-349 | with fixed releases the pass after an activated upgrade creates nothing for its chapter |
| Pacing.ProviderRequestScheduler.ReserveSlot | manga_manager/infrastructure/provider_scheduler.py:108-185 | the new source and endpoint rows and the answer |
| Pacing.ProviderRequestScheduler.Wait | manga_manager/infrastructure/provider_scheduler.py:71-88 | over the clock and tables found at each attempt: one sleep per refusal, to the end of the cooldown but at most one recheck interval, then the slot of the first attempt outside it and a sleep of exactly the granted delay |
| Pacing.ReserveFrame | manga_manager/infrastructure/provider_scheduler.py:108-185 | a refusal changes no time anywhere, a grant only this endpoint's slot; refused exactly during a cooldown without a probe |
| Pacing.RefusedUntilCooldownsEnd | manga_manager/infrastructure/provider_scheduler.py:146-162 | a request is refused exactly while a cooldown of the provider or the endpoint runs, until the last of them ends |
| Pacing.IntervalInForce | manga_manager/infrastructure/provider_scheduler.py:127-145 | a positive endpoint interval wins, then a positive policy, then the request, never below zero |
| Pacing.RunIsItsGrants | manga_manager/infrastructure/provider_scheduler.py:108-185 | whatever refusals and cooldown changes lie between, the slot is the one produced by the grants alone |
| Pacing.GrantsAreSpaced | manga_manager/infrastructure/provider_scheduler.py:164-185 | consecutive starts are at least the interval in force apart |
| Pacing.StartClosedForm | manga_manager/infrastructure/provider_scheduler.py:164-185 | a start is the maximum over all requests so far of their reading plus the intervals granted since |
| Pacing.GrantedStart | manga_manager/infrastructure/provider_scheduler.py:108-185 | in any run the granted delay leads to exactly that start |
| Pacing.FixedIntervalClosedForm | manga_manager/infrastructure/provider_scheduler.py:108-185 | with one interval the k-th start is the maximum of now_j + (k - j) * interval |
| Pacing.ProbeWaitsOneInterval | manga_manager/infrastructure/provider_scheduler.py:169-176 | a probe is always granted and waits at most one interval |
| Pacing.ProbeKeepsSpacingExactlyWhen | manga_manager/infrastructure/provider_scheduler.py:164-185 | after any run a probe starts an interval or more after the last grant exactly when that point is at most the probe's interval away; with one interval, exactly when that grant has started |
| Pacing.ProbeOvertakes | manga_manager/infrastructure/provider_scheduler.py:169-176 | two requests and a probe on a fresh endpoint, of which the probe starts together with the second |
| LibraryRepair.MergeConserves | manga_manager/application/library_repair.py:65-82 | the merged keys are exactly the non-empty ones, sorted, once each; any key makes the reason "merge" |
| LibraryRepair.TopReasonIsFirstHighest | manga_manager/application/library_repair.py:71-75 | the reason is the first of highest priority |
| LibraryRepair.MergedReasonLeads | manga_manager/application/library_repair.py:42-49 | without keys to clean up the merged reason is the first one that no other comes before in the list of six |
| LibraryRepair.MergeIsAssociative | manga_manager/application/library_repair.py:65-82 | merging any non-empty part of the list first changes nothing |
| LibraryRepair.EmptyMergeIsNotNeutral | manga_manager/application/library_repair.py:71-75 | the default reason of an empty merge is not neutral |
| LibraryRepair.MergeOrderMattersExactlyWhen | manga_manager/application/library_repair.py:65-82 | the merge is order-independent exactly with keys, a ranked reason, or one reason only |
| RepairQueue.RepairJobs.EnqueueLibraryRepair | manga_manager/application/library_repair.py:85-154 | the new job rows; created exactly when no active job has the key |
| RepairQueue.RepairJobs.ReconcileActiveJobs | manga_manager/application/library_repair.py:163-233 | the collapsed rows, with the exact numbers of cancelled and renamed jobs |
| RepairQueue.ChooseKeeper | manga_manager/application/library_repair.py:193-196 | the first leased job of a group, otherwise its first job |
| RepairRuns.EnqueueConserves | manga_manager/application/library_repair.py:85-154 | a request adds exactly its non-empty keys to its series and nothing elsewhere, provided active jobs under its dedupe key belong to that series; the call of a series merge included |
| RepairRuns.EnqueueTakesUrgency | manga_manager/application/library_repair.py:113-114 | the active job takes the smaller of both priorities, a new one the request's, and no other job changes |
| RepairRuns.MergeMovesWork | manga_manager/web/app.py:313-317 | re-keying in a series merge hands what either series owes to the target |
| RepairRuns.CollapseConserves | manga_manager/application/library_repair.py:163-233 | a collapse changes the outstanding keys of no series |
| RepairRuns.CollapseLeavesOne | manga_manager/application/library_repair.py:163-233 | exactly one active job remains per numeric series key that had any |
| RepairRuns.CollapseKeepsLeases | manga_manager/infrastructure/db_models.py:76-86 | under the unique lease index no running job is cancelled |
| RepairRuns.RunningPayloadStands | manga_manager/application/library_repair.py:85-228 | neither a request nor a collapse changes what a running job is working on |
| RepairRuns.RunningJobGainsExactlyWhen | manga_manager/application/library_repair.py:213-225 | a collapse gives a running job pending work exactly if its group brings a key it does not have |
| RepairRuns.CollapseRespectsIndexExactlyWhen | manga_manager/application/library_repair.py:163-233 | in a given order of groups every stage respects the active dedupe index exactly when no number is spelled two ways and no active job outside the groups collapsed so far holds the key being assigned |
| RepairRuns.SpelledTwiceRollsBack | manga_manager/infrastructure/db_models.py:55-62 | two concrete jobs under two spellings of one number violate the index |
| RepairRuns.StrayRollsBackInOneOrder | manga_manager/infrastructure/db_models.py:55-62 | two concrete jobs, one under the other's key, violate the index in one order of groups only |
| RepairRuns.TidyRunsNeverRollBack | manga_manager/web/app.py:383-391 | from plainly spelled tables no run, series merges included, reaches a collapse that is rolled back |
| RepairRuns.RunsConserveCleanup | manga_manager/web/app.py:313-490 | over every run of requests, collapses, series merges, claims, completions, retries and failures, keys requested for a series or one merged into it are exactly those still owed and those an ended job held (job states: manga_manager/infrastructure/job_queue.py:1005-1069) |
| LatestRelease.SelectNumeric | manga_manager/infrastructure/catalog_repository.py:665-671 | the first row by number then release id among numbered chapters, if any |
| LatestRelease.SelectFallback | manga_manager/infrastructure/catalog_repository.py:672-683 | the first row by date, undated last, then release id |
| LatestRelease.SelectedIsNewest | manga_manager/infrastructure/catalog_repository.py:660-686 | the selected row has the highest number, or without numbers the newest date, undated last; ties go to the higher release id |
| LatestRelease.ReleaseDate | manga_manager/infrastructure/catalog_repository.py:690-690 | the date is the publication, or the first sight if that is unknown |
| LatestRelease.SelectionIsRankedFirst | manga_manager/application/database_audit.py:29-40 | the two queries select a row exactly when the audit's four-key order ranks it first |
| LatestRelease.RankedFirstIsUnique | manga_manager/application/database_audit.py:33-41 | there is one top row |
| LatestRelease.CatalogRepository.RecomputeLatest | manga_manager/infrastructure/catalog_repository.py:660-691 | writes the audit's top row, changes no other series, and removes exactly its own mismatch if it has releases |
| LatestRelease.RecomputedMismatchExactlyWhen | manga_manager/application/database_audit.py:41-51 | a recomputed series is a mismatch exactly when it has no release and stale fields |
| LatestRelease.StaleLatestSurvives | manga_manager/infrastructure/catalog_repository.py:684-686 | a concrete series without releases keeps its latest number when recomputed, and the audit reports it |
| Scoring.ScoreSeriesPair | manga_manager/application/matching_score.py:89-123 | the pairwise scorer equals the score defined on the tables |
| Scoring.ScoreLoaded | manga_manager/application/matching_score.py:198-261 | the batched scorer equals the same score, from evidence loaded once |
| Scoring.ScoreCandidateSet | manga_manager/application/matching_score.py:134-274 | every candidate gets the pairwise score against the first selected series that scores highest |
| Scoring.BestIsHighest | manga_manager/application/matching_score.py:264-274 | that score is at least the pairwise score against every selected series |
| Scoring.FirstOfEach | manga_manager/application/matching_score.py:312-323 | the first row per series of the ordered query is the highest number |
| Scoring.LoadChapters | manga_manager/application/matching_score.py:167-180 | one pass gives the number sets and the highest numbers |
| Scoring.ChooseCover | manga_manager/application/matching_score.py:223-239 | the nested loop equals the running choice over all signed pairs |
| Scoring.ChosenIsFirstBest | manga_manager/application/matching_score.py:368-385 | the choice is the first compared pair of highest similarity, if any pair compares |
| Scoring.ComparisonIsSound | manga_manager/application/matching_score.py:388-401 | similarities lie in [0, 1] and a match outranks everything else |
| Scoring.ScoreInRange | manga_manager/application/matching_score.py:404-424 | scores lie in [0, 0.99], and 0.99 means exactly a shared external identifier |
| Scoring.MatchingCoverDecides | manga_manager/application/matching_score.py:356-424 | the evidence is a match exactly when some signed pair matches; then the score is at least 0.86, or 0.90 when corroborated |
| ScoreParts.TitleScoreIsHighest | manga_manager/application/matching_score.py:93-96 | the title score is at least the similarity of every pair of titles, and that of some pair unless a side has none |
| ScoreParts.TitleMatchExactlyWhen | manga_manager/application/matching_score.py:114-114 | titles match exactly if some title or alias of one series is at least 0.75 like one of the other |
| ScoreParts.SharedTitleMatches | manga_manager/application/matching_score.py:93-114 | two series that share a normalised title or alias match by title with the full title score |
| ScoreParts.TitleSimilarityBands | manga_manager/application/matching_score.py:427-446 | equal normalised titles are fully alike; fewer than two shared words give at most 0.45; otherwise the weighted words and sequence |
| ScoreParts.SharedExactly | manga_manager/application/matching_score.py:291-297 | an identifier is shared exactly if both series have a row of its provider and value |
| ScoreParts.OverlapEnds | manga_manager/application/matching_score.py:300-309 | chapter overlap is symmetric, zero exactly for disjoint lists and one exactly for equal ones |
| ScoreParts.LatestAgreement | manga_manager/application/matching_score.py:326-350 | latest chapters within two agree fully, from six apart not at all, in between by a quarter less a chapter |
| ScoreParts.MatchExactlyWhen | manga_manager/application/cover_evidence.py:399-408 | the exact counts of inliers, their share of the good matches and the hash distance for a match, a likely match and a difference |
| ScoreParts.CoverBands | manga_manager/application/matching_score.py:388-401 | the similarity range of every state of a comparison |
| ScoreParts.CombinedWeights | manga_manager/application/matching_score.py:404-420 | nothing alike scores zero, and without a cover match each part counts by its weight alone |
| ScoreParts.CombinedFloor | manga_manager/application/matching_score.py:421-424 | a cover match never lowers the score and lifts it to 0.86, or 0.90 when something else agrees |
| ScoreParts.ReportedPartsAddUp | manga_manager/application/matching_score.py:107-119 | without a shared identifier or a cover match the reported parts explain the score, up to rounding |
| ScoreParts.ReportedTexts | manga_manager/application/matching_score.py:103-118 | the reported description and overlap are those of the two series |
| ChapterNumbers.CanonicalReadsBack | manga_manager/domain/catalog.py:17-25 | the canonical text is a whole numeral of the rounded value, without trailing zeros |
| ChapterNumbers.CanonicalIsIdempotent | manga_manager/domain/catalog.py:17-25 | canonicalising twice is canonicalising once, for every text |
| ChapterNumbers.CanonicalEqualExactlyWhen | manga_manager/domain/catalog.py:17-25 | two texts share a canonical form exactly when their first numerals denote one value, or neither has one and they fold to one text |
| ChapterNumbers.RoundingIsExactExactlyWhen | manga_manager/domain/catalog.py:21-25 | rounding is exact exactly for at most 28 significant digits |
| ChapterNumbers.SortNumberRecoversExactlyWhen | manga_manager/domain/catalog.py:28-33 | the sort number is the numeral's value exactly when it has at most 28 significant digits |
| ChapterNumbers.UnnumberedHasNoFiniteSort | manga_manager/domain/catalog.py:28-33 | a finite sort number exists exactly when the text has a numeral |
| ChapterNumbers.WholeNumbersShareExactlyWhen | manga_manager/domain/catalog.py:17-25 | two whole numbers written out share a canonical text exactly when they round to one number |
| ChapterNumbers.TwentyNinthDigitIsLost | manga_manager/domain/catalog.py:21-25 | two different 29-digit texts share one canonical text |
| ChapterNumbers.NanIsNotFinite | manga_manager/domain/catalog.py:28-33 | the text "nan" gets a sort number that is not finite |
| PortableStore.PortableCatalog.ExportPortableState | manga_manager/application/portable_state.py:249-390 | the snapshot of the selected series, separations and providers, in query order |
| PortableExport.ExportedExactlyWhen | manga_manager/application/portable_state.py:205-248 | a series is exported exactly if a provider lists it and it is tracked, downloaded, joined from several listings or kept apart from another |
| PortableExport.ExportSaysTables | manga_manager/application/portable_state.py:249-390 | every entry says what the tables say of its series and of each of its listings, once each; only a downloaded series nobody tracks becomes interested |
| PortableStore.ExistingIdentityMap | manga_manager/application/portable_state.py:412-416 | the first identity of every key |
| PortableStore.ResolveExistingIdentity | manga_manager/application/portable_state.py:419-436 | the identity of the same key, the only equivalent one, none, or an ambiguity |
| PortableStore.PortableCatalog.PlanPortableImport | manga_manager/application/portable_state.py:439-492 | creations, merges and conflicts of an import |
| PortablePlans.PlanConflictsExactlyWhen | manga_manager/application/portable_state.py:439-476 | the series cause no conflict exactly if entries that claim one local series have one title |
| PortablePlans.PlanCountsExactlyWhen | manga_manager/application/portable_state.py:439-476 | nothing to create exactly if every entry, and every source, is known, and nothing to merge exactly if no entry is spread over several local series |
| PortablePlans.ImportNeedsAgreement | manga_manager/application/portable_state.py:644-660 | an import goes ahead only if no local series is claimed under two titles and no separated pair is merged in the snapshot |
| PortablePlans.KeyNamesFirstListing | manga_manager/application/portable_state.py:412-416 | a key is known exactly if some listing has it, and names the first that does |
| PortableStore.PortableCatalog.UpsertAliases | manga_manager/application/portable_state.py:506-542 | adds aliases that mean something and are new to the series |
| PortableStore.PortableCatalog.UpsertSourceDetails | manga_manager/application/portable_state.py:545-608 | the identity row, its aliases, external identifiers and alternates |
| PortableStore.PortableCatalog.UpsertReadingStates | manga_manager/application/portable_state.py:611-641 | progress is added or raised, never lowered |
| PortableStore.PortableCatalog.ApplyPortableImport | manga_manager/application/portable_state.py:644-814 | the imported tables, or a conflict that leaves everything as it was |
| PortableDelivers.ImportDelivers | manga_manager/application/portable_state.py:644-814 | after a successful import into any catalogue every series, name, progress and separation of the snapshot is there, every source was written to its known listing or a new one, and nothing local was lost |
| PortableDelivers.ImportedListing | manga_manager/application/portable_state.py:545-608 | every source has a listing of its provider in its series' home, which carries it exactly if the last source written there says the same; its alternates and meaningful aliases are stored |
| PortableDelivers.IdentifierStoredExactlyWhen | manga_manager/application/portable_state.py:564-590 | an external identifier is stored in the end exactly if it was there or is listed and no later step gives its listing another free value |
| PortableDelivers.ListedIdentifierStays | manga_manager/application/portable_state.py:564-590 | a listed identifier is stored unless a later entry lists another value at its provider |
| PortableDelivers.SeparationsDelivered | manga_manager/application/portable_state.py:763-788 | every separation of the snapshot is stored as rejected between the restored listings, and no rejection is lost |
| PortableDelivers.ProvidersDelivered | manga_manager/application/portable_state.py:793-800 | the last preference for a provider is stored, and providers the snapshot does not name stay |
| PortableOverlaps.IdentifierIsForgotten | manga_manager/application/portable_state.py:564-590 | a concrete import after which an identifier the snapshot lists is stored nowhere |
| PortableOverlaps.ListingIsOverwritten | manga_manager/application/portable_state.py:545-558 | a concrete import of two sources with one address after which the first id is stored nowhere |
| PortableImport.AddAllSeriesBuilds | manga_manager/application/portable_state.py:669-722 | an importable snapshot is written into an empty catalogue without loss |
| PortableRoundTrip.ImportSucceeds | manga_manager/application/portable_state.py:644-814 | the first import plans to create every series and source, and succeeds |
| PortableRoundTrip.SnapshotRoundTrip | manga_manager/application/portable_state.py:249-390 | exporting what was imported gives the snapshot back, restored |
| PortableRepeat.ComesBackUnchangedExactlyWhen | manga_manager/application/portable_state.py:506-608 | a restored snapshot, from an export or written by hand, equals the original but for the downloaded flags exactly when aliases mean something, alternates are filled in and separations follow snapshot order |
| PortableRepeat.ExportLosesNoAlias | manga_manager/infrastructure/catalog_repository.py:530-551 | no exported snapshot holds an alias that normalises to nothing |
| PortableLosses.SeparationComesBackSwapped | manga_manager/application/portable_state.py:770-783 | a concrete sound catalogue whose separation comes back with its sides swapped |
| PortableLosses.AlternateComesBackFilled | manga_manager/application/portable_state.py:591-608 | a concrete sound catalogue whose alternate comes back with the title of its listing |
| PortableLosses.AliasIsLost | manga_manager/application/portable_state.py:513-515 | a concrete hand-made snapshot whose alias does not come back |
| PortableRepeat.SecondImportPlansNothing | manga_manager/application/portable_state.py:439-492 | a second import plans no creation, merge or conflict |
| PortableExport.ExportIsExported | manga_manager/application/portable_state.py:205-390 | every sound catalogue without equivalent identities exports a snapshot that can be restored, every series of which is selected again |
| PortableRepeat.CatalogRoundTrip | manga_manager/application/portable_state.py:205-814 | for every sound catalogue without equivalent identities, export, import into an empty catalogue and export again gives the snapshot back, but for the downloaded flags, exactly when alternates are filled in and separations in order; a second import plans nothing |
| PortableRepeat.StoredNumbersAreCanonical | manga_manager/application/portable_state.py:614-627 | chapter numbers stored by canonicalisation stay the same when imported |
| PortableKeeps.AddAliasesKeep | manga_manager/application/portable_state.py:506-542 | aliases are only added, stay unique per series, and every meaningful one is present afterwards |
| PortableKeeps.AddExternalsKeep | manga_manager/application/portable_state.py:566-590 | external identifiers stay unique by value and by provider, and no other listing's is changed |
| PortableKeeps.AddAlternatesKeep | manga_manager/application/portable_state.py:591-608 | alternates are only added and stay unique |
| PortableKeeps.AddReadingRaises | manga_manager/application/portable_state.py:611-641 | after importing progress its chapter is at least that far, no chapter is further back, chapters stay unique |
| PortableKeeps.AddReadingsRaise | manga_manager/application/portable_state.py:720-721 | a whole list of progress never lowers any |
| PortableKeeps.RefreshesTakeTheHighest | manga_manager/application/portable_state.py:693-698 | over any imports a series has the highest of its own and all imported statuses, so their order does not matter, and keeps its own title and description |
| PortableKeeps.AddDecisionKeeps | manga_manager/application/portable_state.py:771-788 | a separation is stored rejected and every other decision stays |

## Left out

- Job queue internals: enqueue returns the active job of a kind and key or creates one, and cancel, claim, retry and finish change the status; leases, permits, pools, events, workload cycles and backoff are not modelled.
- PlanStore.DownloadPlanCoordinator.TrackSeries: the provider refresh jobs that tracking also enqueues (manga_manager/application/download_plans.py:58-108), as a portable import does, are not modelled; they touch none of the rows modelled here.
- Merging canonical series: modelled are the series that disappear and the decision rows dropped (`CommitOperation`), the intents and plans (`MergeSeries` in `PlanMerges`) and the repair jobs (`Absorb` in `RepairRuns`); the rest of manga_manager/web/app.py:177-491 is not part of this model.
- PlanRuns.RunsStaySafe: its runs contain no series merge; `MergeKeepsSafeExactlyWhen` says when one keeps the tables safe.
- PlanRuns.PruningStrandsQueued: the retention cutoff of 14 days and the batch size are left out; any finished jobs may be pruned.
- PortableStore.PortableCatalog.ApplyPortableImport: a portable series that resolves to several local series is refused, because joining them is the canonical merge; planning counts such merges.
- PortableStore.PortableCatalog.UpsertSourceDetails: rows added earlier in the same series count as visible to the conflict queries; the session does not flush them, so the two differ only for snapshots that list one external identifier or alternate twice.
- PortableExport.ExportIsExported: field validation of snapshots (lengths, address schemes, known providers) is represented by non-empty titles and addresses.
- PortableRepeat.CatalogRoundTrip: assumes that derived columns match what they are derived from, that an alternate has the provider of its identity, and that no rejected pair is stored in both directions.
- PortableDelivers.ImportDelivers: assumes the unique constraint on reading progress; a series that resolves to several local series is refused, as above.
- RepairQueue.RepairJobs.EnqueueLibraryRepair: the path for a job inserted by another transaction between the query and the insert is the same merge on the inserted job, and is not a separate step.
- RepairQueue.RepairJobs.ReconcileActiveJobs: series keys that spell a non-positive number are not modelled; payload validation rejects them. A violated unique index rolls the collapse back.
- ChapterNumbers.CanonicalIsIdempotent: digits are ASCII and letters outside A to Z are not folded; numerals beyond the exponent range of the decimal context are not modelled.
- Text and image measures: title normalisation, token splitting, sequence ratios, address parsing, image hashing and homography are functions with the stated ranges, not models of their algorithms.
- Scoring.ScoreInRange: floating point is real arithmetic, with rounding to six decimals modelled exactly.
- Rescoring of pending decisions (manga_manager/application/matching_score.py:33-86): a loop that copies the proved scores into decision rows.
- Pacing.ProviderRequestScheduler.Wait: clock readings and the tables at each attempt are parameters; sleeping itself takes no part in the model.
- Timestamps, activity events, attempt details, training labels and error texts are not modelled where no decision reads them.
- Files on disk, adapters, the Kavita client, the web application, legacy repair and the command line are outside the model.
