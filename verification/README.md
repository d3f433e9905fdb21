# Autosport: durable protocols and swarm control, verified

Autosport keeps paper-trading evidence in files that must survive crashes, restores and retries, and
runs its own development swarm with scripts that act on GitHub. This project models the fail-closed
protocols at the centre of both and proves what they keep over whole runs. Check everything with
`dafny verify dfyconfig.toml`.

Each core has a specification in functions, the imperative form of the source proved equal to it (a class
where the source has an object, a loop where it has a loop), and theorems about the specification. What the
source cannot control is an argument that may take any value: clocks, GitHub replies, stops between durable
writes, and files that somebody replaced. Instants are integers; digests and authentication codes are
injective, so the digested value stands for its digest; a durable write is one step.

- `OutcomeTrust`, `RunRegistry`, `RegistryHistory`, `RegistryAdmission`: the outcome-availability registry. `begin` publishes an
  identity as UNKNOWN, re-reads it, samples a clock behind a registry-wide fence, then binds availability and
  admits a run. As-of answers at or below the high-water never change.
- `RunObservations`, `GitHubApi`, `ScopedController`, `CancellationRun`, `RepositoryController`: the two
  controllers that cancel superseded workflow runs, against an arbitrary environment. The client keeps the
  exchanges so far; a cancel request is possible only in a state that they justify.
- `ClaimLedger`, `ClaimResolution`, `ClaimScenarios`, `ClaimFacade`, `BranchGuard`, `GuardedExport`: the swarm
  claim ledger, its mode fence, and the guard of source branches that consumes it.
- `LineagePublication`, `LineageHistory`, `LineageProofs`, `LineageGrowth`, `LineageStore`: causal publication of
  dataset lineage proofs, also while records are registered.
- `ExecutionWitness`, `ExecutionLedger`: the PAPER execution ledger and its witness journal.
- `FinalizationPlan`, `CampaignRuntime`: the write-once reflection plan of a resolved ticket, and what is handed on.
- `T0Receipts`: the append-only provider-scope receipts.
- `BookRecovery`, `Materialization`: the recovery check of a paper book, and the tickets that an execution opens.

Where a promise of the source does not hold in full, the project keeps the code and gives the exact condition:

- The payload parser refuses times that go backwards only when some revision is UNKNOWN
  (`ParserRejectsExactly`, `BackwardsTimesAccepted`).
- A live admitted run is displaced exactly when earlier claimed runs that came back outnumber the free slots
  and the earlier ones that left; only a renewal after the lease lapsed brings a run back
  (`StaysAdmittedExactly`, `OnlyRevivalsReturn`, `NotDisplaced`, `RevivalDisplaces`).
- With a capacity, a branch guard that runs later than the resolver agrees with a fresh one exactly when no
  waiting run of its key is let in meanwhile, or it is undecided anyway
  (`GuardsAgreeExactly`, `NobodyWaiting`, `ResolveEarlierGuardLater`, `CapacityBreaksCommutation`).
- Deleting issuance records can repair a store that was unreadable (`DeletionOnlyRejects`, `DeletionMayRepair`).
- The scoped scan misses runs exactly of collections of more than three pages
  (`SampledIsCompleteExactly`, `SnapshotIsCompleteExactly`).
- A ticket carries a foreign attempt's marker exactly when the decision id does (`MarkedExactly`,
  `QuotingDecision`, `QuotedMarkerRefused`).
- A chain of commits may pass through the prior head again (`PriorHeadMayRecur`).

## Model

| member | source | states |
|---|---|---|
| OutcomeTrust.CheckUnknownSuffix | src/autosport/_outcome_availability_registry_serialization.py:48-78 | answers yes exactly when no revision after the first one without availability carries a time |
| OutcomeTrust.RebuildTimes | src/autosport/_outcome_availability_registry_serialization.py:79-115 | rebuilds the availability column exactly when no time is malformed and none is before an earlier one |
| OutcomeTrust.ParsePayload | src/autosport/_outcome_availability_registry_serialization.py:48-115 | accepts a payload exactly when its lineage is sound and it is all-present, all-absent, or a non-decreasing known prefix then UNKNOWN, and returns the binding it encodes |
| OutcomeTrust.PayloadRoundTrip | src/autosport/outcome_trust.py:227-248 | building the payload of any binding and parsing it returns that binding |
| OutcomeTrust.ColumnShape | src/autosport/_outcome_availability_registry_serialization.py:48-115 | the shape facts of a payload column and of its decoded column are the same facts |
| OutcomeTrust.ParserRejectsExactly | src/autosport/_outcome_availability_registry_serialization.py:48-115 | a time after UNKNOWN is always refused; times going backwards are refused exactly when some revision is UNKNOWN |
| OutcomeTrust.BackwardsTimesAccepted | src/autosport/outcome_trust.py:251-362 | a concrete all-known payload with times going backwards that the parser accepts |
| OutcomeTrust.ResolveAsOf | src/autosport/_outcome_availability_registry_serialization.py:240-270 | the resolution of a cutoff is the last revision known by it, or the refusal of a malformed or backwards lineage |
| OutcomeTrust.ScanTimes | src/autosport/_outcome_availability_registry_serialization.py:240-270 | the loop finds the number of revisions up to the last one known by the cutoff, or reports backwards times; its resumes-after-UNKNOWN branch is dead |
| OutcomeTrust.KnownBy | src/autosport/_outcome_availability_registry_serialization.py:240-270 | the resolved index is the last one whose time is at or before the cutoff |
| OutcomeTrust.KnownByUnique | src/autosport/_outcome_availability_registry_serialization.py:240-270 | there is only one such index |
| OutcomeTrust.StageRevisions | src/autosport/_outcome_availability_registry_serialization.py:293-341 | staging carries every established time of the trusted history and leaves the rest UNKNOWN |
| OutcomeTrust.LastEstablished | src/autosport/_outcome_availability_registry_serialization.py:118-192 | the last established time of a timeline is its largest |
| OutcomeTrust.BindAvailability | src/autosport/_outcome_availability_registry_serialization.py:118-192 | binds the acceptance instant to every revision without a time, or refuses for identity, stale prefix, resumption or a backwards clock, in that order |
| OutcomeTrust.BoundExtends | src/autosport/_outcome_availability_registry_serialization.py:118-192 | binding after every held time extends the timeline, keeps it one, makes it fully known and changes no answer before the bound instant |
| OutcomeTrust.StagedExtends | src/autosport/_outcome_availability_registry_serialization.py:293-341 | staging extends the history and changes no answer at all |
| RunRegistry.StoreTrustBinding | src/autosport/_outcome_availability_registry_serialization.py:273-291 | the loop replaces the binding of the same identity or appends |
| RunRegistry.StoreThenLookup | src/autosport/_outcome_availability_registry_serialization.py:273-291 | after a store the stored identity finds the new binding and every other identity what it found before |
| RunRegistry.StoreKeepsDistinct | src/autosport/_outcome_availability_registry_serialization.py:273-291 | a store keeps one binding per identity |
| RunRegistry.RegistryFence | src/autosport/_outcome_availability_clock_dispatch_guard.py:66-90 | the two loops compute the greatest established time of the whole registry |
| RunRegistry.Fence | src/autosport/_outcome_availability_clock_dispatch_guard.py:66-90 | the fence is the maximum over all known times of all bindings, absent exactly when there is none |
| RunRegistry.BackedMeansExtended | src/autosport/run_registry.py:1808-1923 | what the reader checks of a run lineage against the trust list means that the trust binding extends it without changing a time |
| RunRegistry.StagedNeverRefused | src/autosport/_outcome_availability_registry_serialization.py:524-549 | after the clock is past the fence, binding the staged lineage cannot be refused |
| RunRegistry.Registry.Begin | src/autosport/_outcome_availability_registry_serialization.py:394-582 | one call leaves exactly the file and outcome of the two-phase publication, including a stop between its writes |
| RunRegistry.Registry.Complete | src/autosport/run_registry.py:1132-1161 | completes exactly an in-progress run; only its status changes, and trust, every other entry and every as-of answer stand |
| RunRegistry.Registry.AbortUncommitted | src/autosport/run_registry.py:1163-1194 | aborts exactly an in-progress run whose recorded base is the observed one; only its status changes, and trust, every other entry and every as-of answer stand |
| RunRegistry.Registry.OutcomeRevisionAsOf | src/autosport/run_registry.py:1017-1035 | an as-of query reads the stored binding of the identity |
| RegistryHistory.BeginCases | src/autosport/_outcome_availability_registry_serialization.py:455-582 | a call leaves the file unchanged, admits without lineage, publishes identity only, re-uses known times, or mints |
| RegistryHistory.BeginKeeps | src/autosport/_outcome_availability_registry_serialization.py:455-582 | every durable state of a call keeps the registry invariant and extends every old binding |
| RegistryHistory.ApplyKeeps | src/autosport/_outcome_availability_registry_serialization.py:394-582 | so do completions and aborts |
| RegistryHistory.EveryRunIsSafe | src/autosport/_outcome_availability_registry_serialization.py:394-582 | over any sequence of calls and stops: one binding per identity, known prefix then UNKNOWN, at most one run in progress, and established times never altered |
| RegistryHistory.ReachableFromPristine | src/autosport/run_registry.py:894-909 | every state reached from a pristine registry satisfies the invariant |
| RegistryHistory.AdmittedRunsAreBacked | src/autosport/_outcome_availability_registry_serialization.py:550-582 | each admitted run holds a fully known lineage that its identity's trust binding extends time by time |
| RegistryHistory.MintedOnlyAfterPublication | src/autosport/_outcome_availability_registry_serialization.py:504-582 | a time is minted only for revisions already published as UNKNOWN; a stop between the writes leaves the identity, no time and no run |
| RegistryHistory.BeginPreservesPast | src/autosport/_outcome_availability_registry_serialization.py:455-582 | one call changes no as-of answer for a cutoff before the time it mints, and none at all when it mints none |
| RegistryHistory.TerminalPreservesPast | src/autosport/run_registry.py:1132-1194 | completing or aborting changes no as-of answer |
| RegistryHistory.PastNeverChanges | src/autosport/_outcome_availability_clock_dispatch_guard.py:438-454 | answers at or below the registry high-water never change over any run |
| RegistryHistory.EndingFreesRegistry | src/autosport/run_registry.py:1132-1194 | ending the run in progress leaves no run in progress |
| RegistryHistory.EndedRunsNeverChange | src/autosport/run_registry.py:1132-1194 | over any run an entry keeps its identity and lineage, and once its run has ended it never changes again |
| RegistryHistory.StoppedBeginIsCompleted | src/autosport/_outcome_availability_registry_serialization.py:504-582 | a call stopped between its writes is completed by any later call of the same request, over any run in between, that is admitted and whose clocks are past the fence |
| RegistryHistory.RetryCompletes | src/autosport/_outcome_availability_registry_serialization.py:504-582 | a retry right after the stop is always admitted, and a clock past the fence is enough |
| RegistryHistory.GrowthRaisesFence | src/autosport/_outcome_availability_clock_dispatch_guard.py:66-90 | growing the trust list never lowers the fence |
| RegistryHistory.MintedTimesIncrease | src/autosport/_outcome_availability_clock_dispatch_guard.py:40-63 | times minted along a run are after everything known before it and strictly increase registry-wide |
| RegistryHistory.MintedBecomesKnown | src/autosport/_outcome_availability_clock_dispatch_guard.py:40-63 | a minted time is covered by the fence of the next call |
| RegistryHistory.FinalExtendsStaged | src/autosport/_outcome_availability_registry_serialization.py:524-549 | the binding finally stored extends the staged one, is fully known and changes no earlier answer |
| RegistryHistory.IdentityPublishedKeeps | src/autosport/_outcome_availability_registry_serialization.py:504-523 | the state between the two writes satisfies the invariant |
| RegistryAdmission.BeginsExactly | src/autosport/_outcome_availability_registry_serialization.py:455-582 | a call begins a run exactly when the file is readable, the arguments are sound, no run is in progress, no entry has the run id, the experiment is not completed or its repeat is allowed, and a lineage, if given, is sound, continues what is held, needs no clock that is not past the fence and meets no stop |
| RegistryAdmission.RepeatIsRefused | src/autosport/_outcome_availability_registry_serialization.py:476-484 | a completed experiment is never begun again without leave, and the refusal leaves the file alone |
| RegistryAdmission.RefusalReasons | src/autosport/_outcome_availability_registry_serialization.py:466-500 | which error an unwelcome run is given: unresolved, then repeated experiment, then repeated run id |
| RegistryAdmission.LineageRefusals | src/autosport/_outcome_availability_registry_serialization.py:455-475 | a lineage that does not continue the held one is refused as a conflict, or as stale only for a shorter prefix of the same history |
| RegistryAdmission.BadArgumentsExactly | src/autosport/_outcome_availability_registry_serialization.py:394-454 | arguments are refused as bad exactly for a digest or a name that is not canonical |
| RegistryAdmission.BeginRecords | src/autosport/_outcome_availability_registry_serialization.py:485-582 | an admitted run is one new entry with the arguments of its call, under the first, repeat or retry key of its experiment |
| RegistryAdmission.BeginRecordsLineage | src/autosport/_outcome_availability_registry_serialization.py:524-582 | its lineage is the given one, every held time kept and the sample for the rest, and is what the trust list now holds |
| ClaimLedger.FillCollects | scripts/swarm_claim_state_impl.py:61-108 | an event holds, for each field, exactly the values of its own block in order |
| ClaimLedger.ExtractEvents | scripts/swarm_claim_state_impl.py:61-108 | one event for each ownership header, closed by the next versioned header |
| ClaimLedger.FoldRepeats | scripts/swarm_claim_state_impl.py:229-264 | a repeated field confuses every run that the event names |
| ClaimLedger.FindConflict | scripts/swarm_claim_state_impl.py:453-458 | a renewal conflicts exactly when some immutable field is supplied and differs from the claim |
| ClaimLedger.FoldRenewal | scripts/swarm_claim_state_impl.py:389-483 | a renewal extends only the lease, or confuses the run and reports why |
| ClaimLedger.FoldClaim | scripts/swarm_claim_state_impl.py:281-387 | a first claim opens a run, ambiguous when identity, lease or claim time is missing or unreadable |
| ClaimLedger.FoldEvent | scripts/swarm_claim_state_impl.py:222-503 | the effect and the diagnostics of one event |
| ClaimLedger.FoldComments | scripts/swarm_claim_state_impl.py:186-503 | the fold over all comments with the server-order check |
| ClaimLedger.DisorderedMeans | scripts/swarm_claim_state_impl.py:192-209 | the order flag is raised exactly when some integer id is below the last one before it |
| ClaimLedger.OrderedExactly | scripts/swarm_claim_state_impl.py:192-209 | the comments are in server order exactly when their integer ids never decrease |
| ClaimLedger.BlockExactly | scripts/swarm_claim_state_impl.py:61-108 | a block holds everything up to the next versioned header, ownership or not |
| ClaimLedger.FitsExactly | scripts/swarm_claim_state_impl.py:417-483 | a renewal fits a claim exactly when it gives a readable lease and repeats what it names of the claim |
| ClaimLedger.ReportedExactly | scripts/swarm_claim_state_impl.py:222-503 | an event is reported exactly when it does not open a complete claim, renew a run that it fits or release a known one |
| ClaimLedger.ReasonsExactly | scripts/swarm_claim_state_impl.py:229-503 | each reason that concerns the run is reported exactly when it applies |
| ClaimLedger.ClaimReports | scripts/swarm_claim_state_impl.py:281-364 | each missing or unreadable part of a first claim is reported as such |
| ClaimLedger.LossIsReported | scripts/swarm_claim_state_impl.py:229-483 | an event that makes a run ambiguous is reported |
| ClaimResolution.Isolation | scripts/swarm_claim_state_impl.py:222-503 | the state of a run depends only on the events that name it |
| ClaimResolution.History | scripts/swarm_claim_state_impl.py:278-503 | what a run's state says about its own events |
| ClaimResolution.LiveExactly | scripts/swarm_claim_state_impl.py:504-537 | a run is live exactly when the order holds, its first claim is complete, every later event naming it is a fitting renewal, and the last lease is ahead |
| ClaimResolution.EndedExactly | scripts/swarm_claim_state_impl.py:484-537 | a run is released exactly when, in server order, the events that name it are an unbroken claim and after that only releases |
| ClaimResolution.LapsedExactly | scripts/swarm_claim_state_impl.py:504-537 | a run has expired exactly when its history is unbroken and its last lease is at or before the clock |
| ClaimResolution.AmbiguousExactly | scripts/swarm_claim_state_impl.py:504-537 | every other claimed run is ambiguous |
| ClaimResolution.ListedExactly | scripts/swarm_claim_state_impl.py:513-537 | which of the four lists shows a run is fixed by the events that name it, the comment order and the clock |
| ClaimResolution.ListedIsIdentified | scripts/swarm_claim_state_impl.py:281-387 | only a run with a complete identity and a claim time is listed as anything but ambiguous |
| ClaimResolution.NeverLiveAgain | scripts/swarm_claim_state_impl.py:401-416 | once ambiguous or released, no extension and no clock makes a run live |
| ClaimResolution.OnlyLiveShrinks | scripts/swarm_claim_state_impl.py:513-537 | ambiguous and released lists do not depend on the clock; the live list only loses members |
| ClaimResolution.BucketsPartition | scripts/swarm_claim_state_impl.py:513-537 | the four buckets split the claimed runs |
| ClaimResolution.ClaimedExactlyOnce | scripts/swarm_claim_state_impl.py:365-387 | a run is listed exactly when it was ever claimed, once |
| ClaimResolution.Classify | scripts/swarm_claim_state_impl.py:513-537 | the classification loop |
| ClaimResolution.SplitSource | scripts/swarm_claim_state_impl.py:539-545 | source and non-source live runs |
| ClaimResolution.ResolveComments | scripts/swarm_claim_state_impl.py:164-566 | the whole resolution: fold, order invalidation, buckets and capacity split |
| ClaimResolution.LiveSplitExactly | scripts/swarm_claim_state_impl.py:539-552 | live runs are split by mode; of the source runs those claimed first are admitted, as many as the capacity allows |
| ClaimResolution.AdmittedByRank | scripts/swarm_claim_state_impl.py:547-552 | a live source run is admitted exactly when fewer than the capacity of earlier-claimed source runs are live |
| ClaimResolution.NotDisplaced | scripts/swarm_claim_state_impl.py:476-552 | an admitted run still live after any extension and later clock is still admitted, if the extension renews no source run claimed before it that had lapsed |
| ClaimResolution.StaysAdmittedExactly | scripts/swarm_claim_state_impl.py:547-552 | an admitted run still live after any extension and clock stays admitted exactly when fewer than the capacity of earlier-claimed source runs are live then, that is, when those that came back do not outnumber the free slots and those that left |
| ClaimResolution.OnlyRevivalsReturn | scripts/swarm_claim_state_impl.py:476-537 | an earlier-claimed run comes back only by a renewal after its lease had lapsed |
| ClaimResolution.RosterKeepsAdmitted | scripts/swarm_claim_state_impl.py:547-552 | admission survives when no earlier-claimed run newly becomes live |
| ClaimScenarios.RevivalDisplaces | scripts/swarm_claim_state_impl.py:476-483 | without that proviso a live admitted run can be displaced |
| ClaimScenarios.ClaimFields | scripts/swarm_claim_state_impl.py:61-108 | the fields of a complete claim block, line by line |
| ClaimFacade.CollectInvalid | scripts/swarm_claim_state.py:81-96 | the first record of each run with an unknown nonblank mode |
| ClaimFacade.DropRuns | scripts/swarm_claim_state.py:98-102 | the kept records of a list |
| ClaimFacade.Report | scripts/swarm_claim_state.py:114-123 | one report for each fenced run that has none |
| ClaimFacade.FailClosedInvalidClaimModes | scripts/swarm_claim_state.py:78-124 | the whole fence |
| ClaimFacade.FenceReclassifies | scripts/swarm_claim_state.py:78-124 | each bucket holds, in claim order, exactly the runs whose fenced bucket it is; the live runs are split by mode as before, and admission and collisions are untouched |
| ClaimFacade.FencedPartition | scripts/swarm_claim_state.py:78-124 | the partition into four buckets is kept |
| ClaimFacade.UnknownModeIsFenced | scripts/swarm_claim_state.py:78-124 | a run with an unknown mode is ambiguous, reported and in no other bucket |
| ClaimFacade.FenceIdempotent | scripts/swarm_claim_state.py:78-124 | fencing twice is fencing once |
| ClaimFacade.SortedOverlay | scripts/swarm_claim_state.py:104-112 | merging and sorting by claim order gives the one ordered list of the union |
| ClaimFacade.FencedListsExactly | scripts/swarm_claim_state.py:78-137 | which public list shows a run is fixed by the events that name it, its mode, the comment order and the clock; a run in an unknown mode is ambiguous |
| ClaimFacade.ResolveFencedComments | scripts/swarm_claim_state.py:127-137 | the public resolver is the fold followed by the fence |
| ClaimFacade.ResolverRoster | scripts/swarm_claim_state_impl.py:365-387 | resolver output is one record per run, numbered in claim order |
| BranchGuard.AdmittedSourceOwners | scripts/swarm_branch_lease_guard.py:65-97 | the unexpired source owners of the key, or invalid evidence |
| BranchGuard.CheckCommit | scripts/swarm_branch_lease_guard.py:220-273 | a commit is sound and follows the expected parent |
| BranchGuard.WalkMutations | scripts/swarm_branch_lease_guard.py:195-282 | the walk succeeds exactly for a parent-linked chain from prior to current head with distinct heads, and reports the writers up to where the chain breaks |
| BranchGuard.EvaluateGuard | scripts/swarm_branch_lease_guard.py:100-302 | input errors, the status, and the writers of the linked commits also when the walk fails |
| BranchGuard.GuardAcceptsExactly | scripts/swarm_branch_lease_guard.py:138-302 | OK exactly for unambiguous evidence, one live owner, and a branch unmoved or moved by a chain of its own commits only |
| BranchGuard.GuardCollidesExactly | scripts/swarm_branch_lease_guard.py:284-294 | COLLISION exactly when the chain is proven and somebody else wrote part of it |
| BranchGuard.GuardUndecidedExactly | scripts/swarm_branch_lease_guard.py:138-282 | NO_LIVE_OWNER exactly without a live owner in clean evidence; AMBIGUOUS exactly for suspicious or invalid evidence, two owners, or a movement that is no chain |
| BranchGuard.CleanEvidenceExactly | scripts/swarm_branch_lease_guard.py:53-62 | the evidence is clean exactly when each of its lists is missing or empty |
| BranchGuard.OwnersExactly | scripts/swarm_branch_lease_guard.py:65-97 | the owners are exactly the unexpired source items of the key in the first list that is there; invalid exactly when that is no list of objects or holds a broken source item of the key |
| BranchGuard.ChainExactly | scripts/swarm_branch_lease_guard.py:195-282 | a movement is a chain exactly when its commits have distinct heads, each on top of the one before, from the prior to the current head |
| BranchGuard.WritersExactly | scripts/swarm_branch_lease_guard.py:195-302 | the reported writers are those of the longest linked part, and none unless one owner is there to compare them to |
| BranchGuard.PriorHeadMayRecur | scripts/swarm_branch_lease_guard.py:195-218 | a chain may pass through the prior head again: heads are distinct among the commits only |
| GuardedExport.GuardsAgreeExactly | scripts/swarm_branch_lease_guard.py:65-97 | for every capacity, guarding later an export resolved earlier equals guarding a fresh one exactly when no waiting run of the guarded key is let in meanwhile or the old export already leaves the guard undecided |
| GuardedExport.NobodyWaiting | scripts/swarm_branch_lease_guard.py:65-97 | in particular when no colliding run of the earlier export names the guarded key |
| GuardedExport.AdmissionLater | scripts/swarm_claim_state_impl.py:547-552 | what a later clock admits is the still live admitted runs of the earlier export and then its waiting runs that are still live, as far as the capacity reaches |
| GuardedExport.ResolveEarlierGuardLater | scripts/swarm_branch_lease_guard.py:65-97 | without a capacity nobody waits, so guarding later an export resolved earlier equals guarding a fresh one |
| GuardedExport.OwnersCommute | scripts/swarm_branch_lease_guard.py:65-97 | owners unexpired at the later time are the same from either live list |
| GuardedExport.FencedAmbiguity | scripts/swarm_branch_lease_guard.py:53-62 | the guard sees ambiguity exactly when something is malformed or some fenced bucket is ambiguous |
| GuardedExport.CapacityBreaksCommutation | scripts/swarm_claim_state_impl.py:547-552 | two claims and a capacity of one for which the two clocks do not commute |
| RunObservations.TrackIsOneShot | scripts/cancel_superseded_pr_workflow_runs_scoped.py:1174-1228 | the unbound map holds exactly the runs whose observations all lack PR references and agree on head and branch; the explicit set exactly those referenced once |
| RunObservations.PermutationInvariant | scripts/cancel_superseded_pr_workflow_runs_scoped.py:1307-1335 | the maps do not depend on the order of observations |
| RunObservations.OrderDoesNotMatter | scripts/cancel_superseded_pr_workflow_runs_scoped.py:1174-1228 | nor on their repetition |
| RunObservations.ExplicitIsNotUnbound | scripts/cancel_superseded_pr_workflow_runs_scoped.py:1185-1227 | a run that any observation references is never an orphan candidate |
| RunObservations.OneStableRecord | scripts/cancel_superseded_pr_workflow_runs_scoped.py:2011-2031 | a stable singleton run has one record and one PR |
| RunObservations.SelectsExactly | scripts/cancel_superseded_pr_workflow_runs.py:256-288 | the selection holds exactly the runs of the PR under the workflow name, other than the current one, whose head is not the live head of an integrable PR |
| RunObservations.StableExactly | scripts/cancel_superseded_pr_workflow_runs_scoped.py:2011-2031 | there is a stable record of a run exactly when all its observations name one PR and one head |
| GitHubApi.Api.Send | scripts/cancel_superseded_pr_workflow_runs.py:366-390 | each request costs one unit; nothing is sent with an empty budget; a cancel needs its justification |
| GitHubApi.Api.LiveQualification | scripts/cancel_superseded_pr_workflow_runs_scoped.py:1732-1817 | a qualification is the head and capability of the reply to one pull read |
| GitHubApi.Api.ListPage | scripts/cancel_superseded_pr_workflow_runs.py:923-946 | an accepted page has at most one hundred rows and no more rows than its count |
| GitHubApi.Api.PostCancelRun | scripts/cancel_superseded_pr_workflow_runs.py:1075-1125 | at most one cancel request; success means 202, or 409 and then a completed run; a deferral means 409 and then an active one |
| GitHubApi.Api.CommitAssociation | scripts/cancel_superseded_pr_workflow_runs_scoped.py:300-342 | exactly the numbers that the pages of the commit's pulls name, up to the first short page |
| GitHubApi.DecidingRead | scripts/cancel_superseded_pr_workflow_runs_scoped.py:861-942 | the external read just before a cancel decides it: after a re-read that shows the active pull-request run of the workflow, it qualifies the run's one PR, named by the re-read or by all pages of its commit, which does not protect that head; or all those pages are empty and its branch left it |
| GitHubApi.ListedDecidingRead | scripts/cancel_superseded_pr_workflow_runs.py:1495-1513 | the same for the repository-wide controller |
| GitHubApi.JustifiedAt | scripts/cancel_superseded_pr_workflow_runs_scoped.py:714-942 | every cancel request of a trace was justified by the exchanges before it |
| ScopedController.ScopedClient.Observe | scripts/cancel_superseded_pr_workflow_runs_scoped.py:1174-1228 | one row's update of the identity maps |
| ScopedController.ScopedClient.ScanPage | scripts/cancel_superseded_pr_workflow_runs_scoped.py:1099-1228 | one page is read, checked and recorded; refused for budget only with none left |
| ScopedController.ScopedClient.ActiveRunsForStatus | scripts/cancel_superseded_pr_workflow_runs_scoped.py:958-1247 | at most three requests per status for any replies, refused for budget only with fewer than three left; on a static collection the sampled pages |
| ScopedController.SampledIsCompleteExactly | scripts/cancel_superseded_pr_workflow_runs_scoped.py:1130-1160 | the scoped scan of a static collection sees every run exactly up to three pages |
| ScopedController.StillStep | scripts/cancel_superseded_pr_workflow_runs_scoped.py:1099-1247 | one step of the scan of a static collection |
| ScopedController.ScopedClient.ActiveRuns | scripts/cancel_superseded_pr_workflow_runs_scoped.py:1307-1335 | at most fifteen requests, never refused for budget with fifteen left; the maps track exactly the returned observations, and a failure leaves none; of static collections exactly the samples |
| ScopedController.SnapshotIsCompleteExactly | scripts/cancel_superseded_pr_workflow_runs_scoped.py:1307-1335 | a snapshot of static collections lists every run exactly when none has more than three pages |
| ScopedController.ScopedClient.HistoricalAssociation | scripts/cancel_superseded_pr_workflow_runs_scoped.py:215-342 | the one PR of a commit over all its pages, else absent for empty pages or ambiguous for two PRs |
| ScopedController.ScopedClient.HasNoAssociation | scripts/cancel_superseded_pr_workflow_runs_scoped.py:420-505 | over all pages of the commit's pulls, yes exactly when they are empty |
| ScopedController.ScopedClient.BranchTip | scripts/cancel_superseded_pr_workflow_runs_scoped.py:508-571 | the tip of a branch, none when it is absent |
| ScopedController.ScopedClient.RebindRun | scripts/cancel_superseded_pr_workflow_runs_scoped.py:777-860 | a recovered run is still the same active unreferenced run of the workflow |
| ScopedController.ScopedClient.RevalidateOrphan | scripts/cancel_superseded_pr_workflow_runs_scoped.py:862-884 | an orphan is justified by an empty association and a branch elsewhere |
| ScopedController.ScopedClient.RevalidateRecovered | scripts/cancel_superseded_pr_workflow_runs_scoped.py:886-935 | a recovered run is justified by its unique association and a live qualification |
| ScopedController.ScopedClient.Cancel | scripts/cancel_superseded_pr_workflow_runs_scoped.py:714-942 | at most one cancel request, only after revalidation |
| ScopedController.ScopedClient.CancelOrDefer | scripts/cancel_superseded_pr_workflow_runs_scoped.py:1518-1549 | only a 409 on a run then shown active defers; every other failure stays a failure |
| CancellationRun.ExplicitIdentityIsCurrent | scripts/cancel_superseded_pr_workflow_runs_scoped.py:1596-1680 | yes exactly for the reply that shows the exact run, workflow, head and single PR |
| CancellationRun.CancelExplicit | scripts/cancel_superseded_pr_workflow_runs_scoped.py:2113-2146 | a cancel is sent only right after the identity was re-read and the same qualification was read again; a changed one revokes the group |
| CancellationRun.RecoverIdentity | scripts/cancel_superseded_pr_workflow_runs_scoped.py:1412-1483 | an identity is recovered only from an empty association and a branch elsewhere, or from the one PR of the commit that does not protect the head, and is that branch or PR |
| CancellationRun.CancelOrphan | scripts/cancel_superseded_pr_workflow_runs_scoped.py:1410-1490 | one orphan: recover, cancel, forget; in an environment that stands still it is cancelled exactly when it is stale and accepted |
| CancellationRun.CancelHistoricalUnboundRuns | scripts/cancel_superseded_pr_workflow_runs_scoped.py:1347-1490 | posts distinct unbound runs outside the exclusion only; in an environment that stands still, a cleanup that ends without refusal cancels exactly the stale ones that GitHub accepts |
| CancellationRun.Schedule | scripts/cancel_superseded_pr_workflow_runs_scoped.py:2032-2068 | PR groups in order of distinct heads, run count and number, each once |
| CancellationRun.BeforeIsTotal | scripts/cancel_superseded_pr_workflow_runs_scoped.py:2032-2068 | the scheduling order is a total order on PR numbers |
| CancellationRun.CountExactly | scripts/cancel_superseded_pr_workflow_runs_scoped.py:2032-2068 | its second criterion is the number of stable runs of the PR |
| CancellationRun.SelectedHead | scripts/cancel_superseded_pr_workflow_runs.py:256-288 | a selected run's head is not the live head of an integration-capable PR |
| CancellationRun.SweepGroup | scripts/cancel_superseded_pr_workflow_runs_scoped.py:2070-2146 | one PR group posts distinct stable runs of that PR, never the triggering run; in an environment that stands still, a sweep that ends without refusal cancels exactly the runs whose PR does not protect them, that show their identity and that GitHub accepts |
| CancellationRun.CancelSupersededExplicitPrRuns | scripts/cancel_superseded_pr_workflow_runs_scoped.py:1901-2147 | the sweep posts distinct stable explicit runs only; in an environment that stands still it cancels exactly the runs of all groups that are superseded, show their identity and are accepted |
| CancellationRun.UnboundIsNotExplicit | scripts/cancel_superseded_pr_workflow_runs_scoped.py:1185-1227 | explicit and unbound ids of one snapshot are disjoint |
| CancellationRun.CancelTriggeringRun | scripts/cancel_superseded_pr_workflow_runs_scoped.py:2150-2261 | posts at most the triggering run, and nothing when its head is live and integrable; in an environment that stands still it is cancelled exactly when its PR does not protect it, it shows its identity and GitHub accepts |
| CancellationRun.SnapshotIdentity | scripts/cancel_superseded_pr_workflow_runs_scoped.py:2518-2531 | an empty event, and no other, takes the one PR that all rows of its run name in the snapshot |
| CancellationRun.SingletonExactly | scripts/cancel_superseded_pr_workflow_runs_scoped.py:1829-1880 | the snapshot names a PR for the triggering run exactly when every row of that run names this one PR on the head of the event |
| CancellationRun.FinishRun | scripts/cancel_superseded_pr_workflow_runs_scoped.py:2540-2603 | orphan cleanup and triggering run together: what it keeps and cancels in an environment that stands still, and it defers only with an empty budget |
| CancellationRun.RunStages | scripts/cancel_superseded_pr_workflow_runs_scoped.py:2518-2618 | snapshot, sweep, cleanup and triggering run together: what they post, what they cancel in an environment that stands still, and when they defer |
| CancellationRun.RunController | scripts/cancel_superseded_pr_workflow_runs_scoped.py:2352-2618 | for any environment: all cancels justified, at most 24 requests, no run posted twice, no post of the triggering run of an ambiguous event, and deferral only after 24 requests; in one that stands still a finished run has cancelled exactly the superseded and orphaned runs of its snapshot and a stale triggering run, and it never fails where reads work and cancels are accepted |
| CancellationRun.AddsJoin | scripts/cancel_superseded_pr_workflow_runs_scoped.py:2529-2603 | stages that post disjoint run sets post no run twice together |
| RepositoryController.ScanStep | scripts/cancel_superseded_pr_workflow_runs.py:913-965 | one page of the repository-wide scan |
| RepositoryController.ActiveRunsForStatus | scripts/cancel_superseded_pr_workflow_runs.py:790-965 | ends within one page more than the first count needs, for any replies, and returns a static collection whole |
| RepositoryController.WholeStep | scripts/cancel_superseded_pr_workflow_runs.py:913-965 | one step of the scan of a static collection |
| RepositoryController.ShownSomewhere | scripts/cancel_superseded_pr_workflow_runs.py:913-965 | every observation a scan returns was shown by some page |
| RepositoryController.AgreedExactly | scripts/cancel_superseded_pr_workflow_runs.py:1455-1475 | the agreed records superseded by the live state are one for each run whose observations all agree |
| RepositoryController.ConfirmAndCancel | scripts/cancel_superseded_pr_workflow_runs.py:1495-1513 | a cancel is sent only right after a fresh read equal to the deciding qualification; a different one cancels nothing |
| RepositoryController.CancelSelected | scripts/cancel_superseded_pr_workflow_runs.py:1495-1514 | posts distinct selected runs only, and unless the qualification changed cancels exactly the superseded ones |
| RepositoryController.CancelSuperseded | scripts/cancel_superseded_pr_workflow_runs.py:1303-1514 | posts distinct superseded runs, each justified, never the current one; while the event head is live it cancels exactly the superseded runs on which all observations agree |
| LineagePublication.WalkDepends | src/autosport/_dataset_snapshot_lineage_publication.py:445-494 | the walk sees of each record only whether it was known by the boundary |
| LineagePublication.AcceptedExactly | src/autosport/_dataset_snapshot_lineage_publication.py:445-494 | acceptance means a real ancestor with every proof on the way known by the boundary |
| LineagePublication.AcceptanceComposes | src/autosport/_dataset_snapshot_lineage_publication.py:445-494 | D to B through A is accepted exactly when D to A and A to B are |
| LineagePublication.LaterAcceptsMore | src/autosport/_dataset_snapshot_lineage_publication.py:445-494 | a later boundary accepts all that an earlier one did |
| LineagePublication.DeletionOnlyRejects | src/autosport/_dataset_snapshot_lineage_publication_provenance.py:272-296 | what a store thinned of issuances accepts, the full one accepts exactly if the path needs none or the store is readable |
| LineagePublication.DeletionMayRepair | src/autosport/_dataset_snapshot_lineage_publication_provenance.py:272-296 | a store with a repeated record rejects until the repetition is deleted |
| LineagePublication.OnlyLoggedStatesCount | src/autosport/_dataset_snapshot_lineage_publication.py:286-313 | whatever replaces the witness file, only a committed or prepared state leads to acceptance |
| LineageHistory.KnownFromIssuance | src/autosport/_dataset_snapshot_lineage_publication_provenance.py:358-379 | a legacy record counts exactly from its authenticated issuance |
| LineageHistory.WitnessKeeps | src/autosport/_dataset_snapshot_lineage_publication.py:315-385 | every durable state of a witness publication stays sound |
| LineageHistory.IssueKeeps | src/autosport/_dataset_snapshot_lineage_publication_provenance.py:319-355 | issuing keeps every earlier time; new times are the samples it used |
| LineageHistory.PublishKeeps | src/autosport/_dataset_snapshot_lineage_publication_provenance.py:319-355 | a publish, wherever it stops, keeps the stores sound and every issued time |
| LineageHistory.PublishKeepsPast | src/autosport/_dataset_snapshot_lineage_publication_provenance.py:319-379 | publishing changes no descendant answer for a boundary before the samples it takes |
| LineageHistory.PastNeverChanges | src/autosport/_dataset_snapshot_lineage_publication_provenance.py:319-379 | the same over every run of publishes and stops |
| LineageGrowth.GrowingPastNeverChanges | src/autosport/_dataset_snapshot_lineage_publication.py:445-494 | the same over runs in which records are also registered, for any two snapshots, registered already or only then |
| LineageGrowth.RegisterKeepsPast | src/autosport/dataset_snapshot_lineage.py:612-720 | registering a record changes no answer for a boundary before its registration time |
| LineageGrowth.PublishKnown | src/autosport/_dataset_snapshot_lineage_publication.py:315-385 | a publish witnesses registered records only |
| LineageHistory.LegacyChain | src/autosport/_dataset_snapshot_lineage_publication.py:403-421 | the legacy records on the way up, each once |
| LineageHistory.PristineIsSound | src/autosport/_dataset_snapshot_lineage_publication.py:170-209 | a pristine workspace satisfies the invariant |
| LineageProofs.IssueProves | src/autosport/_dataset_snapshot_lineage_publication_provenance.py:319-355 | after a successful issue every resolved witness has its old time, or one of the samples that the call took |
| LineageProofs.IssuesExactly | src/autosport/_dataset_snapshot_lineage_publication_provenance.py:319-355 | issuing succeeds exactly when the store can be read and no resolved witness has broken evidence |
| LineageProofs.ChainProves | src/autosport/_dataset_snapshot_lineage_publication.py:315-385 | after a successful publication every record of the chain has a witness of its dataset, on file and handed on |
| LineageProofs.WitnessesExactly | src/autosport/_dataset_snapshot_lineage_publication.py:315-385 | a chain is witnessed exactly when no stop applies and every record without a witness is of a dataset available by the clock |
| LineageProofs.PublishProves | src/autosport/_dataset_snapshot_lineage_publication_provenance.py:319-379 | a publish that reports success has given every legacy record on the way up a publication time: its old one, or a sample of this publish |
| LineageProofs.PublishAccepts | src/autosport/_dataset_snapshot_lineage_publication.py:445-494 | after it the descendant query accepts every ancestor at any boundary that is not before those and the registration times |
| LineageProofs.PublishesExactly | src/autosport/_dataset_snapshot_lineage_publication.py:315-421 | from a sound world a publish succeeds exactly when no stop that applies is asked for and what lacks a witness is available |
| LineageStore.PublicationAuthority.RecoverLog | src/autosport/monotonic_workspace_authority.py:602-682 | afterwards nothing is pending, the committed state is the file and a second recovery changes nothing; exactly a file that is neither committed nor prepared is refused |
| LineageStore.PublicationAuthority.WitnessFor | src/autosport/_dataset_snapshot_lineage_publication_provenance.py:358-379 | the authenticated publication time of a record |
| LineageStore.PublicationAuthority.RequireDescendantAsOf | src/autosport/_dataset_snapshot_lineage_publication.py:445-494 | the loop over parents computes the walk, and at most settles the log |
| LineageStore.PublicationAuthority.PublishExactChain | src/autosport/_dataset_snapshot_lineage_publication.py:315-385 | witnesses exactly the missing records at one instant |
| LineageStore.PublicationAuthority.WriteWitnesses | src/autosport/_dataset_snapshot_lineage_publication.py:360-385 | only the old or the extended file is ever on disk; wherever the call stops, a later recovery settles on that file |
| LineageStore.PublicationAuthority.IssueWitnesses | src/autosport/_dataset_snapshot_lineage_publication_provenance.py:319-355 | issues exactly the witnesses without issuance, each at its own sample |
| LineageStore.SortChain | src/autosport/_dataset_snapshot_lineage_publication.py:328-345 | splits a chain into resolved and missing, refusing a binding mismatch |
| LineageStore.Observe | src/autosport/_dataset_snapshot_lineage_publication.py:347-364 | refuses a re-observation that predates a dataset |
| ExecutionWitness.RootFixesHistory | src/autosport/_paper_execution_reality_legacy.py:745-763 | a chained history is the one that its root digest fixes |
| ExecutionWitness.AppendWitnessKeeps | src/autosport/_paper_execution_anti_rollback.py:195-248 | checking only the latest witness keeps every witness the root of a prefix |
| ExecutionWitness.EveryRunKeepsJournal | src/autosport/_paper_execution_anti_rollback.py:115-289 | over appends, crashes and any replacement of the pair the journal stays sound and only grows |
| ExecutionWitness.LoadIsLastWitnessed | src/autosport/_paper_execution_anti_rollback.py:268-289 | a successful load returns exactly the last witnessed history, and every earlier witness is the root of a prefix of it |
| ExecutionWitness.OnlyOneHistoryLoads | src/autosport/_paper_execution_anti_rollback.py:268-289 | any pair that loads under one journal loads the same history |
| ExecutionWitness.AppendThenLoad | src/autosport/_paper_execution_reality_legacy.py:876-925 | a completed append extends the loaded history by its event; a crashed one leaves no loadable pair |
| ExecutionWitness.LoadsExactly | src/autosport/_paper_execution_anti_rollback.py:268-289 | under a sound journal exactly one pair loads: none at the start, and then the ledger and anchor of the last witness |
| ExecutionWitness.RepeatOrConflict | src/autosport/_paper_execution_reality_legacy.py:898-911 | a recorded key is acknowledged for the same payload and a conflict for any other, and the files stay as they are |
| ExecutionWitness.AppendAnswers | src/autosport/_paper_execution_reality_legacy.py:876-925 | the answer of every append: appended only for a fresh key without a crash, a repeat only for an equal payload |
| ExecutionWitness.CleanRunLoads | src/autosport/_paper_execution_reality_legacy.py:876-925 | a run of appends without crash or interference loads, extends what was loaded and holds every appended key |
| ExecutionWitness.LatestHistory | src/autosport/_paper_execution_anti_rollback.py:268-289 | the last witness fixes the history and each earlier one a prefix |
| ExecutionLedger.ReadLedger | src/autosport/_paper_execution_reality_legacy.py:812-846 | the loop accepts exactly a sound chain and returns its events |
| ExecutionLedger.ReadWitnesses | src/autosport/_paper_execution_anti_rollback.py:115-192 | the loop accepts exactly a sound journal |
| ExecutionLedger.PaperExecutionLedger.LoadPair | src/autosport/_paper_execution_reality_legacy.py:812-857 | chain, then anchor |
| ExecutionLedger.PaperExecutionLedger.LoadHistory | src/autosport/_paper_execution_anti_rollback.py:268-289 | the pair must be the last witnessed history |
| ExecutionLedger.PaperExecutionLedger.PublishWitness | src/autosport/_paper_execution_anti_rollback.py:195-248 | one record, checked against the latest only |
| ExecutionLedger.PaperExecutionLedger.AppendEvent | src/autosport/_paper_execution_reality_legacy.py:876-925 | ledger line, witness, anchor, with a crash after each of the first two |
| FinalizationPlan.SuccessMeansAnchored | src/autosport/_paper_campaign_runtime_base.py:381-543 | a successful binding leaves exactly its own plan and time as the ticket's anchor |
| FinalizationPlan.SuccessConverges | src/autosport/_paper_campaign_runtime_base.py:381-543 | after a successful binding anchor and sidecar hold this very plan at the returned time, in a sound sidecar for a sound policy |
| FinalizationPlan.BindKeepsAnchors | src/autosport/paper_settlement_learning.py:804-849 | no call changes an anchor, a resolution or recorded evidence, and only the ticket's own anchor may be new |
| FinalizationPlan.PlanDeterminesEvidence | src/autosport/_paper_campaign_runtime_base.py:855-915 | the anchored plan determines attribution and postmortem |
| FinalizationPlan.EveryRunKeeps | src/autosport/_paper_campaign_runtime_base.py:672-800 | over any run the recorded evidence is that of the anchored plan |
| FinalizationPlan.AnchorIsWriteOnce | src/autosport/paper_settlement_learning.py:804-849 | over any run a bound anchor stays, and only an exact repeat is acknowledged again |
| FinalizationPlan.AllBindingsAgree | src/autosport/_paper_campaign_runtime_base.py:381-543 | whatever runs in between, two successful bindings of a ticket carry the same plan, budget and deadline included, and return the same reflection time |
| FinalizationPlan.FinalizeHandsAnchored | src/autosport/_paper_campaign_runtime_base.py:696-753 | a successful finalize hands exactly the anchored plan's evidence |
| FinalizationPlan.AllFinalizesAgree | src/autosport/_paper_campaign_runtime_base.py:381-543 | all successful finalize calls of a ticket hand on identical attribution, postmortem, research request and checkpoint, over any policies, stops and sidecar loss |
| FinalizationPlan.RequestsAgree | src/autosport/_paper_campaign_runtime_base.py:754-772 | what the research supervisor once accepted for a ticket every later finalize hands on, also after a stop before the handoff was recorded |
| FinalizationPlan.HandOffKeeps | src/autosport/agent_loop.py:2330-2470 | handing on what the anchored plan determines meets no conflict, whether or not the request was accepted before |
| FinalizationPlan.NoConflictingEvidence | src/autosport/_paper_campaign_runtime_base.py:725-753 | neither the AgentLoop nor the research supervisor ever meets conflicting evidence |
| FinalizationPlan.StoppedPlanIsCompleted | src/autosport/_paper_campaign_runtime_base.py:482-543 | a call stopped after the anchor write is completed by its retry with the same time |
| FinalizationPlan.BindsExactly | src/autosport/_paper_campaign_runtime_base.py:381-543 | an undisturbed binding succeeds exactly when neither place holds another plan and the held or present time is between reward and deadline |
| FinalizationPlan.FinalizesExactly | src/autosport/_paper_campaign_runtime_base.py:672-815 | an undisturbed finalize succeeds exactly for a resolved ticket whose reward is available and for which no other plan is held, and leaves the evidence of that plan on record |
| FinalizationPlan.FinalizeHandsResolution | src/autosport/_paper_campaign_runtime_base.py:696-772 | each part of what is handed on and of the anchored plan is the part of the sealed resolution or of the policy that it names |
| CampaignRuntime.PaperCampaignRuntime.BindCampaignPlanAnchor | src/autosport/paper_settlement_learning.py:804-849 | acknowledged exactly for a resolved ticket without another anchor; no other anchor is touched |
| CampaignRuntime.PaperCampaignRuntime.BindFinalizationPlan | src/autosport/_paper_campaign_runtime_base.py:381-543 | on success anchor and sidecar hold this very plan at the returned time; every earlier anchor is kept and no other ticket is anchored |
| CampaignRuntime.PaperCampaignRuntime.WritePlan | src/autosport/_paper_campaign_runtime_base.py:487-543 | succeeds exactly when the sidecar as re-read is sound and holds no other plan, and then adds this record and keeps all others |
| CampaignRuntime.PaperCampaignRuntime.FinalizeTicket | src/autosport/_paper_campaign_runtime_base.py:672-815 | plan, attribution, postmortem, research handoff and checkpoint, with a stop after each |
| CampaignRuntime.BuildFindings | src/autosport/_paper_campaign_runtime_base.py:873-883 | one finding per unresolved component, in order |
| T0Receipts.LoadReceipts | src/autosport/_campaign_provider_scope_stable_projection.py:170-227 | the loop over lines |
| T0Receipts.FileRoundTrip | src/autosport/_campaign_provider_scope_stable_projection.py:170-227 | writing sound receipts and reading them back returns them all |
| T0Receipts.TornIsRefused | src/autosport/_campaign_provider_scope_stable_projection.py:182-185 | any strict non-empty part of a line makes the whole file unreadable |
| T0Receipts.PersistKeeps | src/autosport/_campaign_provider_scope_stable_projection.py:241-315 | an append adds its receipt, or leaves the file unchanged or unreadable |
| T0Receipts.EveryRunKeeps | src/autosport/_campaign_provider_scope_stable_projection.py:241-345 | over any history stored receipts stay or nothing can be read |
| T0Receipts.ResolvesAgree | src/autosport/_campaign_provider_scope_stable_projection.py:418-483 | all successful resolves of one key return the same projection |
| T0Receipts.TornForever | src/autosport/_campaign_provider_scope_stable_projection.py:170-315 | after a torn append no later resolve of any history succeeds |
| T0Receipts.ReverifiesExactly | src/autosport/_campaign_provider_scope_stable_projection.py:348-392 | an expected receipt resolves exactly when it is the recorded one, a fresh read of the same scope is not earlier, and the durable binding names its evidence and time |
| T0Receipts.FirstResolveExactly | src/autosport/_campaign_provider_scope_stable_projection.py:418-440 | a resolve without expectation succeeds exactly when the read worked, no writer is at work, the file can be read, and the attempt has this receipt or none and the write succeeds |
| T0Receipts.RecordedResolvesAgain | src/autosport/_campaign_provider_scope_stable_projection.py:418-483 | a recorded receipt resolves again with any confirming read while the file can be read |
| T0Receipts.LoadsExactly | src/autosport/_campaign_provider_scope_stable_projection.py:170-227 | a file can be read exactly when it is the file of sealed receipts about their own session and plan, one for each key, and then it reads as those |
| T0Receipts.LockIsFreed | src/autosport/_campaign_provider_scope_stable_projection.py:241-315 | a call leaves the writer lock free unless it was taken before or the call crashed while writing |
| T0Receipts.CrashIsRepaired | src/autosport/_campaign_provider_scope_stable_projection.py:241-315 | a crash before the first byte blocks every writer until the lock is cleared, and then a retry succeeds |
| T0Receipts.ReceiptStore.PersistT0Projection | src/autosport/_campaign_provider_scope_stable_projection.py:241-315 | first projection appended under the lock, exact repeat acknowledged |
| T0Receipts.ReceiptStore.AuthoritativeResolve | src/autosport/_campaign_provider_scope_stable_projection.py:418-483 | persist without an expected digest, else the re-verified original |
| BookRecovery.DebitsConserve | src/autosport/paper.py:422-436 | debits are exact, positive and covered |
| BookRecovery.DebitsExactly | src/autosport/paper.py:422-436 | debits succeed exactly when every stake is positive and together they are covered |
| BookRecovery.MatchAttempt | src/autosport/_paper_execution_append_recovery.py:252-284 | an attempt matches the only added ticket with its marker and execution truth |
| BookRecovery.MatchAll | src/autosport/_paper_execution_append_recovery.py:252-293 | the loop pairs attempts with tickets and computes balance and lifecycle |
| BookRecovery.AssertRecoverableBookState | src/autosport/_paper_execution_append_recovery.py:199-312 | accepts exactly the pre-action book or the exact delta of the durable attempts |
| BookRecovery.ComputedIsExact | src/autosport/_paper_execution_append_recovery.py:225-312 | what the loop computes is the exact delta |
| BookRecovery.AcceptedBookIsSound | src/autosport/_paper_execution_append_recovery.py:199-312 | nothing lost or altered, one ticket per accepted attempt and no other, balance less the stakes, opens in attempt order |
| BookRecovery.EveryFillIsBooked | src/autosport/_paper_execution_append_recovery.py:252-293 | in an accepted changed book every fill, whole or partial, is authorized and booked with its stake, odds, time and place by a new ticket, and there is one new ticket per fill |
| BookRecovery.PartialIsRefused | src/autosport/_paper_execution_append_recovery.py:237-245 | a book that holds a strict non-empty part of the tickets is refused |
| BookRecovery.EnsureLivePreActionBook | src/autosport/_paper_execution_append_recovery.py:116-167 | an existing witness is returned unchanged, and none is made once a run exists |
| BookRecovery.OneWitnessForever | src/autosport/_paper_execution_append_recovery.py:116-167 | every later start is given the first witness |
| Materialization.MarkedExactly | src/autosport/paper_execution_adoption.py:826-870 | the reason of a ticket carries its own attempt's marker, and another attempt's exactly when the decision id does |
| Materialization.QuotingDecision | src/autosport/paper_execution_adoption.py:826-864 | for any two attempts there is a decision id that puts the marker of the one on the ticket of the other |
| Materialization.QuotedMarkerRefused | src/autosport/_paper_execution_append_recovery.py:260-284 | a run of such a decision id that has opened both tickets is never accepted by recovery |
| Materialization.MaterializeExposure | src/autosport/paper_execution_adoption.py:733-758 | the loop over the durable attempts finds or opens one ticket for each accepted one |
| Materialization.NewRunOpens | src/autosport/paper_execution_adoption.py:826-870 | on a new run it opens one ticket with the execution truth for each accepted attempt |
| Materialization.NewRunExecutesExactly | src/autosport/paper_execution_adoption.py:733-870 | a new run is executed exactly when every accepted attempt is bookable, its stakes are covered in order and the generated ids are new |
| Materialization.ExecutedIsRecoverable | src/autosport/paper_execution_adoption.py:733-870 | what an execution leaves in the book recovery accepts, and the returned ids pair attempts and added tickets |
| Materialization.RecoveredRunResumes | src/autosport/paper_execution_adoption.py:826-846 | resuming the run over any changed book that recovery accepts finds the ticket of every attempt and opens nothing again |

## Left out

- Sealing against rebinding: the checks of code objects, defaults, closures and module globals, and reload finders.
- Text and transport: JSON, ISO-8601 and URL syntax, HTTP, argparse, environment variables, standard output.
- Cryptography: SHA-256 and HMAC are injective constructors; key files and their permissions are not modelled.
- Files: descriptors, fsync, temporary files and lock files, except the T0 append and its writer lock.
- The optional `configure_*` recovery of the scoped client, which its `main` never calls.
- RunRegistry.StoreTrustBinding: does not sort the list by identity after storing, because no query depends on the order.
- RunRegistry.Registry.Begin: does not model durable run summaries, whose bindings join the trust list in the source, nor entry fields beyond experiment, run id, status, base and lineage.
- RunRegistry.Registry.Complete: does not model the summary files and hashes that a completion records.
- ClaimLedger.ExtractEvents: starts from classified lines, because the header and field patterns are text syntax.
- ClaimLedger.FoldEvent: does not keep comment positions and release reasons, which only appear in diagnostics.
- ClaimFacade.FailClosedInvalidClaimModes: takes runs with text ids and modes, as the resolver makes them.
- BranchGuard.EvaluateGuard: does not model the evidence messages.
- ScopedController.ScopedClient: holds its transport as a field, where the source inherits from it.
- GitHubApi.Api.CommitAssociation: needs a budget, which the scoped client always has, so that the page walk ends.
- CancellationRun.SweepGroup: computes the stable singletons as a function of the snapshot, not with the source's grouping dictionary.
- LineagePublication.RequireDescendant: takes the lineage store as read and verified, with parents before children.
- LineageGrowth.Register: does not check manifests, source and license identities or membership prefixes, which only refuse more.
- LineageStore.PublicationAuthority.RecoverLog: keeps the committed and the prepared state of the log, not its record files.
- ExecutionWitness.AppendStep: folds event type and run id into the payload of an event.
- FinalizationPlan.FinalizeStep: keeps of the AgentLoop what it holds for one ticket, which takes exact repeats only; its other phases and the in-memory environment are not part of this model.
- T0Receipts.LoadReceipts: assumes that record lines contain no line-boundary character and decode to one envelope, because the byte encoding is text syntax.
- T0Receipts.ReceiptStore.AuthoritativeResolve: takes the fresh provider read, or its failure, as an argument; its own derivation is not part of this model.
- Materialization.MaterializeExposure: takes generated ticket ids as an argument and joins all refusals in one; saving the book is one step after it.
- BookRecovery.AssertRecoverableBookState: keeps of a ticket the fields that the check compares; money is exact.
- Benchmarks, packaging, source-checkout verification, UIA evidence, WebView2 settings and the Betfair clients: single checks and plumbing.
