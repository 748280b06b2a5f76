# SciGuard control plane: a verified model

SciGuard watches scientific data pipelines, decides which assets an incident contaminates, writes
controls into the data catalog, publishes a repair, and lets work resume only on recovery evidence.
This project models its deterministic control plane in Dafny and proves what that control plane is
for. `dafny verify dfyconfig.toml` checks everything.

| part | files |
|---|---|
| catalog overlay: enforce, recover, reset | `MetadataGraph`, `OverlayWrites`, `Enforcement`, `Recovery`, `Reset`, and over whole runs `OverlayRuns`, `UndoRuns`, `RestoreRuns`, `ResetRetry`, `RecoveryRuns`, `CatalogOutcomes`, `ResetOutcomes` |
| field taint, policy and local control | `Impact`, `PolicyEngine`, `PipelineControl`, `SelectiveControl` |
| unified diffs | `TextLines`, `UnifiedPatch`, `PatchRoundTrip`, `PatchProperties` |
| publication to GitHub | `PublicationFiles`, `GitHubPublication`, `PublishedPatches`, `PublicationRequests`, `PublicationSafety`, `PublicationAttempts` |
| events, incident machine, run store, stream | `IncidentLifecycle`, `Events`, `IncidentRuns`, `IncidentOutcomes`, `RunStore`, `RunStoreAcceptance`, `RunStoreSafety`, `StreamDelivery` |
| repair lifecycle | `RepairBundles`, `RepairLifecycle`, `RepairOutcomes` |
| public sandbox and the flagship ranking | `SandboxLimiter`, `SandboxRetries`, `DecisionTraversal`, `Ranking` |

How to read it:

- Code that changes a catalog, a store, a log or an array step by step is a class or a method with its
  loops, proved against a function of the old state (`Enforce` against `PlanScript`, `Evaluate` against
  `EvaluateScript`, `ResetIncidentMetadata` against `PlanReset` and `CleanAll`, `ApplyUnifiedPatch`
  against `Apply`, each store method against `Plan`). The theorems are about those functions over
  whole runs.
- An overlay script is the list of primitive writes an operation makes, with the error that stops it.
  A run is a list of steps, each computing its script from the catalog it finds.
- The files named after outcomes, acceptance, requests and retries say when an operation is accepted and
  what it leaves, in plain values of the state before and after it, not through the function it computes.
- A raised exception is a `Result` error; an error after some writes leaves those writes.
- SHA-256 digests and HMAC signatures are injective constructors. Time is a parameter. An event file is
  kept as the events written to it; reading it is proved to be reading its text (`CheckedAsText`).
- Publication, the store with crashes, the stream and the sandbox are step machines; their theorems
  hold in every state that any sequence of enabled steps reaches.

Where the code does less than its documentation or the obvious reading promises, the code is modelled
and the exact condition is proved:

- Reset undoes a run exactly when the target list on the control asset covers all that the run wrote
  (`ResetUndoesAnyRun`). It does not after a second enforcement with fewer assets, which leaves the
  dropped ones overlaid (`ResetUndoesRun`), nor after an enforcement that stops at a missing native
  aspect it has already tagged (`FailedEnforcementLeavesTag`, `MissingAspectStrandsTag`). An unknown
  native aspect stops enforcement after the overlay is written and then stops every reset
  (`UnsupportedAspectIsStuck`).
- A comment in core/reset.py:127-129 promises that a failed partial reset can be retried. That holds
  between assets (`InterruptedResetRetries`), between the two writes of one asset only if it carries no
  status tag (`HalfCleanedAssetRetries`), and never between the two writes of the control asset
  (`HalfCleanedControlIsRefused`).
- A recovery policy with a threshold of one, or a permitted approval, resolves by an edge the lifecycle
  does not list (`FirstStepIsLegal`); a dirty check after resolution writes AT_RISK but blocks nothing
  (`DirtyRecheckDoesNotReblock`).
- One pass in shortest-hop order may miss reachable fields (`ShortestHopMisses`): it finds exactly the
  ends of paths met in visit order (`TaintIsOrderedReach`, `CompleteIffInOrder`). That every edge is met
  before those that continue it suffices (`PairsInOrderSuffice`) but is more than needed
  (`PairsInOrderIsNotNeeded`).
- A hunk that only inserts starts one line before where POSIX.1-2008 ("Diff -u or -U Output Format" of
  `diff`) puts it, and the marker for a missing final newline is skipped (`RoundTripExactly`).
- Patches and saved events are cut at every separator `str.splitlines` knows, while diffs and documents
  are made of newline lines: any other separator inside a context line makes a correct diff fail
  (`SeparatorBreaksDiff`), and one inside an event, such as U+2028, which JSON does not escape, makes
  the saved stream unloadable (`SaveLoadRoundTrip`). The run store accepts such an event, after which
  the run can never be read, appended to, finished or exported (`BrokenAppendIsStuck`,
  `SymptomStrandsRun`) and its stream ends with an error (`BrokenEventEndsStream`).
- A transition whose callback raises is recorded but not taken, and replay then never agrees again
  (`ReplayAgrees`).
- A crash inside an append leaves a run that can never be read, appended to or finished again; it can
  only be failed, have its incident state updated, and be deleted once failed (`TornAppendIsStuck`,
  `UnreadableAllows`). One inside a start leaves a name on which every operation fails for good
  (`CrashedStartIsStuck`).
- A change receipt is accepted in any status and keeps later receipts attached (`ChangeStartsOver`), so
  the commit-binding theorem is stated per status.
- When two declared checks share an id, only the last one is observed (`DeclaredCheckObserved`).
- A publisher refuses its own branch when an artifact repeats what the base holds: the first attempt
  then leaves a branch that no retry can ever publish (`FirstAttemptPublishesIff`,
  `RepeatedFileStrandsRepair`, `RepeatedFileExample`). Nor can a retry once the base has moved on after
  the branch was made (`RetryPublishesIff`, `MovedBaseRefusesRetry`).
- Of two patches to one file the earlier is lost (`LastArtifactWins`, `NothingLostIff`).
- An asset that a plan blocks without writing back is blocked in memory only: reloading it raises
  (`ReloadsIffReached`).

## Model

| member | source | states |
|---|---|---|
| MetadataGraph.AddTags | datahub_client/metadata_writer.py:30-41 | attaching tags appends exactly the missing ones in order and keeps every association already there; nothing is written when nothing is missing |
| MetadataGraph.MissingInOrder | datahub_client/metadata_writer.py:36-39 | the tags that are not attached yet are added in the order given, each as often as given, and no others |
| MetadataGraph.RemoveTags | datahub_client/metadata_writer.py:44-54 | detaching removes every association of the dropped tags, keeps the rest in order, and writes only on a change |
| MetadataGraph.AddCustomProperties | datahub_client/metadata_writer.py:57-70 | merging properties keeps unrelated keys, overwrites updated ones and leaves every other dataset alone |
| MetadataGraph.RemoveCustomProperties | datahub_client/metadata_writer.py:73-85 | removal drops exactly the named keys; an absent aspect stays absent |
| MetadataGraph.AddAspectCustomProperties | datahub_client/metadata_writer.py:88-113 | a native aspect is merged when it exists and is an error, with nothing written, when it does not |
| MetadataGraph.RemoveAspectCustomProperties | datahub_client/metadata_writer.py:116-140 | the native counterpart of removal, leaving other aspects alone |
| PolicyEngine.Decide | core/policy_engine.py:56-96 | a plan exists exactly when a rule covers every asset; then decision i is the rule of asset i, in order, and otherwise the error names the first asset without a rule |
| Enforcement.MirrorNativeProjectionState | core/enforcement.py:48-83 | tags and merges every native target in order, stopping at the first missing aspect with what was written so far still written |
| Enforcement.EnforceDecision | core/enforcement.py:99-150 | one decision writes its status tag, its control properties and its native targets, in that order, and reports the targets it reached |
| Enforcement.Enforce | core/enforcement.py:86-162 | the loop over decisions, each reading the catalog the earlier ones wrote, ends where one list of writes computed from the starting catalog ends; receipts come one per written-back decision |
| OverlayRuns.PlanCompletes | core/enforcement.py:86-162 | enforcement completes if and only if each written-back asset names only known, existing native aspects |
| OverlayRuns.EnforcePersists | core/enforcement.py:86-162 | after any enforcement, complete or stopped, every asset shows its own properties under exactly the control update of the last decision that enforcement got to for it, and without one is unchanged |
| OverlayRuns.ReachedIsMerged | core/enforcement.py:86-162 | complete or stopped, an enforcement merges into exactly the assets it reaches: those whose predecessors in the plan name only known, existing aspects |
| OverlayRuns.EnforceConserves | core/enforcement.py:86-162 | complete or interrupted, enforcement keeps every property outside its control keys, on datasets and natives, and every tag that is not a status tag |
| OverlayRuns.EnforceLeavesLastStatus | core/enforcement.py:48-162 | complete or stopped, enforcement leaves on every entity, asset or native, its own tags and of the status tags only the last one put; that stands once if and only if another status was put there too or it was not attached twice before |
| OverlayRuns.EnforceLeavesOneStatus | core/enforcement.py:101-108 | an asset whose decision was reached, with a status other than HEALTHY, ends with one status, its own when nothing else tags the entity |
| OverlayRuns.EnforceIsIdempotent | core/enforcement.py:86-162 | enforcing any plan a second time, complete or not, leaves the whole catalog as the first time left it |
| CatalogOutcomes.TargetsRead | core/enforcement.py:42-71 | the native targets of an asset are its projection to one of the two known aspect types and then its deployment; a projection to any other type is the error |
| CatalogOutcomes.EnforceTags | core/enforcement.py:24-28 | after any enforcement, complete or stopped, an entity tagged by it carries, per status of the last decision that tagged it as asset or target, the at-risk, quarantined or resolved tag and neither of the other two; every other tag stays |
| CatalogOutcomes.EnforceShows | core/enforcement.py:110-141 | after any enforcement every dataset and native aspect shows, key by key, incident, states, decision, actions, evidence, reason, target list and kept history of the last decision that updated it, and is otherwise as before |
| CatalogOutcomes.ControlledInOrder | core/enforcement.py:92-96 | the stored target list names the assets of the write-back decisions, in plan order, each as often as decided |
| CatalogOutcomes.ReceiptsRead | core/enforcement.py:143-153 | a completed enforcement returns one receipt per write-back decision, in plan order, with all native targets of its asset in order |
| Recovery.UnmetChecks | core/recovery.py:94-102 | missing and failed checks are exactly the required ones absent or failing among the last observations per check |
| Recovery.CountConsecutive | core/recovery.py:111-116 | the backward scan counts the clean runs at the end of the history |
| Recovery.TrailingCleanCounts | core/recovery.py:111-116 | the count is at least n exactly when the last n stored runs are all clean |
| Recovery.TrailingCleanSteps | core/recovery.py:111-116 | an incremental counter, one more on clean and zero on dirty, agrees with the scan |
| Recovery.HistoryGate | core/recovery.py:118-125 | history resumes exactly when the last N stored runs are clean, with at least one even for a threshold below one |
| Recovery.Gate | core/recovery.py:94-134 | the decision before any write: history, state, resume flag and unmet checks |
| Recovery.Evaluate | core/recovery.py:72-210 | an evaluation is refused without effect, or writes its verdict to the control asset and on resume to everything controlled; the result reports the same verdict, and an LLM instruction never changes it |
| Reset.ResetNatives | core/reset.py:161-175 | natives owned by the incident lose its keys and status tags, others are skipped, and removed keys are counted |
| Reset.ResetDatasets | core/reset.py:184-193 | datasets lose the incident keys and status tags, counted once each |
| Reset.ResetIncidentMetadata | core/reset.py:92-203 | a refused reset changes nothing; an accepted one performs the planned cleanups, natives then artifacts then datasets with the control asset last, and its receipt lists exactly them |
| Reset.CleanedPlace | core/reset.py:161-193 | after cleanup a place shows its properties without incident keys exactly when some cleanup covers it, and is untouched otherwise |
| Reset.CleanedEntity | core/reset.py:161-193 | the same for the tag list of an entity |
| UndoRuns.RunKeepsInvariant | core/enforcement.py:86-162 | over any run of completed enforcements and evaluations the overlay stays on touched assets and their natives, owned by the latest plan and listed by the control asset |
| RestoreRuns.ResetUndoesAnyRun | core/reset.py:92-203 | from a catalog without overlay, after any run of enforcements, stopped ones included, and evaluations: reset accepts if and only if the run is resettable, and then restores every property map and tag order if and only if every place merged into and every entity tagged is taken back by the target list of the control asset |
| RestoreRuns.ResetAcceptsIff | core/reset.py:92-159 | reset accepts if and only if the enforcement that reached the control asset last is of this incident and lists no empty name, the listed assets it still owns name only known native aspects, and the artifacts are its own |
| RestoreRuns.RestoredIffCovered | core/reset.py:161-193 | cleaning restores the catalog if and only if some cleanup covers each place merged into and each entity tagged |
| RestoreRuns.OwnerShows | core/enforcement.py:110-134 | after any run every place shows the incident and target list of the plan that reached it last, recovery or not |
| UndoRuns.ResetUndoesRun | core/reset.py:92-203 | when the enforcements of the run complete, reset restores the catalog if and only if every asset touched by the run belongs to the last plan |
| UndoRuns.ResetKeepsOtherArtifacts | core/reset.py:56-89 | the incident and decision-log artifacts of other incidents survive a reset unchanged, and its own are gone |
| ResetOutcomes.PlanRead | core/reset.py:56-159 | a reset is accepted if and only if the control asset is the incident's, its list is readable, the artifacts are its own and the targets of its owned assets are of known types; it then cleans exactly those, the control asset last |
| ResetOutcomes.CountIsWhatIsLost | core/reset.py:161-203 | the property count on the receipt is the number of properties, over the whole catalog, that were there before the reset and are gone after it |
| RestoreRuns.FailedEnforcementLeavesTag | core/enforcement.py:48-162 | for one enforcement of any plan, stopped anywhere: reset accepts if and only if the control asset was reached, no empty name is listed, the artifacts are its own and the stop was not for an unknown aspect; it restores the catalog if and only if the stop left no tagged entity whose aspect is missing |
| RestoreRuns.UnsupportedAspectIsStuck | core/enforcement.py:48-62 | a concrete catalog with an unknown native aspect: enforcement writes the overlay and raises, and every reset after any evaluations is refused |
| RestoreRuns.MissingAspectStrandsTag | core/enforcement.py:63-83 | a concrete catalog with a missing native aspect: reset is accepted and leaves the status tag behind |
| ResetRetry.Replan | core/reset.py:127-159 | planning again after a stop at any write yields exactly the cleanups that had not begun |
| ResetRetry.InterruptedResetRetries | core/reset.py:127-193 | a reset stopped after any number of whole cleanups short of the last and run again ends in the catalog of an uninterrupted reset |
| ResetRetry.HalfCleanedAssetRetries | core/reset.py:188-193 | stopped between the two writes of one asset, the rerun is equal if and only if no status tag was stranded on that asset |
| ResetRetry.HalfCleanedControlIsRefused | core/reset.py:101-107 | stopped between the two writes of the control asset, every rerun is refused |
| RecoveryRuns.HistoryIsTracked | core/recovery.py:103-165 | after any run, with enforcements that complete or stop, the stored history is exactly the evaluations accepted since an enforcement of the incident reached the control asset |
| RecoveryRuns.CounterAgrees | core/recovery.py:111-116 | over whole runs a counter kept step by step equals the backward scan of the tracked history |
| RecoveryRuns.ResumeGate | core/recovery.py:94-125 | over whole runs an accepted evaluation resumes if and only if the last N evaluations of this incident were clean, equivalently the counter reached N, or a permitted approval is given |
| RecoveryRuns.OtherIncidentStartsEmpty | core/enforcement.py:110-134 | once an enforcement of another incident reaches the control asset, complete or not, the history is empty, so its predecessors never count |
| RecoveryRuns.VerdictEdge | core/recovery.py:118-134 | the new state is the old one or a legal edge if and only if the evaluation does not resume from a state other than RECOVERY_PENDING |
| RecoveryRuns.RecoveryIsLegal | core/incident_state.py:22-37 | from AT_RISK or QUARANTINED with empty history, a threshold of two or more and no approval that resumes, every evaluation up to the first resolution keeps the state or takes a legal edge |
| RecoveryRuns.FirstStepIsLegal | core/incident_state.py:22-37 | the first evaluation is legal if and only if it is not clean with a threshold of one or an approval that resumes |
| RecoveryRuns.DirtyRecheckDoesNotReblock | core/recovery.py:127-164 | a dirty check after resolution writes AT_RISK, no legal edge, while the stored actions stay empty: nothing is blocked again |
| CatalogOutcomes.RefusalReads | core/recovery.py:82-92 | an evaluation is accepted if and only if the control asset names an incident, the expected one when one is expected, and any stored history can be read |
| CatalogOutcomes.VerdictReads | core/recovery.py:94-146 | the verdict in terms of stored properties, policy and input alone: history, resume flag, state by case, and evidence; a required check passes when its latest report does |
| CatalogOutcomes.EvaluationShows | core/recovery.py:148-210 | after an accepted evaluation the control asset shows the verdict key by key, every dataset and native aspect a resume gets to shows the seven resolved values, and nothing else changed |
| CatalogOutcomes.ResumeTags | core/recovery.py:196-210 | after a resume every listed asset and native target it gets to, up to the first unsupported asset, carries the resolved tag and neither the at-risk nor the quarantined one, with all other tags kept; other tag lists stay |
| CatalogOutcomes.SupportedResumeReaches | core/recovery.py:164-210 | when the listed assets are all supported a resume gets to each of them and each of their targets |
| CatalogOutcomes.DedupeInOrder | core/recovery.py:136-147 | of two kept evidence ids the one listed first was mentioned first |
| Impact.ByDegreeIsStable | core/impact.py:103 | the visit order is a stable sort by degree |
| Impact.TraceFieldImpact | core/impact.py:88-128 | the imperative pass computes taint, affected and unaffected lists of the degree-ordered hits, or the error for a source without a name |
| Impact.TaintIsReachable | core/impact.py:96-114 | soundness for every order: each tainted field is reachable from the source fields |
| Impact.TaintEqualsReachability | core/impact.py:88-128 | when degrees strictly increase along field edges the one pass taints exactly the reachable fields |
| Impact.TaintIsOrderedReach | core/impact.py:96-114 | for any order, after any number of visits a field is tainted if and only if it ends a path from the source fields whose edges are stored at assets visited one after the other |
| Impact.CompleteIffInOrder | core/impact.py:96-114 | for any order, the pass is complete if and only if each field reached by some path is reached by one in visit order |
| Impact.CompleteForAllStarts | core/impact.py:96-114 | the pass is complete for all source fields if and only if it is for each single field, stated on paths in visit order |
| Impact.PairsInOrderSuffice | core/impact.py:103-114 | it is complete for all source fields when each edge is visited before every edge that continues it |
| Impact.PairsInOrderIsNotNeeded | core/impact.py:103-114 | that condition is not necessary: two assets where an edge comes after one that continues it and the pass is complete for all source fields |
| Impact.CompleteIffRepeatable | core/impact.py:96-114 | for any order, a missed field always shows as one that a second pass would add |
| Impact.ShortestHopMisses | core/impact.py:103-114 | a two-asset lineage of one degree where a reachable field is missed |
| Impact.TaintIsMonotone | core/impact.py:96-114 | more source fields never taint less |
| Impact.ImpactIsMonotone | core/impact.py:103-128 | more source fields never make an affected asset unaffected |
| Impact.ImpactPartitions | core/impact.py:103-128 | with distinct hits, affected and unaffected lists share nothing and together hold every considered hit |
| Impact.AffectedIsFed | core/impact.py:103-128 | an affected asset stores an edge out of a reachable field |
| Impact.MissedIsNotFed | core/impact.py:103-128 | with strictly increasing degrees no asset fed by a reachable field is reported unaffected |
| Impact.KindDecides | core/impact.py:103-106 | a hit is reported, affected or not, exactly when it is a dataset or of no known kind |
| Impact.NamesRead | core/impact.py:96-119 | assets are reported under their names, or their URNs when they have none, the source first |
| Impact.SourceNameReads | core/impact.py:98 | the source is named by the last but one of the comma-separated parts of its URN; a URN without a comma has no name |
| Impact.FieldUrnInjective | core/impact.py:96 | field identifiers differ for different fields and for different assets |
| Impact.AffectedIffFedInOrder | core/impact.py:103-128 | for any order, a hit is reported affected, or unaffected, if and only if some visit of it is considered and is, or is not, fed by a field reached in visit order before it |
| Impact.BuildPolicyContexts | core/impact.py:131-161 | one context per distinct asset in first-mention order, affected exactly when proven or explicitly added |
| PipelineControl.LocalPipelineController.Publish | core/pipeline_controller.py:41-71 | a forbidden publication copies nothing and exits with the blocked code; an allowed one makes the target the source; an undecided asset is an error |
| PipelineControl.LocalPipelineController.Execute | core/pipeline_controller.py:73-95 | the operation runs exactly when a decision exists and does not forbid execution |
| PipelineControl.ReloadReads | core/pipeline_controller.py:97-132 | a controller rebuilt from persisted properties forbids exactly the persisted actions |
| PipelineControl.ReloadAcceptedIff | core/pipeline_controller.py:97-132 | a reload succeeds if and only if the asset holds every control in its own shape; its one decision is what they say, with the fallbacks for name, role, criticality, evidence and reason |
| PipelineControl.RunControls | core/recovery.py:148-210 | over any run of evaluations the persisted controls of an asset stay as they were until a resume gets as far as that asset, which lifts them for good; a resume that stops at an unsupported asset lifts exactly those before the stop |
| PipelineControl.ReloadForbidsAsPlanned | core/pipeline_controller.py:97-132 | any enforcement, complete or stopped, then any evaluations, then reload: it forbids what the last decision reached for the asset forbids until a resume got to the asset, and nothing after |
| PipelineControl.ReloadAgreesInMemory | core/pipeline_controller.py:97-132 | until a resume gets to the asset it agrees with the in-memory controller when that decision is also the one the asset name stands for |
| PipelineControl.ReloadsIffReached | core/pipeline_controller.py:97-132 | among assets without an incident before, a reload succeeds if and only if enforcement, complete or stopped, got to the asset; one blocked without write-back or after the stop raises |
| PipelineControl.CompleteReload | core/pipeline_controller.py:97-132 | when every written-back asset is supported, each of them reloads with what its last decision forbids until some evaluation resumed |
| SelectiveControl.OnlyReachedIsForbidden | core/policy_engine.py:66-96 | a control is placed only on an asset that the pass meets, so fed by a field reachable from the contaminated fields, or the source, or one explicitly added |
| SelectiveControl.ControlIsSelective | core/policy_engine.py:66-96 | for any order, an asset is controlled if and only if the pass meets it in visit order and the rule of its role lists the action |
| SelectiveControl.IncreasingMeetsAll | core/impact.py:88-128 | with strictly increasing degrees the assets met are exactly those reached |
| SelectiveControl.BundleNeverOverlaps | core/repair.py:159-195 | a bundle built from an impact never fails on affected and preserved assets that overlap |
| TextLines.SplitJoin | core/unified_patch.py:50-58 | splitting at every separator that str.splitlines knows undoes joining exactly on lists whose members are the lines of the text they make |
| TextLines.JoinSplit | core/unified_patch.py:50-58 | joining undoes splitting on every text |
| UnifiedPatch.HeaderPathIsSafe | core/unified_patch.py:33-44 | an accepted path is relative, has only plain components and cannot climb out |
| UnifiedPatch.HeaderRoundTrip | core/unified_patch.py:33-44 | a file header line reads back as the path it was made from |
| UnifiedPatch.HeaderTextRoundTrip | core/unified_patch.py:27-30 | a hunk header reads back as its numbers, counts of one left out included |
| UnifiedPatch.HeaderIff | core/unified_patch.py:27-30 | a line is a hunk header exactly when it spells two ranges, each a number or two with a comma, between the markers, with nothing or a space after them |
| UnifiedPatch.ApplyBody | core/unified_patch.py:83-101 | the inner loop over one hunk body against its recursive meaning |
| UnifiedPatch.ApplyHunk | core/unified_patch.py:64-106 | one hunk: target, untouched lines, body and both count checks |
| UnifiedPatch.ApplyUnifiedPatch | core/unified_patch.py:47-111 | the whole two-level loop, with every error |
| PatchRoundTrip.BodyOfRendered | core/unified_patch.py:83-101 | a rendered body whose old lines are in the file is accepted and emits its new lines |
| PatchRoundTrip.ApplyWithHeads | core/unified_patch.py:64-106 | whatever start the header gives for the new file, the outcome is the same: that number is never checked |
| PatchRoundTrip.ApplyRendered | core/unified_patch.py:47-111 | what the applier makes of any rendered diff whose old lines stand where it looks: the splice with bare insertions one line early, or an error when an old line has no newline |
| PatchProperties.RoundTrip | core/unified_patch.py:47-111 | a rendered faithful diff applied to the old file gives the new file |
| PatchProperties.RoundTripExactly | core/unified_patch.py:71-78 | for hunks that stand apart, the new file comes back if and only if every line of the diff ends in a newline and each bare insertion is at the file start or repeats the line before it |
| PatchProperties.PlainDiffsAreFaithful | core/repair.py:222-250 | newline-terminated diffs with a non-empty old range or at the file start, the only ones the repair renders, are faithful |
| PatchProperties.InsertionComesEarly | core/unified_patch.py:71-78 | a concrete insertion after line one that lands before it |
| PatchProperties.SeparatorBreaksDiff | core/unified_patch.py:50-101 | a correct one-line diff made at newlines is refused for every separator other than the newline inside its context line, a form feed for one |
| PatchProperties.ReverseEditsBack | core/unified_patch.py:47-111 | the reversed hunks fit the edited file and splice the original back |
| PatchProperties.ReverseExchangesRanges | core/unified_patch.py:27-30 | reversing exchanges the old and new range of every header |
| PatchProperties.ReversedPatchRestores | core/unified_patch.py:47-111 | a reversed faithful diff applied to the new file gives the old file back |
| PatchProperties.AcceptedIsSplice | core/unified_patch.py:64-111 | every accepted hunk list, rendered by anyone, is a splice of hunks that fit the source |
| PatchProperties.AcceptedPatch | core/unified_patch.py:47-111 | every accepted patch text replaces, keeping all else, lines found in the file, on one safe path |
| PublicationFiles.MaterializeFiles | core/github_provider.py:526-563 | the loop over artifacts: each patch applies to the base file it names, a later artifact for one path replaces the earlier, and the first error stops it |
| PublicationFiles.LastArtifactWins | core/github_provider.py:526-563 | a path is published if and only if some artifact names it, with the content of the last that does |
| PublicationFiles.NothingLostIff | core/github_provider.py:526-563 | no artifact is lost if and only if artifacts that name one path agree on its content |
| PublicationFiles.MaterializedPathsAreSafe | core/change_provider.py:78-82 | every path to be published is relative and plain |
| PublishedPatches.SafePathIff | core/github_provider.py:526-543 | a path is published if and only if it is relative, never climbs, and names something |
| PublishedPatches.FileMaterializesIff | core/github_provider.py:532-535 | an artifact that is no patch becomes a file exactly when its path is safe, with its content as it is |
| PublishedPatches.PatchMaterializesIff | core/github_provider.py:536-562 | a patch becomes a file if and only if the base holds its target and applying it there succeeds for that very path |
| PublishedPatches.DiffMaterializes | core/github_provider.py:526-563 | a faithful diff of a file of the base is published as exactly the edited file, under its path |
| PublicationFiles.ObserveFiles | core/github_provider.py:319-326 | observed files by name, refused exactly when a name repeats |
| PublicationFiles.ValidateComparison | core/github_provider.py:297-339 | the checks on names, statuses and contents accept a comparison if and only if the branch changes exactly the materialised files to exactly those contents |
| PublicationSafety.RunGrows | core/github_provider.py:607-722 | commits never change, the branch once made never moves, pull requests never disappear |
| PublicationSafety.RunKeepsInv | core/github_provider.py:607-722 | over every interleaving of publishers, retries, lost requests and moves by others, what each publisher believes about commit, base, branch and pull request holds on the remote |
| PublicationSafety.ReceiptIsExact | core/github_provider.py:565-605 | every receipt ever returned names the branch commit, whose only parent is the base and whose tree is that base with exactly the materialised files, and a pull request of it |
| PublicationSafety.ReceiptsAgree | core/github_provider.py:453-510 | any two receipts name one commit, base and files, and one pull request as long as none was closed |
| PublicationSafety.AtMostOnePull | core/github_provider.py:402-451 | publishers create at most one pull request as long as none is closed by others; never two are open |
| PublicationRequests.WritesAreGuarded | core/github_provider.py:250-259 | no commit, branch or pull request is asked for unless the base was read unchanged right before, and then for exactly the checked files and commit |
| PublicationRequests.FirstAttemptGoesOn | core/github_provider.py:607-722 | a first attempt goes on exactly with files that materialise on the base and with a commit that was made; the branch is read back whatever the answer to its creation |
| PublicationRequests.BranchGoesOn | core/github_provider.py:268-339 | a branch is taken over if and only if it is one commit on one parent with all three markers, on the present base, and changes exactly the repair's files |
| PublicationRequests.PullGoesOn | core/github_provider.py:402-511 | a pull request is asked for only when there is none; a receipt is given if and only if a single one carries the marker on this head, open on this base, or it was just made so |
| PublicationRequests.RequestChanges | core/github_provider.py:402-425 | a request that does not arrive changes nothing, and one that does makes only the commit, branch or pull request it asks for, when GitHub can |
| PublicationAttempts.FirstAttemptPublishesIff | core/github_provider.py:607-722 | an undisturbed first attempt returns a receipt if and only if the artifacts materialise and none of the files is in the base already; otherwise it fails, leaving its branch whenever they materialise |
| PublicationAttempts.StrandedNeverPublishes | core/github_provider.py:297-339 | over every interleaving of publishers and others, a branch that repeats a base file never gets a receipt |
| PublicationAttempts.RepeatedFileStrandsRepair | core/github_provider.py:297-339 | when a file repeats the base, the first attempt fails with its branch made and every later run of any publishers ends without a receipt |
| PublicationAttempts.RepeatedFileExample | core/github_provider.py:297-339 | a concrete repair of that kind: one plain file equal to the one in the base |
| PublicationSafety.RetryCompletes | core/github_provider.py:453-510 | an interrupted publication, tried again undisturbed, returns its receipt, creating the pull request only when missing |
| PublicationAttempts.RetryPublishesIff | core/github_provider.py:453-510 | an undisturbed retry that finds its branch returns a receipt if and only if the branch is one marked commit on the present base that changes exactly the files, and there is no pull request or exactly one bound to it, open and on that base; otherwise it fails |
| PublicationAttempts.MovedBaseRefusesRetry | core/github_provider.py:453-471 | once the base has moved on after the branch was made, every undisturbed retry fails |
| PublicationAttempts.RecoveryReads | core/github_provider.py:427-451 | after a lost answer one more answered read returns the receipt if and only if exactly one pull request carries the bundle marker on that head and is open on that base |
| PublicationAttempts.LostAnswerIsRecovered | core/github_provider.py:402-451 | an attempt whose pull-request answer is lost after it took effect ends with the receipt, the remote and the one pull request created of an undisturbed attempt |
| Events.EventRecorder.Emit | core/events.py:180-207 | an invalid event leaves the log alone; a valid one is appended with the next number even when its callback then raises |
| Events.EventIdInjective | core/events.py:193 | identifiers of one incident differ for different numbers, beyond four digits too |
| Events.RecordedIsValid | core/events.py:125-141 | a recorded stream always passes validation |
| Events.SaveLoadRoundTrip | core/events.py:144-156 | loading a saved stream gives it back if and only if it validates and no text in it holds a line separator that JSON leaves unescaped; otherwise it raises, at the first such line |
| Events.SavedFilesDiffer | core/events.py:209-223 | different streams are saved as different texts |
| IncidentRuns.IncidentRun.Transition | core/incident_state.py:54-77 | a legal transition is recorded and then taken; when the callback raises, the event stays and the state does not move |
| IncidentRuns.IncidentRun.Start | core/incident_state.py:127-144 | a start records the creation and the move to DETECTED, once per incident |
| IncidentRuns.IncidentRun.Record | core/events.py:180-207 | any other event recorded beside the machine |
| IncidentRuns.ReplayState | core/incident_state.py:80-101 | the folding loop against its recursive meaning, errors included |
| IncidentRuns.CallReplay | core/incident_state.py:54-77 | one call keeps replay in step with the machine if and only if no transition callback raised in it |
| IncidentRuns.ReplayAgrees | core/incident_state.py:80-101 | for every sequence of calls the stream validates, and its replay equals the machine state if and only if no transition callback ever raised |
| IncidentRuns.CreationStays | core/incident_state.py:127-144 | a recorded creation is never lost and the stream only grows |
| IncidentRuns.ResolvedIsFinal | core/incident_state.py:22-37 | in any accepted stream RESOLVED is final |
| IncidentRuns.ContainedStays | core/incident_state.py:22-37 | once AT_RISK or QUARANTINED, an accepted stream never leaves the contained states except to RESOLVED |
| IncidentRuns.ResolvedOnlyFromPending | core/incident_state.py:22-37 | after AT_RISK or QUARANTINED, RESOLVED is entered only from RECOVERY_PENDING |
| IncidentOutcomes.LegalIff | core/incident_state.py:22-37 | the states that may follow each state |
| IncidentOutcomes.TransitionRecords | core/incident_state.py:54-78 | an accepted transition records one event with the caller's actor, evidence and duration, both states in the payload, and a default summary when none is given; the state moves when the callback returns |
| IncidentOutcomes.StartRecords | core/incident_state.py:127-144 | a first start records the creation with its symptom and the move to DETECTED, as far as the callbacks return |
| IncidentOutcomes.CreatedOnce | core/incident_state.py:127-144 | over all calls an incident is created at most once, and exactly once from the first start in HEALTHY on; any later start changes nothing |
| IncidentOutcomes.DraftAcceptedIff | core/events.py:78-100 | an event is recorded if and only if its summary says something, its evidence ids are neither blank nor repeated and its duration is not negative |
| IncidentOutcomes.PaddedLength | core/events.py:192-193 | the number in an event id is printed with at least four digits and no zeros beyond them |
| IncidentOutcomes.BlankLinesAreSkipped | core/events.py:144-158 | a blank line anywhere in a saved file changes nothing of what is loaded |
| IncidentOutcomes.StorableIff | core/events.py:209-224 | an event can be stored exactly when none of its texts, payload included, holds a separator that JSON leaves as it is |
| RunStore.RunStore.Open | api/run_store.py:117-139 | a reopened store holds the lock of some live running manifest on disk, or none |
| RunStore.RunStore.StartRun | api/run_store.py:168-197 | start is refused while a run is active or the folder exists, else performs its three writes and takes the lock |
| RunStore.RunStore.AppendEvent | api/run_store.py:219-240 | an append is checked against manifest, digest, decoding and sequence, then writes events and manifest in that order |
| RunStore.CheckedAsText | api/run_store.py:205-217 | reading the events of a folder is reading its text: digest, line by line decoding, validation and count give the same result or error, for any JSON codec |
| RunStore.RunStore.FinishRun | api/run_store.py:242-265 | finishing reads and checks the events, writes the manifest and releases the lock of that run |
| RunStore.RunStore.FailRun | api/run_store.py:267-282 | failing needs only the manifest |
| RunStore.RunStore.UpdateState | api/run_store.py:284-294 | the incident state of the manifest changes, nothing else |
| RunStore.RunStore.DeleteRun | api/run_store.py:324-334 | a RUNNING run is never deleted; another loses manifest, events and folder in that order |
| RunStore.RunStore.ExportReplay | api/run_store.py:296-322 | only a completed run whose events can be read is exported, into a folder that is absent or empty |
| RunStoreAcceptance.AppendAcceptedIff | api/run_store.py:219-226 | on any disk the store keeps, an append is accepted if and only if the run is live and RUNNING or COMPLETED, its file is the vouched one and readable, and the event has the next number, the same incident and a fresh id |
| RunStoreAcceptance.AppendLeaves | api/run_store.py:227-240 | an accepted append adds the event to the file and to what the manifest vouches for, and changes nothing else |
| RunStoreAcceptance.StartAcceptedIff | api/run_store.py:168-197 | a run is started if and only if its name is safe and free and no live run is running; it is then empty, live, RUNNING and holds the lock |
| RunStoreAcceptance.FinishAcceptedIff | api/run_store.py:242-265 | a run of any status is finished if and only if it can be read; only status, state and backend of its manifest change and its lock is given up |
| RunStoreAcceptance.FailAcceptedIff | api/run_store.py:267-282 | a run is failed if and only if it has a manifest; the stored reason is its first two thousand characters |
| RunStoreAcceptance.UpdateAcceptedIff | api/run_store.py:284-294 | the state of a run is updated if and only if it has a manifest, and nothing else of it |
| RunStoreAcceptance.DeleteAcceptedIff | api/run_store.py:324-335 | a run is deleted if and only if its manifest is not RUNNING, and only its folder goes |
| RunStoreAcceptance.DeleteEmptiesFirst | api/run_store.py:330-335 | before its last write a deletion has emptied the directory |
| RunStoreAcceptance.ExportAcceptedIff | api/run_store.py:296-322 | a run is exported if and only if it is COMPLETED and readable and the place is free; the replay is the run, marked as recorded with its source |
| RunStoreAcceptance.SafeIdReads | api/run_store.py:19 | the names a run may have, by character codes |
| RunStoreAcceptance.ReadRefusedWith | api/run_store.py:199-217 | why a run cannot be read, in the order in which it is found out |
| RunStoreAcceptance.FinishedTakesNextEvent | api/main.py:225-228 | after an accepted finish of an open run its status is COMPLETED and the recorder's next event is accepted |
| RunStoreAcceptance.FinishedRunKeepsRecording | api/runtime.py:183-189 | over any events, state updates and finishes of a started run the store accepts each of them, so repair actions on a COMPLETED run can record theirs |
| RunStoreSafety.BoundaryLock | api/run_store.py:168-282 | at every write boundary of every operation the lock held is the one the manifests show |
| RunStoreSafety.RebuiltIsLock | api/run_store.py:117-139 | reopening at any such boundary finds exactly the lock that was held |
| RunStoreSafety.RunLock | api/run_store.py:117-139 | over any sequence of operations, crashes at any boundary and reopenings, at most one live run is RUNNING and it is the active one |
| RunStoreSafety.StreamsExtend | api/run_store.py:219-240 | a committed stream is only ever extended until the run is deleted |
| RunStoreSafety.NoTornReads | api/run_store.py:205-217 | two successful reads of a run not deleted in between return valid streams, the earlier a prefix of the later, whatever crashed between |
| RunStoreSafety.ReadableIff | api/run_store.py:205-217 | a run can be read if and only if its file is the one its manifest vouches for and no event in it breaks its line |
| RunStoreSafety.ReadDuringAppend | api/run_store.py:205-240 | before an append a read returns the old stream, between its two writes it raises, and after them it returns the new one if and only if the event does not break its line, and raises otherwise |
| RunStoreSafety.UnreadableStays | api/run_store.py:168-334 | through any operations and further crashes a run that cannot be read stays so, for the same reason, until it is deleted, and leaves its status only by failing |
| RunStoreSafety.UnreadableAllows | api/run_store.py:168-334 | such a run refuses every append, finish, export and restart; it can be failed, its incident state updated, and once not RUNNING it can be deleted |
| RunStoreSafety.TornAppendIsStuck | api/run_store.py:219-240 | an append that crashes between its two writes leaves such a run in every later world of every run until its deletion |
| RunStoreSafety.BrokenAppendIsStuck | api/run_store.py:205-240 | the store accepts an event that it can never read again: once an event that breaks its line is appended, every read raises in every later world until the deletion, and only failing, updating and then deleting are accepted |
| RunStoreSafety.SymptomStrandsRun | api/main.py:47 | concretely: a reported symptom with U+2028 in it strands its run at the creation event |
| RunStoreSafety.NamelessStays | api/run_store.py:168-334 | a folder without a manifest stays exactly as it is through every operation and crash |
| RunStoreSafety.CrashedStartIsStuck | api/run_store.py:168-197 | a start that crashes before its manifest makes every later operation on that incident fail in every later world, starting and deleting included |
| RunStoreSafety.ExportReadsBack | api/run_store.py:296-322 | an exported run reads back as the original, is never live, and leaves other folders alone |
| RunStoreSafety.AppendKeepsStatus | api/run_store.py:219-240 | an append never changes the status a reader of the manifest sees, at any write boundary |
| StreamDelivery.Deliver | api/main.py:297-307 | the delivery loop of one cycle sends exactly the events above the cursor, in order, and moves the cursor to the last; any cursor is allowed, below -1 too |
| StreamDelivery.RunKeepsInv | api/main.py:279-314 | with a writer appending and finishing between any two reads, what was delivered is always exactly what stands up to the cursor |
| StreamDelivery.StoppedStreamIsComplete | api/main.py:279-314 | a stream that stopped by itself delivered every event above the starting cursor that was there when the run finished, each once, in order |
| StreamDelivery.OpenStreamIsInOrder | api/main.py:279-314 | at any moment the delivered events are consecutive from the starting cursor |
| StreamDelivery.EventsFirstLosesEvents | api/main.py:291-293 | reading events before the manifest would lose an event appended in between |
| StreamDelivery.SessionRefines | api/run_store.py:199-282 | the run store with one reader refines that system: each operation on the run, seen by a manifest read after any of its writes or not, is at most one writer step, and each read of the store is the read of the system |
| StreamDelivery.StoredStreamIsInOrder | api/main.py:279-314 | at any moment what a session has delivered stands consecutively in the stored stream, from the first event above its starting cursor; the file matches its manifest and can be read if and only if no event in it breaks its line |
| StreamDelivery.StoredStreamIsComplete | api/main.py:279-314 | a session that stopped by itself has delivered every event above its starting cursor that was stored at any moment at which the run was still RUNNING |
| StreamDelivery.BrokenEventEndsStream | api/main.py:287-296 | from the moment an event that breaks its line is stored, an open stream delivers nothing more and never stops by itself |
| RepairBundles.AttachKeeps | core/verification.py:312-357 | attaching any one receipt to a sound bundle gives a sound bundle of the same repair whose status guarantees its receipts |
| RepairBundles.CommitBinding | core/repair.py:158-195 | over every sequence of attached receipts, accepted or refused, VERIFIED, APPROVED and APPLIED imply that all receipts of that status bind one commit, and identity, artifacts and checks never change |
| RepairBundles.OneCommit | core/application.py:196-215 | an applied bundle carries four receipts of one commit, approved by the named approver |
| RepairBundles.DeclaredCheckObserved | core/verification.py:312-357 | in every bundle reachable by any attachments and past PUBLISHED, a declared check has a passing observation with its name, command and evidence if and only if it agrees with the last declaration of its id |
| RepairBundles.EveryCheckObserved | core/verification.py:312-357 | with distinct check ids every declared check is observed passing in each such bundle |
| RepairBundles.ChangeStartsOver | core/change_provider.py:291-305 | a change receipt is accepted in any status and makes the bundle PUBLISHED with its later receipts still attached |
| RepairBundles.RecordedIsAccepted | core/approval.py:86-194 | a recorded decision is accepted by its own authority and refused by one with another key |
| RepairOutcomes.ValidIff | core/repair.py:158-195 | when a bundle is valid, status by status |
| RepairOutcomes.AttachAcceptedIff | core/verification.py:312-357 | when a bundle takes each of the four receipts: a change in every status, each other only in the status before its own, with every binding it checks |
| RepairLifecycle.RepairLog.LatestBundle | api/runtime.py:169-181 | the backward scan returns the bundle of the last lifecycle event |
| RepairLifecycle.RepairLog.Act | api/runtime.py:235-420 | one action reads the latest bundle, checks it and appends; a failing decision log or recorder leaves a prefix of its events |
| RepairOutcomes.LatestReads | api/runtime.py:169-181 | the latest bundle is that of the last event of the five lifecycle types |
| RepairOutcomes.PublishAcceptedIff | api/runtime.py:235-284 | a publication is accepted if and only if it names a valid proposal without one; only status and receipt change |
| RepairOutcomes.VerifyAcceptedIff | core/verification.py:312-357 | a verification is accepted if and only if a valid bundle is published and it observes checks, each once and passing, of that bundle, commit, repository and branch, by the provider's verifier, covering the declared checks in force |
| RepairOutcomes.ReviewAcceptedIff | core/approval.py:86-194 | a review is accepted if and only if a valid bundle is verified with named receipts of one commit and its own approver gives a note of 8 to 1000 characters; the payload carries the authority's assurance and production flag under its signature |
| RepairOutcomes.ApplyAcceptedIff | core/application.py:100-215 | an application is accepted if and only if a valid bundle is approved, its three receipts name one commit, and the receipt says APPLIED of that bundle and commit |
| RepairOutcomes.ActRecords | api/runtime.py:235-420 | each accepted action records its own event type with the new bundle, then the decision log, as far as it gets |
| RepairLifecycle.StepAdvances | api/runtime.py:286-420 | an accepted action moves a sound bundle forward by exactly one stage |
| RepairLifecycle.LifecycleOnlyAdvances | api/runtime.py:235-420 | over every sequence of actions the log only grows, the latest bundle stays sound, and no stage is undone or repeated |
| RepairLifecycle.RecoveryNeedsApplied | api/runtime.py:784-830 | over whole runs, recovery passes its gate only with an applied bundle of this incident, and an approval it uses is signed, approved and bound to the published commit |
| RepairOutcomes.GateAcceptedIff | api/runtime.py:784-826 | recovery passes its gate if and only if the bundle is applied and of this incident and a named approval is its signed approval; it hands on the receipt's approver, assurance and production flag |
| RepairOutcomes.ApprovalIsIssued | core/approval.py:86-147 | over any actions a recorded approval was there at the start or was issued by one of the recorded reviews, with that authority's assurance, production flag, key and signature |
| RepairOutcomes.ApprovalResumesIff | core/recovery.py:118-125 | over any actions on a repair that starts without an approval, recovery resumes if and only if the last N runs are clean, or this one is, the policy takes one approved run and the named approval was issued under an authority for production |
| RepairOutcomes.UnauthorisedNeverResumes | core/approval.py:69-84 | when no review was under an authority for production, no approval resumes |
| RepairOutcomes.RecoveryChecksRead | api/runtime.py:201-233 | fresh verification is taken if and only if it observes exactly the required ids; each check passes as observed and carries receipt, result and evidence |
| RepairLifecycle.RecoveryCleanIffVerified | api/runtime.py:201-233 | checks made of a consistent receipt are clean for the recovery policy if and only if the receipt passed |
| SandboxLimiter.LiveSandbox.HandleCreate | web/worker/live-sandbox.ts:543-662 | a request to create: every refusal in order leaves the stored state unchanged, a repeat returns its run, acceptance logs the attempt and stores the run |
| SandboxRetries.KeyIsAcceptedOnce | web/worker/live-sandbox.ts:574-582 | after an accepted create, through any later actions that do not forget its run, every well-formed create of that session and key is answered with that run and changes neither stored state nor history |
| SandboxRetries.StaysStoredIff | web/worker/live-sandbox.ts:652-660 | an action forgets a stored run if and only if its session resets it once it ended, or a created run takes its id or its place among the newest twenty |
| SandboxRetries.CreateAnswered | web/worker/live-sandbox.ts:543-662 | the answer to any create over any run, from what was ever accepted and what is stored: repetition, three per session, twelve per client in ten minutes, one executing run, and created exactly otherwise |
| SandboxRetries.MalformedIff | web/worker/live-sandbox.ts:543-572 | the requests that can be read: bounded session and key by character codes, a small JSON body, the fixed scenario |
| SandboxLimiter.LiveSandbox.HandleReset | web/worker/live-sandbox.ts:795-827 | a reset drops a finished run of the session and never touches the attempts |
| SandboxRetries.ResetAcceptedIff | web/worker/live-sandbox.ts:795-827 | a reset is accepted if and only if a run of that session with that id has ended; it takes away that run and its key and gives no attempt back |
| SandboxLimiter.LiveSandbox.StreamRun | web/worker/live-sandbox.ts:672-793 | the first stream of a run executes it, event by event until the end or the first failure; a later stream only reads |
| SandboxLimiter.StreamKeepsRuns | web/worker/live-sandbox.ts:672-793 | whatever a stream writes, the stored runs keep their number, order, ids, owners and times, the other runs are unchanged, and none becomes RUNNING again |
| SandboxLimiter.StreamedRun | web/worker/live-sandbox.ts:672-793 | an executing stream leaves its run with every event before the failure and a final status |
| SandboxRetries.CreatedRunStreams | web/worker/live-sandbox.ts:627-662 | a created run is RUNNING, not started and empty; its first stream leaves every event before the failure and a final status |
| SandboxLimiter.LimiterSeesFullHistory | web/worker/live-sandbox.ts:583-604 | for a clock that never goes back, each pruned log restricted to the window equals the full history of acceptances so restricted |
| SandboxLimiter.LimitsHold | web/worker/live-sandbox.ts:574-660 | over every run, resets included, no ten-minute window holds more than three acceptances of a session or twelve of a client, and at most one stored run is RUNNING |
| SandboxLimiter.PrunedIsBounded | web/worker/live-sandbox.ts:652-659 | pruning keeps at most twenty runs and the running one |
| SandboxRetries.PrunedExactly | web/worker/live-sandbox.ts:652-659 | pruning keeps exactly the running runs and the newest twenty, older insertion first among runs of one instant |
| DecisionTraversal.Traverse | web/worker/live-sandbox.ts:226-277 | on any graph, cycles included, the worklist ends with the root and exactly the nodes reachable from the seeds, each once |
| Ranking.RankCandidates | examples/repair_sandbox/pipeline/decision.py:40-53 | every identifier gets the place of its last entry by score, then by identifier, repeated or not: all but the entries that one beats |
| Ranking.LexLessIff | examples/repair_sandbox/pipeline/decision.py:40-53 | identifiers are compared as texts: the first difference decides, and a prefix comes first |
| Ranking.DistinctRank | examples/repair_sandbox/pipeline/decision.py:40-53 | when no identifier repeats that is one plus the number of candidates that beat it |
| Ranking.RankIsPosition | data/synthetic_polymer/generate.py:110-122 | the rank counted by beaters is the position in the sorted list |
| Ranking.RankIsBijection | data/synthetic_polymer/generate.py:110-122 | ranks are in 1..n and differ for different items |
| Ranking.ForceCandidateToRank18 | data/synthetic_polymer/generate.py:85-91 | in place, only the candidate changes, to the rounded midpoint of the 17th and 18th other scores; it fails when they do not exist |
| Ranking.ForcedIff | data/synthetic_polymer/generate.py:85-91 | the candidate is moved if and only if it is among at least nineteen records |
| Ranking.ScoreAtReads | data/synthetic_polymer/generate.py:87-90 | the score at a place is that of the one other record that so many beat |
| Ranking.MidpointRounds | data/synthetic_polymer/generate.py:91 | the midpoint is within half a unit of the half sum, and even when two values are equally near |
| Ranking.MidpointRanks18 | data/synthetic_polymer/generate.py:85-91 | the candidate then ranks 18 if and only if the 17th other beats the rounded midpoint and the 18th does not; two units of separation suffice |
| Ranking.ContaminationRanksFirst | data/synthetic_polymer/generate.py:160-169 | the candidate raised by 273.15 together with lower rows ranks first if and only if no untouched row beats it; it does when every other score is below the raised one |
| Ranking.ChosenRowsAreLower | data/synthetic_polymer/generate.py:94-107 | the rows chosen for contamination all score below the candidate, which is among them |
| Ranking.ChosenAreLowest | data/synthetic_polymer/generate.py:94-107 | rows are chosen if and only if 186 may be affected, and then exactly the candidate and the 186 lowest, equal scores by identifier |
| Ranking.RepairRestoresScores | core/repair.py:222-250 | with the repaired normaliser the trusted scores come back if and only if Kelvin stands on exactly the contaminated rows and the expected unit on all others |
| Ranking.UnknownUnitFailsClosed | core/repair.py:222-250 | ranking stops with the unit error exactly at the first row whose unit is neither |
| Ranking.RepairRestoresRanks | data/synthetic_polymer/generate.py:147-186 | on the file the generator writes every rank is the trusted one again |

## Left out

Things the repository does that this model does not:

- HTTP, subprocess, git, file-system and archive effects: only the remote or stored state they change is kept. The shapes of GitHub responses, URLs and timestamps are taken as well formed.
- The publisher of core/github_provider.py is a machine of single remote requests, not one sequential method: what matters there is what happens between requests.
- The fields that `GitHubCheckRunVerifier` and `LocalVerificationEngine.verify` inspect: a verification is the receipt they return. The staging release tree and its digest likewise.
- `LocalGitChangePublisher`: only its gate on the bundle's status is kept.
- Conflicts between files and directories of one tree: a tree is a map from paths to contents.
- Others deleting or force-pushing the repair branch, and GitHub renaming or deleting pull requests. Others creating the branch, opening or closing pull requests, pushing commits and moving the base are in the machine.
- Events emitted by policy, enforcement and recovery for narration, and the tags, properties and time stamps that receipts copy from the catalog.
- JSON text of catalog properties: a property holds the decoded value. An absent property map and an empty one are the same, as they are for every reader in the code.
- Digits outside ASCII in hunk headers, and the translation of carriage returns when a text file is opened. Separators and white space are those of `str.splitlines` and `str.strip`.
- The JSON text of an event: any codec will do that reads its documents back, starts them visibly, never makes one the start of another, and escapes the control characters below the space but no other line separator.
- Strength of SHA-256 and HMAC, and secrecy of keys.
- Rounding of floating point: scores are whole micro-degrees, the midpoint is rounded half to even.
- Concurrent repair actions on one incident: the runtime holds no lock over read and append, so actions are taken one at a time. Requests to the sandbox likewise; new run identifiers are parameters.
- Heartbeats and idle counting of the event stream, and deletion of a run while it is streamed.
- `trace_initial_scope`, `impact_via_search`, the dry-run controller and `_infer_role`: single expressions that would only add easy members.
- The text of the repair artifacts that `create_unit_repair_bundle` renders, its constant fields and the native ML decision context.
- Worktree and source-commit fields of run manifests, and the lookup of a run by its source.
- User interface, DataHub SDK and MCP clients, decision-log rendering, ingestion, narration, capture and deployment scripts.

Statements narrower than a reader might expect:

- UndoRuns.ResetUndoesRun: enforcements of the run complete; `RestoreRuns.ResetUndoesAnyRun` covers every run.
- UndoRuns.RunKeepsInvariant: enforcements of the run complete; for every run ownership is `RestoreRuns.OwnerShows`.
- PatchProperties.RoundTripExactly: the direction from the outcome to the condition needs an untouched line between hunks, as every diff tool leaves; the other direction (`RoundTrip`) does not.
- Impact.TaintEqualsReachability: needs strictly increasing degrees; without them the exact condition is `CompleteIffInOrder`.
- PublicationSafety.AtMostOnePull: counts pull requests made by publishers while nobody closes one; afterwards only one is ever open.
- RecoveryRuns.RecoveryIsLegal: covers evaluations up to the first resolution, after which a dirty check leaves the legal graph.
- StreamDelivery.StoppedStreamIsComplete: events appended after the run finished may or may not be delivered.
- PatchProperties.RoundTrip: a hunk line is one line as `str.splitlines` cuts it; a diff whose lines are newline lines only can fail (`SeparatorBreaksDiff`).
- Ranking.RepairRestoresScores: readings are given in whole micro-degrees, so the rounding to six places in the normaliser is exact.
- SandboxRetries.CreateAnswered: every create request is given an identifier of its own, which the source draws from the clock and at random; `KeyIsAcceptedOnce` does not need this.
- RepairOutcomes.ApprovalResumesIff: the repair starts without an approval, as every created one does; for any start `ApprovalIsIssued` says where the approval is from.
- RunStoreAcceptance.FinishedRunKeepsRecording: the events recorded do not break their lines; one that does is `RunStoreSafety.BrokenAppendIsStuck`.
- Ranking.ChosenAreLowest: identifiers are distinct, as in the generated file.
