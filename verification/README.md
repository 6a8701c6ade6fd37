# Verified model of the ingestion watchdog

The repository watches folders for instrument files, groups and renames them, writes records and
uploads them. It holds two code lines, `ipat_watchdog` and its rewrite `dpost_v2`. This project
models the state machines of both that carry promises over whole runs, and proves those promises
for every input, every run and every answer the surroundings may give. Files, clocks, hooks,
databases and users appear as arguments, so nothing is assumed about them beyond what a lemma's
`requires` says.

`dafny verify dfyconfig.toml` checks everything.

| module | models |
|---|---|
| `SentinelBatching`, `SentinelRuns`, `SentinelPrefixes`, `SentinelDeeds`, `SentinelProcessor` | the native/export pairing protocol of the PSA Horiba and Kinexus processors: transition function, run invariants, what each delivery and flush does, and the processor object with its loops |
| `Staging`, `StageRecovery`, `Finalisation` | staging directories, pairs rebuilt from disk, numbering files in the record directory |
| `RecordStore`, `RecordInterleaving`, `RevisionCache` | the records table, interleaved updates, and the revision cache of the composed runtime |
| `Pipeline`, `IngestionEngine`, `IngestionStages`, `IngestionEnds`, `MovePlan`, `PurePaths`, `Containment` | the stage pipeline, the engine around it, the six shipped stages and why their runs end, the persist stage's moves, path normalisation, the allowed-root test |
| `Session`, `RuntimeLoop` | session lifecycle and the runtime loop |
| `ModifiedEventGate` | the cooldown gate with pruning |
| `SettingsMerge`, `SettingsLayers` | layered settings with provenance |
| `UploadLedger`, `StabilityGuard`, `PluginHost` | upload bookkeeping, the polling stability guard, plugin activation |
| `Identifiers`, `PrefixNaming`, `RenameFlow` | identifier round trips, file name prefixes, the rename dialog and re-routing |
| `Wrappers`, `Seqs`, `Text`, `Splitting` | shared vocabulary: options, sequences, ASCII text, splitting and joining |

## What turned out not to hold

Each of these is stated as a lemma with the exact condition; inputs that show the failure are given
beside it.

- Batch numbering never picks a name in use exactly when the separator has a character that is not
  a digit (`Finalisation.AlwaysFreeIff`).
- Kinexus overwrites a zip exactly when the pair's number was zipped before the batch or given to an
  earlier pair; from a directory without numbers that is when another export suffix has occurred more
  often so far, and a whole batch overwrites nothing exactly when its exports share one suffix
  (`Finalisation.OverwritesIff`, `Finalisation.FreshOverwritesIff`, `Finalisation.FreshBatchIff`).
- A flush gets a directory of its own exactly while a numbered or the unnumbered name is free
  (`Staging.StageDirFresh`); the prefix is recovered from it exactly when it is free of the marker
  (`Staging.PrefixRecovered`).
- After a flush PSA recognises only the native that did the flushing (`SentinelRuns.FlushedNativeAgain`).
- A caller is told that its update succeeded exactly when one write, its own or another's, took effect
  since its read (`RecordInterleaving.ToldSuccessIff`, `RecordInterleaving.LostRace`).
- A database failure between a commit and the following read leaves the cache behind for good,
  until a failed sync frees it (`RevisionCache.CoherentIff`, `RevisionCache.LaggingIsStuck`,
  `RevisionCache.FailedSyncUnsticks`).
- For a set of settings keys, every leaf of every stack is blamed on the right source exactly when the
  empty key is the only one, or is not among them and no two paths over the keys are spelled alike
  (`SettingsLayers.AlwaysRightIff`, `SettingsLayers.EmptyKeyMisblames`, `SettingsLayers.DottedKeyMisblames`).
- A batch that was staged is lost exactly when a later flush got the directory of a batch still waiting
  (`SentinelRuns.NothingLostIff`).
- One pass of path normalisation is enough exactly when the path's printed form, cut at slashes and
  backslashes, has no empty or dot piece beyond two leading slashes; two passes always are
  (`PurePaths.OnePassSettlesIff`, `PurePaths.OnePassMaySlip`, `PurePaths.NormSettles`).
- A path that passes the test for an allowed root other than the top leads into that root and never
  leaves it exactly when its first parts lead where the root's do, case included, and no ".." after
  them climbs above it (`Containment.UnderRootForGoodIff`, `Containment.DotDotEscapes`,
  `Containment.CaseEscapes`).
- The record can list a place nothing was moved to. For results whose force paths do not normalise
  alike under different names, it is right exactly when nothing listed is blank or untrimmed and
  striking out the final path's own occurrences changes no first mention (`MovePlan.RecordRightIff`).
  For all lists of force paths drawn from a set it is right exactly when target and kind are not blank
  and every path with a place of its own is trimmed there, normalises unlike the final path, and shares
  its normal form only with paths of the same place (`MovePlan.PoolRecordedRightIff`; failing inputs in
  `MovePlan.ListedButNotMoved` and `MovePlan.AlikeListedTwice`).
- With case folding, an identifier separator outside the token alphabet can still be lost
  (`Identifiers.ComposeParseIff`, `Identifiers.FoldingLosesSeparator`).
- A valid prefix whose sample is all blanks is no longer valid once sanitised
  (`PrefixNaming.SanitizedValidIff`).
- A raising plugin shutdown unbalances the hooks exactly when a plugin with both hooks was stopped
  before the failure (`PluginHost.RaisingShutdownIff`).

## Model

| member | source | states |
|---|---|---|
| `SentinelProcessor.Processor.Preprocess` | src/ipat_watchdog/device_plugins/psa_horiba/file_processor.py:111-139 | the object's dictionaries and the advertised path after one delivery are those of the transition function the run lemmas speak about |
| `SentinelProcessor.Processor.HandleExport` | src/ipat_watchdog/device_plugins/psa_horiba/file_processor.py:141-187 | an export pairs with the oldest waiting native, else becomes the sentinel; nothing else changes |
| `SentinelProcessor.Processor.HandleNative` | src/ipat_watchdog/device_plugins/psa_horiba/file_processor.py:190-268 | a native flushes the bucket when a sentinel is held, else waits; the flush is staged under the sentinel's prefix on a PSA and under the native's stem on a Kinexus |
| `SentinelProcessor.Processor.StageBatch` | src/ipat_watchdog/device_plugins/rhe_kinexus/file_processor.py:160-195 | every pair of the batch is rewritten into the staging directory in order, and the natives to recognise are remembered |
| `SentinelProcessor.Processor.PurgeStale` | src/ipat_watchdog/device_plugins/rhe_kinexus/file_processor.py:401-498 | folders, pairs, sentinel and remembered natives after a time-to-live purge |
| `SentinelProcessor.Processor.PurgeFolders` | src/ipat_watchdog/device_plugins/psa_horiba/file_processor.py:508-586 | in whatever order the folders are visited, each keeps exactly its fresh entries and idle folders disappear |
| `SentinelProcessor.Processor.FinishBatch` | src/ipat_watchdog/device_plugins/psa_horiba/file_processor.py:315-400 | a processing pass takes its waiting batch, else for a directory the recovered one, else fails; only a completed pass forgets the staging directory |
| `SentinelRuns.StepKeeps` | src/ipat_watchdog/device_plugins/psa_horiba/file_processor.py:111-268 | every delivery and every processing pass keeps conservation, exclusivity, order and distinctness in every folder |
| `SentinelRuns.RunKeeps` | src/ipat_watchdog/device_plugins/rhe_kinexus/file_processor.py:78-201 | in every run, in every folder: a held sentinel means no native is waiting, queues are in arrival order, no path is tracked twice, and accepted files are accounted for |
| `SentinelRuns.Conservation` | src/ipat_watchdog/device_plugins/psa_horiba/file_processor.py:111-268 | path by path, the number of times a file was accepted equals its occurrences in pending queue, bucket, sentinel slot, staged batches, exceptions and superseded sentinels |
| `SentinelRuns.StagedAreFlushes` | src/ipat_watchdog/device_plugins/psa_horiba/file_processor.py:202-268 | the pairs booked as staged in a folder are those of its flushes, in order |
| `SentinelRuns.FlushedAccounted` | src/ipat_watchdog/device_plugins/psa_horiba/file_processor.py:246-330 | over every run, each batch that was flushed waits for processing, was taken out, or was overwritten by a flush into its directory |
| `SentinelRuns.NothingLostIff` | src/ipat_watchdog/device_plugins/psa_horiba/file_processor.py:246-330 | waiting and taken-out batches are exactly the flushed ones if and only if every flush got a directory that no waiting batch had |
| `SentinelRuns.RoomKeepsBatches` | src/ipat_watchdog/core/processing/staging_utils.py:9-25 | in every run whose flushes find the waiting directories on disk and a name free, no staged batch is lost |
| `SentinelRuns.StageIsFresh` | src/ipat_watchdog/core/processing/staging_utils.py:9-25 | a flush gets a directory no waiting batch has when those are on disk and one of the thousand names is free |
| `SentinelRuns.RedeliveryIgnored` | src/ipat_watchdog/device_plugins/psa_horiba/file_processor.py:403-421 | in every reachable state, delivering a tracked path again leaves all tracking unchanged |
| `SentinelRuns.FlushIsComplete` | src/ipat_watchdog/device_plugins/psa_horiba/file_processor.py:202-268 | in every reachable state the flushed batch is the bucket plus the sentinel pair, the queue it clears is empty, and staged names are distinct |
| `SentinelRuns.FlushedNativeAgain` | src/ipat_watchdog/device_plugins/rhe_kinexus/file_processor.py:78-100 | a staged native delivered again is recognised, changes nothing and advertises its staging directory if and only if the device is Kinexus or the native did the flushing |
| `SentinelPrefixes.FlushPrefix` | src/ipat_watchdog/device_plugins/psa_horiba/file_processor.py:202-217 | over every run, for every flush: the last pair joins the flushing native with the export of the last event that made a sentinel in the folder; the prefix is the trimmed sample name in that export's header on a PSA, the stem of the native on a Kinexus |
| `SentinelPrefixes.FlushStaged` | src/ipat_watchdog/device_plugins/psa_horiba/file_processor.py:216-264 | the advertised directory is the folder, that prefix and the marker with the least free number, or none; under it every pair waits with both files moved there, in order |
| `SentinelPrefixes.SentinelFrom` | src/ipat_watchdog/device_plugins/rhe_kinexus/file_processor.py:110-134 | a held sentinel is the export of the last event that made one in its folder, with the prefix that arrival gives |
| `SentinelDeeds.ExportDelivered` | src/ipat_watchdog/device_plugins/psa_horiba/file_processor.py:141-188 | in every run: an export tracked or in a waiting batch changes nothing; any other pairs with the oldest waiting native, and becomes the sentinel if and only if none waits |
| `SentinelDeeds.NativeDelivered` | src/ipat_watchdog/device_plugins/rhe_kinexus/file_processor.py:136-201 | in every run: a native queued or paired changes nothing; any other flushes if and only if a sentinel is held, else it joins the end of the queue; a suffix listed on both sides is an export's |
| `SentinelDeeds.PurgeByAge` | src/ipat_watchdog/device_plugins/psa_horiba/file_processor.py:508-586 | a purge keeps exactly the entries at most a time-to-live old, and the folders that have any left |
| `SentinelDeeds.DeliveryPurges` | src/ipat_watchdog/device_plugins/psa_horiba/file_processor.py:127-139 | which deliveries purge: exports and natives on both devices, other files on a Kinexus only; afterwards nothing in any folder is too old |
| `SentinelDeeds.ForgottenIff` | src/ipat_watchdog/device_plugins/rhe_kinexus/file_processor.py:473-499 | in every run, a native is forgotten by an event if and only if a completed pass over its directory ends or a Kinexus purge moves the directory away while no batch waits there |
| `SentinelDeeds.StillRecognised` | src/ipat_watchdog/device_plugins/rhe_kinexus/file_processor.py:180-183 | from its flush until its directory is processed, every native of a Kinexus batch, and the flushing native of a PSA batch, is recognised: delivered again it changes nothing and that directory is advertised |
| `SentinelRuns.PurgeTakesPrefix` | src/ipat_watchdog/device_plugins/psa_horiba/file_processor.py:518-576 | on queues sorted by age a purge removes exactly a prefix of each |
| `SentinelRuns.RunClocked` | src/ipat_watchdog/device_plugins/psa_horiba/file_processor.py:160-187 | under a clock that never goes back, every reachable queue is sorted by age |
| `SentinelRuns.PurgesArePrefixes` | src/ipat_watchdog/device_plugins/rhe_kinexus/file_processor.py:401-471 | over whole runs under such a clock, the next purge sends exactly a prefix of each queue to the exceptions and keeps the rest |
| `Staging.CreateUniqueStageDir` | src/ipat_watchdog/core/processing/staging_utils.py:9-25 | the directory is base, prefix and marker with the least number from 1 to 999 whose name is free, without a number if none is |
| `Staging.StageDirFresh` | src/ipat_watchdog/core/processing/staging_utils.py:17-25 | the directory is new if and only if one of the 999 numbered names or the unnumbered one is free |
| `Staging.PrefixRecovered` | src/ipat_watchdog/core/processing/staging_utils.py:38-38 | the directory's name gives the prefix back if and only if the prefix is free of the marker |
| `StageRecovery.MatchStems` | src/ipat_watchdog/core/processing/staging_utils.py:51-62 | the loop pairs each left that is the first of its stem with the last right of that stem, and leaves the other lefts over in order |
| `StageRecovery.StemPairIff` | src/ipat_watchdog/core/processing/staging_utils.py:51-62 | a left is paired by its stem exactly when some right has the stem and no earlier left does, and then with the last such right |
| `StageRecovery.ReconstructPairs` | src/ipat_watchdog/core/processing/staging_utils.py:38-73 | by positions in the two listings: each left that is the first of its stem gets the last right of that stem; of two other pairs the one with the earlier left has the earlier right; what stays unpaired of a side is listed after every left-over file of that side that was paired; as many pairs as the shorter side has files, each file once; the only error is an empty side |
| `StageRecovery.RebuiltIsMaximal` | src/ipat_watchdog/core/processing/staging_utils.py:38-73 | exactly min(lefts, rights) pairs, each file at most once |
| `StageRecovery.StagedPairsRecovered` | src/ipat_watchdog/core/processing/staging_utils.py:55-67 | a maximal matching by stem of pairs with distinct shared stems can only be those pairs |
| `StageRecovery.RecoverBatch` | src/ipat_watchdog/device_plugins/psa_horiba/file_processor.py:624-643 | a staging directory whose pairs share distinct stems is recovered exactly, whatever the listing order |
| `Finalisation.SplitLaw` | src/ipat_watchdog/device_plugins/psa_horiba/file_processor.py:434-438 | splitting at the last separator undoes appending separator and digits |
| `Finalisation.LawfulIff` | src/ipat_watchdog/device_plugins/psa_horiba/file_processor.py:434-446 | zero-padded printing and last-separator parsing undo each other for all numbers if and only if the separator has a non-digit |
| `Finalisation.NameIsNumbered` | src/ipat_watchdog/device_plugins/psa_horiba/file_processor.py:428-450 | the n-th name is the prefix, the separator and the number in two digits, or more where two are not enough |
| `Finalisation.CountsIff` | src/ipat_watchdog/device_plugins/psa_horiba/file_processor.py:434-446 | a stem counts as number n of a prefix if and only if it is prefix, separator and digits that stand for n; other prefixes never count |
| `Finalisation.MaxIndex` | src/ipat_watchdog/device_plugins/psa_horiba/file_processor.py:428-446 | the loop finds the largest number in use under any suffix, or 0 |
| `Finalisation.AlwaysFreeIff` | src/ipat_watchdog/device_plugins/psa_horiba/file_processor.py:428-450 | the next name is free in every directory if and only if the separator has a non-digit |
| `Finalisation.FinalisePsa` | src/ipat_watchdog/device_plugins/psa_horiba/file_processor.py:337-372 | n pairs get the n numbers after the largest one, in batch order, with their contents; no file is overwritten; a missing file stops the loop with the rest untouched |
| `Finalisation.FinalisePsaAs` | src/ipat_watchdog/device_plugins/psa_horiba/file_processor.py:337-372 | the same for a prefix and separator, given only that the separator has a non-digit; the names are prefix, separator and the number in at least two digits |
| `Finalisation.UniqueCounter` | src/ipat_watchdog/core/storage/filesystem_utils.py:158-179 | the loop finds one more than the largest number in use under that suffix |
| `Finalisation.OverwritesIff` | src/ipat_watchdog/device_plugins/rhe_kinexus/file_processor.py:291-304 | for every directory and batch no export is overwritten, and a pair overwrites a zip if and only if its number was zipped before the batch or given to an earlier pair |
| `Finalisation.BatchLands` | src/ipat_watchdog/device_plugins/rhe_kinexus/file_processor.py:285-311 | every file stays except zips of the batch's own numbers, every export lands with its contents, each number's zip is that of the last pair that got it, and nothing else is added |
| `Finalisation.FreshOverwritesIff` | src/ipat_watchdog/core/storage/filesystem_utils.py:158-179 | from a directory without numbers, a pair overwrites a zip if and only if another export suffix has occurred more often before it |
| `Finalisation.FreshBatchIff` | src/ipat_watchdog/device_plugins/rhe_kinexus/file_processor.py:285-311 | from a directory without numbers, a batch overwrites nothing if and only if its exports share one suffix |
| `Finalisation.CoveredBatch` | src/ipat_watchdog/device_plugins/rhe_kinexus/file_processor.py:285-311 | where every numbered zip has an export of one suffix, a batch of that suffix gets consecutive numbers, overwrites nothing and keeps that so |
| `Finalisation.FinaliseKinexus` | src/ipat_watchdog/device_plugins/rhe_kinexus/file_processor.py:285-313 | for any mix of suffixes each pair continues the count of its own suffix, overwrites a zip exactly when the number is taken, and lands as stated; a missing file stops the loop with the rest untouched |
| `RecordStore.Adapter.Create` | src/dpost_v2/infrastructure/storage/record_store.py:71-93 | a row is inserted exactly when the id is new; an id already there is answered with an error and its row kept |
| `RecordStore.Adapter.Save` | src/dpost_v2/infrastructure/storage/record_store.py:95-127 | insert, or replace by a strictly higher revision; stale saves are told so and change nothing |
| `RecordStore.Adapter.Update` | src/dpost_v2/infrastructure/storage/record_store.py:129-172 | succeeds exactly at the expected revision; the row then holds the patch over the old payload, one revision later, and no other row changes |
| `RecordStore.Adapter.MarkUnsynced` | src/dpost_v2/infrastructure/storage/record_store.py:174-185 | the payload gets `sync_status` `unsynced` and nothing else, one revision later |
| `RecordInterleaving.RunKeeps` | src/dpost_v2/infrastructure/storage/record_store.py:129-185 | in every interleaving each row is the last of a chain of versions, and every caller's snapshot was once the row |
| `RecordInterleaving.NoLostUpdates` | src/dpost_v2/infrastructure/storage/record_store.py:129-185 | the revision has risen by exactly one per effective write, and each version is its predecessor merged with that writer's patch |
| `RecordInterleaving.OneWinnerPerRevision` | src/dpost_v2/infrastructure/storage/record_store.py:147-166 | two writes that took effect never expected the same revision |
| `RecordInterleaving.ToldSuccessIff` | src/dpost_v2/infrastructure/storage/record_store.py:134-172 | a caller is told success if and only if exactly one write to the record took effect between its read and its re-read |
| `RecordInterleaving.LostRace` | src/dpost_v2/infrastructure/storage/record_store.py:147-172 | two callers at one revision: only the first write takes effect and both report success |
| `RecordInterleaving.UndisturbedUpdate` | src/dpost_v2/infrastructure/storage/record_store.py:129-172 | the three steps of one caller without interruption are the adapter's update |
| `RecordInterleaving.UndisturbedMark` | src/dpost_v2/infrastructure/storage/record_store.py:174-185 | the steps of an uninterrupted mark are the adapter's mark |
| `RevisionCache.Closures.SaveRecord` | src/dpost_v2/runtime/composition.py:681-723 | table and cache after a save, with a failure at any point; it succeeds exactly without a failure and with a revision above the stored one |
| `RevisionCache.Closures.UpdateBookkeeping` | src/dpost_v2/runtime/composition.py:729-761 | table and cache after bookkeeping; an unknown record is skipped, a known one is written exactly at the cached revision |
| `RevisionCache.Closures.TriggerSync` | src/dpost_v2/runtime/composition.py:763-811 | reported as done if and only if the sync was accepted and the id is not blank; then, and for a blank id, nothing changes; a refused sync marks the record and re-reads its revision into the cache |
| `RevisionCache.CoherentIff` | src/dpost_v2/runtime/composition.py:681-811 | a call keeps cache and table in agreement if and only if no failure separates its commit from the read that follows |
| `RevisionCache.CacheAgrees` | src/dpost_v2/runtime/composition.py:631-811 | starting empty, after any run without such failures the cache holds exactly the stored revisions |
| `RevisionCache.CallIsClean` | src/dpost_v2/infrastructure/storage/record_store.py:95-185 | from agreement no call fails on a revision, failed calls change nothing, successful ones raise their record's revision by one and touch no other |
| `RevisionCache.NoConflictEver` | src/dpost_v2/runtime/composition.py:681-761 | in such runs no revision conflict is ever raised |
| `RevisionCache.LaggingIsStuck` | src/dpost_v2/runtime/composition.py:681-761 | once the cache lags, no save or bookkeeping call writes that record again |
| `RevisionCache.LateFaultLags` | src/dpost_v2/runtime/composition.py:699-723 | a failure after the commit makes the cache lag |
| `RevisionCache.FailedSyncUnsticks` | src/dpost_v2/runtime/composition.py:1127-1151 | after a failed sync a lagging cache no longer lags and the next save goes through |
| `PurePaths.RenderParses` | src/dpost_v2/application/ingestion/policies/force_path.py:28-29 | printing a path's root and parts and parsing the text gives them back |
| `PurePaths.NormSettles` | src/dpost_v2/application/ingestion/models/candidate.py:112-112 | normalising twice settles every path |
| `PurePaths.OnePassSettlesIff` | src/dpost_v2/application/ingestion/models/candidate.py:112-112 | one pass settles a path if and only if, cut at slashes and backslashes, its printed form has no empty or dot piece beyond two leading slashes |
| `PurePaths.OnePassMaySlip` | src/dpost_v2/application/ingestion/models/candidate.py:112-112 | one pass does not settle a path whose backslashes hide an empty part |
| `Pipeline.Run` | src/dpost_v2/application/ingestion/stages/pipeline.py:117-215 | the handler calls form a chain in which each call gets the stage and state the one before led to, and the end is the one the last call or the loop head dictates |
| `Pipeline.SameCalls` | src/dpost_v2/application/ingestion/stages/pipeline.py:117-215 | a run is determined by the runner and the initial state |
| `Pipeline.StagesInOrder` | src/dpost_v2/application/ingestion/stages/pipeline.py:218-270 | over the default table, for arbitrary handlers, the stages called are a prefix of the fixed six |
| `Pipeline.GuardNeverFires` | src/dpost_v2/application/ingestion/stages/pipeline.py:143-157 | with the six handlers bound, the step guard and the missing-stage errors never occur |
| `Pipeline.CompletedIff` | src/dpost_v2/application/ingestion/stages/pipeline.py:185-270 | a run completes if and only if all six stages ran in order and the last one said so |
| `Pipeline.StopHonouredIff` | src/dpost_v2/application/ingestion/stages/pipeline.py:185-270 | over the default table a request to stop is honoured if and only if its stage may end so: complete in the sixth, defer in the third, retry in the second, third and fifth, reject in all but the last, fail anywhere |
| `Pipeline.GoHonouredIff` | src/dpost_v2/application/ingestion/stages/pipeline.py:165-184 | a request to go on is honoured if and only if it names the next stage of the order |
| `IngestionEngine.Process` | src/dpost_v2/application/ingestion/engine.py:121-202 | from the calls and the policies' answers alone, when each of the five kinds is reported: an allowed stop, a cancellation, or an exception whose classification and decision, by policy or default, also when a policy is absent or raises, ask for it; final stage, state, trace, retry plan and emission likewise; over the default table success means that all six stages ran in order and the last one completed |
| `IngestionStages.MoveAll` | src/dpost_v2/application/ingestion/stages/persist.py:111-117 | the move loop makes every move before the first failure and reports that failure |
| `IngestionStages.RouteRoutes` | src/dpost_v2/application/ingestion/stages/route.py:19-73 | a routed target is the force path where one is given, else the default, normalised; a force path passes the prefix test for an allowed root |
| `IngestionStages.PersistPersists` | src/dpost_v2/application/ingestion/stages/persist.py:95-178 | persisting leaves the candidate at its routed path after every planned move succeeded, with the recorded result |
| `IngestionStages.SuccessMeansPersisted` | src/dpost_v2/application/ingestion/models/candidate.py:95-137 | a completed run of the shipped stages ends with a candidate that is resolved, routed and persisted at exactly its routed path |
| `IngestionEnds.EndsForReason` | src/dpost_v2/application/ingestion/stages/stabilize.py:25-85 | a run of the shipped stages completes, is deferred, retried or rejected if and only if its last call found the reason: an unwanted event, a duplicate, a file still settling, an unsupported one, no route or a force path outside the allowed roots, a collision or a failure the planner retries, bookkeeping done |
| `IngestionEnds.RetryCountsUp` | src/dpost_v2/application/ingestion/stages/persist.py:34-92 | a run that persisting has retried comes back with a higher attempt, not below the planned one |
| `IngestionEnds.CompletedWarns` | src/dpost_v2/application/ingestion/stages/post_persist.py:27-67 | a completed run warns exactly when the sync was asked for and failed, or it was warned before |
| `Containment.UnderRootForGoodIff` | src/dpost_v2/application/ingestion/policies/force_path.py:32-37 | a path that passes the prefix test starts with the root's parts but for case; it leads into the root and never leaves it if and only if the root is the top, or its first parts lead where the root's do and no ".." after them climbs above it |
| `Containment.NeverLeavesIff` | src/dpost_v2/application/ingestion/policies/force_path.py:32-37 | a walk stays under its root at every step if and only if no ".." climbs above it |
| `Containment.DotDotEscapes` | src/dpost_v2/application/ingestion/policies/force_path.py:32-37 | paths that pass the test and climb out of the root |
| `Containment.CaseEscapes` | src/dpost_v2/application/ingestion/policies/force_path.py:32-37 | paths that pass the test and differ from the root in case |
| `MovePlan.BuildMovePlan` | src/dpost_v2/application/ingestion/stages/persist.py:181-207 | the main file goes to the target first, every other move takes a force path to its place beside the target, and one is left out only where its source or place is taken |
| `MovePlan.BuildPersistedResult` | src/dpost_v2/application/ingestion/stages/persist.py:210-232 | the record is about the target and keeps the kind, lists first mentions of the secondary places, and is refused exactly when target, kind or a place of its own is blank |
| `MovePlan.SiblingBeside` | src/dpost_v2/application/ingestion/stages/persist.py:193-195 | a secondary file's place has the target's root and directory and the file's own name |
| `MovePlan.PlanDistinct` | src/dpost_v2/application/ingestion/stages/persist.py:189-207 | no source is moved twice and no two moves share a target |
| `MovePlan.RecordListsMoves` | src/dpost_v2/application/ingestion/stages/persist.py:181-232 | the recorded force paths equal the plan's secondary targets in order when nothing is blank or untrimmed, force paths do not normalise alike under different places, and none normalises like the final path under a place of its own |
| `MovePlan.RecordRightIff` | src/dpost_v2/application/ingestion/stages/persist.py:181-232 | recorded and moved agree in order if and only if target, kind and places are not blank or untrimmed and striking out the force paths that normalise like the final path leaves the first mentions |
| `MovePlan.SamePathsIff` | src/dpost_v2/application/ingestion/stages/persist.py:181-232 | listed and moved are the same paths if and only if every place such a force path asks for is the target or asked for by another |
| `MovePlan.ListedFilesMovedIff` | src/dpost_v2/application/ingestion/stages/persist.py:189-207 | for every result, each listed place receives the very file listed there if and only if the first mentions come from different files, none of them the final one |
| `MovePlan.ListedUnmovedIff` | src/dpost_v2/application/ingestion/stages/persist.py:193-207 | for every result, a place is listed but not moved to if and only if the plan moved every force path asking for it elsewhere |
| `MovePlan.PoolRecordedRightIff` | src/dpost_v2/application/ingestion/stages/persist.py:181-232 | whatever list of force paths is drawn from a set, the record lists exactly the moved targets in order, if and only if nothing is blank and every path with a place of its own is trimmed there, normalises unlike the final path, and shares its normal form only with paths of the same place |
| `MovePlan.PlainPathsConsistent` | src/dpost_v2/application/ingestion/stages/persist.py:193-195 | force paths without backslashes never normalise alike under different names |
| `MovePlan.AlikeListedTwice` | src/dpost_v2/application/ingestion/stages/persist.py:193-229 | a slash and a backslash path of one file: both places are listed, one is moved to |
| `MovePlan.ListedButNotMoved` | src/dpost_v2/application/ingestion/stages/persist.py:210-232 | inputs for which the record lists a path nothing was moved to |
| `Session.SessionManager.StartSession` | src/dpost_v2/application/session/session_manager.py:130-162 | only an inactive session starts; starting the active one again changes nothing |
| `Session.SessionManager.StopSession` | src/dpost_v2/application/session/session_manager.py:181-199 | only the active session, with a clock not behind its activity, completes |
| `Session.SessionManager.AbortSession` | src/dpost_v2/application/session/session_manager.py:201-224 | only the active session aborts, keeping its reason |
| `Session.SessionManager.EvaluateTimeouts` | src/dpost_v2/application/session/session_manager.py:226-269 | hard before soft before active, an error exactly when the clock is behind, and no session without an active one |
| `Session.AliveIff` | src/dpost_v2/application/session/session_manager.py:226-269 | checked at every activity, a session is found active if and only if every gap is shorter than the idle limit and the last check comes before the runtime limit |
| `RuntimeLoop.App.HandleEvent` | src/dpost_v2/application/runtime/dpost_app.py:192-237 | a known id is reported skipped, any other is recorded as activity, handed to the engine once and reported with its outcome; counters, stop and every way to raise are those of the event |
| `RuntimeLoop.App.ProcessBatch` | src/dpost_v2/application/runtime/dpost_app.py:175-237 | processed plus skipped equals the events decided; before each of them the session was found active and nothing asked to stop, and the event that ends the batch is the reason given; a failure ends it exactly under `stop_on_failure` |
| `RuntimeLoop.App.Poll` | src/dpost_v2/application/runtime/dpost_app.py:99-134 | over any number of batches the counters equal the reports and no id reaches the engine twice; every poll but the last lets the loop go on, and the last one is the reason given |
| `RuntimeLoop.App.Run` | src/dpost_v2/application/runtime/dpost_app.py:86-161 | every normal return emits one start and one terminal event around the reports; the terminal event and the session's final state match a reason that some poll gave; failed is one exactly when the reason is `failed_terminal` under `stop_on_failure`; no id reaches the engine twice; an exception is reported and aborts the session unless the emitter fails or the clock is behind |
| `ModifiedEventGate.EventGate.AllowModifiedEvent` | src/ipat_watchdog/core/processing/modified_event_gate.py:58-66 | answer and memory of the gate object |
| `ModifiedEventGate.EventGate.MaybePrune` | src/ipat_watchdog/core/processing/modified_event_gate.py:78-87 | pruning keeps exactly the entries that are not older than the cutoff |
| `ModifiedEventGate.PrunedGateRefinesUnpruned` | src/ipat_watchdog/core/processing/modified_event_gate.py:58-87 | for every history and configuration the pruning gate answers as one that never forgets |
| `ModifiedEventGate.AllowedIff` | src/ipat_watchdog/core/processing/modified_event_gate.py:58-66 | an event is allowed if and only if no allowed event of its key is less than a cooldown before it |
| `ModifiedEventGate.MemoryIsBounded` | src/ipat_watchdog/core/processing/modified_event_gate.py:68-87 | over every history the gate forgets nothing younger than its retention span and holds nothing older than that span and a pruning interval, both as configured or by default |
| `SettingsMerge.DeepMerge` | src/dpost_v2/application/startup/settings_service.py:376-406 | the recursive loop fails exactly where the two cannot be merged, naming a path at which a mapping meets a value; else it merges and writes the source at every place it stops descending |
| `SettingsMerge.NoClash` | src/dpost_v2/application/startup/settings_service.py:399-403 | mappings that can be merged clash at no path |
| `SettingsMerge.SomeClash` | src/dpost_v2/application/startup/settings_service.py:399-403 | mappings that cannot be merged clash at some path |
| `SettingsLayers.MergeSources` | src/dpost_v2/application/startup/settings_service.py:359-373 | the merged payload and provenance of a stack of sources; a failure names a path at which a source clashes with those below it |
| `SettingsLayers.LastWriterWins` | src/dpost_v2/application/startup/settings_service.py:359-406 | each leaf of the merge has the value of the last source defining it, and there are no others |
| `SettingsLayers.OwnerIsLastDefining` | src/dpost_v2/application/startup/settings_service.py:383-406 | the longest recorded prefix of a leaf's path belongs to the last source defining the leaf |
| `SettingsLayers.BlameIsRight` | src/dpost_v2/application/startup/settings_service.py:359-406 | over keys whose paths are never spelled alike, the longest recorded prefix of a leaf's path names its last definer |
| `SettingsLayers.AlwaysRightIff` | src/dpost_v2/application/startup/settings_service.py:359-406 | for every set of keys, every leaf of every stack is blamed on its last definer if and only if the empty key is the only one, or is not among them and no two paths over the keys are spelled alike |
| `SettingsLayers.Misblamed` | src/dpost_v2/application/startup/settings_service.py:383-406 | two paths spelled alike, neither leading on to the other: a stack of three sources in which a leaf is blamed wrongly |
| `SettingsLayers.EmptyKeyMisblames` | src/dpost_v2/application/startup/settings_service.py:384-385 | the empty key beside any other one makes some blame wrong |
| `SettingsLayers.DottedKeyMisblames` | src/dpost_v2/application/startup/settings_service.py:384-385 | so does a dotted key beside the keys it seems to be made of |
| `SettingsLayers.CleanUnambiguous` | src/dpost_v2/application/startup/settings_service.py:384-385 | paths over non-empty keys without dots are never spelled alike |
| `UploadLedger.LocalRecord.RegisterFile` | src/ipat_watchdog/core/records/local_record.py:70-78 | the file is tracked and to be uploaded, by force if and only if it was uploaded or to be forced before; nothing else changes |
| `UploadLedger.LocalRecord.MarkAsUploaded` | src/ipat_watchdog/core/records/local_record.py:80-88 | a tracked file becomes uploaded and needs no force; every other file keeps its standing |
| `UploadLedger.LocalRecord.MarkUnsynced` | src/ipat_watchdog/core/records/local_record.py:97-103 | the same files are tracked, none is uploaded, the force set is all of them, and the record no longer counts as stored |
| `UploadLedger.LocalRecord.MarkFileAsUnsynced` | src/ipat_watchdog/core/records/local_record.py:105-113 | a tracked file is no longer uploaded and must be forced; every other file keeps its standing; the record no longer counts as stored |
| `UploadLedger.LocalRecord.UploadRecordFiles` | src/ipat_watchdog/core/sync/sync_kadi.py:238-272 | file by file: uploaded are exactly the pending files accepted before the first error, each with force exactly when the force set held it; the pass returns exactly when no pending file meets an error, and then leaves nothing outstanding |
| `UploadLedger.RunSound` | src/ipat_watchdog/core/records/local_record.py:70-113 | after any steps from an empty record, aborted passes included, the force set lies within the tracked files not yet uploaded and no file uploaded since it was tracked is pending without force |
| `UploadLedger.UnforcedIsFirst` | src/ipat_watchdog/core/sync/sync_kadi.py:238-272 | between an upload of a file and a later unforced one the file was dropped or tracked anew |
| `UploadLedger.ReturnedPassIsComplete` | src/ipat_watchdog/core/sync/sync_kadi.py:238-272 | a returning pass keeps exactly the files that are uploaded or were accepted, nothing is outstanding and the force set is empty |
| `UploadLedger.PassSends` | src/ipat_watchdog/core/sync/sync_kadi.py:244-261 | the upload events of a pass, aborted or not, told from ledger, order and answers |
| `UploadLedger.MarkedIsForced` | src/ipat_watchdog/core/records/local_record.py:97-113 | over any run: in the first pass after the record or a file was marked, whatever is registered or marked in between, a marked file that is accepted is uploaded with force and never without |
| `StabilityGuard.Wait` | src/ipat_watchdog/core/processing/stability_tracker.py:38-88 | in the configured waits alone: the verdict is that of the first turn that finds the path settled before `startedAt` plus the maximal wait, on disk at or after it, or gone with no window or with the window over; the guard waits exactly while no turn is such |
| `StabilityGuard.StableIsSteady` | src/ipat_watchdog/core/processing/stability_tracker.py:71-88 | a stable verdict means that the last max(1, stable cycles) readings equal the one before them, in time and with no sentinel file missing |
| `StabilityGuard.StableIff` | src/ipat_watchdog/core/processing/stability_tracker.py:71-88 | a waiting guard says stable if and only if the turn settles the readings: no stable stretch is missed and none is made up |
| `StabilityGuard.VerdictOfFirstDecisive` | src/ipat_watchdog/core/processing/stability_tracker.py:53-88 | without any counter: the verdict is that of the first turn that settles the readings, is late or finds the path gone |
| `StabilityGuard.GuardTerminates` | src/ipat_watchdog/core/processing/stability_tracker.py:38-107 | with a clock that advances by the poll interval, at most max(max wait, window) / poll + 1 turns keep waiting |
| `Identifiers.ValidateRules` | src/dpost_v2/domain/naming/identifiers.py:77-104 | refuses blank, repeated and clashing separators first, then impossible counts, and nothing else |
| `Identifiers.ValidateTokens` | src/dpost_v2/domain/naming/identifiers.py:117-141 | accepts exactly token lists whose count, lengths and characters are allowed; a wrong count is told first |
| `Identifiers.MixedSeparatorsParse` | src/dpost_v2/domain/naming/identifiers.py:107-164 | whatever mix of separators joins accepted tokens, parsing gives them back with the same canonical form |
| `Identifiers.ComposeParseIff` | src/dpost_v2/domain/naming/identifiers.py:144-172 | parsing a composed identifier gives back the normalised tokens if and only if none holds a separator and case folding keeps the primary one |
| `Identifiers.CanonicalIff` | src/dpost_v2/domain/naming/identifiers.py:144-164 | parsing a canonical form is the identity if and only if there is one token or case folding keeps the primary separator |
| `Identifiers.RoundTrip` | src/dpost_v2/domain/naming/identifiers.py:63-172 | the round trip for separators outside the token alphabet |
| `Identifiers.ParseRefuses` | src/dpost_v2/domain/naming/identifiers.py:104-157 | a text of blanks is empty input, one with a separator at either end or two in a row has the wrong count |
| `Identifiers.NormalizeMeans` | src/dpost_v2/domain/naming/identifiers.py:70-76 | normalising cuts blanks off both ends and lowers the rest, each only when asked to |
| `Identifiers.FoldingLosesSeparator` | src/dpost_v2/domain/naming/identifiers.py:70-74 | an upper-case separator for which the round trip fails |
| `PrefixNaming.ValidSegments` | src/ipat_watchdog/core/config/constants.py:31-33 | a matching name has three segments of the right kinds, so the separator count never decides |
| `PrefixNaming.SanitizeMeans` | src/ipat_watchdog/core/storage/filesystem_utils.py:413-424 | sanitising a valid name lowers the first two segments, cuts the blanks around the sample and makes the ones inside underscores |
| `PrefixNaming.SanitizeIdempotent` | src/ipat_watchdog/core/storage/filesystem_utils.py:413-424 | sanitising a valid name again changes nothing |
| `PrefixNaming.SanitizedValidIff` | src/ipat_watchdog/core/storage/filesystem_utils.py:401-431 | a valid name is still valid once sanitised if and only if its sample is not all blanks |
| `PrefixNaming.TypedIsSettled` | src/ipat_watchdog/core/storage/filesystem_utils.py:485-519 | an accepted dialog answer, sanitised, is valid and a fixed point of sanitising |
| `RenameFlow.ExplainViolation` | src/ipat_watchdog/core/storage/filesystem_utils.py:434-482 | reasons and highlight spans as the loops collect them |
| `RenameFlow.RejectedHasReason` | src/ipat_watchdog/core/storage/filesystem_utils.py:434-482 | every name the pattern rejects is given a reason |
| `RenameFlow.ReasonsIff` | src/ipat_watchdog/core/storage/filesystem_utils.py:445-482 | which reasons a rejected name is given: one for each segment that breaks its rule, a length reason for long samples, or the missing separator alone |
| `RenameFlow.SpansWithoutSegments` | src/ipat_watchdog/core/storage/filesystem_utils.py:443-451 | without exactly three segments the separators are highlighted; accepted names have no highlights and no reasons |
| `RenameFlow.SpansMarkOffenders` | src/ipat_watchdog/core/storage/filesystem_utils.py:452-481 | for three segments exactly the characters their segment does not allow are highlighted |
| `RenameFlow.SpansInBounds` | src/ipat_watchdog/core/storage/filesystem_utils.py:452-481 | every span is one character long and within the name |
| `RenameFlow.DefaultLawful` | src/ipat_watchdog/core/storage/filesystem_utils.py:485-519 | under the default settings accepted answers settle and refused ones get a reason |
| `RenameFlow.ObtainValidPrefix` | src/ipat_watchdog/core/processing/rename_flow.py:35-57 | the dialog loop ends at the first accepted or cancelled answer; a returned prefix is that answer sanitised, and settled; every later prompt repeats the refused answer with what is wrong with it and no stale hint |
| `RenameFlow.Route` | src/ipat_watchdog/core/processing/file_process_manager.py:202-276 | a rename is required first and only for an invalid prefix; every routing accepts where no record exists or it takes more files, and is unappendable otherwise; what is processed after a rename is settled; rejected exactly when the user gives up |
| `RenameFlow.RenamedNeverRequiresRename` | src/ipat_watchdog/core/processing/routing.py:36-58 | re-routing a renamed prefix accepts it or finds its record closed, and never requires a rename |
| `PluginHost.Registry.RegisterDescriptors` | src/dpost_v2/plugins/host.py:74-90 | all descriptors are added if and only if each keeps its contract and has an id of its own that is not registered; else nothing changes |
| `PluginHost.Registry.ActivateProfile` | src/dpost_v2/plugins/host.py:92-144 | with hooks failing anywhere the catalog is unchanged and hooks stay balanced; it succeeds if and only if the request is granted and no hook it runs raises, and then the active plugins are those allowed or fitting the profile, and none that is denied |
| `PluginHost.Registry.ShutdownAll` | src/dpost_v2/plugins/host.py:283-297 | returns if and only if no active plugin's hook raises, and then leaves nothing active; a raising one leaves the active set as it was |
| `PluginHost.SelectIff` | src/dpost_v2/plugins/profile_selection.py:64-177 | when a request is granted, and exactly what it selects |
| `PluginHost.ActivateHooks` | src/dpost_v2/plugins/host.py:108-143 | a successful activation runs each hook the change calls for once, and no other |
| `PluginHost.ShutdownIff` | src/dpost_v2/plugins/host.py:283-297 | a shutdown returns if and only if no hook raises, and has then run the hook of every active plugin that has one, once |
| `PluginHost.SwitchKeeps` | src/dpost_v2/plugins/host.py:108-143 | switching keeps activations minus shutdowns at one exactly for active two-hook plugins, however hooks fail |
| `PluginHost.RunBalanced` | src/dpost_v2/plugins/host.py:74-144 | over any run of registrations, activations and returning shutdowns the hooks stay balanced and active ids stay in the catalog |
| `PluginHost.RaisingShutdownIff` | src/dpost_v2/plugins/host.py:283-297 | a raising shutdown keeps the hooks balanced if and only if no two-hook plugin was stopped before the failure |
| `PluginHost.RaisingShutdownUnbalances` | src/dpost_v2/plugins/host.py:283-297 | hosts for which a raising shutdown breaks the balance |

## Left out

- User interfaces, dialogs, metrics, logging, the Kadi API outside the upload pass, plugin discovery, SQLite connections and schema: input and output only.
- `SettingsMerge.DeepMerge`: mappings are values, so aliasing between a shallow copy and its source and mappings that are not dictionaries are not captured; keys are visited in arbitrary order.
- `Finalisation.FinaliseKinexus`: exports whose suffix is itself `.zip` would be overwritten by their own native; the promises are for batches without them.
- `Finalisation.MaxIndex`: directories that bear a numbered name are not modelled, and digit strings are ASCII only.
- `SentinelProcessor.Processor.HandleNative`: a folder's state is a value, so aliasing of the state object is not captured; a failing directory creation during a flush is not modelled.
- `SentinelProcessor.Processor.StageBatch`: the file moves are not modelled; their failures are swallowed and do not touch the bookkeeping that is.
- `RecordInterleaving.NoLostUpdates`: concurrent `save` calls, which write without a revision guard, are not part of the interleaved model; they are in the single-writer one.
- `RevisionCache.CacheAgrees`: a process restart over a populated store is not modelled; stored ids are taken as already trimmed and time stamps are omitted.
- `MovePlan.RecordRightIff`: and `MovePlan.SamePathsIff` are for results whose force paths do not normalise alike under different places; beyond them the exact statements are `MovePlan.ListedFilesMovedIff`, `MovePlan.ListedUnmovedIff` and `MovePlan.PoolRecordedRightIff`.
- `PurePaths.NormSettles`: paths are those of a POSIX system.
- `Identifiers.ValidateRules`: separators of several characters are not modelled.
- `IngestionStages.SuccessMeansPersisted`: diagnostics, payload serialisation and identity hashes are not modelled; whether the gate in front of the stabilize stage drops duplicates in the composed runtime is not claimed.
- `RuntimeLoop.App.Run`: the polls are a finite sequence; a run that has used them up is reported as still polling.
- `StabilityGuard.Wait`: time is in whole microseconds, the turns are a finite sequence, and how the settings are chosen from device overrides is not modelled.
- `Identifiers.RoundTrip`: separators are single characters, token patterns are of the form `[class]+`, and case folding is ASCII lower case.
- `RenameFlow.ObtainValidPrefix`: stated for every naming settings for which accepted answers settle; `RenameFlow.DefaultLawful` shows that of the default ones.
- `PluginHost.Registry.ActivateProfile`: profile names and ids are taken as already trimmed and lower-cased, and the sorted order of hooks is any order.
- `UploadLedger.LocalRecord.UploadRecordFiles`: paths are taken as already resolved and the dictionary's order is any order.
- Zwick and DSV processors, device resolution, staging transitions, field validators and fingerprints: finite tables or single checks that would only add easy members.
