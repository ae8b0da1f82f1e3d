# GratisGIS: a verified model

This project models the parts of GratisGIS where a mistake loses or mangles somebody's data, and proves
what they promise. `dafny verify dfyconfig.toml` checks everything.

* **Offline replay** (`QueueRules`, `OfflineDrain`, `QueueProgress`, `QueueFold`, `OfflineEnqueue`,
  `ReplayProtocol`, `ReplayOrder`, `LateFolds`, `ServerOrder`, `QueueCosts`, `FormsDrain`). The service
  worker's queues as imperative drains over stored rows, the enqueue that folds an edit into what still waits,
  and the feature queue once more as a protocol in which any number of drains of workers and pages, folds,
  removals, crashes, retries, page actions and requests still on the wire interleave one IndexedDB transaction
  at a time. No row is ever in flight twice while each replay ends within the claim window; the rows of a
  feature reach the server in queue order, except where a page passes over another deployment or a row is
  removed in flight; an edit folded into a row can be deleted unsent exactly when a drain had the row listed
  before; a refusal costs a row exactly one retry and the wait that goes with it, an outage nothing; and n
  drains empty the queue exactly when no chain is longer than n.
* **Capped caches** (`TileCache`, `CacheTrim`). What a sweep never deletes, in which order it deletes and
  where it stops; after any sequence of writes a trimmed cache is the most recent writes.
* **HTML sanitizer** (`HtmlText`, `HtmlTokens`, `HtmlSanitizer`, `HtmlFixedPoint`, `HtmlCut`, `HtmlBound`,
  `HtmlProfiles`, `HtmlReferences`, `HtmlMeaning`). Code units in, code units out: a total tokenizer,
  well-formed output for every input, what becomes of every allowed, refused and unmatched tag, and exactly
  when a second pass changes nothing.
* **WebMap filters** (`SqlLiterals`, `WebMapFilter`, `WebMapSpelling`, `WebMapDocument`). The regular
  expressions are recognisers over positions. Every spelling of a filter is read as that filter; parsing a
  printed filter gives the filter back exactly when it is representable, and the same for whole documents.
* **Form engine** (`FormExpr`, `FormMeaning`, `FormState`, `FormRules`, `FormAgreement`, `FormErrors`,
  `FormPrune`, `FormCalculations`, `EngineVersion`). What every operator and builtin computes; validator,
  state walk, pruning, calculations and the engine-version walk over nested groups and repeat instances.
* **Point-cloud worker** (`PointCloudChunks`, `PointCloudJobs`, `PointCloudCauses`). The chunk planner over
  real coordinates, and the job rows shared by workers, the cancel button, the reclaim sweep and the analysis
  bridge, with the cause of every state.
* **Sessioniser** (`Visits`, `Sessions`, `SessionVerdicts`, `SessionRebuild`, `RebuildVerdicts`,
  `Coordinated`). Grouping requests into visits, the incremental rebuild, who counts as a person and which
  reason is stored for whom, and the coordinated-agents rule.
* **Tree transformations** (`Blueprints`, `QuestionIds`, `XlsForm`, `XlsMeaning`, `XlsFormTree`). Stamping a
  template with new widget ids, and folding XLSForm rows into a question tree.

`Prelude`, `Slices`, `Filters` and `JsonValues` are shared vocabulary.

Loops, pushes and stored rows are methods and classes; each is proved equal to a specification function, or
to a declarative statement of its result, and the theorems are about that. Everything the host provides
(number parsing, locale comparison, regular expressions, hashes, the server's answers, clocks, the supply
of fresh ids) is a parameter, so the theorems hold for all of them.

## Where the code and its own words differ

The model follows the code.

* `apps/portal-web/public/sw.js:625` says a 409 on an insert counts as done; the function at line 925 parks
  the row (`QueueProgress.ConflictOnInsertParks`).
* `apps/portal-web/src/lib/offline-store.ts:1009-1016` keeps edits out of a row in flight, because the drain
  would delete the merged result. A row that a drain has listed but not claimed yet is no safer: the drain
  sends what it listed and deletes by key (`LateFolds.LateFoldLosesTheEdit`). It happens exactly when a
  working drain of the account has the row listed with another edit (`LateFolds.LateFoldIff`).
* `packages/shared-types/src/queue-replay.ts:172-183` promises that no later edit of a feature overtakes an
  older one. A page lists only its own deployment (`apps/portal-web/src/lib/offline-store.ts:1196-1216`), while
  a feature's chain is the same in every deployment: the page of the second can send past the first
  (`ReplayOrder.PageSendsPastAnotherDeployment`), exactly when an older row of the feature that the account
  sees is queued under another deployment (`ReplayOrder.OvertakingIff`).
* `apps/portal-web/src/lib/offline-store.ts:580-597` removes a deployment's queue for good. The write of a
  result does not look at the stored row, so after a refusal or an outage a row removed while in flight is
  back (`ReplayOrder.RemovedRowComesBack`, `ReplayProtocol.ResultWritesHitTheirClaimIff`).
* `packages/shared-types/src/queue-fold.ts:85-92` takes a waiting capture for one that was never sent. Where
  the server applied it and the answer was lost, deleting it leaves the feature on the server
  (`LateFolds.SentCaptureOutlivesItsDeletion`) and a later update folded onto it is dropped there; which folds
  say what the two edits would have said is `QueueFold.FoldIsFaithfulIff`.
* `tools/pointcloud-worker/runner.py:824` says every core edge is on the lattice. Upper edges are clamped to
  the extent: `PointCloudChunks.UpperEdgeOnLatticeIff` says exactly which are, and
  `PointCloudChunks.HalfCellIsOffLattice` names extents where one is not.
* `tools/pointcloud-worker/runner.py:42` calls 'cancelled', 'failed' and 'done' terminal. The reclaim sweep
  settles a silent worker's row as 'failed', or as 'cancelled' if that was asked for, and `finish_job` is
  unguarded, so that worker can still turn either into 'done' (`PointCloudJobs.SweptJobCanBecomeDone`,
  `PointCloudJobs.SweptCancelIsReachable`, `PointCloudJobs.CancelledCanBecomeDone`). A terminal state is final
  exactly when no worker is still at work on the job (`PointCloudJobs.TerminalIsFinalIff`), which is always so
  while workers beat in time.
* `infra/analytics/collect.py:702-704` says a visit straddling the boundary is recomputed whole. A visit
  across the cutoff loses what came before it: the rebuild is exact if and only if there is none
  (`SessionRebuild.RebuildIsExactIff`, `SessionRebuild.LongLastVisitIsCut`).
* `infra/analytics/collect.py:819-830` says the coordinated pass only upgrades verdicts. It looks at sessions
  from the cutoff on, which the rebuild has just stored anew, so an incremental rebuild can leave one unflagged
  that a full rebuild flags, exactly when it has three agents around it only in spans that begin before the
  cutoff (`Coordinated.FlagsSinceIff`, `RebuildVerdicts.RebuiltIsFullIff`, `Coordinated.CutoffSplitsASpan`).
* `packages/form-schema/src/runtime-state.ts:15` says the state walk mirrors the validator exactly. It lists
  display questions and honours a plain group's own visibility; the validator and the pruning do neither
  (`FormAgreement.HiddenGroupStillValidates`). They agree at every occurrence exactly when no plain group hides
  anything the validator reaches (`FormAgreement.ErrorsAgreeWithState`), and on the errors exactly when no
  hidden plain group holds an answer with one (`FormErrors.ErrorsAreThoseShownIff`).
* `packages/shared-types/src/attribution-html.ts:61` makes idempotence a requirement. The first output can be
  longer than the cap that the second pass cuts its input to: the second pass is the identity exactly when the
  output fits or is cut safely (`HtmlCut.IdempotentIff`), which not all are
  (`HtmlFixedPoint.TooLongOutputIsNotFixed`) and some longer ones are (`HtmlCut.OverlongCanBeFixed`).
* `packages/shared-types/src/app-templates.ts:1013-1025` says references are remapped to the new ids. Only
  those at three fields of widget configs are (`Blueprints.ReferenceFollowsIff`); a source's
  `followMapWidgetId` (`packages/shared-types/src/custom-app.ts:272`) is carried over and then names no widget
  (`Blueprints.FollowedMapIsLost`).
* `packages/engine/src/web-map-json.ts:613-618` says printed literals round-trip. Numbers printed in
  exponent form, list elements that are NULL, values with line breaks and prefixes beginning with a percent
  sign do not (`WebMapFilter.RoundTripIffRepresentable`).

## Model

| member | source | states |
|---|---|---|
| `QueueRules.QueueRetryDelayMs` | apps/portal-web/public/sw.js:307-314 | the delay before a retry is between 0 and the largest step of the ladder, and 0 only for a row that was never retried |
| `QueueRules.ClaimableIsMonotone` | apps/portal-web/public/sw.js:320-334 | a claimable row stays claimable as time passes |
| `QueueRules.ClaimableWithinLargestBackoff` | apps/portal-web/public/sw.js:303-334 | a row can never be claimed exactly when it is rejected or synced; any other is claimable again within the largest backoff of its last attempt |
| `QueueRules.HoldOldest` | apps/portal-web/public/sw.js:364-371 | the first loop holds, for each feature, its oldest row and nothing else |
| `QueueRules.ClaimableInOrder` | apps/portal-web/public/sw.js:372-375 | the held rows that are claimable now, each feature once, in capture order |
| `QueueRules.ChainHeads` | apps/portal-web/public/sw.js:364-376 | exactly the rows that are the oldest of their feature and claimable now, one per feature, in capture order |
| `OfflineDrain.OfflineDb.ClaimRow` | apps/portal-web/public/sw.js:743-760 | the claim succeeds exactly when the stored row is visible to the identity and claimable, and then only that row is flipped |
| `OfflineDrain.OfflineDb.ListOwned` | apps/portal-web/public/sw.js:964-965 | every row the identity may see, each once, and no other |
| `OfflineDrain.WithoutPageWork` | apps/portal-web/public/sw.js:992-996 | drops exactly the heads whose feature owes an upload or that embed a pending file, keeping order |
| `OfflineDrain.OfflineDb.DrainRecord` | apps/portal-web/public/sw.js:998-1044 | one round writes what the outcome makes of the row, whose meaning `QueueCosts` states: deleted on done, parked or failed on a refusal, the listed row restored on a network failure |
| `QueueCosts.ClaimableMeans` | apps/portal-web/public/sw.js:320-334 | a waiting or failed row is claimable once its ladder step has passed since its last attempt, one in flight once its claim is two minutes old, a rejected or synced one never |
| `QueueCosts.RefusalCosts` | apps/portal-web/public/sw.js:998-1026 | a claimed row that is refused keeps its edit and filing, carries the claim's attempt time and one more retry, and is failed after a transient refusal, rejected after one for good |
| `QueueCosts.UnclaimedRowsStay` | apps/portal-web/public/sw.js:998-1013 | a row that may not be claimed, and one that is not listed, stays as it is |
| `QueueCosts.WaitAfterRefusals` | apps/portal-web/public/sw.js:303-334 | after n transient refusals in a row a row is claimable exactly from the last attempt plus the step of the ladder for n more retries on |
| `QueueCosts.PageRefusalCosts` | apps/portal-web/src/lib/offline-sync.ts:311-323 | the page's refusal writes failed or rejected, one more retry than listed, and the time the attempt ended |
| `QueueCosts.WorkerRefusalCosts` | apps/portal-web/public/sw.js:1014-1025 | in the interleaved protocol the worker's refusal writes over the row it claimed and counts from the one it listed |
| `QueueCosts.OutageRestores` | apps/portal-web/public/sw.js:1026-1043 | an outage puts the listed row back as it was, failed if it was failed and pending otherwise |
| `QueueCosts.ForceMeans` | packages/shared-types/src/queue-replay.ts:76-120 | a forced sync skips the wait of a waiting row and nothing else |
| `OfflineDrain.OfflineDb.DrainFeatureQueue` | apps/portal-web/public/sw.js:959-1049 | works off exactly the heads of the owned rows in order, and asks for a retry exactly when the network cut off a claimed replay |
| `QueueProgress.DrainAllAt` | apps/portal-web/public/sw.js:998-1044 | a drain touches only listed rows, each as if it were alone on the list |
| `QueueProgress.RemovedIffDone` | apps/portal-web/public/sw.js:1013-1014 | a row leaves the queue exactly when the drain claimed it and its replay ended done |
| `QueueProgress.DrainKeepsEdits` | apps/portal-web/public/sw.js:1015-1043 | no drain forges an edit or changes the owner, feature or capture time it is filed under |
| `QueueProgress.TerminalIffRefusedForGood` | apps/portal-web/public/sw.js:771-849 | a replay ends in a refusal for good exactly when the operation is unknown or the deciding answer, dry run first, is a client error no waiting cures; it throws exactly when there is no answer |
| `QueueProgress.ParkedIffRefusedForGood` | apps/portal-web/public/sw.js:1015-1025 | a drain parks a row exactly when it claimed it and it is refused for good |
| `QueueProgress.OutageIsFree` | apps/portal-web/public/sw.js:1026-1043 | without an answer from the network no row is lost or charged: retry count, attempt time and claimability stay |
| `QueueProgress.TodoIsTheHeads` | apps/portal-web/public/sw.js:959-998 | every row of the work list is the oldest its identity sees on that feature, and no row is listed twice |
| `QueueProgress.ReadyDrainRemovesTodo` | apps/portal-web/public/sw.js:959-1049 | against a server that accepts everything a drain of a ready queue removes exactly its work list and leaves the rest as it was |
| `QueueProgress.DrainIsOnePass` | apps/portal-web/public/sw.js:959-1049 | such a drain takes exactly the oldest row of every feature off the queue |
| `QueueProgress.PassesEmptyTheQueue` | apps/portal-web/public/sw.js:364-376 | n passes empty the queue exactly when no chain is longer than n |
| `QueueProgress.PassRemovesTheIthRow` | apps/portal-web/public/sw.js:364-376 | pass i removes exactly the i-th row of every chain: a row survives i passes iff at least i rows of its chain are older |
| `QueueProgress.PassKeepsReady` | apps/portal-web/public/sw.js:320-376 | a pass leaves the other rows as they were, and they stay ready for the next drain |
| `QueueProgress.DrainsArePasses` | apps/portal-web/public/sw.js:959-1049 | successive drains of a ready queue, against a server that accepts everything, are passes |
| `QueueProgress.DrainsEmptyTheQueue` | apps/portal-web/public/sw.js:959-1049 | n such drains empty the queue exactly when no chain is longer than n, and drain i removes exactly the i-th row of every chain |
| `QueueProgress.ConflictOnInsertParks` | apps/portal-web/public/sw.js:915-937 | a 409 on an insert parks the row, against the comment at line 625 |
| `QueueFold.FoldQueuedChain` | packages/shared-types/src/queue-fold.ts:141-152 | the loop folds the whole chain from its oldest edit and stops where it cancels out |
| `QueueFold.ApplyIsIdempotent` | apps/portal-api/src/engine/data-layer.ts:1113-1230 | sending any edit again leaves the portal as it was |
| `QueueFold.FoldIsFaithfulIff` | packages/shared-types/src/queue-fold.ts:71-125 | one folded request says what the two edits would have said in turn exactly when nothing follows a delete of a live feature and a capture folded over has not arrived yet, or what follows it adds nothing |
| `QueueFold.ChainMeansAll` | packages/shared-types/src/queue-fold.ts:141-152 | for every chain a device records, one folded request leaves the portal as all edits in turn would have |
| `OfflineEnqueue.OfflineStore.Waiting` | apps/portal-web/src/lib/offline-store.ts:1043-1060 | exactly the rows of the feature in this deployment that wait and may be folded by this account, oldest first |
| `OfflineEnqueue.OfflineStore.EnqueueEdit` | apps/portal-web/src/lib/offline-store.ts:1038-1155 | a fresh row when nothing waits; else the oldest waiting row takes the folded chain under its own key and capture time, with its failures forgotten, and the others go; all go when the chain cancels out |
| `OfflineEnqueue.AfterEnqueue` | apps/portal-web/src/lib/offline-store.ts:1038-1155 | after an edit only its own row of the deployment waits for this account on the feature, and every other row left is as it was |
| `OfflineEnqueue.EnqueuedRowIsFresh` | apps/portal-web/src/lib/offline-store.ts:1038-1155 | the row an edit waits in has never failed and is claimable at once, in the place of the oldest edit it was folded into |
| `OfflineEnqueue.EnqueueFoldsUp` | apps/portal-web/src/lib/offline-store.ts:1038-1155 | at most one row waits per deployment, feature and account: kept by every edit, and restored by one where an older build left several |
| `ReplayProtocol.StepKeepsInv` | apps/portal-web/public/sw.js:743-760 | every claim, arrival, result write, crash, lost request, page action, enqueue, fold, annihilation, removal and tick keeps the protocol invariant, for drains of workers and of pages |
| `ReplayProtocol.ClaimedRowWasFree` | apps/portal-web/public/sw.js:743-760 | a claim that succeeds finds no other drain in flight on that row |
| `ReplayProtocol.RunsAreExclusive` | apps/portal-web/public/sw.js:614-628 | after any interleaving, folds and removals included, in which each replay ends within the claim window, no row is in flight in two drains |
| `ReplayProtocol.ResultWritesHitTheirClaimIff` | apps/portal-web/public/sw.js:1013-1043 | for a row in flight that was queued, an unconditional result write lands on the very row its own claim left exactly when the row was not removed from the device since |
| `ReplayProtocol.ListedWorkEnablesBegin` | apps/portal-web/public/sw.js:959-998 | what drainFeatureQueue lists is a legal start of a drain in the interleaved protocol |
| `ReplayProtocol.PageListEnablesBegin` | apps/portal-web/src/lib/offline-sync.ts:243-259 | the heads of what a page lists of its deployment are a legal start of a drain in the interleaved protocol |
| `ReplayProtocol.UndisturbedRoundIsDrainOne` | apps/portal-web/public/sw.js:998-1044 | claim, arrival and result write of a worker in the protocol, left alone, are one round of the drain loop |
| `ReplayProtocol.MissedDeadlineLosesExclusion` | apps/portal-web/public/sw.js:303-334 | for a row in flight another drain can fly it too exactly when the claim window has passed, so the timing hypothesis is needed |
| `ReplayProtocol.OrderIsPerIdentity` | apps/portal-web/public/sw.js:955-966 | the ownership filter comes before head selection: a row can be a head while another account's older edit of the same feature is queued |
| `ReplayOrder.ListedIsClearedIff` | apps/portal-web/src/lib/offline-store.ts:1196-1216 | every older row of its feature that the identity always sees has left the queue when a head is listed, exactly if none is queued under another deployment than the drain lists; for a worker always |
| `ReplayOrder.SentWhileQueued` | apps/portal-web/public/sw.js:771-849 | in an ordered run, while a row is still queued nothing younger of its feature was sent under an identity that always sees it |
| `ReplayOrder.StepKeepsInOrder` | packages/shared-types/src/queue-replay.ts:172-183 | a step keeps the order unless a page lists a row past another deployment's older one, or a row is removed in flight |
| `ReplayOrder.RunsAreInOrder` | packages/shared-types/src/queue-replay.ts:172-183 | in a run without those two, a row is in flight only after every older row of its feature that its identity always sees has left the queue for good, and the rows of a feature are sent in capture order |
| `ReplayOrder.OvertakingIff` | apps/portal-web/src/lib/offline-store.ts:1196-1216 | from any state reached without removing a row in flight: a claimable listed row can reach the server past an older row of its feature that the identity always sees and that stays queued, exactly when such a row is queued outside what the drain lists |
| `ReplayOrder.PageSendsPastAnotherDeployment` | apps/portal-web/src/lib/offline-sync.ts:219-343 | one account edits a feature in one deployment and then in another, and the page of the second drains: the server gets the younger edit first and the older one last |
| `ReplayOrder.RemovedRowComesBack` | apps/portal-web/src/lib/offline-store.ts:580-597 | claimed, removed from the device, cut off by the network: the row is back in the queue |
| `LateFolds.EnqueueIsAStep` | apps/portal-web/src/lib/offline-store.ts:1038-1155 | what enqueueEdit does to the queue is one enabled step of the protocol: a fresh row, a fold or an annihilation |
| `LateFolds.LateFoldIff` | apps/portal-web/public/sw.js:998-1043 | from any state a device can reach, after a fold the row can end deleted as done without its latest version on the server exactly when a working drain of the account has it listed with another edit |
| `LateFolds.LateFoldLosesTheEdit` | apps/portal-web/public/sw.js:998-1043 | for every row and every new edit: listed, folded, claimed, applied, done leaves an empty queue and only the old edit on the server |
| `LateFolds.FoldedIsUpToDateIff` | apps/portal-web/src/lib/offline-store.ts:1127-1150 | after a fold everything that may still be sent under the key is the new version exactly when no such drain exists |
| `LateFolds.StepKeepsUpToDate` | apps/portal-web/public/sw.js:959-1049 | every other step keeps it: what a key may still send is its latest version, and a row deleted as done was delivered |
| `LateFolds.DoneLosesTheEditIff` | apps/portal-web/public/sw.js:1013-1014 | an applied row that is deleted as done was its user's last word exactly when the listed row still was |
| `LateFolds.WriteBackRevertsIff` | apps/portal-web/src/lib/offline-sync.ts:264-311 | an outage, and a refusal seen by the page, put the listed row back, so the queue keeps the latest version exactly when the listed row was it; a refusal seen by the worker keeps what its claim found |
| `LateFolds.UnfoldedIsDelivered` | apps/portal-web/public/sw.js:998-1043 | in any run a row nothing was folded into is deleted as done only when what was queued is what the server got last |
| `LateFolds.SentCaptureOutlivesItsDeletion` | packages/shared-types/src/queue-fold.ts:85-92 | a capture that was applied and whose answer was lost: deleting it empties the queue and leaves the feature on the server |
| `ServerOrder.ServerSeesRowOrder` | apps/portal-web/public/sw.js:622-628 | in an ordered run under one identity, with crashes and folds anywhere, the rows of a feature reach the server in queue order, only in versions their user made, and every sent row is among the arrivals |
| `ServerOrder.RepeatsDoNotShow` | apps/portal-web/public/sw.js:622-628 | arrivals that the next arrival of the same row absorbs leave no trace in the final state |
| `ServerOrder.NewestIsLastOfEach` | apps/portal-web/public/sw.js:622-628 | what is left of arrivals in queue order is the last arrival of each row, in strict capture order |
| `ServerOrder.FoldAbsorbsIff` | packages/shared-types/src/queue-fold.ts:71-125 | folding over an applied edit is safe on the portal exactly for an update, a delete, or a capture that the fold does not change |
| `ServerOrder.DrainedFeatureIsReplayedOnce` | apps/portal-web/public/sw.js:622-628 | in an ordered run without late folds, whose folds take back nothing applied: once every row of a feature is done, folded away, or discarded or removed unsent, the server state is the latest version of each done row applied once, in capture order |
| `ServerOrder.DrainedFeatureOnThePortal` | apps/portal-api/src/data-layer/features.service.ts:1267-1387 | the same for what the portal makes of inserts, updates and deletes |
| `FormsDrain.PendingIsFoundAtAnyDepth` | apps/portal-web/public/sw.js:1056-1063 | the recursive search answers yes exactly when some value at some depth has a dataUrl string and no url string |
| `FormsDrain.FormsDb.ClaimRow` | apps/portal-web/public/sw.js:743-760 | claims exactly the stored submission the predicate admits, and changes nothing else |
| `FormsDrain.FormsDb.ListTodo` | apps/portal-web/public/sw.js:1083-1097 | exactly the claimable submissions, each once, in capture order |
| `FormsDrain.FormsDb.DrainOne` | apps/portal-web/public/sw.js:1098-1157 | one submission: skipped with a pending file, else marked by the answer; a retry is asked for exactly when it was posted and fetch failed |
| `FormsDrain.AttemptMeans` | apps/portal-web/public/sw.js:1086-1096 | a submission is attempted when queued or failed, or sending under a claim that is undated or two minutes old, and no file inside it is still on the device |
| `FormsDrain.SettlementMeans` | apps/portal-web/public/sw.js:1098-1157 | the whole row after each answer: sent, failed with the reason and one more attempt, or back as it was under the new stamp |
| `FormsDrain.PendingFileMeans` | apps/portal-web/public/sw.js:1056-1072 | a file is pending exactly when its object's dataUrl is text and its url is not |
| `FormsDrain.FormsDb.DrainFormsQueue` | apps/portal-web/public/sw.js:1079-1162 | posts every claimable submission without a pending file exactly once, in capture order, settles exactly those rows and leaves all others |
| `FormsDrain.DrainsKeepTheSubmission` | apps/portal-web/public/sw.js:1079-1162 | over any number of drains and answers the submitted content never changes and a sent row is never touched again |
| `FormsDrain.SentIffAccepted` | apps/portal-web/public/sw.js:1129-1146 | a row is marked sent exactly when it was, or when it was attempted and the server answered 2xx or 409 |
| `FormsDrain.UnsentBecomesClaimable` | apps/portal-web/public/sw.js:1085-1094 | no unsent submission is stuck: one claim window later it can be claimed again, and not a millisecond earlier after a fresh claim |
| `TileCache.TileStore.CollectEvictable` | apps/portal-web/public/sw.js:1431-1446 | the scan keeps exactly the tiles that are neither style documents nor pinned, with their logged write times |
| `TileCache.TileStore.Sweep` | apps/portal-web/public/sw.js:1420-1464 | a throttled call changes nothing; any other removes exactly the candidates from the cache and from the write log |
| `TileCache.SweepSparesTheProtected` | apps/portal-web/public/sw.js:1440-1457 | whatever a sweep deletes is cached, not a style document, not pinned and out of its grace period |
| `TileCache.GraceMeans` | apps/portal-web/public/sw.js:1420-1464 | which tiles may go: not a style document, not pinned, written at least six hours ago |
| `TileCache.SweepTakes` | apps/portal-web/public/sw.js:1440-1458 | a sweep takes as many of these as there are, up to the number of evictable tiles above four thousand |
| `TileCache.SweepTakesOldestFirst` | apps/portal-web/public/sw.js:1454-1457 | no deleted tile was written later than one that could have gone and stays |
| `TileCache.SweepStopsAtTheCap` | apps/portal-web/public/sw.js:1447-1458 | what is left is at most the cap of evictable tiles or only tiles in grace, and a sweep never goes below the cap |
| `CacheTrim.KeyedCache.Trim` | apps/portal-web/public/sw.js:1485-1505 | the walk over the listed keys deletes exactly the first non-exempt ones until the overflow is gone |
| `CacheTrim.KeyedCache.Write` | apps/portal-web/public/sw.js:1692-1699 | delete, put and trim: the written key is last and the trim follows |
| `CacheTrim.ExemptStays` | apps/portal-web/public/sw.js:1498 | an exempt key survives every trim |
| `CacheTrim.TrimReachesTheCap` | apps/portal-web/public/sw.js:1488-1501 | after a trim the cache is at the cap or as large as its exempt keys require, and never smaller than the cap allows |
| `CacheTrim.CacheIsTheNewestWrites` | apps/portal-web/public/sw.js:1752-1768 | for every sequence of writes the cache holds exactly the cap most recently written keys, ordered by last write |
| `HtmlText.EscapeHasNoMarkup` | packages/shared-types/src/attribution-html.ts:483-490 | escaped text holds no markup character |
| `HtmlText.ReferencePrefix` | packages/shared-types/src/attribution-html.ts:572-578 | a character reference is recognised from its own text, whatever follows |
| `HtmlText.DecodeAfterEscape` | packages/shared-types/src/attribution-html.ts:580-598 | decoding escaped text gives the text back and goes on with whatever follows it |
| `HtmlText.DecodeEscape` | packages/shared-types/src/attribution-html.ts:580-598 | decoding undoes escaping for every sequence of UTF-16 units |
| `HtmlTokens.ReadTag` | packages/shared-types/src/attribution-html.ts:288-383 | a tag read at a less-than sign ends after it and carries exactly the source it was read from |
| `HtmlTokens.TokenizeIsTotal` | packages/shared-types/src/attribution-html.ts:250-282 | the token sources concatenate to exactly the input: nothing is dropped |
| `HtmlTokens.TextAccumulates` | packages/shared-types/src/attribution-html.ts:250-282 | text without a less-than sign only extends the pending text |
| `HtmlReader.Skip` | packages/shared-types/src/attribution-html.ts:288-383 | the class loop stops at the first unit outside the class |
| `HtmlReader.FindFrom` | packages/shared-types/src/attribution-html.ts:288-383 | the search for a closing quote or bracket finds its first occurrence |
| `HtmlReader.ReadValueAt` | packages/shared-types/src/attribution-html.ts:354-374 | the loops of attribute value reading compute the value grammar, including the unclosed quote |
| `HtmlReader.AttrRoundAt` | packages/shared-types/src/attribution-html.ts:310-379 | one round of the attribute loop |
| `HtmlReader.ReadAttrsAt` | packages/shared-types/src/attribution-html.ts:310-379 | the attribute loop reads the attributes up to the closing bracket, the first of a name winning |
| `HtmlReader.ReadTagAt` | packages/shared-types/src/attribution-html.ts:288-383 | readTag as an index-advancing loop computes the tag grammar |
| `HtmlReader.TokenizeSource` | packages/shared-types/src/attribution-html.ts:250-282 | tokenize as a loop computes the token list, and its sources concatenate to the input |
| `HtmlSanitizer.SafeHttpUrl` | packages/shared-types/src/attribution-html.ts:427-467 | an accepted href starts with http:// or https:// and has no control character or outer white space |
| `HtmlSanitizer.SafeUrlOfEscaped` | packages/shared-types/src/attribution-html.ts:453-467 | an accepted href survives being escaped, decoded and checked again |
| `HtmlSanitizer.PiecesAreWellFormed` | packages/shared-types/src/attribution-html.ts:163-207 | whatever the tokens and the open elements, the emitted pieces are properly nested allowed elements, closed in order |
| `HtmlSanitizer.OutputIsWellFormed` | packages/shared-types/src/attribution-html.ts:163-207 | for every input the output is well formed, every anchor href is a good http(s) URL and all other text is escaped; the token sources give back the cut input |
| `HtmlSanitizer.AttributesReadBack` | packages/shared-types/src/attribution-html.ts:401-425 | any list of rendered attributes is read back as that list |
| `HtmlSanitizer.TagReadsBack` | packages/shared-types/src/attribution-html.ts:401-425 | a rendered start tag tokenizes to itself |
| `HtmlSanitizer.ClosesReadsBack` | packages/shared-types/src/attribution-html.ts:186-206 | a rendered end tag tokenizes to itself |
| `HtmlFixedPoint.Retokenize` | packages/shared-types/src/attribution-html.ts:250-282 | the rendering of any properly nested pieces, with any text after it that ends no tag, tokenizes to exactly its tags and texts |
| `HtmlFixedPoint.Resanitize` | packages/shared-types/src/attribution-html.ts:163-207 | sanitizing those tokens again emits the same rendering, then the rest as text and the closers of what is open |
| `HtmlFixedPoint.SanitizeUnfinished` | packages/shared-types/src/attribution-html.ts:163-207 | sanitizing a rendering that is cut off anywhere: the pieces before the cut, the torn piece as text, and the closers |
| `HtmlFixedPoint.OutputReadsBack` | packages/shared-types/src/attribution-html.ts:61-69 | the sanitized output tokenizes to the pieces that were emitted |
| `HtmlFixedPoint.SanitizeIsIdempotent` | packages/shared-types/src/attribution-html.ts:61-69 | sanitizing twice is sanitizing once for every string whose first output fits the length cap |
| `HtmlFixedPoint.TooLongOutputIsNotFixed` | packages/shared-types/src/attribution-html.ts:163-170 | the cap hypothesis is needed: a full-length run of ampersands is not a fixed point |
| `HtmlCut.IdempotentIff` | packages/shared-types/src/attribution-html.ts:61-69 | sanitizing twice is sanitizing once exactly when the first output fits the length cap or the cap cuts it safely: off come only whole end tags, or a piece of an escaped ampersand that the second pass puts back, and end tags |
| `HtmlCut.OverlongIsFixedIff` | packages/shared-types/src/attribution-html.ts:163-170 | an output over the cap is a fixed point exactly when it is cut safely |
| `HtmlCut.OverlongCanBeFixed` | packages/shared-types/src/attribution-html.ts:163-207 | an element left open at the very cap: its output is over the cap and still a fixed point |
| `HtmlBound.ShortInputsAreIdempotent` | packages/shared-types/src/attribution-html.ts:163-207 | the output is at most seven times as long as the input, so a short enough input is sanitized once and for all |
| `HtmlProfiles.BothProfilesAreIdempotentIff` | packages/shared-types/src/attribution-html.ts:110-151 | both exported sanitizers are idempotent on exactly those inputs, among them all of at most 285 and 2857 units |
| `HtmlFixedPoint.CloseLoop` | packages/shared-types/src/attribution-html.ts:186-206 | the closing loop emits the end tags of everything opened since |
| `HtmlFixedPoint.EmitToken` | packages/shared-types/src/attribution-html.ts:172-203 | one token of the main loop: its output and the new open-element stack, whose meaning token by token `HtmlMeaning` states |
| `HtmlFixedPoint.SanitizeHtml` | packages/shared-types/src/attribution-html.ts:163-207 | the loop computes the sanitizer, and its result is a fixed point whenever it fits the cap |
| `HtmlMeaning.SafeHttpUrlMeans` | packages/shared-types/src/attribution-html.ts:453-467 | an href is accepted exactly when, decoded, freed of control characters and trimmed, it is an http(s) URL, and that is what is handed on |
| `HtmlMeaning.EscapeMeans` | packages/shared-types/src/attribution-html.ts:469-485 | the five characters with a meaning in markup are written as references, all others as they are |
| `HtmlMeaning.AllowedTagIsKept` | packages/shared-types/src/attribution-html.ts:172-203 | a start tag that is allowed and not a link emits that element, whatever attributes it was read with |
| `HtmlMeaning.LinkIsKeptIff` | packages/shared-types/src/attribution-html.ts:401-425 | an allowed link is kept exactly when the normal form of its href is an http(s) URL, and links to it |
| `HtmlMeaning.RefusedTagIsShown` | packages/shared-types/src/attribution-html.ts:172-203 | any other start tag comes out as the text it was written as |
| `HtmlMeaning.EndTagCloses` | packages/shared-types/src/attribution-html.ts:186-200 | an end tag closes down to its nearest open element, and is text when it matches none |
| `HtmlMeaning.OpenElementsAreClosed` | packages/shared-types/src/attribution-html.ts:200-207 | what is open at the end is closed, innermost first |
| `HtmlMeaning.ElementSurvives` | packages/shared-types/src/attribution-html.ts:163-207 | end to end: an allowed element written with any plain attributes around text comes out as the element around the escaped text |
| `HtmlMeaning.LinkSurvives` | packages/shared-types/src/attribution-html.ts:163-207 | end to end: a link written with any plain attributes comes out as a link to its first href, when that is an http(s) URL |
| `HtmlMeaning.RefusedElementIsShown` | packages/shared-types/src/attribution-html.ts:163-207 | end to end: an element that is not allowed comes out as its escaped source |
| `HtmlReferences.DecodeMeans` | packages/shared-types/src/attribution-html.ts:572-598 | text is decoded from the left: a reference gives way to what it stands for, any other unit stays |
| `HtmlReferences.ReplacementMeans` | packages/shared-types/src/attribution-html.ts:580-598 | what a decimal, hexadecimal or named reference stands for, and which are left alone |
| `HtmlReferences.QuotedAttribute` | packages/shared-types/src/attribution-html.ts:288-399 | a quoted attribute is read with its value, with or without white space around the equals sign |
| `HtmlReferences.UnquotedAttribute` | packages/shared-types/src/attribution-html.ts:288-399 | an unquoted value goes up to white space or the end of the tag |
| `HtmlReferences.UnclosedQuoteRefuses` | packages/shared-types/src/attribution-html.ts:288-399 | a quote that never closes makes the tag text |
| `HtmlReferences.StartTagMeans` | packages/shared-types/src/attribution-html.ts:288-399 | a start tag is its name in lower case with the attributes up to its closing bracket |
| `SqlLiterals.NumberReadsBack` | packages/engine/src/web-map-json.ts:556-561 | a printed number parses back exactly when it was not printed with an exponent |
| `SqlLiterals.ScanDoubled` | packages/engine/src/web-map-json.ts:613-629 | scanning a quoted text undoes quote doubling, wherever it stands |
| `SqlLiterals.QuotedReadsBack` | packages/engine/src/web-map-json.ts:613-629 | a quoted text is read back whole and the scan stops right after it |
| `SqlLiterals.LiteralReadsBack` | packages/engine/src/web-map-json.ts:619-629 | a printed literal parses back exactly when it is not a number in exponent form |
| `WebMapFilter.ScanQuote` | packages/engine/src/web-map-json.ts:649-664 | the quote loop of the list scan finds the closing quote |
| `WebMapFilter.SkipSpaceAt` | packages/engine/src/web-map-json.ts:646-647 | the white-space loop of the list scan |
| `WebMapFilter.ElementEndAt` | packages/engine/src/web-map-json.ts:648-668 | the element loop finds where a list element ends, and notices an unterminated string |
| `WebMapFilter.ParseSqlLiteralList` | packages/engine/src/web-map-json.ts:638-686 | the scanning loop computes the list grammar; a list it accepts is not empty and holds no NULL |
| `WebMapFilter.ListReadsBack` | packages/engine/src/web-map-json.ts:638-686 | a printed list of any literals parses back exactly when no element is NULL or in exponent form |
| `WebMapFilter.CompareReadsBack` | packages/engine/src/web-map-json.ts:705-724 | a printed comparison parses back exactly when its value is readable and on one line |
| `WebMapFilter.InReadsBack` | packages/engine/src/web-map-json.ts:737-750 | a printed IN parses back exactly when its values are readable list elements on one line |
| `WebMapFilter.LikeReadsBack` | packages/engine/src/web-map-json.ts:752-772 | a printed LIKE is decided by its pattern alone |
| `WebMapFilter.PrefixPattern` | packages/engine/src/web-map-json.ts:765-771 | a prefix that itself starts with a percent sign reads back as a containment test |
| `WebMapFilter.PrintedFilterMeans` | packages/engine/src/web-map-json.ts:699-778 | what the parser makes of every printed filter |
| `WebMapFilter.RoundTripIffRepresentable` | packages/engine/src/web-map-json.ts:552-589 | parse after print is the identity on a filter exactly when it is representable: a caller-checkable condition on field, numbers, strings, list and prefix |
| `WebMapSpelling.FieldMeans` | packages/engine/src/web-map-json.ts:595-611 | a field is read whole, quoted or bare, up to the first character no name has |
| `WebMapSpelling.FieldsAreSpelled` | packages/engine/src/web-map-json.ts:595-611 | and nothing else is read as a field |
| `WebMapSpelling.NumberMeans` | packages/engine/src/web-map-json.ts:619-630 | a number with any leading or trailing zeros is read as its exact decimal value |
| `WebMapSpelling.LiteralMeans` | packages/engine/src/web-map-json.ts:619-630 | true, false and null in any case, and quoted text |
| `WebMapSpelling.ComparisonMeans` | packages/engine/src/web-map-json.ts:704-724 | any spelling of `field op literal`, with or without white space, is that comparison |
| `WebMapSpelling.NullTestMeans` | packages/engine/src/web-map-json.ts:726-735 | any spelling of IS NULL is the null test |
| `WebMapSpelling.NotNullTestMeans` | packages/engine/src/web-map-json.ts:726-735 | any spelling of IS NOT NULL is the other |
| `WebMapSpelling.LikeMeans` | packages/engine/src/web-map-json.ts:752-773 | a LIKE pattern between two percent signs is containment, one before a single one a prefix, one without a last percent sign nothing |
| `WebMapSpelling.ListTestMeans` | packages/engine/src/web-map-json.ts:737-750 | an IN list of literals with any white space around the commas is the list of their values |
| `WebMapSpelling.DanglingCommaRefuses` | packages/engine/src/web-map-json.ts:632-686 | an empty list and one that ends in a comma are refused |
| `WebMapSpelling.LiteralsAreSpelled` | packages/engine/src/web-map-json.ts:619-630 | and nothing else is read as a literal: a number so spelled, one of the three words, or one quoted text |
| `WebMapDocument.LensesToWebMapJson` | packages/engine/src/web-map-json.ts:174-200 | the export loop keeps exactly the exportable lenses, in order |
| `WebMapDocument.WebMapJsonToLenses` | packages/engine/src/web-map-json.ts:332-408 | the import loop keeps order and collects every warning |
| `WebMapDocument.LensMeans` | packages/engine/src/web-map-json.ts:220-258 | a map lens over one layer becomes that layer's address under the portal's base without its trailing slashes, with the printed filter for geojson only |
| `WebMapDocument.OnlyLayersAreExported` | packages/engine/src/web-map-json.ts:220-281 | a lens is exported exactly when it is a map lens over one scope that names an item and a layer |
| `WebMapDocument.ScopeMeans` | packages/engine/src/web-map-json.ts:260-281 | a scope is read as an item and a layer exactly when it is `data_layer:`, the item, a colon, the layer, both non-empty and without a colon |
| `WebMapDocument.LayerMeans` | packages/engine/src/web-map-json.ts:359-404 | what one layer becomes, and its warnings: skipped for another kind, one for a definition that is no filter, else none |
| `WebMapDocument.LensRoundTrip` | packages/engine/src/web-map-json.ts:220-258 | a lens is exported exactly when it is exportable, and comes back with its kind, name and what survives of its filter |
| `WebMapDocument.DocumentRoundTrip` | packages/engine/src/web-map-json.ts:174-258 | importing an export gives exactly the survivors, in order |
| `WebMapDocument.FilterSurvivesIff` | packages/engine/src/web-map-json.ts:220-258 | an exported filter survives exactly on a geojson lens with a representable filter |
| `FormExpr.ResolveDependsOnRefs` | packages/form-schema/src/index.ts:1332-1347 | an operand's value depends only on the ids it references, and on the clock only through today and now |
| `FormExpr.EvaluateDependsOnRefs` | packages/form-schema/src/index.ts:1243-1487 | an expression's value depends only on the ids it references, and on the clock only through today and now |
| `FormMeaning.NumbersCompare` | packages/form-schema/src/index.ts:1250-1257 | gt, gte, lt and lte of two numbers are >, >=, < and <= |
| `FormMeaning.TextsCompare` | packages/form-schema/src/index.ts:1349-1356 | otherwise they are the sign of the host's comparison of the two texts |
| `FormMeaning.EqualityMeans` | packages/form-schema/src/index.ts:1246-1249 | eq and neq are equality of the operands' values |
| `FormMeaning.InMeans` | packages/form-schema/src/index.ts:1264-1272 | membership of a list, an occurrence in a text, false of anything else |
| `FormMeaning.MatchesMeans` | packages/form-schema/src/index.ts:1280-1298 | what the pattern engine says of the two texts, false where there is none |
| `FormMeaning.ArithmeticMeans` | packages/form-schema/src/index.ts:1299-1317 | the real sum, difference, product or quotient, null on a zero divisor |
| `FormMeaning.ArithmeticNeedsNumbers` | packages/form-schema/src/index.ts:1299-1317 | null when an operand reads as no number |
| `FormMeaning.BetweenMeans` | packages/form-schema/src/index.ts:1273-1279 | true exactly when all three read as numbers and the value lies between the bounds, both included |
| `FormMeaning.ConnectivesMean` | packages/form-schema/src/index.ts:1258-1263 | and: all operands hold; or: one does; not: the operand does not |
| `FormMeaning.IfMeans` | packages/form-schema/src/index.ts:1325-1330 | the value of the branch its condition picks |
| `FormMeaning.ConcatMeans` | packages/form-schema/src/index.ts:1318-1324 | the operands' texts one after the other, null as nothing |
| `FormMeaning.ClockBuiltinsMean` | packages/form-schema/src/index.ts:1364-1372 | today and now are the clock's |
| `FormMeaning.LengthsMean` | packages/form-schema/src/index.ts:1373-1390 | len is the length of a text or list, count that of a list, both 0 of anything else |
| `FormMeaning.TextMapsMean` | packages/form-schema/src/index.ts:1398-1409 | lower, upper and trim map a text and hand on anything else |
| `FormMeaning.TextTestsMean` | packages/form-schema/src/index.ts:1410-1427 | contains, starts_with and ends_with say whether the one text occurs in, begins or ends the other |
| `FormMeaning.SubstringMeans` | packages/form-schema/src/index.ts:1428-1435 | the slice between the two clamped positions, whichever comes first |
| `FormMeaning.RoundingsMean` | packages/form-schema/src/index.ts:1436-1455 | abs is the distance from 0, floor the whole number below, ceil the one above, round the host's |
| `FormMeaning.SelectedMeans` | packages/form-schema/src/index.ts:1474-1487 | membership of a list, equality with anything else |
| `FormMeaning.CoalesceMeans` | packages/form-schema/src/index.ts:1391-1397 | the first argument that is neither absent nor the empty text, else null |
| `FormMeaning.ExtremesMean` | packages/form-schema/src/index.ts:1456-1473 | min_of and max_of occur among the numbers of the arguments and bound them all, null without any |
| `FormMeaning.SumMeans` | packages/form-schema/src/index.ts:1379-1386 | sum adds over concatenation, each argument counting for the number it reads as, else 0 |
| `FormRules.RulesMean` | packages/form-schema/src/index.ts:1717-1727 | shown, required and read-only by the question's flags and rules, and read-only too when calculated |
| `FormRules.EmptyMeans` | packages/form-schema/src/index.ts:1764-1776 | which values are empty |
| `FormRules.QuestionErrorMeans` | packages/form-schema/src/index.ts:1666-1715 | the one error of a question: required and empty, a type error, or a constraint that does not hold |
| `FormState.ValidateQuestionList` | packages/form-schema/src/index.ts:1624-1715 | the pushing recursion appends exactly the errors of the list, in order |
| `FormState.ValidateQuestion` | packages/form-schema/src/index.ts:1624-1715 | one question: display skipped, plain groups transparent, repeat instances each their own context |
| `FormState.ValidateInstanceLoop` | packages/form-schema/src/index.ts:1650-1664 | the instance loop, one context per instance |
| `FormState.Walk` | packages/form-schema/src/runtime-state.ts:66-96 | the pushing recursion lists one state per occurrence, in order |
| `FormState.WalkQuestion` | packages/form-schema/src/runtime-state.ts:66-96 | one question: hidden parents hide their children |
| `FormState.WalkInstanceLoop` | packages/form-schema/src/runtime-state.ts:83-92 | the instance loop of the state walk |
| `FormAgreement.WalkListsOccurrences` | packages/form-schema/src/runtime-state.ts:66-96 | the state walk lists exactly the occurrences of an independent reference walk |
| `FormAgreement.ValidateFollowsOccurrences` | packages/form-schema/src/index.ts:1624-1715 | the validator's errors are the occurrences' own errors in walk order: each visible answer it reaches contributes its one error or none |
| `FormAgreement.AgreesIff` | packages/form-schema/src/runtime-state.ts:66-96 | the two walks agree at every occurrence, at any depth, exactly when no reached plain group that is not visible has a reached descendant visible by its own rules |
| `FormAgreement.HiddenAgreesIff` | packages/form-schema/src/runtime-state.ts:66-96 | below a hidden plain group they agree exactly when nothing reached there is visible |
| `FormAgreement.ErrorsAgreeWithState` | packages/form-schema/src/runtime-state.ts:15-18 | for every form and response the errors are, in order, at occurrences the state walk lists, and what the walk marks visible is at every occurrence what the validator reaches and finds visible if and only if no plain group hides anything; forms without plain-group rules are such |
| `FormErrors.ErrorsAreThoseShownIff` | packages/form-schema/src/runtime-state.ts:15-18 | for every form and response the validator's errors are those of the answers the state walk marks visible, in the same order, exactly when no hidden plain group it reaches holds an answer that is visible by its own rule and has an error |
| `FormErrors.ShownIff` | packages/form-schema/src/index.ts:1624-1715 | at any depth and in any repeat instance: every error is at an occurrence marked visible exactly under that condition |
| `FormAgreement.RequiredEmptyIsOneError` | packages/form-schema/src/index.ts:1672-1690 | a visible, required, empty, capturable answer yields exactly one error and a hidden one none |
| `FormAgreement.HiddenGroupStillValidates` | packages/form-schema/src/index.ts:1669 | an input at which they disagree: the validator looks through a hidden plain group, the state walk does not |
| `FormPrune.PruneWalk` | packages/form-schema/src/index.ts:2350-2376 | the recursive walk fills the copy with exactly the answers of the visible entries seen so far |
| `FormPrune.PruneHidden` | packages/form-schema/src/index.ts:2334-2379 | the result is the response restricted to the ids of visible answers and repeat groups |
| `FormPrune.PrunedIsExactlyTheVisible` | packages/form-schema/src/index.ts:2334-2379 | a key survives exactly when it was answered and a visible entry owns it, with its value untouched |
| `FormPrune.ValidationAgrees` | packages/form-schema/src/index.ts:1624-1715 | validation at any depth is the same for two responses that agree on what each entry reads and on its own visible answer |
| `FormPrune.PruningIsHarmless` | packages/form-schema/src/index.ts:2334-2379 | when visibility rules, and the required rules and constraints of visible entries, read only kept or unanswered ids: visibility, validation errors and the pruning itself are unchanged by pruning |
| `FormPrune.HiddenConstraintIsHarmless` | packages/form-schema/src/index.ts:2334-2379 | a hidden answer whose constraint reads itself meets that condition, although pruning drops it |
| `FormPrune.PruningShowsTheSame` | packages/form-schema/src/runtime-state.ts:66-96 | when visibility rules on the response read only kept or unanswered ids, the whole state walk, display questions and plain groups included, marks the same occurrences visible before and after pruning |
| `FormPrune.PrunesOnceIff` | packages/form-schema/src/index.ts:2334-2379 | pruning twice is pruning once exactly when every visible answered entry leaves some owner of its answer visible in what is kept |
| `FormPrune.HiddenReferencePrunesTwice` | packages/form-schema/src/index.ts:2334-2379 | an input that fails it: a rule that reads a hidden answer |
| `FormPrune.PruningSettles` | packages/form-schema/src/index.ts:2334-2379 | on any form, pruning as often as there are answers reaches a fixed point |
| `FormCalculations.ApplyCalculations` | packages/form-schema/src/index.ts:2304-2328 | the loop computes one pass, and hands back the same response exactly when every calculation already holds |
| `FormCalculations.FixedIffSolved` | packages/form-schema/src/index.ts:2304-2328 | a pass is the identity exactly when the response satisfies every calculation |
| `FormCalculations.CalcsMean` | packages/form-schema/src/index.ts:1498-1507 | a pass evaluates the expression of every calculated question at any depth, through groups and repeats, and no other |
| `FormCalculations.LowRanksAgree` | packages/form-schema/src/index.ts:2304-2328 | a calculation with a reference chain shorter than the passes made has its final value, at whatever times the passes ran |
| `FormCalculations.PassesSettle` | packages/form-schema/src/index.ts:2304-2328 | with distinct ids, no clock builtin and a ranking below k of the calculations by their references, k passes reach a solution and every later pass changes nothing |
| `FormCalculations.RankedIffChains` | packages/form-schema/src/index.ts:2304-2328 | such a ranking exists exactly when no reference chain has more than k calculations |
| `FormCalculations.AcyclicIffBounded` | packages/form-schema/src/index.ts:2304-2328 | the reference graph is acyclic exactly when its chains are bounded, and then by the number of calculations |
| `FormCalculations.ChainsSettle` | packages/form-schema/src/index.ts:2304-2328 | with reference chains of at most k calculations, k passes reach the one solution over the same answers and every later pass changes nothing |
| `FormCalculations.SolutionIsUnique` | packages/form-schema/src/index.ts:2304-2328 | it is the only response that satisfies the calculations over the same answers |
| `FormCalculations.FewerPassesDoNotSettle` | packages/form-schema/src/index.ts:2304-2328 | the bound is exact: for every k some acyclic form is still changing before pass k |
| `FormCalculations.SelfReferenceNeverSettles` | packages/form-schema/src/index.ts:2304-2328 | without acyclicity no number of passes settles |
| `EngineVersion.EngineWalk.Need` | packages/form-schema/src/engine-version.ts:183-190 | an unknown feature is recorded and raises the version; a known one changes nothing |
| `EngineVersion.EngineWalk.WalkOperand` | packages/form-schema/src/engine-version.ts:192-205 | records exactly the unknown builtins of the operand |
| `EngineVersion.EngineWalk.WalkExpression` | packages/form-schema/src/engine-version.ts:207-256 | records exactly the unknown operators and builtins of the expression |
| `EngineVersion.EngineWalk.WalkQuestion` | packages/form-schema/src/engine-version.ts:258-279 | records exactly what the question, its expressions and its children at any depth need |
| `EngineVersion.EngineRequirement` | packages/form-schema/src/engine-version.ts:179-293 | the unknown set is everything unknown in the form, and the version exceeds this build exactly when it is not empty |
| `EngineVersion.ExprReport` | packages/form-schema/src/engine-version.ts:207-256 | an expression reports nothing exactly when every operator in it and every builtin it names is known |
| `EngineVersion.RequiredVersionIsExact` | packages/form-schema/src/engine-version.ts:296-303 | nothing is unknown exactly when every question at every depth, its expressions and the schema version are known |
| `EngineVersion.ReportNames` | packages/form-schema/src/engine-version.ts:183-289 | the report names exactly the unknown question types, operators and builtins that occur anywhere in the form |
| `EngineVersion.EngineSupports` | packages/form-schema/src/engine-version.ts:301-303 | true exactly when every question at every depth, its expressions and the schema version are known |
| `EngineVersion.SupportedFormStands` | packages/form-schema/src/index.ts:1243-1487 | in a supported form no evaluation of any question's expression, on any response at any time, reaches an operator or builtin without a case |
| `EngineVersion.KnownOperandHasValue` | packages/form-schema/src/index.ts:1358-1487 | with known builtins and JSON constants every operand resolves to a value, never undefined |
| `EngineVersion.KnownExprHasValue` | packages/form-schema/src/index.ts:1243-1330 | so does every known expression |
| `EngineVersion.UnknownOperatorIsSilent` | packages/form-schema/src/engine-version.ts:8-16 | an unknown operator under a negation silently evaluates to true, and is reported |
| `PointCloudChunks.PlanChunk` | tools/pointcloud-worker/runner.py:851-867 | the inner loop body appends the chunk of its cell, or nothing for an empty core |
| `PointCloudChunks.PlanGridChunks` | tools/pointcloud-worker/runner.py:807-868 | one unbuffered chunk within the budget, an error when the edge is under 256 cells, else the chunk grid row by row |
| `PointCloudChunks.PlannedAxisFits` | tools/pointcloud-worker/runner.py:832-846 | the number of chunks per axis is the least that reaches over the extent |
| `PointCloudChunks.OneChunkMeans` | tools/pointcloud-worker/runner.py:832-836 | the extent stays in one piece exactly when its least cell counts multiply to no more than the budget |
| `PointCloudChunks.EdgeMeans` | tools/pointcloud-worker/runner.py:837-839 | the edge is the longest whose square with both buffers is within the budget |
| `PointCloudChunks.CoresTileTheExtent` | tools/pointcloud-worker/runner.py:818-822 | every point of the extent lies in exactly one core |
| `PointCloudChunks.AreasSum` | tools/pointcloud-worker/runner.py:818-822 | the core areas sum to the area of the extent |
| `PointCloudChunks.ChunkIsSound` | tools/pointcloud-worker/runner.py:818-829 | each core is proper with its lower edges on the shared lattice, lies in its buffered box, and that box stays inside the extent |
| `PointCloudChunks.UpperEdgeOnLatticeIff` | tools/pointcloud-worker/runner.py:824-825 | an upper core edge is on the lattice exactly when it is not the last one or the extent ends on the lattice |
| `PointCloudChunks.HalfCellIsOffLattice` | tools/pointcloud-worker/runner.py:824-825 | extents that end off the lattice: half a cell past a whole number of cells |
| `PointCloudChunks.BufferedFitsBudget` | tools/pointcloud-worker/runner.py:837-839 | every buffered box spans at most the cell budget |
| `PointCloudChunks.EmptyPlanIffFlat` | tools/pointcloud-worker/runner.py:855-856 | an over-budget plan is empty exactly when the extent has no area; otherwise no chunk is skipped |
| `PointCloudJobs.JobTable.ClaimJob` | tools/pointcloud-worker/runner.py:619-647 | the oldest queued row, if there is one, becomes running and nothing else changes |
| `PointCloudJobs.JobTable.SetProgress` | tools/pointcloud-worker/runner.py:427-455 | the beat stamps only its row and reports a cancel exactly when one was requested |
| `PointCloudJobs.JobTable.HandOff` | tools/pointcloud-worker/runner.py:1650-1669 | the handoff flips the row exactly when it is still running |
| `PointCloudJobs.JobTable.MarkCancelled` | tools/pointcloud-worker/runner.py:650-663 | only a running or cancel-requested row becomes cancelled |
| `PointCloudJobs.JobTable.FinishJob` | tools/pointcloud-worker/runner.py:666-688 | done without an error and failed with one, its first 2000 characters kept, whatever state the row was in |
| `PointCloudCauses.SettledStatesHaveCauses` | tools/pointcloud-worker/runner.py:650-688 | a row becomes done only by a finish without error or a successful settlement, failed only by a finish with an error, a sweep without a cancel or a failed settlement, cancelled only by a cancel; and each of these has that effect |
| `PointCloudCauses.LiveStatesHaveCauses` | tools/pointcloud-worker/runner.py:619-647 | which steps move a row into running, cancel-requested, ingest and importing |
| `PointCloudCauses.WorkerWrites` | tools/pointcloud-worker/runner.py:666-688 | after a finish with an error the row is failed with the error's first 2000 characters; after one without it is done at 100 per cent |
| `PointCloudCauses.OthersWrite` | tools/pointcloud-worker/runner.py:619-647 | what a claim, a sweep, the bridge and a user's cancel write, column by column |
| `PointCloudCauses.SweptIff` | apps/portal-api/src/analysis/analysis-bridge.worker.ts:103-136 | a row is swept exactly when it is in flight and its last sign of life is more than ten minutes old |
| `PointCloudCauses.SettledRowsWereSettled` | tools/pointcloud-worker/runner.py:22-47 | over every run: a done row had a successful finish or settlement, a failed one a finish with an error, a sweep or a failed settlement |
| `PointCloudJobs.StepKeepsInv` | tools/pointcloud-worker/runner.py:3294-3361 | every step of workers, users, sweep and bridge keeps: one holder per job, held jobs in flight or settled by the sweep, at most one claim |
| `PointCloudJobs.ClaimedAtMostOnce` | tools/pointcloud-worker/runner.py:619-647 | in any interleaving no job is claimed twice |
| `PointCloudJobs.StepMoves` | tools/pointcloud-worker/runner.py:22-47 | a step moves a row only along the lifecycle, no worker holds a row that was handed off, and a terminal row is left only by the unguarded finish of a worker still at work on it |
| `PointCloudJobs.IngestOnlyFromRunning` | tools/pointcloud-worker/runner.py:1650-1669 | a row enters ingest only directly from running, by its holder's handoff, which lets go of it |
| `PointCloudJobs.TerminalIsFinalIff` | tools/pointcloud-worker/runner.py:36-47 | a cancelled, failed or done row keeps its state in every run from here exactly when no worker is still at work on it; a done one always does |
| `PointCloudJobs.FailedStaysSettled` | tools/pointcloud-worker/runner.py:22-47 | a failed row never becomes ingest or cancelled: it stays failed or its holder makes it done |
| `PointCloudJobs.SweptJobCanBecomeDone` | apps/portal-api/src/analysis/analysis-bridge.worker.ts:112-132 | whenever the sweep may settle a held job, as cancelled if that was requested and as failed otherwise, its worker's finish can then make it done |
| `PointCloudJobs.SweptCancelIsReachable` | apps/portal-api/src/analysis/analysis-bridge.worker.ts:112-132 | create, claim, cancel, ten silent minutes, sweep: a cancelled row whose worker is still at work |
| `PointCloudJobs.CancelledCanBecomeDone` | tools/pointcloud-worker/runner.py:666-688 | from there the next beat does not stop the worker and its finish makes the cancelled row done |
| `PointCloudJobs.PromptWorkersAreNeverSwept` | tools/pointcloud-worker/runner.py:28-33 | while every worker beats within the window the sweep settles no held job |
| `PointCloudJobs.PromptTerminalIsFinal` | tools/pointcloud-worker/runner.py:28-47 | so in any such run from an empty table every terminal state is final |
| `PointCloudJobs.ReclaimAbandonedScratch` | tools/pointcloud-worker/runner.py:554-614 | removes exactly the removable directories of its own naming whose job is not in flight with a fresh heartbeat |
| `PointCloudCauses.FreshMeans` | tools/pointcloud-worker/runner.py:554-616 | a job shields its scratch until ten minutes after its last sign of life |
| `PointCloudJobs.HeldScratchSurvives` | tools/pointcloud-worker/runner.py:565-576 | while workers beat in time no sweep takes the directory of a held job |
| `Visits.RunsAreMaximal` | infra/analytics/collect.py:764-786 | the runs concatenate to the rows, neighbours inside a run share a visitor with a gap of at most 30 minutes, and cuts fall only where they do not |
| `Visits.MaximalChainsAreRuns` | infra/analytics/collect.py:764-786 | no other cut of the rows has that property |
| `Visits.SqlOrderIsOrdered` | infra/analytics/collect.py:734-738 | rows ordered by ip, ua and ts are contiguous and in time order per visitor, when hashes tell an address's agents apart |
| `Visits.RunsByKey` | infra/analytics/collect.py:764-786 | in (ip, ua, ts) order the runs of one visitor are the runs of that visitor's rows alone |
| `Visits.RunsSplit` | infra/analytics/collect.py:764-786 | where no run reaches over a seam the two sides group independently |
| `Visits.JoinedInOneRun` | infra/analytics/collect.py:764-786 | neighbours within the gap are in one run |
| `Sessions.Count` | infra/analytics/collect.py:787-806 | the updates of the current record for one row keep it the summary of its run so far |
| `Sessions.SessionTable.TakeRow` | infra/analytics/collect.py:770-807 | one row either continues the current session or flushes it and opens the next |
| `Sessions.SessionTable.Sessionise` | infra/analytics/collect.py:697-810 | sessions ending at or after the cutoff go, exactly the runs of the non-keepalive rows from the cutoff on come in with their counts and bot_verdict, and then the coordinated ones from the cutoff on are flagged |
| `Sessions.SessionTable.ShallowRows` | infra/analytics/collect.py:831-838 | the query gives exactly the shallow, uncondemned visits since the cutoff whose network is known, by network and start |
| `Sessions.SessionTable.FlagCoordinated` | infra/analytics/collect.py:813-860 | exactly the visits that some coordinated span of those holds get the reason; all other entries stay |
| `Sessions.SummarySnoc` | infra/analytics/collect.py:787-806 | counting one more row gives the summary of the longer run: extents, hits, pages, api calls, 404s, scripts, tags, flags |
| `Sessions.LoadProbes` | infra/analytics/collect.py:717-723 | the dictionary holds exactly each address's probe times from the loading point on |
| `SessionVerdicts.VisitsMean` | infra/analytics/collect.py:764-780 | keepalives apart, a request continues a visit when it comes from the same address and agent within half an hour |
| `SessionVerdicts.CutoffMeans` | infra/analytics/collect.py:708-711 | a full or first rebuild starts at zero, any other at the earlier of the recent window and half an hour before the last stored end |
| `SessionVerdicts.KeptMeans` | infra/analytics/collect.py:712 | exactly the sessions that ended before the cutoff are kept, as they were |
| `Sessions.HaloSuffices` | infra/analytics/collect.py:688-690 | for a session that starts a halo after the loading point, the near test is the same as over all requests |
| `Sessions.RebuiltVerdictIsTheFullOne` | infra/analytics/collect.py:646-694 | bot_verdict gives a session rebuilt after the cutoff what it would give it in a full rebuild |
| `SessionVerdicts.PersonIff` | infra/analytics/collect.py:646-694 | a visit counts as a person's exactly when none of the four origin rules holds and either a script loaded or none of the three behaviour rules holds |
| `SessionVerdicts.ReasonIsTheFirstRule` | infra/analytics/collect.py:646-694 | each reason is stored exactly when its rule holds and no earlier one does |
| `SessionVerdicts.SummaryMeans` | infra/analytics/collect.py:743-800 | the columns of a session in terms of its requests: counts, times, flags |
| `SessionVerdicts.PersonByRequests` | infra/analytics/collect.py:632-694 | the person rule over the visit's requests, dwell and depth included |
| `SessionVerdicts.StoredVisitMeans` | infra/analytics/collect.py:697-810 | every visit from the cutoff on is stored with those columns, as a person's exactly when its requests say so and it is not coordinated |
| `SessionRebuild.HitsAreConserved` | infra/analytics/collect.py:764-807 | every non-keepalive request is counted in exactly one session |
| `SessionRebuild.SlotsAreUnique` | infra/analytics/collect.py:752-761 | no two runs fall on the same table slot, so no session replaces another |
| `SessionRebuild.RunsSurviveOrReturn` | infra/analytics/collect.py:697-742 | with no visit across the cutoff the runs are exactly the old ones that ended before it and those of the later rows |
| `SessionRebuild.RebuildIsExact` | infra/analytics/collect.py:697-810 | then kept plus rebuilt sessions are exactly those of a full rebuild, extents and counts included |
| `SessionRebuild.StraddlingVisitIsLost` | infra/analytics/collect.py:697-742 | a visit across the cutoff is not in the rebuilt table with its true extent and counts |
| `SessionRebuild.RebuildIsExactIff` | infra/analytics/collect.py:697-810 | the incremental rebuild agrees with a full one exactly when no visit straddles the cutoff |
| `SessionRebuild.FullRebuildIsExact` | infra/analytics/collect.py:697-712 | a full or first rebuild always meets the condition |
| `SessionRebuild.LongLastVisitIsCut` | infra/analytics/collect.py:697-712 | the gap subtracted from the last session does not keep a longer visit whole, against the docstring |
| `SessionRebuild.KeptVerdictCanBeStale` | infra/analytics/collect.py:646-694 | a family of kept sessions whose verdict a later probe would change |
| `RebuildVerdicts.VerdictsAgreeIff` | infra/analytics/collect.py:646-694 | two builds give a session the same bot_verdict exactly when a rule before the probes decides, or a probe was near it in both or in neither |
| `RebuildVerdicts.KeptVerdictIsFullIff` | infra/analytics/collect.py:697-810 | a kept session's bot_verdict is the one a full rebuild gives it exactly when a rule before the probes decides, or a probe was near it among its own build's requests exactly if one is now |
| `RebuildVerdicts.RebuiltEntry` | infra/analytics/collect.py:697-810 | with no visit across the cutoff, the entries from the cutoff on are, before flagging, those of a full rebuild |
| `RebuildVerdicts.RebuiltIsFullIff` | infra/analytics/collect.py:697-860 | what is stored of a session from the cutoff on, flag included, is what a full rebuild stores exactly when it does not have three agents around it only in spans that begin before the cutoff; and a flag is only ever missing |
| `RebuildVerdicts.SessioniseRebuilds` | infra/analytics/collect.py:732-770 | dropping keepalives before or after the cutoff leaves the same visits |
| `Coordinated.FlagGroup` | infra/analytics/collect.py:846-852 | the inner loops add the windows of exactly the anchors that see three agents |
| `Coordinated.ByAsn` | infra/analytics/collect.py:839-841 | the dictionary groups every row under its network, in order |
| `Coordinated.SpanIsAnchored` | infra/analytics/collect.py:846-852 | a ten-minute span with three agents is covered by the window anchored at its first visit |
| `Coordinated.GroupVerdict` | infra/analytics/collect.py:839-852 | per network, the anchors find exactly the sessions of coordinated spans |
| `Coordinated.FlagCoordinated` | infra/analytics/collect.py:813-860 | flags exactly the sessions inside some ten-minute span, beginning at any time, with three agents on one network |
| `SessionVerdicts.ShallowMeans` | infra/analytics/collect.py:829-838 | the visits looked at: persons' so far, of at most two pages, from the cutoff on, on a known network |
| `SessionVerdicts.CoordinatedMeans` | infra/analytics/collect.py:839-852 | a visit is coordinated exactly when some ten minutes around its start hold three agents of its network |
| `Coordinated.FlagsSinceIff` | infra/analytics/collect.py:831-838 | looking only at the visits from the cutoff on never flags more, and flags one differently exactly when it has three agents around it only in spans that begin before the cutoff |
| `Coordinated.CutoffSplitsASpan` | infra/analytics/collect.py:831-838 | three agents on one network within two minutes and the cutoff after the first: together all three are coordinated, the later two alone are not |
| `Blueprints.CollectIds` | packages/shared-types/src/app-templates.ts:1029-1035 | assigns the supplied ids to the widgets in document order, parents first |
| `Blueprints.RemapRefsInConfig` | packages/shared-types/src/app-templates.ts:1037-1056 | the record loop rewrites exactly the values at reference keys that name a collected id |
| `Blueprints.StampBlueprint` | packages/shared-types/src/app-templates.ts:1026-1086 | collects over all pages before it rewrites any |
| `Blueprints.StampedIdsAreFresh` | packages/shared-types/src/app-templates.ts:1013-1025 | the stamped ids, in document order, are exactly the fresh ones: distinct and none of the old |
| `Blueprints.WidgetKeepsItsPlace` | packages/shared-types/src/app-templates.ts:1058-1074 | the widget tree keeps its shape: each place holds the rewritten widget it held |
| `Blueprints.ValueAfterRemap` | packages/shared-types/src/app-templates.ts:1037-1056 | a config keeps its shape and all values except references to known ids |
| `Blueprints.ReferencesFollowTheirTargets` | packages/shared-types/src/app-templates.ts:1013-1025 | a reference field of a widget's config, however deep, that names the widget at some place, on any page, names the copy at that place after stamping |
| `Blueprints.ReferenceFollowsIff` | packages/shared-types/src/app-templates.ts:1026-1086 | any string of a blueprint that names a widget names its copy after stamping with fresh ids exactly when it is at a reference field of a widget's config; any other then names no widget |
| `Blueprints.FollowedMapIsLost` | packages/shared-types/src/app-templates.ts:1078-1085 | the map a source follows: the field is carried over and the stamped app has no widget of that id |
| `Blueprints.UnknownReferencesStay` | packages/shared-types/src/app-templates.ts:1044-1053 | a reference to an id no widget has is unchanged |
| `Blueprints.EveryIdIsReplaced` | packages/shared-types/src/app-templates.ts:1058-1074 | after stamping every place holds a fresh id that the blueprint did not use |
| `QuestionIds.SanitizedIsAnId` | packages/form-schema/src/xlsform-import.ts:492-510 | a sanitized name is empty or a letter followed by letters, digits and single inner underscores |
| `QuestionIds.SanitizeIsIdempotent` | packages/form-schema/src/xlsform-import.ts:492-510 | sanitizing a sanitized name changes nothing |
| `QuestionIds.UniqueIdIsFree` | packages/form-schema/src/xlsform-import.ts:163-174 | the id handed out was free, and is the sanitized name itself when that was free |
| `QuestionIds.FirstFreeIsFree` | packages/form-schema/src/xlsform-import.ts:163-174 | the search ends at the first number whose candidate is free |
| `QuestionIds.TakeUniqueId` | packages/form-schema/src/xlsform-import.ts:163-174 | the renaming loop ends, returns the first free candidate and records it |
| `XlsForm.TakeRow` | packages/form-schema/src/xlsform-import.ts:176-328 | one row: opens, closes, adds, warns or is skipped |
| `XlsMeaning.RowMeans` | packages/form-schema/src/xlsform-import.ts:176-328 | what each type cell adds: a group, a repeat, an end, a warning, a question of the refined type, or nothing |
| `XlsMeaning.NameMeans` | packages/form-schema/src/xlsform-import.ts:499-510 | a name becomes its words with single underscores between them; a first digit gets a prefix |
| `XlsMeaning.UniqueIdMeans` | packages/form-schema/src/xlsform-import.ts:163-174 | the id is the sanitized name, or the first of name_2, name_3, ... that is free |
| `XlsForm.ImportXlsForm` | packages/form-schema/src/xlsform-import.ts:133-345 | the loop over the rows leaves the tree of the stack machine and the warnings, the one for unclosed groups last |
| `XlsForm.IdsAreDistinct` | packages/form-schema/src/xlsform-import.ts:153-174 | whatever the rows, all ids are distinct and in row order |
| `XlsForm.HeadsAreTheAcceptedRows` | packages/form-schema/src/xlsform-import.ts:176-328 | questions and groups come from exactly the accepted rows |
| `XlsFormTree.TreeHoldsEveryRow` | packages/form-schema/src/xlsform-import.ts:133-345 | for any survey, balanced or not, the tree's pre-order is the accepted rows in order, with distinct ids |
| `XlsFormTree.TreePrintsRepaired` | packages/form-schema/src/xlsform-import.ts:180-222 | printing the tree gives back the markers and items less the closing markers that closed nothing plus one per group left open |
| `XlsFormTree.ReproducesIffBalanced` | packages/form-schema/src/xlsform-import.ts:180-222 | the tree reproduces the bracket structure exactly when the markers balance |

## Left out

- The page's own drain (`apps/portal-web/src/lib/offline-sync.ts:219-343`) is a drain of the interleaved
  protocol, with its forced claims and its own write after a refusal; its uploads of files, its progress
  counts and the loop around it are not modelled. The page's retry and discard act on the stored row.
- ReplayOrder.OvertakingIff: is about rows that the identity sees in every version. A row of an older build
  without an owner can become another account's by a fold, and an outage can give it back.
- OfflineEnqueue.OfflineStore.EnqueueEdit: the photographs deleted after an annihilation, the schema hash and
  the background-sync registration are left out; null properties are the empty map.
- What the portal makes of an edit that it accepts is modelled, as one optional feature; its permission checks,
  validation, triggers and edits by other devices are not.
- The portal-api endpoint for cancel appears as an environment step of the job protocol.
- HTTP, IndexedDB, the Cache API, SQL text, subprocesses, S3 and GDAL beyond atomicity and result codes. An
  IndexedDB error at a claim only asks for a retry in the source and is not modelled; a result write that
  fails is, in the interleaved protocol.
- In the interleaved protocol a request that `fetch` gave up on is taken to be settled: the server applies
  it before the network error is seen or not at all. Capture times of one feature's edits are taken to
  increase strictly. ISO date strings, and `localeCompare` on them, are integers with their order.
- A feature is identified by one string for its three parts, and the refusal reason kept on a row is dropped.
- Which URLs are style documents, tiles of a downloaded area or precached shells: two predicates.
- The sanitizer's table of named entities is a partial map that knows the five escapes; lower-casing is
  ASCII only, which is all the code compares with.
- A filter whose operator and value do not fit together (an `in` without a list), and numbers whose decimal
  digits a binary float would round when parsed: a number is its sign, digits and decimal point.
- `validateType` and the evaluator's regular expressions, locale comparison, rounding and text forms are
  uninterpreted. Strict equality of lists and objects is by value; numbers are reals, so NaN and infinities
  do not occur.
- FormCalculations.ApplyCalculations: identity of the returned response is modelled by the flag `changed`,
  because list answers compare by value here and by reference in the source.
- EngineVersion.EngineRequirement: the unknown features are a set, not a sorted list. Malformed questions
  and operands that are not objects are skipped by the source and cannot be written in the model.
- PointCloudChunks.PlanGridChunks: coordinates are reals, so rounding at the core edges is not captured. A
  resolution of zero or less is excluded; the source divides by it.
- PointCloudJobs.StepMoves: the bridge's writes after the import
  (`apps/portal-api/src/analysis/analysis-bridge.worker.ts:248-335`) are updates by id from a row read earlier;
  the model's step needs the row to be in ingest or importing still.
- PointCloudJobs.JobTable.ClaimJob: row locks are not modelled. The claim is one atomic step, and in the
  protocol a worker may take any queued row, which is what skipping locked rows can amount to.
- RebuildVerdicts.KeptVerdictIsFullIff: is about bot_verdict. A kept session keeps the coordinated flag that an
  earlier build gave it or did not give it.
- Sessions.SessionTable.Sessionise: the stored top-eight activity list is the full list of tags, durations
  are not rounded, and two user agents of one address are taken to have different hashes.
- Blueprints.StampBlueprint: the fallback to another fresh id is never reached, since every id was
  collected; a widget's config is an object.
- XlsForm.ImportXlsForm: labels, hints, choices, defaults and the kept XPath strings of a question, and the
  warnings about them. The source appends a group to its parent when it opens and fills its child list by
  reference afterwards; here it joins the parent's list when it closes, so that sharing is not captured. The
  source does not check that a closing marker matches the kind of group it closes, and neither does this.
- Field runtime pages, themes, print layouts, identity provisioning, dashboards, the map engine's rendering
  and the NestJS modules: wiring, constants or straight-line code.
