# Verification of the protocol cores

This project models the parts of the system that are protocols rather than plumbing, and proves what they keep over
every run. Each module follows one component; code that changes state in place is a class with methods proved against
specification functions, and the promises are lemmas about those functions.

| file | component |
|---|---|
| `Prelude.dfy` | options, sequences without repetition, set sizes |
| `FolderTable.dfy` | the folder table: parent graph, stored paths and depths, the repository's read-only queries |
| `FolderCascades.dfy` | the three Celery workers that drain a subtree in batches of 200 |
| `FolderService.dfy` | phase 1 of create, soft delete, restore and move |
| `FolderEffects.dfy`, `FolderMoves.dfy` | phase 1 followed by a drained cascade |
| `FolderWorld.dfy` | requests and worker batches as atomic steps of one state |
| `FolderCover.dfy` | which steps lose an active folder under a deleted parent |
| `FolderTracks.dfy` | stored paths while cascades run, and which moves are safe |
| `FolderRuns.dfy` | whole runs, any interleaving |
| `FolderRequests.dfy` | what each request answers, and what the version column protects against |
| `FolderCounterexamples.dfy`, `FolderLimits.dfy` | runs in which the tree does break |
| `PathText.dfy` | paths as slash-joined text |
| `SlidingWindow.dfy`, `PairLimiter.dfy`, `FixedWindow.dfy` | the three rate limiters |
| `Failover.dfy`, `FailoverTurns.dfy`, `ModelFailover.dfy` | provider failover, told by scripts and by turns, and the model failover below it |
| `LeaseLock.dfy` | the Redis lock |
| `VersionPromotion.dfy` | document status and version promotion under out-of-order events |
| `GeminiTurns.dfy` | chat contents for Gemini |
| `RankFusion.dfy` | Reciprocal Rank Fusion |
| `NearDuplicates.dfy` | the near-duplicate filter behind it |

## Reading guide

**Folders.** A row stores its place three times: `parent_id`, the materialised `path`, and `depth`. `World` holds the
table, every delete and restore worklist, and the move cascade in progress; every transaction is one step. The central
invariant (`InOrder`) says that the parent graph is a forest, that every active folder under a deleted one is still
ahead of some delete worklist, and that every stored path is right or one rewrite away from right. `QuiescentTree`
draws the conclusion when nothing is pending. Runs are taken under named rules: `CarefulSteps` asks of each step the
conditions below, while `TakingTurns`, `OrderlyMoves` and `OrderlyTurns` restrict only which requests may overlap and
derive the same conclusions from that (`TurnRunClosed`, `OrderlyPathsAgree`, `OrderlyTurnsSettle`). If moves also keep
the depth of the folder they move, no stored depth ever drifts (`LevelMovesWellFormed`). `QuiescentTree` delivers what the
lemmas on moves ask for, a forest with true active paths, and `MoveCascadeEffect` gives it back, so they apply to one
move after another, with stale paths on deleted rows or without.

What a request answers is stated in terms of the tree, not of its checks (`MoveAcceptedIff` and its siblings in
`FolderRequests`). Over any run, a row that has changed carries a greater version, so a delete with the version a client
has read is accepted exactly if the row is still the one it read (`NoLostUpdate`).

Paths are sequences of ids in all of this. `PathText` carries the cycle check, prefixes and the rewrite over to the
stored text, for any way of printing the ids at hand; `UuidTextPrints` shows that the form in use is one.

The workers do not run as written. All three test `ws.status == WorkspaceStatus.HARD_DELETED`
(`backend/tasks/folders.py:65`, `:157`, `:240`), but the enumeration (`backend/models/entities/workspace.py:12-18`) has
no such member, so for every workspace that exists the test raises and the task is retried with no batch run.
`CascadeSoftDelete`, `CascadeRestore` and `CascadeMove` state this. What is proved of `CascadeFlip` and `DrainMove`, and
all that is built on them (the effects, the runs and their counterexamples), concerns the loop behind a guard that has
been repaired.

The following properties, which one might expect, do not hold of the code. Each has an input at which it fails and the
exact condition under which it holds:

- A restore batch that runs beside a delete can leave an active folder under a deleted one (`OverlapBreaksClosure`).
  A restore batch keeps the cover exactly when `RestoreGuard` holds (`RestoreBatchCoverIff`); if deletes and restores
  take turns it always does (`TurnRunClosed`).
- A batch fetches at most 1000 children and never comes back for the rest: deleting a folder with 1001 children leaves
  one active for good (`WideDeleteLosesChild`). A delete batch loses nothing exactly when its active children number at
  most 1000 (`DeleteBatchCoverIff`), and the delete of a folder of leaves visits all of them exactly up to 1000
  (`WideCascadeCompleteIff`).
- The move cascade skips deleted folders, so their paths go stale; the stored paths all agree afterwards exactly when
  the subtree held no deleted folder (`MovePathsAgreeIff`). Restoring such a folder lets the cycle check accept a move
  of a folder into its own subtree (`StaleRestoreMakesCycle`); a restore step is safe exactly when `NotStale` holds
  (`RestoreOnTrackIff`), and it always holds if moves are orderly (`OrderlyPathsAgree`).
- The move worker need not end. Its loop can go on for ever exactly when its folder lies on a cycle of active rows and
  the cascade does not push rows down (`MoveNeverEndsIff`); the move of `StaleRestoreMakesCycle` is such a one. The
  recursive height query ends exactly when its folder lies on no cycle (`HeightQueryEndsIff`).
- No restore is needed for a cycle: a delete whose cascade has not started yet hides a subtree from a move cascade, and
  the next move closes a cycle (`PendingDeleteMakesCycle`). An accepted move keeps the forest exactly when its target is
  outside the moved subtree (`MoveForestIff`); while visible paths are on track, the cycle check can miss that only if a
  deleted row lies on the walk between the two (`CycleNeedsDeletedRow`), and every accepted move with both upward walks
  active is safe (`OnTrackMove`).
- The cascade shifts the moved folder's `depth` although phase 1 has already set it. The table is fully well-formed
  afterwards exactly when the depth did not change and nothing was skipped (`MoveWellFormedIff`).
- For the same reason the CHECK constraint `depth <= 10` aborts the cascade of an accepted move whenever
  `2 * new - old > 10`, and lets it commit otherwise (`MoveCascadeCommitsIff`); a lone root moved to depth 6 is such a
  move (`AcceptedMoveAborts`). The design review
  (`docs/Archive/epic5/F5.3_F5.4_FINAL_ENTERPRISE_ARCHITECTURE_REVIEW.md:33`) argues that the constraint cannot fire;
  the code does not bear that out, and the model follows the code.
- Once a stored depth has drifted, the limits read off it drift too. A folder moved from depth 5 to the top stores -5,
  and nested creates below it are accepted down to true depth 14 (`DepthCapFails`). The cap on creates fails below a
  folder exactly when its stored depth is less than its true depth (`CreateCapFailsIff`). `Drift` is that difference.
  The depth check on moves passes exactly when true depth plus drift stays within 10 on the whole subtree
  (`MoveDepthIff`); with drifted depths it lets a folder through to true depth 15 (`MoveCapFails`).

**Rate limiters.** The specification is the unpruned log of admitted calls over real time. Timestamps do not decrease
and members are unique. For the sliding windows the pruned sorted set, including the expiry of the whole key, decides as
the log does. The fixed-window counter lets at most `2 * limit - 1` calls through in one window's length, and that bound
is reached. In the pair limiter a tenant and a user with the same id share one key, which can then hold more than the
smaller limit; `retry_after` is exact for a key used in one role (`RetryAfterIsExact`) and can come too early for a
shared one (`SharedKeyStillFull`); `RoomAfterIff` says when the key has room.

**Failover.** A provider is a script of what each attempt yields and raises. `Leaves` is everything a request leaves
behind (attempts, breaker records, metric records, errors, sleep); the methods `Stream` and `Generate` are proved
against it, and the lemmas say what it means. The methods record every attempt in the ghost field `trials` and gather
every chunk that goes out, so that nothing stitched together is a statement about the loops. `FailoverTurns` tells the
same requests without the scripts' vocabulary: which attempts a provider's turn may consist of (`IsTurn`) and which turns
a request (`IsRequest`) leaves no choice (`RequestUnique`), and everything a request leaves behind follows from them
(`RequestTurns`, `OutcomeOfTurns`).

**Versions.** The stage of a document that is not READY is that of the last event it has seen (`StageIsLastEvents`).
Completions in any order promote the same number. They promote the same version exactly when at most one
version is named at the highest number (`SameVersionIff`); with nothing promoted, unknown versions are promoted as they
stand (`UnknownVersionsArePromoted`). A rollback promotes a new version before it is served; `ServesPromotedIff` says
which steps do that, `ReadyServesPromoted` that a READY document serves its promoted version all the same, and
`RollbackServes` that a late completion for the version still served leaves nothing served until the rollback is done.

**Retrieval.** The engine modelled is the shipped one. Scores are computed from the rank each candidate carries, sorted
exactly and shown rounded. An earlier engine, which counts positions instead, is kept as text in
`archive/implementation-history/scripts/impl_m5_part3.py:16-52`; where ranks are positions the two give the same scores,
but the shipped one shows a chunk found twice as the dense search saw it, with both sources.

## Model

| member | source | states |
|---|---|---|
| FolderTable.RelinkKeepsForestIff | backend/services/folder_service.py:435-470 | putting one folder under another keeps every upward walk finite if and only if the new parent is not in the moved subtree |
| FolderTable.CheckCycleExact | backend/repositories/folder_repository.py:154-163 | on agreeing paths the prefix check answers exactly "is the target the source or inside its subtree" |
| FolderTable.DeepestIn | backend/repositories/folder_repository.py:165-192 | the maximum the height query computes: attained in the subtree, deleted rows included, and exceeded nowhere in it |
| FolderTable.HeightFallsShort | backend/repositories/folder_repository.py:186-192 | the query falls short of the height exactly when the subtree starts below depth 0 and ends at 0, and then by all of it |
| FolderTable.SubtreeHeightIsTrue | backend/repositories/folder_repository.py:165-192 | on a well-formed table that answer is the greatest number of parent links from any descendant up to the folder |
| FolderCascades.BatchOf200 | backend/tasks/folders.py:69-70 | a batch is the first 200 folders of the worklist, or all of it |
| FolderCascades.FolderDb.SelectChildren | backend/tasks/folders.py:88-94 | the child query returns distinct matching children, all of them when they fit the limit of 1000 |
| FolderCascades.FolderDb.FlipBatch | backend/tasks/folders.py:68-94 | one delete or restore transaction: the guarded update of the batch, its row count, and the children read after it |
| FolderCascades.FolderDb.CascadeFlip | backend/tasks/folders.py:58-104 | the worklist loop ends, flips exactly the rows it visits and counts the changed ones; it visits the whole reachable subtree if no 200 of its own folders have more than 1000 children, and misses some if one of them alone has |
| FolderCascades.FolderDb.CascadeSoftDelete | backend/tasks/folders.py:51-104 | over the statuses there are: skipped for a missing workspace, raised and retried for every other, no row changed; behind a repaired guard the drained delete cascade |
| FolderCascades.FolderDb.CascadeRestore | backend/tasks/folders.py:146-192 | over the statuses there are: skipped for a missing workspace, raised and retried for every other, no row changed; behind a repaired guard a suspended workspace is put off, any other drained |
| FolderCascades.FolderDb.MoveBatch | backend/tasks/folders.py:243-271 | one move transaction: children read first, then the batch rewritten and shifted, or nothing if a depth breaks the constraint |
| FolderCascades.FolderDb.DrainMove | backend/tasks/folders.py:235-275 | for a folder on no cycle of active rows: the worklist loop ends, having shifted exactly the rows it visited, the whole reachable subtree when its own fan-out fits, or the batches before the aborted one |
| FolderCascades.MoveNeverEndsIff | backend/tasks/folders.py:243-275 | the loop has runs of any length if and only if its folder lies on a cycle of active rows and the depth change is not positive; every run is bounded otherwise |
| FolderCascades.FolderDb.CascadeMove | backend/tasks/folders.py:229-281 | over the statuses there are: skipped for a missing workspace, raised and retried for every other, no row changed; behind a repaired guard the visited rows are rewritten and shifted once each, and it gives up only if some reachable row breaks the constraint |
| FolderCascades.MoveRound | backend/tasks/folders.py:243-275 | one round keeps the worklist discipline: no row is visited twice, and none is forgotten if and only if none was before and this fetch was not cut |
| FolderService.FolderService.CreateFolder | backend/services/folder_service.py:148-211 | verdict in the order of the checks; the new row on success, no change otherwise |
| FolderService.FolderService.SoftDeleteFolder | backend/services/folder_service.py:254-310 | verdict, row change, cascade lock and queued task |
| FolderService.FolderService.RestoreFolder | backend/services/folder_service.py:312-384 | verdict, row change, cascade lock and queued task |
| FolderService.FolderService.SubtreeHeightQuery | backend/repositories/folder_repository.py:165-192 | for a folder on no cycle the level-by-level query ends and returns the subtree height |
| FolderService.HeightQueryEndsIff | backend/repositories/folder_repository.py:170-180 | the recursive query runs out of rows if and only if its folder lies on no cycle of parent links |
| FolderService.FolderService.MoveFolder | backend/services/folder_service.py:402-500 | verdict in the order of the checks; link, path, depth, version and the queued prefixes and delta on success |
| FolderEffects.CreateKeepsTree | backend/services/folder_service.py:161-173 | a create keeps parent, path and depth in agreement and never goes below depth 9 |
| FolderEffects.NamesStayUnique | backend/services/folder_service.py:157-159 | create, move and soft delete keep the names of active siblings distinct |
| FolderEffects.DeleteCascadeEffect | backend/tasks/folders.py:68-98 | delete plus drained cascade deletes exactly the subtree, bumps each flipped row once, changes nothing else; the count is the active strict descendants |
| FolderEffects.RestoreCascadeEffect | backend/tasks/folders.py:163-190 | restore plus drained cascade reactivates exactly the deleted rows of the subtree, with the mirror-image count |
| FolderEffects.DeleteThenRestore | backend/tasks/folders.py:163-190 | delete then restore gives back the active set if and only if the subtree was wholly active before |
| FolderMoves.RewriteIdempotent | backend/tasks/folders.py:262-271 | rewriting a path twice with the prefixes of one move is rewriting it once |
| FolderMoves.MoveKeepsForest | backend/services/folder_service.py:435-470 | on agreeing paths every move into the folder's own subtree is refused, and an accepted move keeps the parent graph a forest |
| FolderMoves.MoveDepthIff | backend/services/folder_service.py:442-446 | the depth check passes if and only if on every folder of the subtree, deleted ones included, true depth plus drift after the move is at most 10, or more only by what the height query falls short |
| FolderMoves.MoveDepthSound | backend/services/folder_service.py:442-446 | on a well-formed table the depth check passes if and only if no folder of the subtree ends deeper than 10 |
| FolderMoves.MoveCascadeEffect | backend/tasks/folders.py:243-275 | on any forest with true active paths: after the drained cascade every visited row has its parent's path plus its id, all active descendants were visited, rows outside are untouched, and the table is again such a forest |
| FolderMoves.MoveDriftEffect | backend/tasks/folders.py:262-271 | descendants take over the new parent's drift in place of the folder's, and the folder's own depth counts the shift twice |
| FolderMoves.MoveVersions | backend/tasks/folders.py:258-281 | a move leaves name, deletion and purge alone; the rows visited are one version on, the moved folder three |
| FolderMoves.MovePathsAgreeIff | backend/tasks/folders.py:248-252 | all stored paths agree afterwards if and only if the subtree held no deleted folder |
| FolderMoves.MoveWellFormedIff | backend/tasks/folders.py:262-271 | path, parent and depth all agree afterwards if and only if the depth stayed the same and nothing was skipped |
| FolderMoves.MoveCascadeCommitsIff | backend/models/entities/folder.py:61 | the CHECK constraint lets the cascade commit if and only if twice the new depth minus the old is at most 10; the rows below matter only if the height answer fell short and the new depth is negative |
| FolderCover.DeleteBatchCoverIff | backend/tasks/folders.py:68-98 | where no other worklist helps, a delete batch keeps every endangered folder queued if and only if the batch has at most 1000 active children |
| FolderCover.RestoreBatchCoverIff | backend/tasks/folders.py:163-190 | a restore batch keeps every endangered folder queued if and only if what it reactivates is under an active parent or still queued for deletion |
| FolderCover.CoverStep | backend/tasks/folders.py:68-98 | no uncut, guarded step of any request or worker loses an active folder under a deleted parent |
| FolderTracks.RestoreOnTrackIff | backend/services/folder_service.py:336-344 | a restore step, beside a running move or not, keeps the stored paths right if and only if no row it brings back has a stale path |
| FolderTracks.MoveForestIff | backend/services/folder_service.py:435-470 | an accepted move keeps every upward walk finite if and only if its target is outside the moved subtree |
| FolderTracks.CycleNeedsDeletedRow | backend/services/folder_service.py:435-440 | while the visible paths are on track, the cycle check accepts a target inside the moved subtree only if a deleted row lies on the walk between them |
| FolderTracks.OnTrackMove | backend/services/folder_service.py:435-470 | a move accepted when every row above its two ends is active keeps the forest and starts its cascade on track, whatever deletes and restores are pending |
| FolderRuns.OnTrackStep | backend/tasks/folders.py:243-275 | while cascades of all kinds run side by side every visible path is right or one rewrite away from right |
| FolderRuns.InOrderStep | backend/services/folder_service.py:148-500 | every careful step keeps forest, cover and paths together |
| FolderRuns.QuiescentInOrder | backend/services/folder_service.py:148-500 | every forest with true active paths, the empty workspace included and stale paths on deleted rows allowed, satisfies the invariant when nothing is pending |
| FolderRuns.QuiescentTree | backend/tasks/folders.py:68-98 | after any careful interleaving, with no delete or move pending: deletion is closed under children, the graph is a forest, active paths are true, the cycle check is exact |
| FolderRuns.NothingSurvivesBelow | backend/tasks/folders.py:68-98 | once the delete worklists are empty every folder under a deleted one is deleted, those created meanwhile included, whatever moves ran beside |
| FolderRuns.DeletesSettle | backend/tasks/folders.py:68-98 | any number of delete cascades interleaved with creates: once all worklists are empty, everything under a deleted folder is deleted |
| FolderRuns.AlwaysForest | backend/services/folder_service.py:435-470 | at every moment of a careful run, whatever is pending, every upward walk terminates |
| FolderRuns.TurnRunClosed | backend/tasks/folders.py:163-190 | if deletes and restores take turns, the deleted set is closed under children whenever no delete is pending |
| FolderRuns.OrderlyPathsAgree | backend/tasks/folders.py:243-275 | if moves take wholly active subtrees with no delete pending and no delete starts during a move, every stored path, deleted rows included, is right between moves, however restores interleave |
| FolderRuns.OrderlyTurnsSettle | backend/services/folder_service.py:148-500 | with deletes and restores taking turns and orderly moves: once nothing is pending the deleted set is closed, all paths agree and the cycle check is exact for every pair of rows |
| FolderRuns.LevelMovesWellFormed | backend/services/folder_service.py:443-464 | if orderly moves keep the depth of the folder they move, every row stores its true depth at every moment, and between moves the table is well-formed |
| FolderRequests.NoLostUpdate | backend/services/folder_service.py:260-261 | after any run, a delete with the version once read is accepted if the row is still the one read and answered with a conflict otherwise; so is a move of a row that has changed |
| FolderRequests.OnlyFirstWins | backend/services/folder_service.py:260-276 | of two clients with the same version the second is refused, whatever the two ask for |
| FolderRequests.CreateAnswers | backend/services/folder_service.py:148-170 | on a well-formed tree a create is accepted if and only if it is admitted, fewer than 100000 folders are active, the name is free, the parent active and of true depth at most 8; and which refusal is given otherwise |
| FolderRequests.DeleteAnswers | backend/services/folder_service.py:254-271 | accepted if and only if the folder is active, the version current and no cascade holds its lock; and which refusal is given otherwise |
| FolderRequests.RestoreAnswers | backend/services/folder_service.py:312-350 | on a well-formed tree accepted if and only if the folder is deleted, its purge has not begun, its parent is active, its true depth at most 10 and its lock free; and which refusal is given otherwise |
| FolderRequests.MoveAcceptedIff | backend/services/folder_service.py:402-456 | on a quiescent well-formed tree a move is accepted if and only if both ends are active, the version current, the target new and outside the subtree, everything stays within true depth 10, the name free and the lock free |
| FolderRequests.MoveAnswers | backend/services/folder_service.py:402-456 | which answer a move that is not accepted gets |
| FolderRequests.RepeatedMoveIsNoOp | backend/services/folder_service.py:432-433 | a move asked for again changes nothing, whether its cascade still runs or not |
| FolderRequests.NewFolderIsEditable | backend/services/folder_service.py:180-200 | a new folder is at version 1, can be deleted, and restored again |
| FolderRequests.RestoreUndoesDelete | backend/services/folder_service.py:273-278 | delete and restore give back the row two versions on with no purge scheduled; in between it can be restored until its purge begins |
| FolderRequests.ScheduleOutlivesRestore | backend/tasks/folders.py:163-175 | a folder deleted on its own and brought back by the restore of one above it is active and still scheduled for purge |
| FolderCounterexamples.OverlapBreaksClosure | backend/tasks/folders.py:163-190 | an overlapping delete and restore can end with nothing pending and an active folder under a deleted one |
| FolderCounterexamples.StaleRestoreMakesCycle | backend/tasks/folders.py:248-252 | a folder restored with a stale path lets the cycle check accept a move that closes a cycle, and the cascade of that move can run for ever |
| FolderCounterexamples.PendingDeleteMakesCycle | backend/tasks/folders.py:248-252 | without any restore, and with every move drained before the next, a delete still waiting lets a move close a cycle |
| FolderLimits.WideDeleteLosesChild | backend/tasks/folders.py:88-98 | deleting a folder with 1001 children ends with nothing pending and one child active |
| FolderLimits.WideCascadeCompleteIff | backend/tasks/folders.py:88-98 | the delete of a folder of leaves visits them all, whatever order the query answers in, if and only if there are at most 1000 |
| FolderLimits.AcceptedMoveAborts | backend/tasks/folders.py:258-271 | a lone root moved to depth 6 is accepted, and the constraint then refuses every batch of its cascade |
| FolderLimits.AdmittedIff | backend/services/folder_service.py:161-170 | a nest of creates below a folder is accepted in full if and only if the stored depth reaches at most 9 |
| FolderLimits.CreateCapFailsIff | backend/services/folder_service.py:161-170 | some accepted nest of creates below a folder gets truly deeper than 9 if and only if the folder stores less than its true depth |
| FolderLimits.DepthCapFails | backend/services/folder_service.py:161-170 | a run that moves a folder from depth 5 to the top and then nests creates to the true depth 14 |
| FolderLimits.MoveCapFails | backend/services/folder_service.py:442-446 | that run continued by an accepted move that takes a folder to the true depth 15 |
| PathText.UuidTextPrints | backend/services/folder_service.py:161-173 | the 36-character form prints every 128-bit id, each as a text of its own, so the results on printers hold of stored paths |
| PathText.TextPrefixIff | backend/services/folder_service.py:171-173 | on path text, prefix is prefix of the id sequences |
| PathText.TextCycleIff | backend/repositories/folder_repository.py:154-163 | the cycle check on text is the check on id sequences |
| PathText.TextReplaceIsRewrite | backend/tasks/folders.py:267 | the regular-expression replacement on text is the prefix rewrite on id sequences |
| SlidingWindow.WindowBound | backend/cache/rate_limit.py:49-78 | over every run no half-open interval of one window's length holds more than `limit` admitted calls |
| SlidingWindow.RetryAfterIsLeast | backend/cache/rate_limit.py:68-76 | `retry_after` of a denial is the least whole number of seconds, at least one, after which a call would be admitted |
| SlidingWindow.ExpiryForgetsNothing | backend/cache/rate_limit.py:66 | when the whole key expires, everything it held had left the window |
| SlidingWindow.ScriptRefines | backend/cache/rate_limit.py:49-78 | the script on the pruned set answers as the unpruned log does: decision, remaining and retry time |
| SlidingWindow.RateKey.Eval | backend/cache/rate_limit.py:49-78 | one run of the script: the log's answer, and the log grows by the call exactly if it is admitted |
| SlidingWindow.RateKey.CheckLimit | backend/cache/rate_limit.py:81-180 | allowed exactly when the log is under its limit; under an outage the degradation policy decides and nothing is recorded |
| PairLimiter.WindowBounds | backend/ai/wrapper/rate_limit.py:23-66 | over every run, with any mix of ids, no tenant and no user exceeds its limit in any interval of one window |
| PairLimiter.NoUseRetryingEarlier | backend/ai/wrapper/rate_limit.py:39-56 | before `retry_after` has passed the key that denied the call is still full |
| PairLimiter.RoomAfterIff | backend/ai/wrapper/rate_limit.py:39-56 | after any wait, the key that denied the call has room if and only if as many of its newest admissions as the limit no longer all lie in the window |
| PairLimiter.RetryAfterIsExact | backend/ai/wrapper/rate_limit.py:39-56 | for an id used in one role only, `retry_after` is the least whole number of seconds, at least one, after which the key has room |
| PairLimiter.SharedKeyStillFull | backend/ai/wrapper/rate_limit.py:39-56 | a key shared by a tenant and a user can still be full when `retry_after` has passed |
| PairLimiter.AddBoth | backend/ai/wrapper/rate_limit.py:58-63 | adding the member to both sets is adding one admission to the history of every key |
| PairLimiter.ScriptRefinesPair | backend/ai/wrapper/rate_limit.py:23-66 | the script on the two pruned sets decides as the two histories do, and leaves sets that again stand for the history |
| PairLimiter.PairLimiter.Eval | backend/ai/wrapper/rate_limit.py:23-66 | admitted exactly when both histories are under their limits; an admission enters both sets, a denial neither |
| PairLimiter.WhoIsNamed | backend/ai/wrapper/rate_limit.py:39-56 | a denial names the tenant whenever the tenant's history is full, and the user only when it is not |
| PairLimiter.PairLimiter.CheckRateLimit | backend/ai/wrapper/rate_limit.py:71-118 | the decision on the two histories, with the denying key and its wait, or admission without a record when Redis fails |
| FixedWindow.FixedWindowBound | backend/services/folder_service.py:130-146 | at most `2 * limit - 1` calls pass in any 60 seconds |
| FixedWindow.BoundAttained | backend/services/folder_service.py:130-146 | for every limit there is a run that reaches this bound |
| FixedWindow.Counter.Hit | backend/services/folder_service.py:136-139 | the counter's answer is the position of the call in its window, and the window starts at the first call |
| FixedWindow.CheckRateLimits | backend/services/folder_service.py:130-146 | both counters are hit in every case, and the user's is looked at first |
| Failover.NoStitching | backend/ai/manager.py:411-532 | what the consumer receives over all attempts is exactly what one attempt yielded: all of it on success, nothing when every provider failed |
| Failover.OnlyLastSpeaks | backend/ai/manager.py:411-527 | every attempt but the last one made yields nothing |
| Failover.OneRecordEach | backend/ai/manager.py:139-343 | the breaker gets one record per provider called, in priority order, and none for a skipped one |
| Failover.OnlyLastSucceeds | backend/ai/manager.py:198-212 | only the last breaker record can be a success, and it is one exactly when the request finishes |
| Failover.ErrorsInOrder | backend/ai/manager.py:139-186 | one error per provider passed over, in priority order, all of them when everything fails |
| Failover.CallBound | backend/ai/manager.py:189-329 | at most `n * (max_retries + 1)` provider calls, and one metric record per call |
| Failover.BackoffSum | backend/ai/manager.py:273-281 | a provider that ends at attempt `a` costs `initial_delay * (2^a - 1)` of sleep |
| Failover.HealthIsHistory | backend/ai/manager.py:87-114 | folding the records of any history, total is successes plus failures, both as counted in it, and `consecutive_failures` is the length of the trailing failure run |
| FailoverTurns.RetryableIff | backend/ai/manager.py:68-85 | what is retried: 429, 500, 502, 503 and 504 always; 400, 401 and 403 never; anything else if its text speaks of the network |
| FailoverTurns.VisitIsTurn | backend/ai/manager.py:189-329 | a provider's turn: none if it is refused; otherwise every attempt that another follows yielded nothing and failed with a fault that may pass, and fewer than all attempts end with one that did not |
| FailoverTurns.TurnUnique | backend/ai/manager.py:189-329 | the script leaves one such turn only |
| FailoverTurns.RequestTurns | backend/ai/manager.py:125-343 | every request is a list of turns, each provider asked because the one before passed, and leaves behind exactly what the turns say: attempts, records, reasons, sleep |
| FailoverTurns.RequestUnique | backend/ai/manager.py:125-343 | the scripts leave one such list only |
| FailoverTurns.OutcomeOfTurns | backend/ai/manager.py:362-532 | the outcome is read off the last attempt of the last turn |
| Failover.Manager.RecordMetrics | backend/ai/manager.py:87-114 | one record changes the provider's own entry alone and keeps every entry in agreement with the history |
| Failover.Manager.Admit | backend/ai/manager.py:139-186 | circuit, canary and registry checks; a refused provider keeps no lease |
| Failover.Manager.StreamFrom | backend/ai/manager.py:410-527 | the retry loop ends at the provider's final attempt, the chunks of all attempts made reach the consumer after those sent before, with one breaker record and the lease given back |
| Failover.Manager.GenerateFrom | backend/ai/manager.py:188-338 | the same for the non-streaming call |
| Failover.Manager.Stream | backend/ai/manager.py:345-532 | outcome, every chunk sent over all attempts of all providers, the attempts made, breaker records, metrics and sleep of the whole request, and no lease still held |
| Failover.Manager.Generate | backend/ai/manager.py:125-343 | the same for the non-streaming call, which never breaks off in the middle |
| ModelFailover.OneModelHeard | backend/ai/providers/openrouter.py:197-268 | all tokens of all models asked are the tokens of one model |
| ModelFailover.StreamLaw | backend/ai/providers/openrouter.py:175-271 | the stream is that of the first model that does not fail silently, a completion without tokens included; when all do, each error names its model and status |
| ModelFailover.ReplyLaw | backend/ai/providers/openrouter.py:84-170 | a non-streaming request hears the content of the first model that has one |
| ModelFailover.ReplyErrors | backend/ai/providers/openrouter.py:84-170 | with no content from any model, one error per model with the status it answered |
| ModelFailover.Stream | backend/ai/providers/openrouter.py:175-271 | tokens and ending of the model loop; when all fail, one error per model and the status of the last |
| ModelFailover.Generate | backend/ai/providers/openrouter.py:84-170 | the content of the first model that has one, or one error per model |
| ModelFailover.LayersDoNotStitch | backend/ai/manager.py:411-532 | across both layers, whatever exceptions say and whichever are retried, the consumer receives the tokens of one model call of one attempt of one provider, all of them on success |
| LeaseLock.RunKeepsInv | backend/cache/locks.py:48-76 | the invariant of the key and the sections over every interleaving |
| LeaseLock.SectionsDisjoint | backend/cache/locks.py:48-76 | a section that exits before its lease expires overlaps no later one; two overlapping sections mean the earlier overran |
| LeaseLock.OneHolder | backend/cache/locks.py:53-58 | at most one process is inside its lease, and the key is its lease |
| LeaseLock.ReleaseTouchesOwnOnly | backend/cache/locks.py:68-76 | a release removes a live key if and only if it is the releaser's own; a lapsed holder removes nothing live |
| LeaseLock.OverrunOverlaps | backend/cache/locks.py:48-76 | a holder that overruns its lease does share the section with its successor |
| LeaseLock.RedisKey.Acquire | backend/cache/locks.py:48-62 | the polling loop takes the key at the first look that finds it free before the deadline, and fails if there is none |
| LeaseLock.RedisKey.Eval | backend/cache/locks.py:68-76 | the script deletes the key exactly if it is live and holds the caller's token |
| VersionPromotion.PromotionIsMonotone | backend/tasks/listeners.py:292-353 | over every run of events the promoted version number never decreases, and READY is left only by a rollback or a re-ingestion |
| VersionPromotion.OrderDoesNotMatter | backend/tasks/listeners.py:302-350 | every order and repetition of the same completions promotes the same number |
| VersionPromotion.SameVersionIff | backend/tasks/listeners.py:302-350 | every order and repetition of the same completions promotes the same version if and only if they name at most one version at the highest number |
| VersionPromotion.FinalRankIsPeak | backend/tasks/listeners.py:302-350 | the promoted number is the maximum of the start and all completions |
| VersionPromotion.UnknownVersionsArePromoted | backend/tasks/listeners.py:323-330 | with nothing promoted yet an unknown version is promoted as it stands, so the last of two wins |
| VersionPromotion.StageIsLastEvents | backend/tasks/listeners.py:50-261 | the status of a document that is not READY is the stage of the last event: CHUNKING, EMBEDDING, VECTOR_SYNC, or UPLOADED after an upload, rollback or re-ingestion |
| VersionPromotion.PipelineClimbs | backend/tasks/listeners.py:50-353 | in their order the events take a document up these stages one by one, and to READY unless its version has been superseded |
| VersionPromotion.NumbersHaveNoGaps | backend/document/services/document_service.py:805-813 | over every run the versions are numbered 1, 2, 3 and so on, each number once |
| VersionPromotion.PromotionServes | backend/tasks/listeners.py:323-349 | a completion not older than the promoted version makes it the only one served; an older one changes neither promotion nor status |
| VersionPromotion.ServesPromotedIff | backend/document/services/document_service.py:847-850 | a step takes a document away from serving its promoted version if and only if it is a rollback or the staging of a first version |
| VersionPromotion.OnlyPromotedIsServed | backend/document/repositories/document_repository.py:223-238 | the served version stays exactly the promoted one over every run without such a step |
| VersionPromotion.ReadyServesPromoted | backend/document/services/document_service.py:903-919 | over every run, rollbacks included, at most one version is served, and a READY document serves the promoted one |
| VersionPromotion.RollbackServes | backend/document/services/document_service.py:903-919 | the version served before a rollback stays served until the completion of its clone, which alone is served then; a late completion for it stops all service meanwhile |
| VersionPromotion.Document.UploadNewVersion | backend/document/services/document_service.py:805-850 | the new version is numbered above all others and inactive, promoted only if none was, and the status is UPLOADED unless READY |
| VersionPromotion.Document.Reingest | backend/document/services/document_service.py:1138-1212 | re-ingestion takes the document back to UPLOADED from any status, promotion and service unchanged |
| VersionPromotion.Document.RollbackToVersion | backend/document/services/document_service.py:903-919 | an unknown target is refused; otherwise a new inactive version is promoted and the status is UPLOADED |
| VersionPromotion.Document.HandleVectorsIndexed | backend/tasks/listeners.py:292-353 | the handler is the promotion step |
| VersionPromotion.Document.HandleDocumentProcessed | backend/tasks/listeners.py:50-58 | CHUNKING after dispatch unless READY |
| VersionPromotion.Document.HandleChunkingCompleted | backend/tasks/listeners.py:183-191 | EMBEDDING after dispatch unless READY |
| VersionPromotion.Document.HandleEmbeddingCompleted | backend/tasks/listeners.py:244-261 | VECTOR_SYNC after dispatch unless READY; a duplicate dispatches nothing |
| GeminiTurns.ConversationCarries | backend/ai/providers/gemini.py:52-70 | the turns are exactly the entries of the history that are dictionaries of the user or the assistant with a string that is not blank, in order, each under its role and trimmed, and last the prompt |
| GeminiTurns.Stripped | backend/ai/providers/gemini.py:59-61 | trimming takes away the blanks around the text and nothing else |
| GeminiTurns.InjectedOnce | backend/ai/providers/gemini.py:52-70 | the system instruction goes into exactly one turn, the first user turn, and every other turn is as it was |
| GeminiTurns.MergeCuts | backend/ai/providers/gemini.py:72-78 | the contents cut the turns into maximal same-role runs, each content the join of one run |
| GeminiTurns.MergeKeepsText | backend/ai/providers/gemini.py:74-78 | no text is lost, repeated or reordered by merging |
| GeminiTurns.ChatText | backend/ai/providers/gemini.py:72-84 | read from top to bottom the chat is the text of the turns, after "Hello." if the assistant would have opened it |
| GeminiTurns.WellFormedChat | backend/ai/providers/gemini.py:72-84 | roles alternate, and the first and the last turn are the user's |
| GeminiTurns.BuildContents | backend/ai/providers/gemini.py:46-84 | the whole construction, the plain string for an empty history included |
| RankFusion.SortRanks | backend/modules/retrieval/services/fusion.py:99-100 | the sort is by descending score, equal scores in order of first appearance |
| RankFusion.Fuse | backend/modules/retrieval/services/fusion.py:49-126 | each chunk of either input once, best first by the exact score, its score rounded, ranks 1 to n, the content of the first list that has it, its rank in each list and every list it was found in |
| RankFusion.ShownScoreIs | backend/modules/retrieval/services/fusion.py:55-112 | the score shown is within half a millionth of 1/(k+p), of 1/(k+q), or of their sum for a chunk at ranks p and q of both lists |
| RankFusion.RoundedIs | backend/modules/retrieval/services/fusion.py:112 | the rounded score is a whole number of millionths, the nearest, the even one of two |
| RankFusion.ShownScoresDescend | backend/modules/retrieval/services/fusion.py:99-117 | the rounded scores never increase down the list |
| RankFusion.SwapKeepsScores | backend/modules/retrieval/services/fusion.py:53-100 | swapping the inputs gives the same chunks, the same scores and the same score at every rank |
| RankFusion.FusionIsMonotone | backend/modules/retrieval/services/fusion.py:53-98 | a chunk at least as well ranked wherever another appears scores at least as much, exactly and as shown |
| RankFusion.AgreementWinsIff | backend/modules/retrieval/services/fusion.py:53-98 | a chunk at ranks p and q of the two lists is sure to beat the single-list chunks if and only if (p-1)(q-1) < (k+1)^2 |
| RankFusion.AgreementWins | backend/modules/retrieval/services/fusion.py:53-98 | a chunk in both lists at ranks up to k+1 strictly outscores every chunk that is in one list only |
| RankFusion.LeadStandsAbove | backend/modules/retrieval/services/fusion.py:99-117 | the chunk with the higher exact score stands above the other, whatever rounding shows |
| NearDuplicates.Deduplicate | backend/modules/retrieval/services/fusion.py:129-181 | the two loops leave the candidates the greedy pass keeps, in their order, ranked 1 to n, otherwise unchanged |
| NearDuplicates.SimilarityIs | backend/modules/retrieval/services/fusion.py:18-24 | similarity is the share of common tokens among all; at 0.92 two candidates are near duplicates if and only if they differ in at most two tokens for every 23 they share |
| NearDuplicates.KeptIsFilter | backend/modules/retrieval/services/fusion.py:151-167 | no survivor is similar to one above it, and whatever is gone is similar to a survivor above it |
| NearDuplicates.FilterUnique | backend/modules/retrieval/services/fusion.py:151-167 | only one list of survivors has this property, so it determines the filter |
| NearDuplicates.FilterIsIdempotent | backend/modules/retrieval/services/fusion.py:151-167 | filtering the survivors again removes nothing |
| NearDuplicates.SurvivorsOfFusion | backend/modules/retrieval/services/fusion.py:129-181 | behind fusion the best result survives, the survivors stand by exact score, and of two results with the same tokens only the better one can survive |

## Left out

- FolderService.FolderService.CreateFolder: the limiter's answer is a parameter here, modelled in `FixedWindow`; slugs and their unique index are not part of this model.
- FolderRuns.QuiescentTree: the conditions of `Careful` are asked of each step; `OrderlyTurnsSettle` needs none of them but uncut fetches. For the `depth` column there are `LevelMovesWellFormed` and, move by move, `MoveDriftEffect`.
- FolderCover.CoverStep: a fetch cut by the limit of 1000 is excluded, because the code loses the remaining children (`DeleteBatchCoverIff`).
- FolderService.FolderService.MoveFolder: asks that the folder lie on no cycle, since the height query does not end otherwise (`HeightQueryEndsIff`).
- FolderEffects.NamesStayUnique: restore does not check names again, so it is not among the operations.
- SlidingWindow.RateKey.Eval: assumes non-decreasing timestamps, unique members and a fixed limit and window per key.
- PairLimiter.PairLimiter.Eval: the same assumptions; tenants and users may share an id, and then share a key.
- Failover.Manager.Stream: cancellation by the consumer, latency figures, the per-kind metric counters and a negative `max_retries` are not modelled; whether an exception's text speaks of the network is a property of the fault.
- ModelFailover.Stream: decoding of the event lines is not modelled; a model's answer is a sequence of tokens.
- GeminiTurns.BuildContents: whitespace is space, tab, carriage return and line feed; other Unicode spaces are not stripped in the model.
- RankFusion.Fuse: scores are reals, not floating-point numbers, and `rrf_k` is not negative; document, tenant and metadata columns are carried along and not modelled.
- NearDuplicates.Deduplicate: candidates are values, so the new ranks are not seen through the list they came from; the tokenizer is a parameter.
- VersionPromotion.ReadyServesPromoted: archiving, deletion, soft-deleted versions and the retry of failed documents are not among the events.
- The state of a SQLAlchemy session, such as whether a transaction has already begun when a worker opens one.
- One workspace is modelled; the workspace filter of every query is therefore not visible.
- A database transaction or a Lua script is one atomic step. Crashes between transactions, Celery retries and their restarts from the root are not modelled.
- Expiry of the folder cascade lock in Redis, and what it admits, is not part of the folder runs, which do not rely on the lock.
- More than one move cascade at a time on one workspace: the cycle check reads paths that are then still being rewritten.
- Rename, hard delete and purge, retention, folder statistics, cache invalidation, audit logs and events.
- The inside of the circuit breaker: its state and the success of a canary request are inputs.
- The failure synchronizer, vector clean-up and the embedding quota of the pipeline listeners; versions belong to one document.
- Frontend, routers, middleware, seeders and plain repositories: only easy members.
