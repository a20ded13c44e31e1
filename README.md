# TaskMitra sync engine, modelled in Dafny

TaskMitra keeps its tasks in two stores: a local database (Realm, keyed by
the task's `_id`) and a remote database (Firebase, one entry per task at
`tasks/{id}`). `src/services/TaskService.js` moves tasks between them. It
has three operations and one in-memory retry queue:

- **ingest** (`fetchTasksFromFirebase`): every remote snapshot is upserted
  into the local store. Missing fields are coerced to their defaults, and
  every record is marked synced. The whole batch runs in one write
  transaction; an entry the store rejects is skipped.
- **save** (`saveTask`): the task is written locally first, flagged with
  the connectivity result. When connected it is then pushed; a failed
  push queues the task for a retry.
- **sync-all** (`syncUnsyncedTasks`): when connected and there is anything
  to do, every unsynced local record is pushed, and failures join the
  retry queue. The queue is then drained front first; a failed entry
  goes back to the end of the queue.

The model has four modules:

- `TaskModel` (`task_model.dfy`): the record, the coercion ingest applies,
  the payload a push writes, and the task save prepares.
- `Ingest` (`ingest.dfy`): a snapshot batch applied to the local store,
  as a function of the store.
- `RetryQueue` (`retry_queue.dfy`): the FIFO drain (front first, a failed
  entry re-appended at the back) as a function of the queue and of the
  outcome of each push attempt.
- `TaskService` (`task_service.dfy`): the class `SyncEngine`. Its fields
  are `local`, `remote` and `retryQueue`, and its methods `Ingest`,
  `Save` and `SyncAll` update them in place with the source's loops. Each
  method is proved equal to the specification functions above. The
  lemmas beside them state what a sync-all achieves.

The environment becomes parameters:

- network state and push results are booleans or sequences of outcomes,
  one per push attempt;
- the clock is an integer `now`;
- the order in which the local store lists its unsynced records is an
  `order` sequence that enumerates them exactly once;
- a per-entry rejection sequence and a commit-failure flag stand for the
  local store's exceptions.

The JavaScript `||` defaults are modelled on `Option` fields. For strings,
an absent field and `""` both fall back to the default. For timestamps,
`None` stands for any falsy value.

In three places the code departs from the behaviour the design intends,
and the model follows the code:

- **The connected save's sync flag.** The intended meaning of `isSynced`
  is that the local copy matches the last confirmed push, so a record
  should stay unsynced until a push of it succeeds. The code writes a save
  made while connected with `isSynced = true` before the push (lines
  56-65), and a failed push leaves it so. `SyncEngine.Save` states exactly
  that: such a record is retried only from the in-memory queue.
- **Ingest idempotence.** Ingesting the same snapshot again is meant to
  change nothing. The code stamps an entry that lacks a timestamp with
  the current time on every ingest (lines 26-27), so an entry without
  `createdAt` gets a new creation time each time the snapshot arrives.
  Idempotence holds only when every entry carries both timestamps
  (`IngestIdempotent`); `IngestNotIdempotentWithoutTimestamps` shows the
  other case.
- **Retry order.** Entries are meant to be pushed in the order they were
  queued: an entry queued before another should not be pushed after it.
  The code shifts the front entry out (line 124), and when its push
  fails it goes behind every other entry (line 140), so a later entry
  can be pushed first. `FailedEntryPushedAfterLaterOne` shows this for
  the queue `[a, b]`, and `DrainRound` gives the exact order in general.

The drain loop of the code runs until the queue is empty, however many
pushes fail. The model consumes a finite outcome sequence and reports
`StillRetrying` when the outcomes run out first.

## Model

| member | source | states |
|---|---|---|
| TaskModel.OrElse | src/services/TaskService.js:21-25 | a string field falls back to its default exactly when it is absent or empty; otherwise the field is kept |
| TaskModel.TimeOrElse | src/services/TaskService.js:26-27 | an absent timestamp becomes the current time; a present one is kept |
| TaskModel.Coerce | src/services/TaskService.js:17-29 | an ingested record keeps the entry's id and every present non-empty field. Status falls back to "Pending" and priority to "Medium" when absent or empty, so neither is ever empty. Title, description and assignee become "" when absent. Each timestamp is the entry's own when present and the current time otherwise |
| TaskModel.Encode | src/services/TaskService.js:69-74 | the push payload carries every field of the task with the task's own value, both timestamps included |
| TaskModel.CoerceEncodeRoundTrip | src/services/TaskService.js:20-28 | ingesting what a push wrote gives back the pushed task if and only if its status and priority are non-empty |
| TaskModel.CoerceClockFree | src/services/TaskService.js:26-27 | with both timestamps present, coercion does not depend on the clock |
| TaskModel.Prepare | src/services/TaskService.js:49-54 | a saved task keeps the draft's id, title, description, status, assignee and priority. `updatedAt` is the save time. `createdAt` is kept when supplied and is the save time for a new task |
| TaskModel.EditRefreshesOnlyUpdatedAt | src/services/TaskService.js:49-54 | re-saving a stored task changes nothing but `updatedAt` |
| Ingest.ApplyBatchFrame | src/services/TaskService.js:14-35 | ingest adds exactly the accepted ids and never deletes. Every accepted id holds a synced record whose task carries that id. Every other record is untouched |
| Ingest.IngestSnapshot | src/services/TaskService.js:10-40 | a null snapshot or a failed transaction leaves the store unchanged; otherwise the batch is applied |
| Ingest.ApplyBatchLastWins | src/services/TaskService.js:15-31 | the record under an accepted id is the coercion of the last accepted entry with that id, whatever the store held before (unconditional upsert) |
| Ingest.ApplyBatchOverlay | src/services/TaskService.js:17-30 | the batch overrides the store: its effect on any store is that store overlaid with the batch's own result |
| Ingest.ApplyBatchClockFree | src/services/TaskService.js:26-27 | with every timestamp present, the batch's effect does not depend on the clock |
| Ingest.ApplyBatch | src/services/TaskService.js:15-35 | the upsert loop as a fold over the batch; it never removes a record. Its other properties are carried by `ApplyBatchFrame`, `ApplyBatchLastWins`, `ApplyBatchOverlay` and `RejectedEntriesSkipped` |
| Ingest.IngestIdempotent | src/services/TaskService.js:14-35 | when every entry carries both timestamps, ingesting the same snapshot twice equals ingesting it once |
| Ingest.IngestNotIdempotentWithoutTimestamps | src/services/TaskService.js:26-27 | an entry without `createdAt`, ingested at time 10 and again at time 20, ends with creation time 20: the second ingest changes the store |
| Ingest.RejectedEntriesSkipped | src/services/TaskService.js:16-34 | a rejected entry is skipped on its own: the batch acts as its accepted entries with no rejection |
| RetryQueue.Drain | src/services/TaskService.js:123-143 | at most one entry is pushed per push attempt |
| RetryQueue.DrainKeepsEveryEntry | src/services/TaskService.js:123-143 | no entry is lost or duplicated: what is pushed plus what is still queued is the original queue, as a multiset |
| RetryQueue.PushedWasQueued | src/services/TaskService.js:124-131 | only queued entries are pushed |
| RetryQueue.CompletedDrainPushedAll | src/services/TaskService.js:123-143 | a drain that empties the queue has pushed every queued entry |
| RetryQueue.DrainRound | src/services/TaskService.js:123-143 | the exact order of a drain: the first n attempts go to the first n entries in order. Their successes are pushed in that order, and their failures go, in order, behind the entries not yet attempted |
| RetryQueue.DrainAllSucceed | src/services/TaskService.js:123-138 | when every push succeeds, the whole queue is pushed in queue order and nothing is left |
| RetryQueue.FailedEntryPushedAfterLaterOne | src/services/TaskService.js:123-143 | in the queue `[a, b]`, when the push of `a` fails and the next two succeed, `b` is pushed before `a` and the queue ends empty |
| RetryQueue.RetryUntilSuccess | src/services/TaskService.js:123-143 | a queue holding one entry whose push fails any number of times and then succeeds: the entry is pushed once and the queue ends empty |
| RetryQueue.CompletedDrainPushesOnce | src/services/TaskService.js:123-143 | in any queue, an entry queued once is, after a drain that empties the queue, pushed exactly once and no longer queued |
| RetryQueue.Select | src/services/TaskService.js:106-121 | the split of the unsynced pass into the entries whose push succeeded and those whose push failed, each in pass order. `SelectPartition` states that the two parts split the pass, and `SyncEngine.PushPending` ties them to the pushes and the queue |
| RetryQueue.SelectPartition | src/services/TaskService.js:106-121 | every entry of the unsynced pass is either pushed or queued for retry, never both and never neither |
| TaskService.UnsyncedIds | src/services/TaskService.js:100 | exactly the stored ids whose record is not synced |
| TaskService.PendingTasks | src/services/TaskService.js:100-106 | the unsynced pass visits, one per id of the given order, the stored task under that id |
| TaskService.MarkSynced | src/services/TaskService.js:76-81 | flagging one id keeps every key. The record under that id, if there is one, becomes synced with its task unchanged. Every other record is untouched |
| TaskService.MarkAll | src/services/TaskService.js:115-138 | the flag writes after a sequence of successful pushes keep every key. `MarkAllOnlyFlags` states the rest |
| TaskService.PushAll | src/services/TaskService.js:109-131 | the remote writes of a sequence of pushes never remove an id. `PushAllFrame`, `PushAllLastWins` and `PushAllSingleVersion` state the rest |
| TaskService.PushAllLastWins | src/services/TaskService.js:109-131 | each push overwrites `tasks/{id}`: the remote store holds, under an id, the last task pushed with that id |
| TaskService.PushAllFrame | src/services/TaskService.js:109-131 | the remote store gains exactly the pushed ids, and an id that was not pushed keeps its remote value |
| TaskService.MarkAllOnlyFlags | src/services/TaskService.js:115-138 | successful pushes only flag records: no record is added, removed or otherwise changed, and exactly the pushed ids that are stored become synced |
| TaskService.PushAllSingleVersion | src/services/TaskService.js:109-131 | when every pushed task with a given id is the same task, the remote store ends up holding that task |
| TaskService.PendingIsPushed | src/services/TaskService.js:100-143 | a sync-all that empties the queue has pushed the task of every record that was unsynced |
| TaskService.SyncAllLeavesAllSynced | src/services/TaskService.js:100-143 | a sync-all that empties the queue leaves every local record synced |
| TaskService.SyncAllMirrorsLocal | src/services/TaskService.js:106-143 | after a sync-all that empties the queue, the remote store holds the local task of every record that was unsynced or queued, provided no queued entry is an older version of it |
| TaskService.StaleRetryOverwritesNewerEdit | src/services/TaskService.js:123-143 | counterexample: a queued older version is pushed after the newer one. The remote store keeps the older version while the newer local record is flagged synced, and the next ingest brings the older version back locally |
| TaskService.Refreshed | src/services/TaskService.js:124-131 | corrected drain input: each queued entry replaced by the current version of its record, when that record exists |
| TaskService.RefreshedSyncAllMirrorsLocal | src/services/TaskService.js:123-143 | with the corrected queue, a sync-all that empties the queue leaves the remote store holding the local task of every record that was unsynced or queued, with no further condition |
| TaskService.SyncEngine.constructor | src/services/TaskService.js:6 | the retry queue starts empty |
| TaskService.SyncEngine.Ingest | src/services/TaskService.js:8-42 | the upsert loop leaves the local store equal to the snapshot applied to it, or unchanged when the snapshot is null or the transaction fails; the primary-key invariant is kept |
| TaskService.SyncEngine.Save | src/services/TaskService.js:44-91 | the local record is written first, flagged synced exactly when connected (whether or not the push then succeeds), and never rolled back. The remote store changes only when connected and the push succeeds, and then holds the prepared task. Exactly one entry is queued only when connected and the push fails. Offline, nothing else changes. The outcome is the toast shown |
| TaskService.SyncEngine.PushPending | src/services/TaskService.js:106-121 | in order: each success is pushed and its record flagged, and each failure is appended to the queue |
| TaskService.SyncEngine.DrainRetryQueue | src/services/TaskService.js:123-143 | the drain loop's effect on both stores and on the queue is exactly the FIFO drain of the queue |
| TaskService.SyncEngine.SyncAll | src/services/TaskService.js:93-146 | the outcome is `Offline` exactly when not connected, and `AlreadySynced` exactly when connected with nothing unsynced and nothing queued; in both cases nothing changes. Otherwise the effect is one FIFO drain of the unsynced tasks queued ahead of the existing queue. Records keep their keys and tasks. A sync-all that completes empties the queue and leaves every record synced |

## Findings

| source | as written | input that shows it | evidently intended | confidence | as-written member | corrected member |
|---|---|---|---|---|---|---|
| src/services/TaskService.js:123-138 | The drain pushes the snapshot that was queued, even when the record was saved again after it was queued. The snapshot was taken at the time of the failed push. The record is then flagged synced | Task `1700000000000` is saved while connected, and the push fails, so version t1 is queued. It is then edited offline to version t2. A sync-all whose pushes all succeed pushes t2, then t1. The remote store ends with t1 while t2 is flagged synced locally, and the next ingest replaces t2 by t1 | A retry pushes the current version of the record, so the remote store ends with the latest local write | medium, not executed | TaskService.StaleRetryOverwritesNewerEdit | TaskService.RefreshedSyncAllMirrorsLocal |

The engine methods model the code as written. The corrected behaviour is
the drain run over `Refreshed(local, queue)`. For that input the
mirroring property holds without the proviso that
`SyncAllMirrorsLocal` needs.

## Left out

- The screens, notifications and the connectivity-change trigger that calls
  sync-all (`src/screens/TaskListScreen.js:47-56`) are not part of this
  model; toasts become the `SaveOutcome` and `SyncOutcome` values.
- Network connectivity, the remote write and the local store's exceptions
  are oracle parameters. Nothing about their timing or causes is modelled.
- The clock is the parameter `now`; `Date` objects and their ISO-8601
  serialisation on the remote side are modelled as integer instants.
- `String(task._id)` on a non-string id is not modelled: ids are strings
  throughout.
- The `isUpdate` parameter of `saveTask` is never read by the source and
  has no counterpart.
- The `isSynced` field that the spread operator copies into the remote
  payload is ignored; the remote store holds the task fields only.
- Concurrency: the awaits inside a sync-all can interleave with saves and
  ingests in the source; each model operation runs to completion.
- The local store's query result is live in the source. The model takes
  the unsynced records as a snapshot in the store's `order`. A record that
  fails in the unsynced pass is queued as its task value, not as a live
  object; the two agree because a sync-all changes no task content.
- A failure of the local write in `saveTask`, or of the flag update after
  a successful push, is not modelled (the source does not catch either
  separately).
- `src/realm/TaskSchema.js:5-13` declares no `createdAt` and no `priority`.
  The model takes the stored record to hold every field that the service
  writes.
- TaskService.SyncEngine.DrainRetryQueue: the source loop runs until the
  queue is empty, however many pushes fail. The model stops when the
  outcome sequence runs out, and `SyncAll` then reports `StillRetrying`.
- TaskService.SyncAllMirrorsLocal: holds only when no queued entry is an
  older version of the record (see Findings).
- Remote path construction is not modelled: ids are taken to be valid
  remote keys. In the source, `ref(database, ...)` runs outside the `try`
  in both sync-all loops (`src/services/TaskService.js:107` and `:125`).
  If it throws, for example on an id containing `.`, `#`, `$`, `[` or
  `]`, sync-all aborts. At line 125 the entry has already been shifted out
  of the queue, so it is lost, which the model's no-loss property
  (`DrainKeepsEveryEntry`) does not cover.
- The retry queue is not persisted across restarts in the source, and the
  model has no restart.
