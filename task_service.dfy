/** The offline-first sync engine: the local store, the remote store and
    the in-memory retry queue, and the three operations on them (ingest a
    remote snapshot, save one task, sync everything). Connectivity, the
    outcome of each remote push and the current time are inputs. */
module TaskService {
  import opened TaskModel
  import opened Ingest
  import opened RetryQueue

  /** What save reports to its caller. */
  datatype SaveOutcome = SavedAndSynced | QueuedForSync | SavedOffline

  /** What sync-all reports. `StillRetrying` is the state reached when the
      push outcomes given to the model run out while entries are still
      queued: the engine itself would still be draining. */
  datatype SyncOutcome = Offline | AlreadySynced | AllSynced | StillRetrying

  /** The local store is keyed by each record's own id (its primary key). */
  ghost predicate KeyedById(local: map<string, Record>) {
    forall k :: k in local ==> local[k].task.id == k
  }

  /** The ids of a sequence of tasks. */
  function Ids(ts: seq<Task>): set<string> {
    set i | 0 <= i < |ts| :: ts[i].id
  }

  /** The ids of the local records not known to be pushed. */
  function UnsyncedIds(local: map<string, Record>): (ids: set<string>)
    ensures ids <= local.Keys
    ensures forall k :: k in local ==> (k in ids <==> !local[k].isSynced)
  {
    set k | k in local && !local[k].isSynced
  }

  /** `order` lists each id of `ids` exactly once: the order in which the
      local store hands out the records of a query. */
  ghost predicate Enumerates(order: seq<string>, ids: set<string>) {
    (forall i :: 0 <= i < |order| ==> order[i] in ids) &&
    (forall k :: k in ids ==> k in order) &&
    (forall i, j :: 0 <= i < j < |order| ==> order[i] != order[j])
  }

  /** The tasks of the records listed by `order`, in that order. */
  function PendingTasks(local: map<string, Record>, order: seq<string>): (ts: seq<Task>)
    requires forall i :: 0 <= i < |order| ==> order[i] in local
    ensures |ts| == |order|
    ensures forall i :: 0 <= i < |order| ==> ts[i] == local[order[i]].task
  {
    seq(|order|, i requires 0 <= i < |order| => local[order[i]].task)
  }

  /** Flag the record stored under `id` as synced, if there is one. */
  function MarkSynced(local: map<string, Record>, id: string): (r: map<string, Record>)
    ensures r.Keys == local.Keys
    ensures id in local ==> r[id] == local[id].(isSynced := true)
    ensures forall k :: k in local && k != id ==> r[k] == local[k]
  {
    if id in local then local[id := local[id].(isSynced := true)] else local
  }

  /** The local store after each of `ts` was pushed successfully, in order. */
  function MarkAll(local: map<string, Record>, ts: seq<Task>): (r: map<string, Record>)
    ensures r.Keys == local.Keys
    decreases |ts|
  {
    if ts == [] then local
    else
      var n := |ts| - 1;
      MarkSynced(MarkAll(local, ts[..n]), ts[n].id)
  }

  /** Successful pushes only ever flag records: no record is added, removed
      or changed otherwise, and exactly the pushed ids become synced. */
  lemma {:induction false} MarkAllOnlyFlags(local: map<string, Record>, ts: seq<Task>)
    ensures var r := MarkAll(local, ts);
            && r.Keys == local.Keys
            && forall k :: k in r ==> r[k].task == local[k].task &&
                                      r[k].isSynced == (local[k].isSynced || k in Ids(ts))
    decreases |ts|
  {
    if ts != [] {
      var n := |ts| - 1;
      MarkAllOnlyFlags(local, ts[..n]);
      assert Ids(ts) == Ids(ts[..n]) + {ts[n].id} by {
        forall i | 0 <= i < n ensures ts[..n][i] == ts[i] { }
      }
    }
  }

  /** The remote store after each of `ts` was written at `tasks/{id}`, in
      order. */
  function PushAll(remote: map<string, Task>, ts: seq<Task>): (r: map<string, Task>)
    ensures remote.Keys <= r.Keys
    decreases |ts|
  {
    if ts == [] then remote
    else
      var n := |ts| - 1;
      PushAll(remote, ts[..n])[ts[n].id := ts[n]]
  }

  /** Pushes only add or overwrite: the remote store gains exactly the
      pushed ids, and an id that was not pushed keeps its remote value. */
  lemma {:induction false} PushAllFrame(remote: map<string, Task>, ts: seq<Task>)
    ensures var r := PushAll(remote, ts);
            && r.Keys == remote.Keys + Ids(ts)
            && forall k :: k in remote && k !in Ids(ts) ==> r[k] == remote[k]
    decreases |ts|
  {
    if ts != [] {
      var n := |ts| - 1;
      PushAllFrame(remote, ts[..n]);
      assert Ids(ts) == Ids(ts[..n]) + {ts[n].id} by {
        forall i | 0 <= i < n ensures ts[..n][i] == ts[i] { }
      }
    }
  }

  /** Later pushes overwrite earlier ones: the remote store holds, under
      an id, the last task pushed with that id. */
  lemma {:induction false} PushAllLastWins(remote: map<string, Task>, ts: seq<Task>, i: int)
    requires 0 <= i < |ts|
    requires forall j :: i < j < |ts| ==> ts[j].id != ts[i].id
    ensures ts[i].id in PushAll(remote, ts) && PushAll(remote, ts)[ts[i].id] == ts[i]
    decreases |ts|
  {
    var n := |ts| - 1;
    if i < n {
      forall j | i < j < n ensures ts[..n][j].id != ts[..n][i].id {
        assert ts[..n][j] == ts[j];
      }
      PushAllLastWins(remote, ts[..n], i);
      assert ts[..n][i] == ts[i];
    }
  }

  /** When every pushed task carrying id `k` is the same task `t`, the
      remote store ends up holding `t` at `k`. */
  lemma {:induction false} PushAllSingleVersion(remote: map<string, Task>, ts: seq<Task>, t: Task)
    requires t in ts
    requires forall u :: u in ts && u.id == t.id ==> u == t
    ensures t.id in PushAll(remote, ts) && PushAll(remote, ts)[t.id] == t
    decreases |ts|
  {
    var n := |ts| - 1;
    if ts[n].id != t.id {
      assert t in ts[..n] by {
        var i :| 0 <= i < |ts| && ts[i] == t;
        assert i != n;
        assert ts[..n][i] == t;
      }
      PushAllSingleVersion(remote, ts[..n], t);
    }
  }

  /** Every unsynced record's task is among the tasks pushed by a completed
      drain of the pending tasks followed by the queue. */
  lemma PendingIsPushed(local: map<string, Record>, queue: seq<Task>, order: seq<string>,
                        outcomes: seq<bool>, k: string)
    requires Enumerates(order, UnsyncedIds(local))
    requires Drain(PendingTasks(local, order) + queue, outcomes).rest == []
    requires k in UnsyncedIds(local)
    ensures local[k].task in Drain(PendingTasks(local, order) + queue, outcomes).pushed
  {
    var pending := PendingTasks(local, order);
    var i :| 0 <= i < |order| && order[i] == k;
    assert (pending + queue)[i] == local[k].task;
    CompletedDrainPushedAll(pending + queue, outcomes, local[k].task);
  }

  /** A sync-all that drains everything leaves every local record synced. */
  lemma SyncAllLeavesAllSynced(local: map<string, Record>, queue: seq<Task>, order: seq<string>,
                               outcomes: seq<bool>)
    requires KeyedById(local) && Enumerates(order, UnsyncedIds(local))
    requires Drain(PendingTasks(local, order) + queue, outcomes).rest == []
    ensures var after := MarkAll(local, Drain(PendingTasks(local, order) + queue, outcomes).pushed);
            forall k :: k in after ==> after[k].isSynced
  {
    var d := Drain(PendingTasks(local, order) + queue, outcomes);
    MarkAllOnlyFlags(local, d.pushed);
    forall k | k in local && !local[k].isSynced ensures k in Ids(d.pushed) {
      PendingIsPushed(local, queue, order, outcomes, k);
      var j :| 0 <= j < |d.pushed| && d.pushed[j] == local[k].task;
      assert d.pushed[j].id in Ids(d.pushed);
    }
  }

  /** A sync-all that drains everything leaves the remote store holding,
      for every record that was unsynced or queued, exactly the local task,
      provided no queued entry for that id is an older version of it. */
  lemma SyncAllMirrorsLocal(local: map<string, Record>, remote: map<string, Task>, queue: seq<Task>,
                            order: seq<string>, outcomes: seq<bool>, k: string)
    requires KeyedById(local) && Enumerates(order, UnsyncedIds(local))
    requires Drain(PendingTasks(local, order) + queue, outcomes).rest == []
    requires k in local && (k in UnsyncedIds(local) || k in Ids(queue))
    requires forall t :: t in queue && t.id == k ==> t == local[k].task
    ensures var d := Drain(PendingTasks(local, order) + queue, outcomes);
            k in PushAll(remote, d.pushed) && PushAll(remote, d.pushed)[k] == local[k].task
  {
    var pending := PendingTasks(local, order);
    var d := Drain(pending + queue, outcomes);
    var t := local[k].task;
    if k in UnsyncedIds(local) {
      PendingIsPushed(local, queue, order, outcomes, k);
    } else {
      var i :| 0 <= i < |queue| && queue[i].id == k;
      assert (pending + queue)[|pending| + i] == t;
      CompletedDrainPushedAll(pending + queue, outcomes, t);
    }
    forall u | u in d.pushed && u.id == k ensures u == t {
      PushedWasQueued(pending + queue, outcomes, u);
      if u in pending {
        var i :| 0 <= i < |pending| && pending[i] == u;
        assert u == local[order[i]].task;
      }
    }
    PushAllSingleVersion(remote, d.pushed, t);
  }

  /** A queued snapshot older than the record's current version is pushed
      after it. Here a save queued version `t1` (push failed while online),
      an offline edit then wrote `t2`, and a sync-all whose pushes all
      succeed ends with `t2` flagged synced while the remote store holds
      `t1`; the next ingest of the remote snapshot then replaces `t2` by
      `t1` locally as well. */
  lemma StaleRetryOverwritesNewerEdit(remote: map<string, Task>)
    ensures var id := "1700000000000";
            var t1 := Task(id, "Fix bug", "", "Pending", "", "High", 1, 1);
            var t2 := t1.(status := "Done", updatedAt := 2);
            var local := map[id := Record(t2, false)];
            var d := Drain(PendingTasks(local, [id]) + [t1], [true, true]);
            var after := MarkAll(local, d.pushed);
            var pushed := PushAll(remote, d.pushed);
            var ingested := ApplyBatch(after, [Encode(t1)], [false], 3);
            && d.rest == []
            && id in after && after[id] == Record(t2, true)
            && id in pushed && pushed[id] == t1 != t2
            && id in ingested && ingested[id] == Record(t1, true)
  {
    var id := "1700000000000";
    var t1 := Task(id, "Fix bug", "", "Pending", "", "High", 1, 1);
    var t2 := t1.(status := "Done", updatedAt := 2);
    var local := map[id := Record(t2, false)];
    assert PendingTasks(local, [id]) == [t2];
    var d := Drain([t2, t1], [true, true]);
    assert [t2, t1][1..] == [t1] && [t1][1..] == [];
    assert d == Drained([t2, t1], []);
    assert [t2, t1][..1] == [t2] && [t2][..0] == [];
    assert MarkAll(local, [t2]) == map[id := Record(t2, true)];
    assert MarkAll(local, [t2, t1]) == MarkSynced(MarkAll(local, [t2]), id);
    assert PushAll(remote, [t2]) == remote[id := t2];
    assert PushAll(remote, [t2, t1]) == remote[id := t2][id := t1];
    assert [Encode(t1)][..0] == [] && [false][..0] == [];
  }

  /** The queue with each entry replaced by the current version of its
      record, when the record still exists. */
  function Refreshed(local: map<string, Record>, queue: seq<Task>): (q: seq<Task>)
    ensures |q| == |queue|
    ensures forall i :: 0 <= i < |queue| ==>
              q[i] == if queue[i].id in local then local[queue[i].id].task else queue[i]
  {
    seq(|queue|, i requires 0 <= i < |queue| =>
      if queue[i].id in local then local[queue[i].id].task else queue[i])
  }

  /** Pushing the current version of each queued record instead of its
      queued snapshot: a sync-all that drains everything then leaves the
      remote store holding exactly the local task for every record that
      was unsynced or queued. */
  lemma RefreshedSyncAllMirrorsLocal(local: map<string, Record>, remote: map<string, Task>, queue: seq<Task>,
                                     order: seq<string>, outcomes: seq<bool>, k: string)
    requires KeyedById(local) && Enumerates(order, UnsyncedIds(local))
    requires Drain(PendingTasks(local, order) + Refreshed(local, queue), outcomes).rest == []
    requires k in local && (k in UnsyncedIds(local) || k in Ids(queue))
    ensures var d := Drain(PendingTasks(local, order) + Refreshed(local, queue), outcomes);
            k in PushAll(remote, d.pushed) && PushAll(remote, d.pushed)[k] == local[k].task
  {
    var current := Refreshed(local, queue);
    if k in Ids(queue) {
      var i :| 0 <= i < |queue| && queue[i].id == k;
      assert current[i].id == k;
    }
    forall t | t in current && t.id == k ensures t == local[k].task {
      var i :| 0 <= i < |current| && current[i] == t;
    }
    SyncAllMirrorsLocal(local, remote, current, order, outcomes, k);
  }

  /** One more successful push, on both stores. */
  lemma PushAndMarkStep(remote: map<string, Task>, local: map<string, Record>, done: seq<Task>, t: Task)
    ensures PushAll(remote, done + [t]) == PushAll(remote, done)[t.id := t]
    ensures MarkAll(local, done + [t]) == MarkSynced(MarkAll(local, done), t.id)
  {
    assert (done + [t])[..|done|] == done;
  }

  /** Pushing `a` and then `b` is pushing `a + b`. */
  lemma {:induction false} PushAllAppend(remote: map<string, Task>, a: seq<Task>, b: seq<Task>)
    ensures PushAll(PushAll(remote, a), b) == PushAll(remote, a + b)
    decreases |b|
  {
    if b == [] {
      assert a + b == a;
    } else {
      var n := |b| - 1;
      PushAllAppend(remote, a, b[..n]);
      assert (a + b)[..|a| + n] == a + b[..n];
    }
  }

  /** The ids of two sequences of tasks together. */
  lemma IdsAppend(a: seq<Task>, b: seq<Task>)
    ensures Ids(a + b) == Ids(a) + Ids(b)
  {
    forall k | k in Ids(a) + Ids(b) ensures k in Ids(a + b) {
      if k in Ids(a) {
        var i :| 0 <= i < |a| && a[i].id == k;
        assert (a + b)[i] == a[i];
      } else {
        var i :| 0 <= i < |b| && b[i].id == k;
        assert (a + b)[|a| + i] == b[i];
      }
    }
  }

  /** Flagging after `a` and then `b` is flagging after `a + b`. */
  lemma MarkAllAppend(local: map<string, Record>, a: seq<Task>, b: seq<Task>)
    ensures MarkAll(MarkAll(local, a), b) == MarkAll(local, a + b)
  {
    IdsAppend(a, b);
    MarkAllOnlyFlags(local, a);
    MarkAllOnlyFlags(MarkAll(local, a), b);
    MarkAllOnlyFlags(local, a + b);
    var l, r := MarkAll(MarkAll(local, a), b), MarkAll(local, a + b);
    forall k | k in l ensures l[k] == r[k] {
      assert l[k].task == r[k].task && l[k].isSynced == r[k].isSynced;
    }
  }

  /** The engine's state. The source keeps the retry queue in a module-level
      array and receives the two stores from its caller. */
  class SyncEngine {
    var local: map<string, Record>
    var remote: map<string, Task>
    var retryQueue: seq<Task>

    ghost predicate Valid()
      reads this
    {
      KeyedById(local)
    }

    /** A fresh engine: the queue starts empty. */
    constructor (local0: map<string, Record>, remote0: map<string, Task>)
      requires KeyedById(local0)
      ensures Valid()
      ensures local == local0 && remote == remote0 && retryQueue == []
    {
      local := local0;
      remote := remote0;
      retryQueue := [];
    }

    /** One remote snapshot notification: every entry is upserted as a
        synced record, within one transaction that `commitFails` aborts;
        `rejected[i]` says the store threw on entry `i`. */
    method Ingest(snapshot: Option<seq<RemoteTask>>, rejected: seq<bool>, commitFails: bool, now: int)
      requires Valid()
      requires snapshot.Some? ==> |rejected| == |snapshot.value|
      modifies this`local
      ensures Valid()
      ensures local == IngestSnapshot(old(local), snapshot, rejected, commitFails, now)
    {
      if snapshot.None? {
        return;
      }
      var batch := snapshot.value;
      var staged := local;
      for i := 0 to |batch|
        invariant staged == ApplyBatch(local, batch[..i], rejected[..i], now)
      {
        assert batch[..i + 1][..i] == batch[..i] && rejected[..i + 1][..i] == rejected[..i];
        if !rejected[i] {
          staged := staged[batch[i].id := Record(Coerce(batch[i], now), true)];
        }
      }
      assert batch[..|batch|] == batch && rejected[..|batch|] == rejected;
      ApplyBatchFrame(local, batch, rejected, now);
      if !commitFails {
        local := staged;
      }
    }

    /** Save one task: write it locally first, flagged with the
        connectivity result; then, when connected, push it and on failure
        queue it for a later retry. The local write is never undone. */
    method Save(draft: Draft, isConnected: bool, pushSucceeds: bool, now: int) returns (outcome: SaveOutcome)
      requires Valid()
      modifies this
      ensures Valid()
      ensures local == old(local)[draft.id := Record(Prepare(draft, now), isConnected)]
      ensures remote == if isConnected && pushSucceeds then old(remote)[draft.id := Prepare(draft, now)]
                        else old(remote)
      ensures retryQueue == if isConnected && !pushSucceeds then old(retryQueue) + [Prepare(draft, now)]
                            else old(retryQueue)
      ensures outcome == if !isConnected then SavedOffline
                         else if pushSucceeds then SavedAndSynced else QueuedForSync
    {
      var taskToSave := Prepare(draft, now);
      local := local[draft.id := Record(taskToSave, isConnected)];
      if isConnected {
        if pushSucceeds {
          remote := remote[draft.id := taskToSave];
          local := MarkSynced(local, draft.id);
          outcome := SavedAndSynced;
        } else {
          retryQueue := retryQueue + [taskToSave];
          outcome := QueuedForSync;
        }
      } else {
        outcome := SavedOffline;
      }
    }

    /** The pass over the unsynced records: push each, in order; flag each
        success, queue each failure. */
    method PushPending(pending: seq<Task>, outcomes: seq<bool>)
      requires Valid()
      requires |outcomes| == |pending|
      modifies this
      ensures Valid()
      ensures remote == PushAll(old(remote), Select(pending, outcomes, true))
      ensures local == MarkAll(old(local), Select(pending, outcomes, true))
      ensures retryQueue == old(retryQueue) + Select(pending, outcomes, false)
    {
      ghost var local0, remote0, queue0 := local, remote, retryQueue;
      ghost var done: seq<Task>, failed: seq<Task> := [], [];
      assert pending[0..] == pending && outcomes[0..] == outcomes;
      for i := 0 to |pending|
        invariant Select(pending, outcomes, true) == done + Select(pending[i..], outcomes[i..], true)
        invariant Select(pending, outcomes, false) == failed + Select(pending[i..], outcomes[i..], false)
        invariant remote == PushAll(remote0, done) && local == MarkAll(local0, done)
        invariant retryQueue == queue0 + failed
      {
        var task := pending[i];
        SelectAdvance(pending, outcomes, i, true, done);
        SelectAdvance(pending, outcomes, i, false, failed);
        if outcomes[i] {
          PushAndMarkStep(remote0, local0, done, task);
          remote := remote[task.id := task];
          local := MarkSynced(local, task.id);
          done := done + [task];
        } else {
          retryQueue := retryQueue + [task];
          failed := failed + [task];
        }
      }
      assert done + [] == done && failed + [] == failed;
      MarkAllOnlyFlags(local0, done);
    }

    /** The retry drain: pop the front entry and push it; a success flags
        the record with that id, if it still exists; a failure goes to the
        back. Stops when the queue is empty or the outcomes run out. */
    method DrainRetryQueue(outcomes: seq<bool>)
      requires Valid()
      modifies this
      ensures Valid()
      ensures var d := Drain(old(retryQueue), outcomes);
              && remote == PushAll(old(remote), d.pushed)
              && local == MarkAll(old(local), d.pushed)
              && retryQueue == d.rest
    {
      ghost var local0, remote0 := local, remote;
      ghost var total := Drain(retryQueue, outcomes);
      ghost var done: seq<Task> := [];
      var remaining := outcomes;
      while retryQueue != [] && remaining != []
        invariant remote == PushAll(remote0, done) && local == MarkAll(local0, done)
        invariant DrainsTo(total, done, retryQueue, remaining)
        decreases |remaining|
      {
        var task, succeeded := retryQueue[0], remaining[0];
        DrainStep(total, done, retryQueue, remaining);
        retryQueue, remaining := retryQueue[1..], remaining[1..];
        if succeeded {
          PushAndMarkStep(remote0, local0, done, task);
          remote := remote[task.id := task];
          local := MarkSynced(local, task.id);
          done := done + [task];
        } else {
          retryQueue := retryQueue + [task];
        }
      }
      assert Drain(retryQueue, remaining) == Drained([], retryQueue);
      assert done + [] == done;
      MarkAllOnlyFlags(local0, done);
    }

    /** Sync everything: when connected and there is anything to do, push
        every unsynced record in the store's `order`, then drain the retry
        queue. Push outcomes are consumed one per attempt: first
        `passOutcomes` (one per unsynced record), then `drainOutcomes`.
        Altogether this is one FIFO drain of the unsynced records queued
        ahead of the existing queue. */
    method SyncAll(connected: bool, order: seq<string>, passOutcomes: seq<bool>, drainOutcomes: seq<bool>)
      returns (outcome: SyncOutcome)
      requires Valid()
      requires Enumerates(order, UnsyncedIds(local))
      requires |passOutcomes| == |order|
      modifies this
      ensures Valid()
      ensures outcome == Offline <==> !connected
      ensures outcome == AlreadySynced <==> connected && UnsyncedIds(old(local)) == {} && old(retryQueue) == []
      ensures outcome in {Offline, AlreadySynced} ==>
                local == old(local) && remote == old(remote) && retryQueue == old(retryQueue)
      ensures outcome !in {Offline, AlreadySynced} ==>
                var d := Drain(PendingTasks(old(local), order) + old(retryQueue), passOutcomes + drainOutcomes);
                && remote == PushAll(old(remote), d.pushed)
                && local == MarkAll(old(local), d.pushed)
                && retryQueue == d.rest
                && (outcome == AllSynced <==> d.rest == [])
      ensures local.Keys == old(local).Keys
      ensures forall k :: k in local ==> local[k].task == old(local)[k].task
      ensures outcome == AllSynced ==> retryQueue == [] && forall k :: k in local ==> local[k].isSynced
    {
      if !connected {
        return Offline;
      }
      var pending := PendingTasks(local, order);
      if |pending| == 0 && |retryQueue| == 0 {
        assert UnsyncedIds(local) == {};
        return AlreadySynced;
      }
      if retryQueue == [] {
        assert order[0] in UnsyncedIds(local);
      }
      ghost var local0, remote0, queue0 := local, remote, retryQueue;
      PushPending(pending, passOutcomes);
      ghost var succeeded := Select(pending, passOutcomes, true);
      ghost var local1, remote1 := local, remote;
      DrainRetryQueue(drainOutcomes);
      ghost var later := Drain(queue0 + Select(pending, passOutcomes, false), drainOutcomes);
      ghost var d := Drain(pending + queue0, passOutcomes + drainOutcomes);
      assert d == Drained(succeeded + later.pushed, later.rest) by {
        var q, o := pending + queue0, passOutcomes + drainOutcomes;
        DrainRound(q, o, |pending|);
        assert q[..|pending|] == pending && q[|pending|..] == queue0;
        assert o[..|pending|] == passOutcomes && o[|pending|..] == drainOutcomes;
      }
      PushAllAppend(remote0, succeeded, later.pushed);
      MarkAllAppend(local0, succeeded, later.pushed);
      MarkAllOnlyFlags(local0, d.pushed);
      outcome := if retryQueue == [] then AllSynced else StillRetrying;
      if outcome == AllSynced {
        SyncAllLeavesAllSynced(local0, queue0, order, passOutcomes + drainOutcomes);
      }
    }
  }
}
