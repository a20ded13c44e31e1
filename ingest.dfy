/** Ingest: a full remote snapshot upserted, entry by entry, into the local
    store inside one write transaction. Each entry becomes a synced record
    under its id; an entry the store rejects is skipped; a failed
    transaction changes nothing. */
module Ingest {
  import opened TaskModel

  /** The ids of the snapshot entries the store accepted. */
  function AcceptedIds(batch: seq<RemoteTask>, rejected: seq<bool>): (ids: set<string>)
    requires |rejected| == |batch|
  {
    set i | 0 <= i < |batch| && !rejected[i] :: batch[i].id
  }

  /** The local store after upserting `batch` in order; `rejected[i]` says
      whether the store threw on entry `i` (it is then skipped). */
  function ApplyBatch(store: map<string, Record>, batch: seq<RemoteTask>, rejected: seq<bool>, now: int)
    : (r: map<string, Record>)
    requires |rejected| == |batch|
    ensures store.Keys <= r.Keys
    decreases |batch|
  {
    if batch == [] then store
    else
      var n := |batch| - 1;
      var before := ApplyBatch(store, batch[..n], rejected[..n], now);
      if rejected[n] then before
      else before[batch[n].id := Record(Coerce(batch[n], now), true)]
  }

  /** Ingest adds exactly the accepted ids, stores each as a synced record
      under its own id, and leaves every other record untouched (there is no
      deletion). */
  lemma {:induction false} ApplyBatchFrame(store: map<string, Record>, batch: seq<RemoteTask>,
                                           rejected: seq<bool>, now: int)
    requires |rejected| == |batch|
    ensures var r := ApplyBatch(store, batch, rejected, now);
      && r.Keys == store.Keys + AcceptedIds(batch, rejected)
      && (forall k :: k in store && k !in AcceptedIds(batch, rejected) ==> r[k] == store[k])
      && (forall k :: k in AcceptedIds(batch, rejected) ==> r[k].isSynced && r[k].task.id == k)
    decreases |batch|
  {
    if batch != [] {
      var n := |batch| - 1;
      ApplyBatchFrame(store, batch[..n], rejected[..n], now);
      assert AcceptedIds(batch, rejected)
          == AcceptedIds(batch[..n], rejected[..n]) + (if rejected[n] then {} else {batch[n].id}) by {
        forall i | 0 <= i < n ensures batch[..n][i] == batch[i] && rejected[..n][i] == rejected[i] {
        }
      }
    }
  }

  /** The local store after one snapshot notification: nothing happens when
      the snapshot is null or the transaction fails. */
  function IngestSnapshot(store: map<string, Record>, snapshot: Option<seq<RemoteTask>>,
                          rejected: seq<bool>, commitFails: bool, now: int)
    : (r: map<string, Record>)
    requires snapshot.Some? ==> |rejected| == |snapshot.value|
    ensures snapshot.None? || commitFails ==> r == store
    ensures snapshot.Some? && !commitFails ==> r == ApplyBatch(store, snapshot.value, rejected, now)
  {
    if snapshot.None? || commitFails then store else ApplyBatch(store, snapshot.value, rejected, now)
  }

  /** Entry `i` is the last accepted entry of the batch carrying id `k`. */
  predicate LastAccepted(batch: seq<RemoteTask>, rejected: seq<bool>, k: string, i: int)
    requires |rejected| == |batch|
  {
    0 <= i < |batch| && !rejected[i] && batch[i].id == k &&
    forall j :: i < j < |batch| && !rejected[j] ==> batch[j].id != k
  }

  /** Last writer wins within a batch: the record stored under an accepted id
      is the coercion of the last accepted entry with that id, whatever the
      store held before. */
  lemma {:induction false} ApplyBatchLastWins(store: map<string, Record>, batch: seq<RemoteTask>,
                                              rejected: seq<bool>, now: int, k: string)
    requires |rejected| == |batch|
    requires k in AcceptedIds(batch, rejected)
    ensures k in ApplyBatch(store, batch, rejected, now)
    ensures exists i :: LastAccepted(batch, rejected, k, i) &&
                        ApplyBatch(store, batch, rejected, now)[k] == Record(Coerce(batch[i], now), true)
    decreases |batch|
  {
    var n := |batch| - 1;
    var before := ApplyBatch(store, batch[..n], rejected[..n], now);
    var after := ApplyBatch(store, batch, rejected, now);
    ApplyBatchFrame(store, batch, rejected, now);
    assert after == if rejected[n] then before else before[batch[n].id := Record(Coerce(batch[n], now), true)];
    if !rejected[n] && batch[n].id == k {
      assert LastAccepted(batch, rejected, k, n);
    } else {
      assert after[k] == before[k];
      var i0 :| 0 <= i0 < |batch| && !rejected[i0] && batch[i0].id == k;
      assert i0 < n;
      assert k in AcceptedIds(batch[..n], rejected[..n]) by {
        assert batch[..n][i0] == batch[i0] && rejected[..n][i0] == rejected[i0];
      }
      ApplyBatchLastWins(store, batch[..n], rejected[..n], now, k);
      var i :| LastAccepted(batch[..n], rejected[..n], k, i) &&
               before[k] == Record(Coerce(batch[..n][i], now), true);
      assert batch[..n][i] == batch[i];
      assert LastAccepted(batch, rejected, k, i) by {
        forall j | i < j < |batch| && !rejected[j] ensures batch[j].id != k {
          if j < n {
            assert batch[..n][j] == batch[j] && rejected[..n][j] == rejected[j];
            assert !rejected[..n][j];
          } else {
            assert j == n;
          }
        }
      }
    }
  }

  /** The batch overrides the store: applying it to any store is the store
      updated with what the batch alone produces. */
  lemma {:induction false} ApplyBatchOverlay(store: map<string, Record>, batch: seq<RemoteTask>,
                                             rejected: seq<bool>, now: int)
    requires |rejected| == |batch|
    ensures ApplyBatch(store, batch, rejected, now) == store + ApplyBatch(map[], batch, rejected, now)
    decreases |batch|
  {
    if batch != [] {
      var n := |batch| - 1;
      ApplyBatchOverlay(store, batch[..n], rejected[..n], now);
    }
  }

  /** With every timestamp present, the batch's own effect does not depend
      on the clock. */
  lemma {:induction false} ApplyBatchClockFree(store: map<string, Record>, batch: seq<RemoteTask>,
                                               rejected: seq<bool>, now1: int, now2: int)
    requires |rejected| == |batch|
    requires forall i :: 0 <= i < |batch| ==> HasTimestamps(batch[i])
    ensures ApplyBatch(store, batch, rejected, now1) == ApplyBatch(store, batch, rejected, now2)
    decreases |batch|
  {
    if batch != [] {
      var n := |batch| - 1;
      ApplyBatchClockFree(store, batch[..n], rejected[..n], now1, now2);
      CoerceClockFree(batch[n], now1, now2);
    }
  }

  /** Ingesting the same snapshot twice, with its timestamps present, leaves
      the store as ingesting it once. */
  lemma IngestIdempotent(store: map<string, Record>, batch: seq<RemoteTask>,
                         rejected: seq<bool>, now1: int, now2: int)
    requires |rejected| == |batch|
    requires forall i :: 0 <= i < |batch| ==> HasTimestamps(batch[i])
    ensures ApplyBatch(ApplyBatch(store, batch, rejected, now1), batch, rejected, now2)
         == ApplyBatch(store, batch, rejected, now1)
  {
    var once := ApplyBatch(store, batch, rejected, now1);
    var effect := ApplyBatch(map[], batch, rejected, now1);
    ApplyBatchOverlay(store, batch, rejected, now1);
    ApplyBatchOverlay(once, batch, rejected, now2);
    ApplyBatchClockFree(map[], batch, rejected, now2, now1);
    assert once + effect == store + effect + effect;
  }

  /** Without timestamps ingest is not idempotent: an entry lacking
      `createdAt` is stamped with the clock again on every ingest, so the
      same snapshot ingested at two instants leaves two different records. */
  lemma IngestNotIdempotentWithoutTimestamps()
    ensures var e := RemoteTask("1700000000000", Some("Fix bug"), None, None, None, Some("High"), None, Some(5));
            var once := ApplyBatch(map[], [e], [false], 10);
            var twice := ApplyBatch(once, [e], [false], 20);
            && e.id in once && once[e.id].task.createdAt == 10
            && e.id in twice && twice[e.id].task.createdAt == 20
            && twice != once
  {
    var e := RemoteTask("1700000000000", Some("Fix bug"), None, None, None, Some("High"), None, Some(5));
    ApplyBatchSnoc(map[], [], [], e, false, 10);
    assert [] + [e] == [e] && [] + [false] == [false];
    var once := ApplyBatch(map[], [e], [false], 10);
    ApplyBatchSnoc(once, [], [], e, false, 20);
  }

  /** The entries the store accepted, in snapshot order. */
  function Accepted(batch: seq<RemoteTask>, rejected: seq<bool>): (a: seq<RemoteTask>)
    requires |rejected| == |batch|
    decreases |batch|
  {
    if batch == [] then []
    else
      var n := |batch| - 1;
      Accepted(batch[..n], rejected[..n]) + (if rejected[n] then [] else [batch[n]])
  }

  /** Applying one more entry after a batch. */
  lemma ApplyBatchSnoc(store: map<string, Record>, batch: seq<RemoteTask>, rejected: seq<bool>,
                       x: RemoteTask, skip: bool, now: int)
    requires |rejected| == |batch|
    ensures ApplyBatch(store, batch + [x], rejected + [skip], now)
         == if skip then ApplyBatch(store, batch, rejected, now)
            else ApplyBatch(store, batch, rejected, now)[x.id := Record(Coerce(x, now), true)]
  {
    assert (batch + [x])[..|batch|] == batch && (rejected + [skip])[..|batch|] == rejected;
  }

  /** A rejected entry is skipped on its own: the batch has the effect of
      its accepted entries applied with no rejection at all. */
  lemma {:induction false} RejectedEntriesSkipped(store: map<string, Record>, batch: seq<RemoteTask>,
                                                  rejected: seq<bool>, now: int)
    requires |rejected| == |batch|
    ensures ApplyBatch(store, batch, rejected, now)
         == ApplyBatch(store, Accepted(batch, rejected), seq(|Accepted(batch, rejected)|, _ => false), now)
    decreases |batch|
  {
    if batch != [] {
      var n := |batch| - 1;
      var front, rfront, x := batch[..n], rejected[..n], batch[n];
      var a := Accepted(front, rfront);
      var none := seq(|a|, _ => false);
      var before := ApplyBatch(store, front, rfront, now);
      RejectedEntriesSkipped(store, front, rfront, now);
      assert before == ApplyBatch(store, a, none, now);
      if rejected[n] {
        assert Accepted(batch, rejected) == a;
      } else {
        assert Accepted(batch, rejected) == a + [x];
        assert seq(|a| + 1, _ => false) == none + [false];
        ApplyBatchSnoc(store, a, none, x, false, now);
      }
    }
  }
}
