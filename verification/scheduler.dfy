/**
 * The three scheduled jobs (ViewCountSchedulerService): collection every 5 minutes,
 * processing of the pending batches every 2 minutes, and the hourly retry, which
 * runs the very same sweep. Each batch is processed on its own: one that fails does
 * not stop the others.
 */
module Scheduler {
  import opened Wrappers
  import opened PendingRecord
  import opened CacheGateway
  import opened DurableStore
  import opened ViewKeys
  import opened BatchMerge
  import opened ViewCount
  import KeyOrder

  /** The collection job: one collection under a fresh batch id; its errors are logged. */
  function CollectTick(sys: System, batchId: string, createdAt: string, f: CollectFaults): (r: System)
    ensures r.store == sys.store
    ensures r.cache.connected == sys.cache.connected
    ensures !IsAvailable(sys.cache) ==> r == sys
    ensures forall k :: IsPendingKey(k) && k != PendingKey(batchId) ==>
      (k in r.cache.store <==> k in sys.cache.store)
  {
    var reply := Collect(sys.cache, batchId, createdAt, f);
    if reply.value.Some? then
      CollectKeepsOtherBatches(sys.cache, batchId, createdAt, f);
      sys.(cache := reply.cache)
    else sys.(cache := reply.cache)
  }

  lemma CollectKeepsOtherBatches(c: Cache, batchId: string, createdAt: string, f: CollectFaults)
    requires Collect(c, batchId, createdAt, f).value.Some?
    ensures forall k :: IsPendingKey(k) && k != PendingKey(batchId) ==>
      (k in Collect(c, batchId, createdAt, f).cache.store <==> k in c.store)
  {
    var written := Set(c, PendingKey(batchId), Record(Snapshot(c, batchId, createdAt)), PendingTtl, f.writeOk);
    assert Collect(c, batchId, createdAt, f).cache == DeleteKeys(written, CounterKeys(c), f.failedDeletes);
    forall k | IsPendingKey(k) ensures k !in CounterKeys(c) {
      assert !IsViewKey(k) by {
        PendingKeyRoundTrip(BatchIdOf(k));
      }
    }
  }

  /** The per-batch loop: processes each id in order and records each result. */
  function RunBatches(sys: System, ids: seq<string>, env: string -> ProcessFaults): (r: (System, seq<bool>))
    ensures |r.1| == |ids|
    ensures r.0.cache.connected == sys.cache.connected
    ensures r.0.store.totals.Keys == sys.store.totals.Keys
    ensures forall k :: k in r.0.cache.store ==> k in sys.cache.store && r.0.cache.store[k] == sys.cache.store[k]
    ensures forall k :: !IsPendingKey(k) && k != TrendingKey ==> (k in r.0.cache.store <==> k in sys.cache.store)
    ensures true !in r.1 ==> r.0 == sys
    decreases |ids|
  {
    if |ids| == 0 then (sys, [])
    else
      var step := ProcessPendingBatch(sys, ids[0], env(ids[0]));
      var rest := RunBatches(step.0, ids[1..], env);
      assert forall i :: 1 <= i < |ids| ==> ([step.1] + rest.1)[i] == rest.1[i - 1];
      (rest.0, [step.1] + rest.1)
  }

  /**
   * The processing job, and the hourly retry job, which is the same code: lists the
   * pending batches and processes each. `env` says how each batch's client calls fare.
   */
  function Sweep(sys: System, keysOk: bool, env: string -> ProcessFaults): (r: System)
    ensures r.cache.connected == sys.cache.connected
    ensures r.store.totals.Keys == sys.store.totals.Keys
    ensures !IsAvailable(sys.cache) || !keysOk ==> r == sys
    ensures forall k :: k in r.cache.store ==> k in sys.cache.store && r.cache.store[k] == sys.cache.store[k]
    ensures forall k :: !IsPendingKey(k) && k != TrendingKey ==> (k in r.cache.store <==> k in sys.cache.store)
  {
    var ids := GetPendingBatches(sys.cache, keysOk);
    if |ids| == 0 then sys else RunBatches(sys, ids, env).0
  }

  // ---------------------------------------------------------------------------
  // Draining

  /** Every client call of a batch's processing works. */
  const Healthy: string -> ProcessFaults := (id: string) => ProcessFaults(true, true, true, true)

  /**
   * A pending entry that processing, with every call working, leaves in place: one
   * that does not parse, a falsy value, one whose `views` cannot be iterated, or a
   * non-empty batch naming a film that is not among `films`.
   */
  predicate Retained(e: Entry, films: set<int>) {
    match e.payload
    case Garbage => true
    case Json(v) =>
      || !Truthy(v)
      || ViewsField(v).Unusable?
      || (ViewsField(v).Listed? && |ViewsField(v).views| > 0 && !KnownFilms(ViewsField(v).views, films))
  }

  /** One healthy processing removes the batch exactly when it is not retained. */
  lemma ProcessRemovesUnlessRetained(sys: System, id: string)
    requires IsAvailable(sys.cache) && PendingKey(id) in sys.cache.store
    ensures PendingKey(id) in ProcessPendingBatch(sys, id, Healthy(id)).0.cache.store
        <==> Retained(sys.cache.store[PendingKey(id)], sys.store.totals.Keys)
  {
    var e := sys.cache.store[PendingKey(id)];
    if e.payload.Json? && Truthy(e.payload.v) && e.payload.v.Record? && |e.payload.v.batch.views| > 0 {
      ApplyMergedApplicable(sys.store, e.payload.v.batch.views);
    }
  }

  lemma PendingKeysDiffer(a: string, b: string)
    requires a != b
    ensures PendingKey(a) != PendingKey(b) && PendingKey(a) != TrendingKey
  {
    PendingKeyRoundTrip(a);
    PendingKeyRoundTrip(b);
    assert IsPendingKey(PendingKey(a));
    assert !IsPendingKey(TrendingKey) by {
      assert TrendingKey[0] != PendingPrefix[0];
    }
  }

  /**
   * With every call working, the loop removes each listed batch exactly when it is
   * not retained, and leaves the unlisted ones alone.
   */
  lemma {:induction false} RunRemovesUnlessRetained(sys: System, ids: seq<string>)
    requires IsAvailable(sys.cache) && KeyOrder.NoDuplicates(ids)
    ensures var r := RunBatches(sys, ids, Healthy).0;
      forall id :: PendingKey(id) in r.cache.store <==>
        PendingKey(id) in sys.cache.store && (id in ids ==> Retained(sys.cache.store[PendingKey(id)], sys.store.totals.Keys))
    decreases |ids|
  {
    if |ids| > 0 {
      var step := ProcessPendingBatch(sys, ids[0], Healthy(ids[0]));
      assert KeyOrder.NoDuplicates(ids[1..]) by {
        forall i, j | 0 <= i < j < |ids[1..]| ensures ids[1..][i] != ids[1..][j] {
          assert ids[1..][i] == ids[i + 1] && ids[1..][j] == ids[j + 1];
        }
      }
      RunRemovesUnlessRetained(step.0, ids[1..]);
      var r := RunBatches(sys, ids, Healthy).0;
      assert r == RunBatches(step.0, ids[1..], Healthy).0;
      forall id ensures PendingKey(id) in r.cache.store <==>
        PendingKey(id) in sys.cache.store && (id in ids ==> Retained(sys.cache.store[PendingKey(id)], sys.store.totals.Keys))
      {
        if id == ids[0] {
          assert id !in ids[1..] by {
            forall j | 0 <= j < |ids[1..]| ensures ids[1..][j] != id {
              assert ids[1..][j] == ids[j + 1];
            }
          }
          if PendingKey(id) in sys.cache.store {
            ProcessRemovesUnlessRetained(sys, id);
          }
        } else {
          PendingKeysDiffer(id, ids[0]);
          assert id in ids <==> id in ids[1..];
        }
      }
    }
  }

  /**
   * Drain: a sweep with every call working leaves exactly the retained batches
   * pending; every other pending batch has been applied and deleted.
   */
  lemma SweepDrains(sys: System)
    requires IsAvailable(sys.cache)
    ensures var r := Sweep(sys, true, Healthy);
      forall id :: PendingKey(id) in r.cache.store <==>
        PendingKey(id) in sys.cache.store && Retained(sys.cache.store[PendingKey(id)], sys.store.totals.Keys)
  {
    var ids := GetPendingBatches(sys.cache, true);
    if |ids| > 0 {
      RunRemovesUnlessRetained(sys, ids);
    }
  }

  /** When no pending batch is retained, a healthy sweep leaves no pending key at all. */
  lemma SweepEmptiesPending(sys: System)
    requires IsAvailable(sys.cache)
    requires forall k :: k in sys.cache.store && IsPendingKey(k) ==> !Retained(sys.cache.store[k], sys.store.totals.Keys)
    ensures forall k :: k in Sweep(sys, true, Healthy).cache.store ==> !IsPendingKey(k)
  {
    SweepDrains(sys);
    var r := Sweep(sys, true, Healthy);
    forall k | IsPendingKey(k) ensures k !in r.cache.store {
      var id := BatchIdOf(k);
    }
  }
}
