/**
 * Properties of the view counter: the two counting paths agree, collection loses
 * nothing it has written, and processing a batch is its reference flush.
 */
module ViewCountFacts {
  import opened Wrappers
  import opened PendingRecord
  import opened CacheGateway
  import opened DurableStore
  import opened ViewKeys
  import opened BatchMerge
  import opened ViewCount
  import Films

  // ---------------------------------------------------------------------------
  // Counting a view

  /** The direct path writes exactly what flushing a batch of one view would. */
  lemma DirectIsFlush(s: Store, filmId: int, today: string)
    requires ':' !in today && filmId in s.totals
    ensures IncrementDirect(s, filmId, today, true) == Some(Flushed(s, [View(Some(filmId), today, 1)]))
  {
    var v := View(Some(filmId), today, 1);
    var r := IncrementDirect(s, filmId, today, true).value;
    var f := Flushed(s, [v]);
    assert [v][1..] == [];
    assert Touched([v]) == {DayKey(filmId, today)};
    forall id | id in s.totals ensures r.totals[id] == f.totals[id] {
      assert ViewSum([v], (w: View) => w.film == Some(id)) == if id == filmId then 1 else 0;
    }
    forall dk | dk in r.daily ensures dk in f.daily && r.daily[dk] == f.daily[dk] {
      assert ViewSum([v], (w: View) => w.film == Some(dk.film) && w.date == dk.date)
          == if dk == DayKey(filmId, today) then 1 else 0;
      assert DailyCount(r, dk) == r.daily[dk];
    }
    assert r.totals == f.totals;
    assert r.daily == f.daily;
  }

  /**
   * With the cache available a view becomes one more on its live counter, which
   * gets the 7-day TTL when created; the store is not written.
   */
  lemma BufferedView(sys: System, filmId: int, today: string, n: int)
    requires IsAvailable(sys.cache) && CounterOf(sys.cache, ViewKey(filmId, today)) == Some(n)
    ensures var r := IncrementView(sys, filmId, today, true, true, true);
      && r.1 == Returned(true)
      && r.0.store == sys.store
      && CounterOf(r.0.cache, ViewKey(filmId, today)) == Some(n + 1)
      && (ViewKey(filmId, today) !in sys.cache.store ==> r.0.cache.store[ViewKey(filmId, today)].ttl == Some(CounterTtl))
      && forall k :: k != ViewKey(filmId, today) ==> (k in r.0.cache.store <==> k in sys.cache.store)
  {
    IncrementCounts(sys.cache, ViewKey(filmId, today), CounterTtl, true, n);
  }

  /**
   * A failing counter increment is swallowed: the call still reports success
   * although the view was recorded nowhere.
   */
  lemma CacheFailureLosesView(sys: System, filmId: int, today: string, expireOk: bool, commit: bool)
    requires IsAvailable(sys.cache)
    ensures IncrementView(sys, filmId, today, false, expireOk, commit) == (sys, Returned(true))
  {
  }

  /** With the cache unavailable a view is flushed at once, or the call throws. */
  lemma FallbackIsFlush(sys: System, filmId: int, today: string, incrOk: bool, expireOk: bool)
    requires !IsAvailable(sys.cache) && ':' !in today && filmId in sys.store.totals
    ensures IncrementView(sys, filmId, today, incrOk, expireOk, true)
         == (sys.(store := Flushed(sys.store, [View(Some(filmId), today, 1)])), Returned(true))
  {
    DirectIsFlush(sys.store, filmId, today);
  }

  /**
   * The film endpoint's own `incrementView` raises the same total as the direct
   * path but leaves today's daily row one short of it.
   */
  lemma EndpointSkipsDaily(s: Store, filmId: int, today: string)
    requires filmId in s.totals
    ensures var endpoint := Films.IncrementView(s, filmId, true).value;
      var direct := IncrementDirect(s, filmId, today, true).value;
      && endpoint.totals == direct.totals
      && DailyCount(endpoint, DayKey(filmId, today)) == DailyCount(direct, DayKey(filmId, today)) - 1
  {
    var endpoint := Films.IncrementView(s, filmId, true).value;
    var direct := IncrementDirect(s, filmId, today, true).value;
    assert endpoint.totals.Keys == direct.totals.Keys;
  }

  // ---------------------------------------------------------------------------
  // Collection

  /** The sum of the positive counts under `keys`. */
  function PositiveSum(store: map<string, Entry>, keys: seq<string>): int {
    if |keys| == 0 then 0 else (if RawCount(store, keys[0]) > 0 then RawCount(store, keys[0]) else 0) + PositiveSum(store, keys[1..])
  }

  /** What the live counters hold in all: the views a collection would move. */
  function CounterTotal(c: Cache): int {
    PositiveSum(c.store, CounterKeys(c))
  }

  /** The collected views add up to the positive counts read. */
  lemma {:induction false} SweptConserves(store: map<string, Entry>, keys: seq<string>)
    requires forall i :: 0 <= i < |keys| ==> IsViewKey(keys[i])
    ensures Total(SweptViews(store, keys)) == PositiveSum(store, keys)
  {
    if |keys| > 0 {
      ViewKeysTail(keys);
      SweptConserves(store, keys[1..]);
      if RawCount(store, keys[0]) > 0 {
        TotalAppend([SweptView(store, keys[0])], SweptViews(store, keys[1..]));
        assert [SweptView(store, keys[0])][1..] == [];
      }
    }
  }

  /** The listed positive counter at position `j` appears as its view. */
  lemma {:induction false} SweptIncludesAt(store: map<string, Entry>, keys: seq<string>, j: nat)
    requires forall i :: 0 <= i < |keys| ==> IsViewKey(keys[i])
    requires j < |keys| && RawCount(store, keys[j]) > 0
    ensures SweptView(store, keys[j]) in SweptViews(store, keys)
  {
    ViewKeysTail(keys);
    var rest := SweptViews(store, keys[1..]);
    if j > 0 {
      assert keys[1..][j - 1] == keys[j];
      SweptIncludesAt(store, keys[1..], j - 1);
      if RawCount(store, keys[0]) > 0 {
        assert SweptViews(store, keys) == [SweptView(store, keys[0])] + rest;
      } else {
        assert SweptViews(store, keys) == rest;
      }
    } else {
      assert SweptViews(store, keys) == [SweptView(store, keys[0])] + rest;
    }
  }

  /** Each listed positive counter appears as its view. */
  lemma SweptIncludes(store: map<string, Entry>, keys: seq<string>)
    requires forall i :: 0 <= i < |keys| ==> IsViewKey(keys[i])
    ensures forall i :: 0 <= i < |keys| && RawCount(store, keys[i]) > 0 ==> SweptView(store, keys[i]) in SweptViews(store, keys)
  {
    forall i | 0 <= i < |keys| && RawCount(store, keys[i]) > 0 ensures SweptView(store, keys[i]) in SweptViews(store, keys) {
      SweptIncludesAt(store, keys, i);
    }
  }

  /** Each collected view comes from a listed positive counter. */
  lemma {:induction false} SweptFrom(store: map<string, Entry>, keys: seq<string>, v: View)
    requires forall i :: 0 <= i < |keys| ==> IsViewKey(keys[i])
    requires v in SweptViews(store, keys)
    ensures exists i :: 0 <= i < |keys| && RawCount(store, keys[i]) > 0 && v == SweptView(store, keys[i])
  {
    ViewKeysTail(keys);
    var rest := SweptViews(store, keys[1..]);
    if v in rest {
      SweptFrom(store, keys[1..], v);
      var i :| 0 <= i < |keys[1..]| && RawCount(store, keys[1..][i]) > 0 && v == SweptView(store, keys[1..][i]);
      assert keys[i + 1] == keys[1..][i];
    } else {
      assert RawCount(store, keys[0]) > 0 && v == SweptView(store, keys[0]);
    }
  }

  /**
   * Collection keeps exactly the positive counters: each one listed appears as its
   * view, and each view comes from a listed positive counter.
   */
  lemma SweptExactly(store: map<string, Entry>, keys: seq<string>)
    requires forall i :: 0 <= i < |keys| ==> IsViewKey(keys[i])
    ensures forall i :: 0 <= i < |keys| && RawCount(store, keys[i]) > 0 ==> SweptView(store, keys[i]) in SweptViews(store, keys)
    ensures forall v :: v in SweptViews(store, keys) ==>
      exists i :: 0 <= i < |keys| && RawCount(store, keys[i]) > 0 && v == SweptView(store, keys[i])
  {
    SweptIncludes(store, keys);
    forall v | v in SweptViews(store, keys)
      ensures exists i :: 0 <= i < |keys| && RawCount(store, keys[i]) > 0 && v == SweptView(store, keys[i])
    {
      SweptFrom(store, keys, v);
    }
  }

  /** A successful collection: the batch was written (when the write worked) and the counters deleted. */
  lemma CollectEffect(c: Cache, batchId: string, createdAt: string, f: CollectFaults)
    requires Collect(c, batchId, createdAt, f).value.Some?
    ensures Collect(c, batchId, createdAt, f).cache
         == DeleteKeys(Set(c, PendingKey(batchId), Record(Snapshot(c, batchId, createdAt)), PendingTtl, f.writeOk),
                       CounterKeys(c), f.failedDeletes)
  {
  }

  /**
   * A successful collection with a working write stores the snapshot of every
   * positive counter under the batch key, with the 24-hour TTL, and the snapshot
   * holds as many views as the counters held.
   */
  lemma CollectStoresSnapshot(c: Cache, batchId: string, createdAt: string, f: CollectFaults)
    requires Collect(c, batchId, createdAt, f).value.Some? && f.writeOk
    ensures var r := Collect(c, batchId, createdAt, f).cache;
      && PendingKey(batchId) in r.store
      && r.store[PendingKey(batchId)] == Entry(Json(Record(Snapshot(c, batchId, createdAt))), Some(PendingTtl))
    ensures Total(Snapshot(c, batchId, createdAt).views) == CounterTotal(c)
  {
    CollectEffect(c, batchId, createdAt, f);
    PendingKeyRoundTrip(batchId);
    assert !IsViewKey(PendingKey(batchId));
    assert PendingKey(batchId) !in CounterKeys(c);
    SweptConserves(c.store, CounterKeys(c));
  }

  /** Every positive counter `views:film:<id>:<day>` is in the collected batch with its count. */
  lemma CollectCaptures(c: Cache, batchId: string, createdAt: string, filmId: int, day: string)
    requires IsAvailable(c) && ':' !in day
    requires ViewKey(filmId, day) in c.store && RawCount(c.store, ViewKey(filmId, day)) > 0
    ensures View(Some(filmId), day, RawCount(c.store, ViewKey(filmId, day))) in Snapshot(c, batchId, createdAt).views
  {
    var keys := CounterKeys(c);
    var key := ViewKey(filmId, day);
    assert key in keys;
    var i :| 0 <= i < |keys| && keys[i] == key;
    SweptExactly(c.store, keys);
    ViewKeyRoundTrip(filmId, day);
  }

  /**
   * After a successful collection every listed counter is gone unless its delete
   * failed, and every other key is as it was (besides the batch key).
   */
  lemma CollectClearsCounters(c: Cache, batchId: string, createdAt: string, f: CollectFaults)
    requires Collect(c, batchId, createdAt, f).value.Some?
    ensures var r := Collect(c, batchId, createdAt, f).cache;
      forall k :: IsViewKey(k) ==> (k in r.store <==> k in c.store && k in f.failedDeletes)
    ensures var r := Collect(c, batchId, createdAt, f).cache;
      forall k :: !IsViewKey(k) && k != PendingKey(batchId) ==> (k in r.store <==> k in c.store) && (k in r.store ==> r.store[k] == c.store[k])
  {
    CollectEffect(c, batchId, createdAt, f);
  }

  /**
   * The batch is written before any counter is deleted: stopped after the write and
   * `j` deletes, the batch is stored and the counters not yet reached are intact.
   */
  lemma CollectWritesBeforeDeleting(c: Cache, batchId: string, createdAt: string, f: CollectFaults, j: nat)
    requires Collect(c, batchId, createdAt, f).value.Some? && f.writeOk && j <= |CounterKeys(c)|
    ensures var keys := CounterKeys(c);
      var written := Set(c, PendingKey(batchId), Record(Snapshot(c, batchId, createdAt)), PendingTtl, true);
      var partial := DeleteKeys(written, keys[..j], f.failedDeletes);
      && PendingKey(batchId) in partial.store
      && partial.store[PendingKey(batchId)].payload == Json(Record(Snapshot(c, batchId, createdAt)))
      && forall i :: j <= i < |keys| ==> keys[i] in partial.store && partial.store[keys[i]] == c.store[keys[i]]
  {
    var keys := CounterKeys(c);
    var written := Set(c, PendingKey(batchId), Record(Snapshot(c, batchId, createdAt)), PendingTtl, true);
    var partial := DeleteKeys(written, keys[..j], f.failedDeletes);
    PendingKeyRoundTrip(batchId);
    assert !IsViewKey(PendingKey(batchId));
    assert PendingKey(batchId) !in keys[..j];
    PrefixExcludes(keys, j);
    forall i | j <= i < |keys| ensures keys[i] in partial.store && partial.store[keys[i]] == c.store[keys[i]] {
      assert keys[i] in c.store && keys[i] != PendingKey(batchId);
    }
  }

  /** In a list without repeats, no key past position `j` occurs before it. */
  lemma PrefixExcludes(keys: seq<string>, j: nat)
    requires KeyOrder.NoDuplicates(keys) && j <= |keys|
    ensures forall i :: j <= i < |keys| ==> keys[i] !in keys[..j]
  {
    forall i | j <= i < |keys| ensures keys[i] !in keys[..j] {
      forall i' | 0 <= i' < j ensures keys[..j][i'] != keys[i] {
        assert keys[..j][i'] == keys[i'];
      }
    }
  }

  /**
   * A failing batch write is not noticed: the counters are deleted all the same and
   * their views are lost.
   */
  lemma CollectWriteFailureLosesViews(c: Cache, batchId: string, createdAt: string, f: CollectFaults)
    requires Collect(c, batchId, createdAt, f).value.Some? && !f.writeOk && f.failedDeletes == {}
    requires PendingKey(batchId) !in c.store
    ensures var r := Collect(c, batchId, createdAt, f).cache;
      PendingKey(batchId) !in r.store && forall k :: k in r.store ==> !IsViewKey(k)
    ensures CounterTotal(c) > 0
  {
    CollectEffect(c, batchId, createdAt, f);
    SweptConserves(c.store, CounterKeys(c));
    var views := Snapshot(c, batchId, createdAt).views;
    assert |views| > 0;
    TotalPositive(views);
  }

  lemma {:induction false} TotalPositive(views: seq<View>)
    requires |views| > 0 && forall i :: 0 <= i < |views| ==> views[i].count > 0
    ensures Total(views) > 0
  {
    if |views| > 1 {
      TotalPositive(views[1..]);
    }
  }

  // ---------------------------------------------------------------------------
  // Processing

  /** The batch `b` is stored, readable, under its key. */
  predicate Holds(c: Cache, batchId: string, b: PendingBatch) {
    PendingKey(batchId) in c.store && c.store[PendingKey(batchId)].payload == Json(Record(b))
  }

  /**
   * Processing a stored batch of known films with a committing transaction flushes
   * it: the store becomes the batch's reference flush; the batch key is deleted
   * exactly when its delete works, and the trending list when its own delete works.
   */
  lemma ProcessFlushes(sys: System, batchId: string, b: PendingBatch, batchDeleteOk: bool, trendingDeleteOk: bool)
    requires IsAvailable(sys.cache) && Holds(sys.cache, batchId, b)
    requires |b.views| > 0 && PlainDays(b.views) && KnownFilms(b.views, sys.store.totals.Keys)
    ensures var r := ProcessPendingBatch(sys, batchId, ProcessFaults(true, true, batchDeleteOk, trendingDeleteOk));
      && r.1
      && r.0.store == Flushed(sys.store, b.views)
      && (PendingKey(batchId) !in r.0.cache.store <==> batchDeleteOk)
      && (TrendingKey in r.0.cache.store <==> TrendingKey in sys.cache.store && !trendingDeleteOk)
  {
    ApplyMergedIsFlush(sys.store, b.views);
  }

  /**
   * The two deletes fail independently: the batch can be gone while the trending
   * list it invalidates is still cached, stale.
   */
  lemma ProcessStaleTrending(sys: System, batchId: string, b: PendingBatch)
    requires IsAvailable(sys.cache) && Holds(sys.cache, batchId, b) && TrendingKey in sys.cache.store
    requires |b.views| > 0 && PlainDays(b.views) && KnownFilms(b.views, sys.store.totals.Keys)
    ensures var r := ProcessPendingBatch(sys, batchId, ProcessFaults(true, true, true, false));
      && r.1 && r.0.store == Flushed(sys.store, b.views)
      && PendingKey(batchId) !in r.0.cache.store
      && TrendingKey in r.0.cache.store && r.0.cache.store[TrendingKey] == sys.cache.store[TrendingKey]
  {
    ProcessFlushes(sys, batchId, b, true, false);
  }

  /**
   * A batch naming a film that does not exist aborts the transaction: nothing is
   * written and the batch stays pending for the retry.
   */
  lemma ProcessUnknownFilmKeepsBatch(sys: System, batchId: string, b: PendingBatch, f: ProcessFaults)
    requires IsAvailable(sys.cache) && Holds(sys.cache, batchId, b)
    requires !KnownFilms(b.views, sys.store.totals.Keys)
    ensures ProcessPendingBatch(sys, batchId, f) == (sys, false)
    ensures batchId in GetPendingBatches(ProcessPendingBatch(sys, batchId, f).0.cache, true)
  {
    ApplyMergedApplicable(sys.store, b.views);
    assert |b.views| > 0;
  }

  /** A batch with no views is deleted without a transaction. */
  lemma ProcessEmptyBatch(sys: System, batchId: string, b: PendingBatch, readOk: bool, commit: bool)
    requires IsAvailable(sys.cache) && Holds(sys.cache, batchId, b) && |b.views| == 0
    ensures var r := ProcessPendingBatch(sys, batchId, ProcessFaults(readOk, commit, true, true));
      readOk ==> r.1 && r.0.store == sys.store && PendingKey(batchId) !in r.0.cache.store
  {
  }

  /**
   * A stored object whose `views` cannot be iterated makes processing throw: false,
   * nothing changes, and the batch stays pending for the retry.
   */
  lemma ProcessUnusableKeepsBatch(sys: System, batchId: string, f: ProcessFaults)
    requires IsAvailable(sys.cache) && PendingKey(batchId) in sys.cache.store
    requires sys.cache.store[PendingKey(batchId)].payload == Json(BadViews)
    ensures ProcessPendingBatch(sys, batchId, f) == (sys, false)
    ensures batchId in GetPendingBatches(ProcessPendingBatch(sys, batchId, f).0.cache, true)
  {
  }

  /**
   * At-least-once: when the batch delete after a committed flush fails, the batch is
   * still pending and processing it again applies its views a second time.
   */
  lemma ProcessAtLeastOnce(sys: System, batchId: string, b: PendingBatch, trendingDeleteOk: bool)
    requires IsAvailable(sys.cache) && Holds(sys.cache, batchId, b)
    requires |b.views| > 0 && PlainDays(b.views) && KnownFilms(b.views, sys.store.totals.Keys)
    ensures var first := ProcessPendingBatch(sys, batchId, ProcessFaults(true, true, false, trendingDeleteOk));
      var second := ProcessPendingBatch(first.0, batchId, ProcessFaults(true, true, true, true));
      && first.1 && second.1
      && second.0.store == Flushed(Flushed(sys.store, b.views), b.views)
  {
    ProcessFlushes(sys, batchId, b, false, trendingDeleteOk);
    var first := ProcessPendingBatch(sys, batchId, ProcessFaults(true, true, false, trendingDeleteOk));
    assert Holds(first.0.cache, batchId, b);
    assert Flushed(sys.store, b.views).totals.Keys == sys.store.totals.Keys;
    ProcessFlushes(first.0, batchId, b, true, true);
  }
}
