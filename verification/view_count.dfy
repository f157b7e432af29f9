/**
 * The view counter (ViewCountService): increments buffered as live counters in the
 * cache, a direct store transaction when the cache is unavailable, collection of the
 * counters into one pending batch, and processing of a pending batch into the store.
 */
module ViewCount {
  import opened Wrappers
  import opened PendingRecord
  import opened CacheGateway
  import opened DurableStore
  import opened ViewKeys
  import opened BatchMerge
  import Glob
  import KeyOrder

  /** Live counters expire after 7 days, pending batches after 24 hours. */
  const CounterTtl: nat := 7 * 24 * 60 * 60
  const PendingTtl: nat := 24 * 60 * 60

  /** The cache and the durable store together. */
  datatype System = System(cache: Cache, store: Store)

  // ---------------------------------------------------------------------------
  // Counting a view

  /**
   * `incrementViewDirectly`: one transaction that adds 1 to the film's total and
   * upserts today's daily row by 1. It throws (`None`) when the transaction does
   * not commit or the film does not exist, and then writes nothing.
   */
  function IncrementDirect(s: Store, filmId: int, today: string, commit: bool): (r: Option<Store>)
    ensures r.Some? <==> commit && filmId in s.totals
    ensures r.Some? ==> r.value.totals.Keys == s.totals.Keys && r.value.totals[filmId] == s.totals[filmId] + 1
    ensures r.Some? ==> forall id :: id in s.totals && id != filmId ==> r.value.totals[id] == s.totals[id]
    ensures r.Some? ==> DayKey(filmId, today) in r.value.daily
    ensures r.Some? ==> DailyCount(r.value, DayKey(filmId, today)) == DailyCount(s, DayKey(filmId, today)) + 1
    ensures r.Some? ==> forall k :: k != DayKey(filmId, today) ==>
      (k in r.value.daily <==> k in s.daily) && DailyCount(r.value, k) == DailyCount(s, k)
  {
    if !commit then None
    else
      match IncrementFilm(s, filmId, 1)
      case None => None
      case Some(s1) => Some(UpsertDaily(s1, DayKey(filmId, today), 1))
  }

  /**
   * `incrementView`: with the cache available, increments the film's counter for
   * `today` with a 7-day TTL and reports success without touching the store; the
   * `catch` fallback is never taken because the gateway's `increment` never throws.
   * With the cache unavailable, it is `incrementViewDirectly`, whose failure reaches
   * the caller.
   */
  function IncrementView(sys: System, filmId: int, today: string, incrOk: bool, expireOk: bool, commit: bool)
    : (r: (System, Outcome<bool>))
    ensures r.1 == Returned(true) || r.1 == Threw
    ensures IsAvailable(sys.cache) ==> r.1 == Returned(true) && r.0.store == sys.store
    ensures !IsAvailable(sys.cache) ==> r.0.cache == sys.cache
    ensures !IsAvailable(sys.cache) ==> (r.1 == Threw <==> !commit || filmId !in sys.store.totals)
    ensures r.1 == Threw ==> r.0 == sys
  {
    if !IsAvailable(sys.cache) then
      match IncrementDirect(sys.store, filmId, today, commit)
      case None => (sys, Threw)
      case Some(s) => (sys.(store := s), Returned(true))
    else
      var reply := Increment(sys.cache, ViewKey(filmId, today), CounterTtl, incrOk, expireOk);
      (sys.(cache := reply.cache), Returned(true))
  }

  // ---------------------------------------------------------------------------
  // Collecting the live counters into a pending batch

  /**
   * Which client calls of one collection fail: `getKeys` (swallowed by the
   * gateway), the raw `client.get` reads (they throw, the collection's `catch`
   * returns null), the gateway `set` of the batch (swallowed), and the gateway
   * `delete` of the listed keys (swallowed).
   */
  datatype CollectFaults = CollectFaults(keysOk: bool, readsOk: bool, writeOk: bool, failedDeletes: set<string>)

  /**
   * `value ? parseInt(value, 10) : 0` on the raw text under `key`. The text of a
   * JSON number is its decimal form; every other payload reads as NaN or 0, which
   * collection treats alike (only `count > 0` is tested).
   */
  function RawCount(store: map<string, Entry>, key: string): int {
    if key in store && store[key].payload.Json? && store[key].payload.v.Num? then store[key].payload.v.n else 0
  }

  /**
   * A counter reads as the number `INCR` left under its key; a missing key, or one
   * holding anything else, reads as no views.
   */
  lemma RawCountReads(store: map<string, Entry>, key: string, n: int)
    ensures key in store && store[key].payload == Json(Num(n)) ==> RawCount(store, key) == n
    ensures RawCount(store, key) != 0 ==> key in store && store[key].payload == Json(Num(RawCount(store, key)))
  {
  }

  /** The view a positive counter under `key` becomes. */
  function SweptView(store: map<string, Entry>, key: string): View
    requires IsViewKey(key)
  {
    var fields := KeyFields(key);
    View(fields.0, fields.1, RawCount(store, key))
  }

  /** The keys after the first of a list of counter keys are counter keys. */
  lemma ViewKeysTail(keys: seq<string>)
    requires |keys| > 0 && forall i :: 0 <= i < |keys| ==> IsViewKey(keys[i])
    ensures forall i :: 0 <= i < |keys[1..]| ==> IsViewKey(keys[1..][i])
  {
    forall i | 0 <= i < |keys[1..]| ensures IsViewKey(keys[1..][i]) {
      assert keys[1..][i] == keys[i + 1];
    }
  }

  /** Putting a positive view with a plain day in front keeps a batch plain and positive. */
  lemma SweptCons(v: View, rest: seq<View>)
    requires ':' !in v.date && v.count > 0
    requires PlainDays(rest) && forall i :: 0 <= i < |rest| ==> rest[i].count > 0
    ensures PlainDays([v] + rest) && forall i :: 0 <= i < |[v] + rest| ==> ([v] + rest)[i].count > 0
  {
    var views := [v] + rest;
    forall i | 1 <= i < |views| ensures views[i] == rest[i - 1] {
    }
  }

  /** The collection loop: one view per listed key whose count is positive, in order. */
  function SweptViews(store: map<string, Entry>, keys: seq<string>): (views: seq<View>)
    requires forall i :: 0 <= i < |keys| ==> IsViewKey(keys[i])
    ensures PlainDays(views)
    ensures forall i :: 0 <= i < |views| ==> views[i].count > 0
    ensures |views| <= |keys|
  {
    if |keys| == 0 then []
    else
      ViewKeysTail(keys);
      var rest := SweptViews(store, keys[1..]);
      if RawCount(store, keys[0]) > 0 then
        KeyFieldsDay(keys[0]);
        SweptCons(SweptView(store, keys[0]), rest);
        [SweptView(store, keys[0])] + rest
      else rest
  }

  /** Collection finds some view iff some listed counter is positive. */
  lemma {:induction false} SweptNonEmpty(store: map<string, Entry>, keys: seq<string>)
    requires forall i :: 0 <= i < |keys| ==> IsViewKey(keys[i])
    ensures |SweptViews(store, keys)| > 0 <==> exists i :: 0 <= i < |keys| && RawCount(store, keys[i]) > 0
  {
    if |keys| > 0 {
      ViewKeysTail(keys);
      SweptNonEmpty(store, keys[1..]);
      if RawCount(store, keys[0]) <= 0 && exists i :: 0 <= i < |keys| && RawCount(store, keys[i]) > 0 {
        var i :| 0 <= i < |keys| && RawCount(store, keys[i]) > 0;
        assert RawCount(store, keys[1..][i - 1]) > 0;
      }
    }
  }

  lemma EnumeratedViewKeys(c: Cache)
    ensures forall i :: 0 <= i < |GetKeys(c, ViewPattern, true)| ==> IsViewKey(GetKeys(c, ViewPattern, true)[i])
    ensures forall k :: k in GetKeys(c, ViewPattern, true) <==> IsAvailable(c) && k in c.store && IsViewKey(k)
  {
    forall k ensures Glob.Matches(ViewPattern, k) <==> IsViewKey(k) {
      ViewPatternMatches(k);
    }
  }

  /** The counter keys a collection lists (in the model's enumeration order). */
  function CounterKeys(c: Cache): (keys: seq<string>)
    ensures forall i :: 0 <= i < |keys| ==> IsViewKey(keys[i])
    ensures forall k :: k in keys <==> IsAvailable(c) && k in c.store && IsViewKey(k)
    ensures KeyOrder.NoDuplicates(keys)
  {
    EnumeratedViewKeys(c);
    GetKeys(c, ViewPattern, true)
  }

  /** The batch a successful collection writes. */
  function Snapshot(c: Cache, batchId: string, createdAt: string): PendingBatch {
    PendingBatch(batchId, createdAt, SweptViews(c.store, CounterKeys(c)))
  }

  /** The `delete` loop over the listed keys; a failing delete leaves its key. */
  function DeleteKeys(c: Cache, keys: seq<string>, failed: set<string>): (c': Cache)
    ensures c'.connected == c.connected
    ensures forall k :: k in c'.store <==> k in c.store && (k !in keys || k in failed || !c.connected)
    ensures forall k :: k in c'.store ==> c'.store[k] == c.store[k]
    decreases |keys|
  {
    if |keys| == 0 then c else DeleteKeys(Delete(c, keys[0], keys[0] !in failed), keys[1..], failed)
  }

  /**
   * `collectViewsToPending`: lists the counter keys, reads each, and when some
   * count is positive stores one pending batch with those views (24-hour TTL) and
   * then deletes every listed key, zero-count ones included. Returns the batch id,
   * or `None` (null) — with the cache unchanged — when the cache is unavailable,
   * no key is listed, a read fails, or no count is positive.
   */
  function Collect(c: Cache, batchId: string, createdAt: string, f: CollectFaults): (r: Reply<Option<string>>)
    ensures r.value.None? ==> r.cache == c
    ensures r.value.Some? ==> r.value.value == batchId && r.cache.connected
    ensures r.value.Some? <==>
      IsAvailable(c) && f.keysOk && f.readsOk && exists k :: k in c.store && IsViewKey(k) && RawCount(c.store, k) > 0
  {
    if !IsAvailable(c) then Reply(c, None)
    else
      match GetClient(c)
      case None => Reply(c, None)
      case Some(client) =>
        var keys := GetKeys(c, ViewPattern, f.keysOk);
        if |keys| == 0 then
          assert f.keysOk ==> forall k :: k in c.store && IsViewKey(k) ==> k in CounterKeys(c);
          Reply(c, None)
        else if !f.readsOk then Reply(c, None)
        else
          assert keys == CounterKeys(c);
          var views := SweptViews(client, keys);
          SweptNonEmpty(client, keys);
          if |views| == 0 then
            Reply(c, None)
          else
            var written := Set(c, PendingKey(batchId), Record(PendingBatch(batchId, createdAt, views)), PendingTtl, f.writeOk);
            Reply(DeleteKeys(written, keys, f.failedDeletes), Some(batchId))
  }

  /** `getPendingBatches`: the ids of the pending batches, from their keys. */
  function GetPendingBatches(c: Cache, ok: bool): (ids: seq<string>)
    ensures !IsAvailable(c) || !ok ==> ids == []
    ensures forall i :: 0 <= i < |ids| ==> PendingKey(ids[i]) in c.store
    ensures IsAvailable(c) && ok ==> forall id :: id in ids <==> PendingKey(id) in c.store
    ensures KeyOrder.NoDuplicates(ids)
  {
    var keys := GetKeys(c, PendingPattern, ok);
    EnumeratedPendingKeys(c, ok);
    var ids := BatchIds(keys);
    BatchIdsMembership(keys);
    ids
  }

  lemma EnumeratedPendingKeys(c: Cache, ok: bool)
    ensures forall i :: 0 <= i < |GetKeys(c, PendingPattern, ok)| ==> IsPendingKey(GetKeys(c, PendingPattern, ok)[i])
    ensures c.connected && ok ==> forall k :: k in GetKeys(c, PendingPattern, ok) <==> k in c.store && IsPendingKey(k)
  {
    forall k ensures Glob.Matches(PendingPattern, k) <==> IsPendingKey(k) {
      PendingPatternMatches(k);
    }
  }

  lemma BatchIdsMembership(keys: seq<string>)
    requires forall i :: 0 <= i < |keys| ==> IsPendingKey(keys[i])
    ensures forall id :: id in BatchIds(keys) <==> PendingKey(id) in keys
    ensures KeyOrder.NoDuplicates(keys) ==> KeyOrder.NoDuplicates(BatchIds(keys))
  {
    forall id ensures id in BatchIds(keys) <==> PendingKey(id) in keys {
      BatchIdIn(keys, id);
    }
    if KeyOrder.NoDuplicates(keys) {
      var ids := BatchIds(keys);
      forall i, j | 0 <= i < j < |ids| ensures ids[i] != ids[j] {
        assert keys[i] != keys[j];
      }
    }
  }

  lemma {:induction false} BatchIdIn(keys: seq<string>, id: string)
    requires forall i :: 0 <= i < |keys| ==> IsPendingKey(keys[i])
    ensures id in BatchIds(keys) <==> PendingKey(id) in keys
  {
    var ids := BatchIds(keys);
    if PendingKey(id) in keys {
      var i :| 0 <= i < |keys| && keys[i] == PendingKey(id);
      PendingKeyInjective(ids[i], id);
      assert ids[i] == id;
    }
    if id in ids {
      var i :| 0 <= i < |ids| && ids[i] == id;
      assert keys[i] == PendingKey(id);
    }
  }

  function BatchIds(keys: seq<string>): (ids: seq<string>)
    requires forall i :: 0 <= i < |keys| ==> IsPendingKey(keys[i])
    ensures |ids| == |keys| && forall i :: 0 <= i < |ids| ==> PendingKey(ids[i]) == keys[i]
  {
    if |keys| == 0 then [] else [BatchIdOf(keys[0])] + BatchIds(keys[1..])
  }

  // ---------------------------------------------------------------------------
  // Processing a pending batch

  /**
   * Which client calls of one processing fail: the gateway `get` of the batch
   * (swallowed: reads as missing), the store transaction, and each of the two
   * gateway deletes after it, of the batch key and of the trending list (each
   * swallowed: the key survives, as after a crash right after commit).
   */
  datatype ProcessFaults = ProcessFaults(readOk: bool, commit: bool, batchDeleteOk: bool, trendingDeleteOk: bool)

  /** JavaScript truthiness of the parsed value: `0` and the falsy JSON values are falsy. */
  function Truthy(v: Value): (r: bool)
    ensures !r <==> v == Num(0) || v == Other(false)
  {
    match v
    case Num(n) => n != 0
    case Record(_) => true
    case BadViews => true
    case Other(t) => t
  }

  /** What `pendingData.views` holds, as far as processing is concerned. */
  datatype ViewsOf =
    | Absent                  // missing or falsy: `!views` holds
    | Listed(views: seq<View>) // an array of view objects
    | Unusable                // truthy but not an array of view objects

  /**
   * `pendingData.views`: a batch record lists its views; a number or any other
   * value without a truthy `views` field has none; a truthy non-array `views` (or
   * an array of non-objects) is unusable, as iterating it or writing its entries throws.
   */
  function ViewsField(v: Value): (r: ViewsOf)
    ensures r.Listed? <==> v.Record?
    ensures r.Listed? ==> r.views == v.batch.views
    ensures r.Unusable? <==> v == BadViews
  {
    match v
    case Record(b) => Listed(b.views)
    case BadViews => Unusable
    case _ => Absent
  }

  /**
   * `processPendingBatch`: reads the batch; a missing or falsy one gives false; one
   * without views is deleted (true); one whose views cannot be iterated or written
   * throws (false); otherwise the merged views are written in one transaction, after
   * which the batch and the trending list are deleted (true), each delete failing
   * on its own. Every failure is caught: false, and nothing has changed.
   */
  function ProcessPendingBatch(sys: System, batchId: string, f: ProcessFaults): (r: (System, bool))
    ensures !r.1 ==> r.0 == sys
    ensures r.0.cache.connected == sys.cache.connected
    ensures !IsAvailable(sys.cache) || PendingKey(batchId) !in sys.cache.store ==> !r.1
    ensures forall k :: k in r.0.cache.store ==> k in sys.cache.store && r.0.cache.store[k] == sys.cache.store[k]
    ensures forall k :: k !in {PendingKey(batchId), TrendingKey} ==> (k in r.0.cache.store <==> k in sys.cache.store)
    ensures r.1 && f.batchDeleteOk ==> PendingKey(batchId) !in r.0.cache.store
    ensures TrendingKey in sys.cache.store && TrendingKey !in r.0.cache.store ==> r.1 && f.commit && f.trendingDeleteOk
    ensures r.0.store.totals.Keys == sys.store.totals.Keys
  {
    if !IsAvailable(sys.cache) then (sys, false)
    else
      var key := PendingKey(batchId);
      match Get(sys.cache, key, f.readOk)
      case None => (sys, false)
      case Some(data) =>
        if !Truthy(data) then (sys, false)
        else
          match ViewsField(data)
          case Absent => (sys.(cache := Delete(sys.cache, key, f.batchDeleteOk)), true)
          case Unusable => (sys, false)
          case Listed(views) =>
            if |views| == 0 then (sys.(cache := Delete(sys.cache, key, f.batchDeleteOk)), true)
            else
              match (if f.commit then ApplyAll(sys.store, Merge(views)) else None)
              case None => (sys, false)
              case Some(s) =>
                var c1 := Delete(sys.cache, key, f.batchDeleteOk);
                (System(Delete(c1, TrendingKey, f.trendingDeleteOk), s), true)
  }
}
