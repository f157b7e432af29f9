/**
 * The degrade-safe facade over the key/value cache (CacheService). One flag,
 * `connected`, gates every operation; each operation has a fallback result, and no
 * operation lets an error escape: a failing client call (its `ok` argument is
 * false) is logged and turned into the same fallback.
 */
module CacheGateway {
  import opened Wrappers
  import opened PendingRecord
  import KeyOrder
  import Glob

  /** A JSON value as stored through the gateway. */
  datatype Value =
    | Num(n: int)                  // a JSON number; a live counter is one (its text is the integer)
    | Record(batch: PendingBatch)  // a pending-batch object
    | BadViews                     // an object whose `views` is truthy but not an array of view objects
    | Other(truthy: bool)          // any other JSON value (no `views` field, or a falsy one); only its truthiness matters here

  /** The text held under a key: valid JSON, or a payload that is empty or does not parse. */
  datatype Payload = Json(v: Value) | Garbage

  /** A key's payload and, if it will expire, its time to live in seconds. */
  datatype Entry = Entry(payload: Payload, ttl: Option<nat>)

  datatype Cache = Cache(connected: bool, store: map<string, Entry>)

  /** The cache after an operation together with the operation's result. */
  datatype Reply<T> = Reply(cache: Cache, value: T)

  // ---------------------------------------------------------------------------
  // Connection lifecycle

  /**
   * Module start-up: the flag starts false; a successful connect raises the
   * `connect` event (flag true), a failed one is caught (flag stays false).
   */
  function Init(server: map<string, Entry>, connectOk: bool): (c: Cache)
    ensures c.connected <==> connectOk
    ensures c.store == server
  {
    var c := Cache(false, server);
    if connectOk then OnConnect(c) else c
  }

  /** The client's `error` event. */
  function OnError(c: Cache): (c': Cache)
    ensures !c'.connected && c'.store == c.store
  {
    c.(connected := false)
  }

  /** The client's `connect` event. */
  function OnConnect(c: Cache): (c': Cache)
    ensures c'.connected && c'.store == c.store
  {
    c.(connected := true)
  }

  /** Module shutdown: `quit` is sent only when connected; the flag is left as it is. */
  function Destroy(c: Cache): (quitSent: bool)
    ensures quitSent <==> IsAvailable(c)
  {
    c.connected
  }

  function IsAvailable(c: Cache): bool {
    c.connected
  }

  /** The client events that move the flag. */
  datatype Event = Connected | Errored

  /** The gateway after a run of client events, in the order they fire. */
  function Replay(c: Cache, events: seq<Event>): Cache
    decreases |events|
  {
    if |events| == 0 then c
    else Replay(if events[0] == Connected then OnConnect(c) else OnError(c), events[1..])
  }

  /**
   * `isAvailable` reports the last connection event: true after `connect`, false
   * after `error`, and as before when none fired; the data is never touched.
   */
  lemma {:induction false} AvailableIsLastEvent(c: Cache, events: seq<Event>)
    ensures IsAvailable(Replay(c, events)) <==> if |events| == 0 then IsAvailable(c) else events[|events| - 1] == Connected
    ensures Replay(c, events).store == c.store
    decreases |events|
  {
    if |events| > 0 {
      var c1 := if events[0] == Connected then OnConnect(c) else OnError(c);
      AvailableIsLastEvent(c1, events[1..]);
    }
  }

  /** The raw client (the whole key space), or `null` while disconnected. */
  function GetClient(c: Cache): (client: Option<map<string, Entry>>)
    ensures client.None? <==> !IsAvailable(c)
    ensures client.Some? ==> client.value == c.store
  {
    if c.connected then Some(c.store) else None
  }

  // ---------------------------------------------------------------------------
  // Operations

  /** `get`: the parsed value; `None` when disconnected, missing, empty, unparseable or failing. */
  function Get(c: Cache, key: string, ok: bool): (r: Option<Value>)
    ensures r.Some? <==> c.connected && ok && key in c.store && c.store[key].payload.Json?
    ensures r.Some? ==> r.value == c.store[key].payload.v
  {
    if !c.connected || !ok then None
    else if key in c.store then
      match c.store[key].payload
      case Json(v) => Some(v)
      case Garbage => None
    else None
  }

  /** `set`: `setEx` when a truthy TTL is given, otherwise a plain `set` that clears any expiry. */
  function Set(c: Cache, key: string, v: Value, ttl: nat, ok: bool): (c': Cache)
    ensures !c.connected || !ok ==> c' == c
    ensures c.connected && ok ==>
              c'.connected && key in c'.store && c'.store[key] == Entry(Json(v), if ttl > 0 then Some(ttl) else None)
    ensures forall k :: k != key ==> (k in c'.store <==> k in c.store)
    ensures forall k :: k != key && k in c.store ==> c'.store[k] == c.store[k]
  {
    if !c.connected || !ok then c
    else if ttl > 0 then c.(store := c.store[key := Entry(Json(v), Some(ttl))])
    else c.(store := c.store[key := Entry(Json(v), None)])
  }

  /** `delete`: removes one key. */
  function Delete(c: Cache, key: string, ok: bool): (c': Cache)
    ensures !c.connected || !ok ==> c' == c
    ensures c.connected && ok ==> key !in c'.store
    ensures c'.connected == c.connected
    ensures forall k :: k != key ==> (k in c'.store <==> k in c.store)
    ensures forall k :: k in c'.store ==> k in c.store && c'.store[k] == c.store[k]
  {
    if !c.connected || !ok then c else c.(store := c.store - {key})
  }

  /** The keys of the cache that `pattern` matches, as a set. */
  function MatchingKeys(store: map<string, Entry>, pattern: string): (ks: set<string>)
    ensures forall k :: k in ks <==> k in store && Glob.Matches(pattern, k)
  {
    set k | k in store && Glob.Matches(pattern, k)
  }

  /** `getKeys`: every key matching `pattern` once; `[]` when disconnected or failing. */
  function GetKeys(c: Cache, pattern: string, ok: bool): (keys: seq<string>)
    ensures !c.connected || !ok ==> keys == []
    ensures c.connected && ok ==> forall k :: k in keys <==> k in c.store && Glob.Matches(pattern, k)
    ensures KeyOrder.NoDuplicates(keys)
  {
    if !c.connected || !ok then [] else KeyOrder.Enumerate(MatchingKeys(c.store, pattern))
  }

  /**
   * `deletePattern`: enumerates the matching keys and deletes them, issuing the
   * delete only when at least one matched. The result says whether it was issued.
   */
  function DeletePattern(c: Cache, pattern: string, ok: bool): (r: Reply<bool>)
    ensures r.value ==> c.connected && ok
    ensures r.value <==> c.connected && ok && exists k :: k in c.store && Glob.Matches(pattern, k)
    ensures !c.connected || !ok ==> r.cache == c
    ensures c.connected && ok ==> forall k :: k in r.cache.store <==> k in c.store && !Glob.Matches(pattern, k)
    ensures forall k :: k in r.cache.store ==> k in c.store && r.cache.store[k] == c.store[k]
  {
    var keys := GetKeys(c, pattern, ok);
    if |keys| > 0 then Reply(c.(store := c.store - set k | k in keys), true)
    else
      assert c.connected && ok ==> forall k :: k in c.store ==> !Glob.Matches(pattern, k);
      Reply(c, false)
  }

  /** `clear`: `flushAll`. */
  function Clear(c: Cache, ok: bool): (c': Cache)
    ensures !c.connected || !ok ==> c' == c
    ensures c.connected && ok ==> c'.connected && |c'.store| == 0
  {
    if !c.connected || !ok then c else c.(store := map[])
  }

  /**
   * `increment`: `INCR` on the key (a missing key counts as 0), then, when a truthy
   * TTL is given and the new value is 1, `EXPIRE`. A failing `INCR` (also: the key
   * holds something that is not an integer) yields 0 and changes nothing; a failing
   * `EXPIRE` yields 0 although the counter was already incremented.
   */
  function Increment(c: Cache, key: string, ttl: nat, incrOk: bool, expireOk: bool): (r: Reply<int>)
    ensures !c.connected ==> r == Reply(c, 0)
    ensures r.cache.connected == c.connected
    ensures forall k :: k != key ==> (k in r.cache.store <==> k in c.store)
    ensures forall k :: k != key && k in c.store ==> r.cache.store[k] == c.store[k]
  {
    if !c.connected || !incrOk then Reply(c, 0)
    else if key !in c.store then
      var counter := Entry(Json(Num(1)), None);
      if ttl > 0 then
        if expireOk then Reply(c.(store := c.store[key := counter.(ttl := Some(ttl))]), 1)
        else Reply(c.(store := c.store[key := counter]), 0)
      else Reply(c.(store := c.store[key := counter]), 1)
    else
      match c.store[key].payload
      case Json(Num(n)) =>
        var counter := c.store[key].(payload := Json(Num(n + 1)));
        if ttl > 0 && n + 1 == 1 then
          if expireOk then Reply(c.(store := c.store[key := counter.(ttl := Some(ttl))]), 1)
          else Reply(c.(store := c.store[key := counter]), 0)
        else Reply(c.(store := c.store[key := counter]), n + 1)
      case _ => Reply(c, 0)
  }

  /** The integer a key holds as a counter (a missing key counts as 0), if it holds one. */
  function CounterOf(c: Cache, key: string): Option<int> {
    if key !in c.store then Some(0)
    else match c.store[key].payload
      case Json(Num(n)) => Some(n)
      case _ => None
  }

  // ---------------------------------------------------------------------------
  // Properties

  /**
   * While disconnected every operation is a no-op with its documented fallback:
   * `get` null, `increment` 0, `getKeys` [], and `set`, `delete`, `deletePattern`
   * and `clear` leave the cache as it was.
   */
  lemma DisconnectedFallbacks(c: Cache, key: string, pattern: string, v: Value, ttl: nat, ok: bool, ok2: bool)
    requires !IsAvailable(c)
    ensures Get(c, key, ok) == None
    ensures Set(c, key, v, ttl, ok) == c
    ensures Delete(c, key, ok) == c
    ensures DeletePattern(c, pattern, ok) == Reply(c, false)
    ensures Clear(c, ok) == c
    ensures Increment(c, key, ttl, ok, ok2) == Reply(c, 0)
    ensures GetKeys(c, pattern, ok) == []
    ensures GetClient(c) == None
  {
  }

  /** After an `error` event the gateway degrades: reads miss and counters read 0. */
  lemma ErrorEventDegrades(c: Cache, key: string, ttl: nat, ok: bool, ok2: bool)
    ensures Get(OnError(c), key, ok) == None
    ensures Increment(OnError(c), key, ttl, ok, ok2).value == 0
    ensures OnConnect(OnError(c)) == c.(connected := true)
  {
  }

  /** `get` after a successful `set` returns the stored value; other keys read as before. */
  lemma GetAfterSet(c: Cache, key: string, other: string, v: Value, ttl: nat)
    requires IsAvailable(c)
    ensures Get(Set(c, key, v, ttl, true), key, true) == Some(v)
    ensures other != key ==> Get(Set(c, key, v, ttl, true), other, true) == Get(c, other, true)
  {
  }

  /** `get` after a successful `delete` misses. */
  lemma GetAfterDelete(c: Cache, key: string)
    requires IsAvailable(c)
    ensures Get(Delete(c, key, true), key, true) == None
  {
  }

  /**
   * A successful `increment` of a counter holding `n` (a missing key holds 0) stores
   * n + 1; the reported result is n + 1 unless the TTL attach failed. The TTL is
   * attached exactly when a truthy TTL was given and the counter became 1; otherwise
   * the key's expiry is the one it had.
   */
  lemma IncrementCounts(c: Cache, key: string, ttl: nat, expireOk: bool, n: int)
    requires IsAvailable(c) && CounterOf(c, key) == Some(n)
    ensures var r := Increment(c, key, ttl, true, expireOk);
      && CounterOf(r.cache, key) == Some(n + 1)
      && Get(r.cache, key, true) == Some(Num(n + 1))
      && (r.value == n + 1 || (r.value == 0 && ttl > 0 && n == 0 && !expireOk))
      && (ttl > 0 && n == 0 && expireOk ==> r.cache.store[key].ttl == Some(ttl))
      && (ttl == 0 || n != 0 ==> r.cache.store[key].ttl == (if key in c.store then c.store[key].ttl else None))
  {
  }

  /** `increment` of a key holding a non-integer fails: 0, and nothing changes. */
  lemma IncrementNonCounter(c: Cache, key: string, ttl: nat, incrOk: bool, expireOk: bool)
    requires CounterOf(c, key) == None
    ensures Increment(c, key, ttl, incrOk, expireOk) == Reply(c, 0)
  {
  }

  /** After a successful `deletePattern`, `getKeys` with the same pattern finds nothing. */
  lemma DeletePatternEmptiesPattern(c: Cache, pattern: string)
    requires IsAvailable(c)
    ensures GetKeys(DeletePattern(c, pattern, true).cache, pattern, true) == []
  {
    var c' := DeletePattern(c, pattern, true).cache;
    assert MatchingKeys(c'.store, pattern) == {};
  }
}
