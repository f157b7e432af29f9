# Film catalogue view counter — a Dafny model

This project models the view-counting pipeline of a film catalogue back end, plus the
pure string and query helpers around it.

**Cache gateway.** `CacheService` is a facade over a key/value cache. One
`isConnected` flag gates every operation. Every operation swallows client errors and
falls back to a fixed result:
- `get` gives null;
- `set`, `delete`, `deletePattern` and `clear` do nothing;
- `increment` gives 0;
- `getKeys` gives `[]`.

**View count service.** `ViewCountService` counts views in four steps:
- **Counting.** A view is counted in a per-(film, day) live counter
  `views:film:<id>:<day>` with a 7-day TTL. When the cache is unavailable it is
  written straight to the store in one transaction: the film's total goes up by 1
  and the (film, day) daily row goes up by 1.
- **Collection.** The live counters are swept into one pending batch
  `pending:views:<batchId>` with a 24-hour TTL. The counters are deleted afterwards.
- **Processing.** A pending batch's views are merged by `filmId:date` and applied
  in one transaction. Then the batch and the trending list are deleted.
- **Listing.** The pending batch ids are listed from their keys.

**Scheduler.** `ViewCountSchedulerService` runs collection, and a processing sweep
over all pending batches. The hourly retry is the same sweep. Each batch's failure is
contained.

**Helpers.** Also modelled:
- `CreateSlug`, `normalize` and `parseDuration` from `utils/util.ts`;
- the filter, sort and pagination computation of `FilmsService.findAll`;
- the film endpoint's own `incrementView`.

**How the model works.**
- Every step is a pure function from a `System` (cache plus store) to a new
  `System` and a result.
- Each client call that can fail takes an explicit success flag. Examples: the
  `incrOk` and `expireOk` flags of `increment`, `commit` for a transaction, and
  `CollectFaults` / `ProcessFaults` for the service calls. The contracts state the
  outcome for each of these flags. Failures that have no flag are listed under
  "Left out".
- The clock, the batch id and the day are parameters.

Modules, in dependency order:

| file | module | models |
|---|---|---|
| wrappers.dfy | Wrappers | `Option`, and `Outcome` (returned or threw) |
| text.dfy | Text | JavaScript `split(':')`, `parseInt(s, 10)`, `${n}`, `replace` with a string pattern |
| key_order.dfy | KeyOrder | a deterministic listing of a key set, standing for the unspecified order of `KEYS` |
| glob.dfy | Glob | the `*`/`?` glob patterns of `KEYS` |
| pending_record.dfy | PendingRecord | the pending-batch record and its views |
| cache_gateway.dfy | CacheGateway | `CacheService` |
| durable_store.dfy | DurableStore | film totals and daily rows, and the two writes the pipeline issues |
| view_keys.dfy | ViewKeys | the counter and pending key formats and their parsing |
| batch_merge.dfy | BatchMerge | the `filmId:date` merge of a batch and its transaction |
| view_count.dfy | ViewCount | `ViewCountService` |
| view_count_facts.dfy | ViewCountFacts | properties of the view counter |
| scheduler.dfy | Scheduler | `ViewCountSchedulerService` |
| util.dfy | Util | `utils/util.ts` |
| films.dfy | Films | `FilmsService.findAll` and `FilmsService.incrementView` |

Two behaviours of the source are reproduced on purpose:
- **A failed cache increment is lost silently.** `CacheService.increment` swallows
  errors and returns 0, so the fallback in `ViewCountService.incrementView` is never
  reached. The view is recorded nowhere, yet the call reports success
  (`ViewCountFacts.CacheFailureLosesView`).
- **Processing is at-least-once.** A batch whose deletes fail after a committed
  transaction is applied again by the next sweep (`ViewCountFacts.ProcessAtLeastOnce`).

## Model

| member | source | states |
|---|---|---|
| CacheGateway.Init | src/cache/cache.service.ts:15-36 | the flag is raised exactly when the connect succeeds (through the `connect` event); a failed connect is caught and leaves it false |
| CacheGateway.OnError | src/cache/cache.service.ts:21-24 | an `error` event lowers the flag and leaves the data alone |
| CacheGateway.OnConnect | src/cache/cache.service.ts:26-29 | a `connect` event raises the flag |
| CacheGateway.Destroy | src/cache/cache.service.ts:38-42 | `quit` is sent exactly when the gateway is connected |
| CacheGateway.AvailableIsLastEvent | src/cache/cache.service.ts:21-29 | `isAvailable` reports the last connection event (true after `connect`, false after `error`, unchanged when none fired), and the events never touch the data |
| CacheGateway.GetClient | src/cache/cache.service.ts:111-113 | null exactly when unavailable, otherwise the whole key space |
| CacheGateway.Get | src/cache/cache.service.ts:44-57 | a value exactly when connected, the call works and the key holds parseable text; that value is the stored one |
| CacheGateway.Set | src/cache/cache.service.ts:59-72 | a working set stores the value, with an expiry exactly when a non-zero TTL is given; disconnected or failing it changes nothing; other keys keep their entries |
| CacheGateway.Delete | src/cache/cache.service.ts:74-82 | a working delete removes exactly that key; disconnected or failing it changes nothing |
| CacheGateway.GetKeys | src/cache/cache.service.ts:131-140 | the keys the pattern matches, each once; `[]` when disconnected or failing |
| CacheGateway.DeletePattern | src/cache/cache.service.ts:84-95 | the delete is issued exactly when some key matches, and it removes exactly the matching keys |
| CacheGateway.Clear | src/cache/cache.service.ts:101-109 | a working clear empties the cache; disconnected or failing it changes nothing |
| CacheGateway.Increment | src/cache/cache.service.ts:116-129 | disconnected it gives 0 and changes nothing; it never touches another key |
| CacheGateway.DisconnectedFallbacks | src/cache/cache.service.ts:44-140 | while disconnected: `get` null, `increment` 0, `getKeys` `[]`, the client null, and `set`, `delete`, `deletePattern`, `clear` change nothing |
| CacheGateway.ErrorEventDegrades | src/cache/cache.service.ts:21-29 | after an `error` event reads miss and increments give 0; a later `connect` event brings the same data back, connected |
| CacheGateway.GetAfterSet | src/cache/cache.service.ts:44-72 | `get` after a working `set` returns the value stored; other keys read as before |
| CacheGateway.GetAfterDelete | src/cache/cache.service.ts:44-82 | `get` after a working `delete` misses |
| CacheGateway.IncrementCounts | src/cache/cache.service.ts:116-129 | a counter holding n (a missing key holds 0) then holds n + 1; the result is n + 1 unless the expiry failed (then 0); the TTL is attached exactly when a TTL is given and the counter became 1 |
| CacheGateway.IncrementNonCounter | src/cache/cache.service.ts:116-129 | incrementing a key holding a non-integer fails: 0, nothing changes |
| CacheGateway.DeletePatternEmptiesPattern | src/cache/cache.service.ts:84-95 | after a working `deletePattern` no key matches the pattern |
| KeyOrder.Enumerate | src/cache/cache.service.ts:135 | the listing of a key set has every key of the set, each exactly once, and nothing else |
| Glob.Matches | src/cache/cache.service.ts:135 | a pattern without wildcards matches exactly itself |
| Glob.LiteralPrefix | src/cache/cache.service.ts:135 | a pattern starting with a literal matches exactly the keys that start with it and whose rest the remaining pattern matches |
| ViewKeys.ViewPatternMatches | src/view-count/view-count.service.ts:83 | `views:film:*:*` matches exactly the keys that start with `views:film:` and have another `:` after it |
| ViewKeys.PendingPatternMatches | src/view-count/view-count.service.ts:215 | `pending:views:*` matches exactly the keys starting with `pending:views:` |
| ViewKeys.ViewKey | src/view-count/view-count.service.ts:24 | a counter key matches the counter pattern |
| ViewKeys.PendingKey | src/view-count/view-count.service.ts:108 | a pending key matches the pending pattern, never the counter pattern, and is never the trending key |
| ViewKeys.PendingKeyInjective | src/view-count/view-count.service.ts:108 | different batch ids get different pending keys |
| ViewKeys.ViewKeyRoundTrip | src/view-count/view-count.service.ts:96-98 | splitting `views:film:<id>:<day>` on `:` gives back the id at `parts[2]` and the day at `parts[3]`, for a day without `:` |
| ViewKeys.ViewKeyInjective | src/view-count/view-count.service.ts:24 | different (film, day) pairs get different counter keys |
| ViewKeys.KeyFieldsDay | src/view-count/view-count.service.ts:98 | the day read back from a key contains no `:` |
| ViewKeys.BatchIdOf | src/view-count/view-count.service.ts:216 | stripping `pending:views:` from a pending key gives the id whose key it is |
| ViewKeys.PendingKeyRoundTrip | src/view-count/view-count.service.ts:216 | the id read back from `pending:views:<id>` is `<id>` |
| Text.ParseInt | src/view-count/view-count.service.ts:97 | a number exactly when digits follow the leading white space and optional sign; negative only after a `-` |
| Text.ParseIntDigits | src/view-count/view-count.service.ts:169 | a run of digits reads as its decimal value, leading zeros included |
| Text.ParseIntRoundTrip | src/view-count/view-count.service.ts:97 | `parseInt` of an integer's decimal text gives that integer |
| Text.ParseIntNull | src/view-count/view-count.service.ts:168-169 | `parseInt("null")` is NaN, which is how a film id that was NaN reads back |
| Text.SplitAtFirst | src/view-count/view-count.service.ts:96 | splitting `a:b` with `a` free of `:` gives `a` followed by the pieces of `b` |
| Text.ReplacePrefix | src/view-count/view-count.service.ts:216 | replacing a leading pattern by `''` leaves the rest |
| DurableStore.IncrementFilm | src/view-count/view-count.service.ts:40-45 | the film's total rises by the increment and nothing else changes; a missing film makes the update throw |
| DurableStore.UpsertDaily | src/view-count/view-count.service.ts:47-62 | the daily row rises by the increment, or is created with it; every other row is unchanged |
| BatchMerge.Merge | src/view-count/view-count.service.ts:160-164 | the merged map holds each `filmId:date` key once |
| BatchMerge.MergeKeys | src/view-count/view-count.service.ts:160-164 | the merged map has exactly the keys of the views |
| BatchMerge.MergePreservesSums | src/view-count/view-count.service.ts:160-164 | for every set of keys, the merged counts add up to the views' counts for those keys |
| BatchMerge.MergeSumsDuplicates | src/view-count/view-count.service.ts:160-164 | each merged key holds the sum of its views' counts, and the merged total is the batch total |
| BatchMerge.ApplyAll | src/view-count/view-count.service.ts:166-196 | the transaction commits exactly when every key names an existing film; no film is created |
| BatchMerge.ApplyAllTotals | src/view-count/view-count.service.ts:167-177 | each film's total rises by the sum of the merged counts of its keys |
| BatchMerge.ApplyAllDaily | src/view-count/view-count.service.ts:179-194 | each daily row rises by the sum of the merged counts of its (film, day) |
| BatchMerge.ApplyAllRows | src/view-count/view-count.service.ts:179-194 | the rows afterwards are the old ones plus those the batch names |
| BatchMerge.ApplicableByKeys | src/view-count/view-count.service.ts:166-196 | the transaction's precondition holds key by key |
| BatchMerge.DayOfKey | src/view-count/view-count.service.ts:168-169 | the day a merged key addresses contains no `:` |
| BatchMerge.DayOfJoin | src/view-count/view-count.service.ts:168-169 | a key joined at its first `:` addresses the row of the film its front half parses to, and none when that is NaN |
| BatchMerge.FilmOfMergeKey | src/view-count/view-count.service.ts:161-169 | whatever the day text, a merged key addresses a row of its view's film, and none for a `null` film |
| BatchMerge.ApplyMergedApplicable | src/view-count/view-count.service.ts:160-196 | the merged transaction commits exactly when every view names an existing film, whatever its day text |
| BatchMerge.ApplyMergedIsFlush | src/view-count/view-count.service.ts:160-196 | merging then applying commits exactly when every view names an existing film, and then equals the per-view reference flush |
| ViewCount.IncrementDirect | src/view-count/view-count.service.ts:35-66 | commits exactly when the transaction commits and the film exists; then the total and today's row rise by 1 (the row is created if absent), nothing else changes |
| ViewCount.IncrementView | src/view-count/view-count.service.ts:14-33 | with the cache available it succeeds without a store write; unavailable it throws exactly when the direct write fails, and a throw changes nothing |
| ViewCount.RawCountReads | src/view-count/view-count.service.ts:93-94 | a counter reads as the number under its key; a missing key or any other value reads as no views |
| ViewCount.SweptViews | src/view-count/view-count.service.ts:89-102 | collected views have positive counts and days without `:`, and there are no more of them than listed keys |
| ViewCount.SweptNonEmpty | src/view-count/view-count.service.ts:89-106 | collection finds some view exactly when some listed counter is positive |
| ViewCount.CounterKeys | src/view-count/view-count.service.ts:83 | the listed counter keys are exactly the cache's counter keys, each once |
| ViewCount.DeleteKeys | src/view-count/view-count.service.ts:119-121 | the loop removes exactly the listed keys whose delete works |
| ViewCount.Collect | src/view-count/view-count.service.ts:69-132 | returns the batch id exactly when the cache is available, the listing and reads work and some counter is positive; returning null it changes nothing |
| ViewCount.GetPendingBatches | src/view-count/view-count.service.ts:209-221 | lists exactly the ids with a pending key, each once; `[]` when unavailable or failing |
| ViewCount.BatchIds | src/view-count/view-count.service.ts:216 | each listed pending key turns into the id whose key it is |
| ViewCount.Truthy | src/view-count/view-count.service.ts:148 | a stored value is falsy exactly when it is the number 0 or a falsy JSON value (`null`, `false`, `""`) |
| ViewCount.ViewsField | src/view-count/view-count.service.ts:152-162 | a batch record gives its views; an object whose `views` cannot be iterated as views is unusable; anything else has none |
| ViewCount.ProcessPendingBatch | src/view-count/view-count.service.ts:134-207 | false changes nothing; unavailable or missing batch gives false; it only deletes the batch key and the trending key; after a true result the batch key is gone when its delete works; the trending key goes only after a committed transaction whose trending delete works |
| ViewCountFacts.DirectIsFlush | src/view-count/view-count.service.ts:35-66 | the direct write equals flushing a batch of that one view |
| ViewCountFacts.BufferedView | src/view-count/view-count.service.ts:19-28 | with the cache available a view adds one to its counter (a new counter gets the 7-day TTL) and leaves the store alone |
| ViewCountFacts.CacheFailureLosesView | src/view-count/view-count.service.ts:19-32 | a failing counter increment still reports success and records the view nowhere |
| ViewCountFacts.FallbackIsFlush | src/view-count/view-count.service.ts:14-17 | with the cache unavailable a view is flushed to the store at once |
| ViewCountFacts.EndpointSkipsDaily | src/films/films.service.ts:224-231 | the film endpoint's increment raises the same total as the direct write but leaves today's daily row one short |
| ViewCountFacts.SweptConserves | src/view-count/view-count.service.ts:92-102 | the collected counts add up to the positive counts read |
| ViewCountFacts.SweptExactly | src/view-count/view-count.service.ts:92-102 | every positive listed counter is collected as its view, and every collected view comes from one |
| ViewCountFacts.CollectStoresSnapshot | src/view-count/view-count.service.ts:108-117 | a working write stores the snapshot of the counters under the batch key with the 24-hour TTL, and it holds as many views as the counters did |
| ViewCountFacts.CollectCaptures | src/view-count/view-count.service.ts:92-100 | the counter of film `id` on `day` with count n > 0 is in the batch as (id, day, n) |
| ViewCountFacts.CollectClearsCounters | src/view-count/view-count.service.ts:119-121 | every listed counter is deleted, zero ones included, unless its delete failed; other keys are as they were |
| ViewCountFacts.CollectWritesBeforeDeleting | src/view-count/view-count.service.ts:108-121 | stopped after the write and any number of deletes, the batch is stored and the counters not yet reached are intact |
| ViewCountFacts.CollectWriteFailureLosesViews | src/view-count/view-count.service.ts:108-121 | a failing batch write goes unnoticed: counters holding a positive total are deleted and no batch is stored |
| ViewCountFacts.ProcessFlushes | src/view-count/view-count.service.ts:159-202 | a stored batch of existing films is flushed (the store becomes its reference flush); the batch key is gone exactly when its delete works, and the trending list exactly when its own delete works |
| ViewCountFacts.ProcessStaleTrending | src/view-count/view-count.service.ts:198-200 | the two deletes fail independently: the batch can be gone and flushed while the stale trending list stays cached |
| ViewCountFacts.ProcessUnknownFilmKeepsBatch | src/view-count/view-count.service.ts:166-206 | a batch naming a missing film aborts: false, nothing written, the batch still listed |
| ViewCountFacts.ProcessEmptyBatch | src/view-count/view-count.service.ts:152-157 | a batch without views is deleted with result true and no store write |
| ViewCountFacts.ProcessUnusableKeepsBatch | src/view-count/view-count.service.ts:154-162 | an object whose `views` cannot be iterated makes processing throw: false, nothing changes, the batch still listed |
| ViewCountFacts.ProcessAtLeastOnce | src/view-count/view-count.service.ts:166-202 | when the batch delete after a commit fails, processing the batch again applies it a second time |
| Scheduler.CollectTick | src/view-count/view-count-scheduler.service.ts:13-21 | collection never writes the store and leaves every other pending batch alone |
| Scheduler.CollectKeepsOtherBatches | src/view-count/view-count.service.ts:108-121 | a collection touches no pending key but its own |
| Scheduler.RunBatches | src/view-count/view-count-scheduler.service.ts:34-40 | one result per batch; the loop only deletes pending keys and the trending key; if every batch fails, nothing changes |
| Scheduler.Sweep | src/view-count/view-count-scheduler.service.ts:25-66 | the processing job, and the hourly retry that runs the same code, change nothing when unavailable or the listing fails, and only ever delete pending keys and the trending key |
| Scheduler.ProcessRemovesUnlessRetained | src/view-count/view-count.service.ts:134-207 | with every call working, processing removes a batch exactly when it is not retained (unparseable, falsy, with unusable views, or naming a missing film) |
| Scheduler.RunRemovesUnlessRetained | src/view-count/view-count-scheduler.service.ts:34-40 | a failing batch does not stop the loop: each listed batch is removed exactly when not retained, unlisted ones are untouched |
| Scheduler.SweepDrains | src/view-count/view-count-scheduler.service.ts:25-44 | with every call working, the batches left after a sweep are exactly the retained ones |
| Scheduler.SweepEmptiesPending | src/view-count/view-count-scheduler.service.ts:25-44 | when no batch is retained, no pending key is left |
| Util.StripMarks | utils/util.ts:5 | no combining mark is left; text without one is unchanged |
| Util.ReplaceAbsent | utils/util.ts:6-7 | a pattern whose first character does not occur leaves the text unchanged |
| Util.Collapse | utils/util.ts:8 | only `[a-z0-9]` and `-` remain, no two `-` are adjacent, and a leading `-` appears exactly when the text starts outside `[a-z0-9]` |
| Util.CollapseAlnums | utils/util.ts:8 | collapsing keeps every letter and digit, in order |
| Util.TrimEdges | utils/util.ts:9 | a separated string becomes a slug; one without edge dashes is unchanged |
| Util.CreateSlug | utils/util.ts:1-10 | the result is a slug: `[a-z0-9]` and single `-` separators, no `-` at either end |
| Util.SlugKeepsAlnums | utils/util.ts:1-10 | for ASCII text the slug keeps exactly the letters and digits of the lower-cased text, in order |
| Util.SlugFixedPoint | utils/util.ts:1-10 | a slug is its own slug |
| Util.SlugIdempotent | utils/util.ts:1-10 | slugging a slug changes nothing |
| Util.ReplaceAll | utils/util.ts:13-28 | replacing by at most one character never lengthens the text |
| Util.ApplyRules | utils/util.ts:13-28 | rules whose replacements are single characters never lengthen the text |
| Util.Normalize | utils/util.ts:12-33 | the normalized text is never longer than the input |
| Util.RulesAbsent | utils/util.ts:12-28 | rules none of whose patterns can start in the text leave it unchanged |
| Util.NormalizeAscii | utils/util.ts:12-33 | on ASCII text `normalize` is lower-casing |
| Util.FirstDigit | utils/util.ts:38 | the position of the first digit, none exactly when there is no digit |
| Util.ParseDuration | utils/util.ts:35-43 | undefined exactly when the input is missing or has no digit |
| Util.ParseDurationReads | utils/util.ts:35-43 | for any text without digits, then any run of digits, then a non-digit or the end, the value is that run's decimal value, leading zeros included |
| Util.ParseDurationExample | utils/util.ts:35-43 | `parseDuration("45 phút")` is 45 |
| Util.ParseDurationLeadingZero | utils/util.ts:35-43 | `parseDuration("05 phút")` is 5 |
| Films.BuildWhere | src/films/films.service.ts:50-111 | status is always active; year and search appear exactly when truthy; the single and the paired category clauses never both appear, and the pair appears exactly when country and genre are both set |
| Films.WhereSelectsWanted | src/films/films.service.ts:50-111 | the built filter selects a film exactly when it is active, matches each truthy field, and has every required category: country and genre when set, otherwise the category |
| Films.SortFieldOf | src/films/films.service.ts:113-116 | the sort field is the requested one when whitelisted, `createdAt` otherwise and by default |
| Films.DirectionOf | src/films/films.service.ts:124 | ascending exactly when the order is `asc` |
| Films.AcceptedFieldsIgnored | src/films/dto/film-filter.dto.ts:54 | `viewCount` and `title`, which validation accepts, sort on `createdAt` |
| Films.FindAllQuery | src/films/films.service.ts:33-48 | take is the limit (default 20); skip is `(page - 1) * limit`, so 0 without a page and non-negative from page 1 with a non-negative limit |
| Films.TotalPages | src/films/films.service.ts:141 | for a positive limit, the least n with total ≤ n·limit; Infinity or NaN for limit 0 |
| Films.PageCountBounds | src/films/films.service.ts:141 | the page count bounds the total from above and the count before the last page from below |
| Films.Window | src/films/films.service.ts:119-122 | at most `take` films, all from the list; exactly `items[skip..skip+take]` when in range; empty past the end |
| Films.Matching | src/films/films.service.ts:119-132 | the films returned are exactly those the filter selects |
| Films.WantedIn | src/films/films.service.ts:50-111 | the reference selection: exactly the wanted films of the list, never more than it holds |
| Films.MatchingIsWanted | src/films/films.service.ts:50-132 | the database filter built from the query returns exactly the wanted films, in the table's order |
| Films.FindAll | src/films/films.service.ts:33-144 | page and limit echoed as received; the films are the requested window (skip `(page - 1) * limit`, take `limit`) of the wanted films; `total` is the number of wanted films; `totalPages` is the page count of the total |
| Films.FindAllBeyondLastPage | src/films/films.service.ts:119-143 | a page past `totalPages` has no films, and any page up to it has some |
| Films.PagesCover | src/films/films.service.ts:135-143 | pages 1 to `totalPages` laid end to end are all the matches, in order |
| Films.PagesBeyondEmpty | src/films/films.service.ts:135-143 | a page is empty exactly when its number exceeds `totalPages` |
| Films.IncrementView | src/films/films.service.ts:224-231 | the film's total rises by exactly one, other totals and all daily rows are unchanged; a missing film or a failing update throws |

## Left out

- Redis and Prisma clients, JSON text, and logging are not modelled. The cache is a
  map from key to parsed value, and every client failure is a boolean argument.
- TTL expiry is not modelled. Only the TTL attached to a key is recorded, not its
  passing.
- Concurrency and cron timing are not modelled; every step runs alone. An increment
  that lands between collection's read and its delete would be lost, and the model
  does not cover that interleaving.
- Dates are opaque day strings. Local midnight, `toISOString`, and `new Date(dateStr)`
  in the transaction are not modelled; the day is assumed to stay the same text.
- Batch ids and `createdAt` are parameters. The clock and `Date.now()` are not
  modelled.
- KeyOrder.Enumerate: `KEYS` returns keys in an unspecified order. The model lists
  them in lexicographic order. Most properties do not depend on that order. Two of
  them talk about prefixes of the listing: `ViewCount.DeleteKeys` and
  `ViewCountFacts.CollectWritesBeforeDeleting`. Those two hold for this particular
  order only.
- Glob.Matches: only `*` and `?` are modelled. Character classes and escapes are not
  used by the pipeline's patterns.
- Text.ParseInt: only ASCII white space is skipped. Integer width and floating
  point (film ids beyond 2^53, huge counters, `Number()` rounding) are not modelled;
  integers are unbounded.
- Util.CreateSlug: `toLowerCase` is modelled on `A`-`Z` only, and NFD decomposition
  as the identity. The slug properties hold for every input either way, because the
  last steps keep only `[a-z0-9-]`.
- Util.Normalize: only the ASCII alternatives and the two d-with-stroke patterns of
  the accent table are modelled. The mis-encoded vowel alternatives are not, so
  `NormalizeAscii` is stated for ASCII text only. Line 17 of `utils/util.ts` maps the
  `e` vowels to `i`; this is outside the modelled fragment.
- Util.ParseDuration: `String(x)` coercion of a non-string argument is not modelled.
- ViewCount.ViewsField: a `views` value that is not an array but has a `length` of 0
  (an object such as `{"length": 0}`) is not modelled as such. The service deletes
  that batch and returns true. The model counts it as unusable: false, and the batch
  is kept.
- ViewCount.RawCount: counter text is read as the number `INCR` stored there. Any
  other value reads as 0. Text with a numeric prefix, such as `"12abc"`, is not
  modelled; `parseInt` would read 12 from it. Only `INCR` writes these keys.
- Films.FindAll: the database's ordering is not modelled. The film table is given
  already in the requested order. Prisma's treatment of a negative `skip` (page 0 or
  less) and of a negative `take` is left to the database, and the model gives `None`
  for those.
- Films.FindAll: a failing database query is not modelled. `findAll` has no flag
  for it; the query rejects and the exception reaches the caller.
- Films.Contains: Prisma's `contains` is modelled as case-sensitive substring
  search.
- The crawler, the scraping tasks, watch progress, and the CRUD services,
  controllers and modules are not part of this model.
