/**
 * The cache key formats of the view counter: live counters `views:film:<id>:<day>`
 * and pending batches `pending:views:<batchId>`, the patterns that enumerate them,
 * and how `collectViewsToPending` and `getPendingBatches` read them back.
 */
module ViewKeys {
  import opened Wrappers
  import opened Text
  import Glob

  const ViewPrefix: string := "views:film:"
  const ViewPattern: string := "views:film:*:*"
  const PendingPrefix: string := "pending:views:"
  const PendingPattern: string := "pending:views:*"
  /** The trending list another part of the service caches; invalidated after every flush. */
  const TrendingKey: string := "films:trending:7days"

  /** The live counter of one film on one day. */
  function ViewKey(filmId: int, day: string): (key: string)
    ensures IsViewKey(key)
  {
    var id := IntToString(filmId);
    var rest := id + ":" + day;
    assert rest[|id|] == ':';
    var key := ViewPrefix + rest;
    assert key[|ViewPrefix|..] == rest;
    key
  }

  function PendingKey(batchId: string): (key: string)
    ensures IsPendingKey(key) && !IsViewKey(key) && key != TrendingKey
  {
    var key := PendingPrefix + batchId;
    assert key[0] == 'p';
    key
  }

  /** The keys the pattern `views:film:*:*` enumerates. */
  predicate IsViewKey(key: string) {
    ViewPrefix <= key && ':' in key[|ViewPrefix|..]
  }

  /** The keys the pattern `pending:views:*` enumerates. */
  predicate IsPendingKey(key: string) {
    PendingPrefix <= key
  }

  lemma ViewPatternMatches(key: string)
    ensures Glob.Matches(ViewPattern, key) <==> IsViewKey(key)
  {
    assert ViewPattern == ViewPrefix + "*:*";
    Glob.PrefixColonPattern(ViewPrefix, key);
  }

  lemma PendingPatternMatches(key: string)
    ensures Glob.Matches(PendingPattern, key) <==> IsPendingKey(key)
  {
    assert PendingPattern == PendingPrefix + "*";
    Glob.PrefixPattern(PendingPrefix, key);
  }

  /** A counter key split on `:` has at least four parts, so `parts[2]` and `parts[3]` exist. */
  lemma ViewKeyParts(key: string)
    requires IsViewKey(key)
    ensures |Split(key, ':')| >= 4
    ensures Split(key, ':')[..2] == ["views", "film"]
  {
    var rest := key[|ViewPrefix|..];
    assert key == "views" + [':'] + ("film" + [':'] + rest);
    SplitAtFirst("views", ':', "film" + [':'] + rest);
    SplitAtFirst("film", ':', rest);
    SplitWithSep(rest, ':');
  }

  /**
   * The film id (`parseInt(parts[2], 10)`, `None` for NaN) and the day (`parts[3]`)
   * that collection reads from a counter key.
   */
  function KeyFields(key: string): (Option<int>, string)
    requires IsViewKey(key)
  {
    ViewKeyParts(key);
    var parts := Split(key, ':');
    (ParseInt(parts[2]), parts[3])
  }

  /** The day read from a counter key never contains `:`. */
  lemma KeyFieldsDay(key: string)
    requires IsViewKey(key)
    ensures ':' !in KeyFields(key).1
  {
    ViewKeyParts(key);
  }

  /**
   * Reading a counter key back recovers the film id and the day it was built from,
   * provided the day contains no `:` (the ISO date used as the day never does).
   */
  lemma {:induction false} ViewKeyRoundTrip(filmId: int, day: string)
    requires ':' !in day
    ensures KeyFields(ViewKey(filmId, day)) == (Some(filmId), day)
  {
    ViewKeySplit(filmId, day);
    ParseIntRoundTrip(filmId);
  }

  /** A counter key splits on `:` into its four parts. */
  lemma ViewKeySplit(filmId: int, day: string)
    requires ':' !in day
    ensures Split(ViewKey(filmId, day), ':') == ["views", "film", IntToString(filmId), day]
  {
    var id := IntToString(filmId);
    var tail := id + [':'] + day;
    var rest := "film" + [':'] + tail;
    ViewKeyShape(filmId, day);
    SplitWithoutSep(day, ':');
    SplitAtFirst(id, ':', day);
    assert ':' !in "film";
    SplitAtFirst("film", ':', tail);
    assert ':' !in "views";
    SplitAtFirst("views", ':', rest);
  }

  /** A counter key is `views`, `film`, the id and the day joined by `:`. */
  lemma ViewKeyShape(filmId: int, day: string)
    ensures ViewKey(filmId, day) == "views" + [':'] + ("film" + [':'] + (IntToString(filmId) + [':'] + day))
  {
    assert ViewPrefix == "views" + [':'] + "film" + [':'];
  }

  /** Distinct films or days have distinct counter keys. */
  lemma ViewKeyInjective(f1: int, d1: string, f2: int, d2: string)
    requires ':' !in d1 && ':' !in d2
    requires ViewKey(f1, d1) == ViewKey(f2, d2)
    ensures f1 == f2 && d1 == d2
  {
    ViewKeyRoundTrip(f1, d1);
    ViewKeyRoundTrip(f2, d2);
  }

  /** `key.replace('pending:views:', '')`: the batch id of a pending key. */
  function BatchIdOf(key: string): (id: string)
    requires IsPendingKey(key)
    ensures PendingKey(id) == key
  {
    ReplacePrefix(PendingPrefix, key[|PendingPrefix|..]);
    assert PendingPrefix + key[|PendingPrefix|..] == key;
    ReplaceFirst(key, PendingPrefix, "")
  }

  /** Stripping the prefix of a batch's pending key gives back its id. */
  /** Different batch ids get different pending keys. */
  lemma PendingKeyInjective(a: string, b: string)
    ensures PendingKey(a) == PendingKey(b) ==> a == b
  {
    assert (PendingPrefix + a)[|PendingPrefix|..] == a;
    assert (PendingPrefix + b)[|PendingPrefix|..] == b;
  }

  lemma PendingKeyRoundTrip(batchId: string)
    ensures BatchIdOf(PendingKey(batchId)) == batchId
  {
    ReplacePrefix(PendingPrefix, batchId);
  }
}
