/**
 * How `processPendingBatch` turns a batch into store writes: the views are grouped
 * in a JavaScript `Map` keyed by `${filmId}:${date}` (counts of equal keys summed,
 * first-seen order kept), and each merged entry is split back on `:` and applied as
 * one film increment and one daily-row upsert, all inside one transaction.
 */
module BatchMerge {
  import opened Wrappers
  import opened Text
  import opened PendingRecord
  import opened DurableStore

  /** The `Map` as an insertion-ordered list of (key, count). */
  type Entries = seq<(string, int)>

  /** `${view.filmId}` after the batch went through JSON: a NaN id became `null`. */
  function FilmText(film: Option<int>): (t: string)
    ensures ':' !in t
  {
    match film
    case Some(id) => IntToString(id)
    case None => "null"
  }

  function MergeKey(v: View): string {
    FilmText(v.film) + ":" + v.date
  }

  function KeysOf(m: Entries): set<string> {
    if |m| == 0 then {} else {m[0].0} + KeysOf(m[1..])
  }

  predicate DistinctKeys(m: Entries) {
    |m| == 0 || (m[0].0 !in KeysOf(m[1..]) && DistinctKeys(m[1..]))
  }

  /** `map.get(k) || 0`. */
  function Lookup(m: Entries, k: string): int {
    if |m| == 0 then 0 else if m[0].0 == k then m[0].1 else Lookup(m[1..], k)
  }

  /** `map.set(k, (map.get(k) || 0) + c)`. */
  function Upsert(m: Entries, k: string, c: int): (r: Entries)
    ensures KeysOf(r) == KeysOf(m) + {k}
    ensures DistinctKeys(m) ==> DistinctKeys(r)
  {
    if |m| == 0 then [(k, c)]
    else if m[0].0 == k then
      assert ([(k, m[0].1 + c)] + m[1..])[1..] == m[1..];
      [(k, m[0].1 + c)] + m[1..]
    else
      var r := [m[0]] + Upsert(m[1..], k, c);
      assert r[1..] == Upsert(m[1..], k, c);
      r
  }

  /** The grouping loop: the views in order, added to the map `acc`. */
  function MergeInto(acc: Entries, views: seq<View>): (m: Entries)
    ensures DistinctKeys(acc) ==> DistinctKeys(m)
    decreases |views|
  {
    if |views| == 0 then acc
    else MergeInto(Upsert(acc, MergeKey(views[0]), views[0].count), views[1..])
  }

  function Merge(views: seq<View>): (m: Entries)
    ensures DistinctKeys(m)
  {
    MergeInto([], views)
  }

  /** The ungrouped views as (key, count) pairs. */
  function Unmerged(views: seq<View>): (e: Entries)
    ensures |e| == |views|
  {
    if |views| == 0 then [] else [(MergeKey(views[0]), views[0].count)] + Unmerged(views[1..])
  }

  /** The sum of the counts of the entries whose key satisfies `P`. */
  function SumIf(m: Entries, P: string -> bool): int {
    if |m| == 0 then 0 else (if P(m[0].0) then m[0].1 else 0) + SumIf(m[1..], P)
  }

  lemma {:induction false} UpsertSum(m: Entries, k: string, c: int, P: string -> bool)
    ensures SumIf(Upsert(m, k, c), P) == SumIf(m, P) + (if P(k) then c else 0)
    decreases |m|
  {
    if |m| > 0 && m[0].0 != k {
      UpsertSum(m[1..], k, c, P);
      assert Upsert(m, k, c)[1..] == Upsert(m[1..], k, c);
    } else if |m| > 0 {
      assert Upsert(m, k, c)[1..] == m[1..];
    }
  }

  lemma {:induction false} MergeIntoSums(acc: Entries, views: seq<View>, P: string -> bool)
    ensures SumIf(MergeInto(acc, views), P) == SumIf(acc, P) + SumIf(Unmerged(views), P)
    decreases |views|
  {
    if |views| > 0 {
      var acc' := Upsert(acc, MergeKey(views[0]), views[0].count);
      UpsertSum(acc, MergeKey(views[0]), views[0].count, P);
      MergeIntoSums(acc', views[1..], P);
      assert Unmerged(views)[1..] == Unmerged(views[1..]);
    }
  }

  /**
   * Grouping keeps every key-determined sum: summing the merged entries whose key
   * satisfies `P` gives what summing the ungrouped views with such keys gives.
   */
  lemma MergePreservesSums(views: seq<View>, P: string -> bool)
    ensures SumIf(Merge(views), P) == SumIf(Unmerged(views), P)
  {
    MergeIntoSums([], views, P);
  }

  lemma {:induction false} MergeIntoKeys(acc: Entries, views: seq<View>)
    ensures KeysOf(MergeInto(acc, views)) == KeysOf(acc) + KeysOf(Unmerged(views))
    decreases |views|
  {
    if |views| > 0 {
      MergeIntoKeys(Upsert(acc, MergeKey(views[0]), views[0].count), views[1..]);
      assert Unmerged(views)[1..] == Unmerged(views[1..]);
    }
  }

  /** Grouping neither loses nor invents a key. */
  lemma MergeKeys(views: seq<View>)
    ensures KeysOf(Merge(views)) == KeysOf(Unmerged(views))
  {
    MergeIntoKeys([], views);
  }

  lemma {:induction false} LookupIsSum(m: Entries, k: string)
    requires DistinctKeys(m)
    ensures Lookup(m, k) == SumIf(m, (x: string) => x == k)
    decreases |m|
  {
    if |m| > 0 {
      LookupIsSum(m[1..], k);
      if m[0].0 == k {
        AbsentSumsZero(m[1..], k);
      }
    }
  }

  lemma {:induction false} AbsentSumsZero(m: Entries, k: string)
    requires k !in KeysOf(m)
    ensures SumIf(m, (x: string) => x == k) == 0
    decreases |m|
  {
    if |m| > 0 {
      AbsentSumsZero(m[1..], k);
    }
  }

  lemma {:induction false} UnmergedTotal(views: seq<View>)
    ensures SumIf(Unmerged(views), (x: string) => true) == Total(views)
    decreases |views|
  {
    if |views| > 0 {
      assert Unmerged(views)[1..] == Unmerged(views[1..]);
      UnmergedTotal(views[1..]);
    }
  }

  /**
   * Grouping by `filmId:date`: every key appears once, the merged count of a key is
   * the sum of the counts of the views with that key, and the total is conserved.
   */
  lemma MergeSumsDuplicates(views: seq<View>, k: string)
    ensures DistinctKeys(Merge(views))
    ensures Lookup(Merge(views), k) == SumIf(Unmerged(views), (x: string) => x == k)
    ensures SumIf(Merge(views), (x: string) => true) == Total(views)
  {
    LookupIsSum(Merge(views), k);
    MergePreservesSums(views, (x: string) => x == k);
    MergePreservesSums(views, (x: string) => true);
    UnmergedTotal(views);
  }

  // ---------------------------------------------------------------------------
  // Applying the merged entries

  /**
   * `const [filmIdStr, dateStr] = key.split(':')`, then `parseInt(filmIdStr, 10)`:
   * the daily row a merged key addresses, `None` when the film id is NaN (or, for a
   * key without `:`, the date would be undefined); either makes the write throw.
   */
  function DayOfKey(k: string): (r: Option<DayKey>)
    ensures r.Some? ==> ':' !in r.value.date
  {
    var parts := Split(k, ':');
    match ParseInt(parts[0])
    case None => None
    case Some(id) => if |parts| >= 2 then Some(DayKey(id, parts[1])) else None
  }

  /** The key addresses a row of film `id`. */
  predicate OnFilm(k: string, id: int) {
    DayOfKey(k).Some? && DayOfKey(k).value.film == id
  }

  /** The key addresses a row of one of the existing `films`, so its writes do not throw. */
  predicate Writable(k: string, films: set<int>) {
    DayOfKey(k).Some? && DayOfKey(k).value.film in films
  }

  predicate Applicable(m: Entries, films: set<int>) {
    |m| == 0 || (Writable(m[0].0, films) && Applicable(m[1..], films))
  }

  /** The daily rows the entries address. */
  function Days(m: Entries): set<DayKey> {
    if |m| == 0 then {}
    else (if DayOfKey(m[0].0).Some? then {DayOfKey(m[0].0).value} else {}) + Days(m[1..])
  }

  /** One merged entry: `film.update` by the count, then `filmDailyView.upsert` by it. */
  function ApplyEntry(s: Store, k: string, count: int): Option<Store> {
    match DayOfKey(k)
    case None => None
    case Some(dk) =>
      match IncrementFilm(s, dk.film, count)
      case None => None
      case Some(s1) => Some(UpsertDaily(s1, dk, count))
  }

  /**
   * The body of the transaction: the entries in order; the first write that throws
   * aborts the whole transaction (`None`: nothing is written).
   */
  function ApplyAll(s: Store, m: Entries): (r: Option<Store>)
    ensures r.Some? <==> Applicable(m, s.totals.Keys)
    ensures r.Some? ==> r.value.totals.Keys == s.totals.Keys
    decreases |m|
  {
    if |m| == 0 then Some(s)
    else
      match ApplyEntry(s, m[0].0, m[0].1)
      case None => None
      case Some(s1) => ApplyAll(s1, m[1..])
  }

  /** Applying the entries raises a film's total by the counts of the entries on that film. */
  lemma {:induction false} ApplyAllTotals(s: Store, m: Entries, id: int)
    requires ApplyAll(s, m).Some? && id in s.totals
    ensures ApplyAll(s, m).value.totals[id] == s.totals[id] + SumIf(m, (k: string) => OnFilm(k, id))
    decreases |m|
  {
    if |m| > 0 {
      var s1 := ApplyEntry(s, m[0].0, m[0].1).value;
      ApplyAllTotals(s1, m[1..], id);
    }
  }

  /** Applying the entries raises a daily row by the counts of the entries on it. */
  lemma {:induction false} ApplyAllDaily(s: Store, m: Entries, dk: DayKey)
    requires ApplyAll(s, m).Some?
    ensures DailyCount(ApplyAll(s, m).value, dk) == DailyCount(s, dk) + SumIf(m, (k: string) => DayOfKey(k) == Some(dk))
    decreases |m|
  {
    if |m| > 0 {
      var s1 := ApplyEntry(s, m[0].0, m[0].1).value;
      ApplyEntryDaily(s, m[0].0, m[0].1, dk);
      ApplyAllDaily(s1, m[1..], dk);
    }
  }

  /** One entry raises the daily row it addresses by its count and no other row. */
  lemma ApplyEntryDaily(s: Store, k: string, count: int, dk: DayKey)
    requires ApplyEntry(s, k, count).Some?
    ensures DailyCount(ApplyEntry(s, k, count).value, dk) == DailyCount(s, dk) + (if DayOfKey(k) == Some(dk) then count else 0)
  {
    var dk0 := DayOfKey(k).value;
    var s1 := IncrementFilm(s, dk0.film, count).value;
    assert DailyCount(s1, dk) == DailyCount(s, dk);
  }

  /** Applying the entries creates exactly the daily rows they address. */
  lemma {:induction false} ApplyAllRows(s: Store, m: Entries, dk: DayKey)
    requires ApplyAll(s, m).Some?
    ensures dk in ApplyAll(s, m).value.daily <==> dk in s.daily || dk in Days(m)
    decreases |m|
  {
    if |m| > 0 {
      var dk0 := DayOfKey(m[0].0).value;
      var s1 := ApplyEntry(s, m[0].0, m[0].1).value;
      assert dk in s1.daily <==> dk in s.daily || dk == dk0;
      assert Days(m) == {dk0} + Days(m[1..]);
      ApplyAllRows(s1, m[1..], dk);
    }
  }

  lemma {:induction false} ApplicableByKeys(m: Entries, films: set<int>)
    ensures Applicable(m, films) <==> forall k :: k in KeysOf(m) ==> Writable(k, films)
    decreases |m|
  {
    if |m| > 0 {
      ApplicableByKeys(m[1..], films);
    }
  }

  /** The daily rows addressed by a set of keys. */
  function DaysOfKeys(ks: set<string>): set<DayKey> {
    set k | k in ks && DayOfKey(k).Some? :: DayOfKey(k).value
  }

  lemma {:induction false} DaysByKeys(m: Entries)
    ensures Days(m) == DaysOfKeys(KeysOf(m))
    decreases |m|
  {
    if |m| > 0 {
      DaysByKeys(m[1..]);
    }
  }

  // ---------------------------------------------------------------------------
  // The effect of a whole batch, stated on the views themselves

  /** The sum of the counts of the views satisfying `Q`. */
  function ViewSum(views: seq<View>, Q: View -> bool): int {
    if |views| == 0 then 0 else (if Q(views[0]) then views[0].count else 0) + ViewSum(views[1..], Q)
  }

  /** The batch was produced by collection: no day contains `:`. */
  predicate PlainDays(views: seq<View>) {
    forall i :: 0 <= i < |views| ==> ':' !in views[i].date
  }

  /** Every view names one of the existing `films`. */
  predicate KnownFilms(views: seq<View>, films: set<int>) {
    forall i :: 0 <= i < |views| ==> views[i].film.Some? && views[i].film.value in films
  }

  /** The daily rows a batch touches. */
  function Touched(views: seq<View>): set<DayKey> {
    if |views| == 0 then {}
    else (if views[0].film.Some? then {DayKey(views[0].film.value, views[0].date)} else {}) + Touched(views[1..])
  }

  /**
   * Reference definition of a flush: every film total rises by the counts of its
   * views, every daily row by the counts of its (film, day) views, and the rows the
   * batch touches exist afterwards.
   */
  function Flushed(s: Store, views: seq<View>): Store {
    Store(
      map id | id in s.totals :: s.totals[id] + ViewSum(views, (v: View) => v.film == Some(id)),
      map dk | dk in s.daily.Keys + Touched(views) ::
        DailyCount(s, dk) + ViewSum(views, (v: View) => v.film == Some(dk.film) && v.date == dk.date))
  }

  /** A merge key reads back as the view's film and day. */
  lemma DayOfMergeKey(v: View)
    requires ':' !in v.date
    ensures DayOfKey(MergeKey(v)) == if v.film.Some? then Some(DayKey(v.film.value, v.date)) else None
  {
    var t := FilmText(v.film);
    SplitAtFirst(t, ':', v.date);
    SplitWithoutSep(v.date, ':');
    assert MergeKey(v) == t + [':'] + v.date;
    assert Split(MergeKey(v), ':') == [t, v.date];
    match v.film {
      case Some(id) => ParseIntRoundTrip(id);
      case None => ParseIntNull();
    }
  }

  lemma {:induction false} UnmergedSum(views: seq<View>, P: string -> bool, Q: View -> bool)
    requires forall i :: 0 <= i < |views| ==> P(MergeKey(views[i])) == Q(views[i])
    ensures SumIf(Unmerged(views), P) == ViewSum(views, Q)
    decreases |views|
  {
    if |views| > 0 {
      assert Unmerged(views)[1..] == Unmerged(views[1..]);
      assert forall i :: 1 <= i < |views| ==> views[1..][i - 1] == views[i];
      UnmergedSum(views[1..], P, Q);
    }
  }

  lemma {:induction false} UnmergedDays(views: seq<View>)
    requires PlainDays(views)
    ensures Days(Unmerged(views)) == Touched(views)
    decreases |views|
  {
    if |views| > 0 {
      DayOfMergeKey(views[0]);
      assert Unmerged(views)[1..] == Unmerged(views[1..]);
      PlainDaysTail(views);
      UnmergedDays(views[1..]);
    }
  }

  /**
   * Whatever the day text, a merge key addresses a row of the view's film, and
   * addresses none when the film is `null`.
   */
  lemma FilmOfMergeKey(v: View)
    ensures DayOfKey(MergeKey(v)).Some? <==> v.film.Some?
    ensures v.film.Some? ==> DayOfKey(MergeKey(v)).value.film == v.film.value
  {
    var t := FilmText(v.film);
    assert MergeKey(v) == t + [':'] + v.date;
    DayOfJoin(t, v.date);
    match v.film {
      case Some(id) => ParseIntRoundTrip(id);
      case None => ParseIntNull();
    }
  }

  /** A key joined at its first `:` addresses the row its front half names as a film. */
  lemma DayOfJoin(a: string, b: string)
    requires ':' !in a
    ensures DayOfKey(a + [':'] + b) == if ParseInt(a).Some? then Some(DayKey(ParseInt(a).value, Split(b, ':')[0])) else None
  {
    SplitAtFirst(a, ':', b);
  }

  lemma {:induction false} UnmergedApplicable(views: seq<View>, films: set<int>)
    ensures Applicable(Unmerged(views), films) <==> KnownFilms(views, films)
    decreases |views|
  {
    if |views| > 0 {
      FilmOfMergeKey(views[0]);
      var rest := views[1..];
      assert Unmerged(views)[1..] == Unmerged(rest);
      assert Unmerged(views)[0].0 == MergeKey(views[0]);
      KnownFilmsCons(views, films);
      UnmergedApplicable(rest, films);
    }
  }

  lemma PlainDaysTail(views: seq<View>)
    requires |views| > 0 && PlainDays(views)
    ensures PlainDays(views[1..])
  {
    assert forall i :: 1 <= i < |views| ==> views[1..][i - 1] == views[i];
  }

  /** A batch names known films iff its first view does and the rest do. */
  lemma KnownFilmsCons(views: seq<View>, films: set<int>)
    requires |views| > 0
    ensures KnownFilms(views, films) <==>
      (views[0].film.Some? && views[0].film.value in films) && KnownFilms(views[1..], films)
  {
    var rest := views[1..];
    assert forall i :: 1 <= i < |views| ==> rest[i - 1] == views[i];
    if (views[0].film.Some? && views[0].film.value in films) && KnownFilms(rest, films) {
      forall i | 0 <= i < |views| ensures views[i].film.Some? && views[i].film.value in films {
        if i > 0 {
          assert views[i] == rest[i - 1];
        }
      }
    }
  }

  lemma FlushTotals(s: Store, views: seq<View>, id: int)
    requires PlainDays(views) && ApplyAll(s, Merge(views)).Some? && id in s.totals
    ensures ApplyAll(s, Merge(views)).value.totals[id] == Flushed(s, views).totals[id]
  {
    ApplyAllTotals(s, Merge(views), id);
    MergePreservesSums(views, (k: string) => OnFilm(k, id));
    forall i | 0 <= i < |views| ensures OnFilm(MergeKey(views[i]), id) == (views[i].film == Some(id)) {
      DayOfMergeKey(views[i]);
    }
    UnmergedSum(views, (k: string) => OnFilm(k, id), (v: View) => v.film == Some(id));
  }

  lemma FlushDaily(s: Store, views: seq<View>, dk: DayKey)
    requires PlainDays(views) && ApplyAll(s, Merge(views)).Some?
    ensures DailyCount(ApplyAll(s, Merge(views)).value, dk)
         == DailyCount(s, dk) + ViewSum(views, (v: View) => v.film == Some(dk.film) && v.date == dk.date)
  {
    ApplyAllDaily(s, Merge(views), dk);
    MergePreservesSums(views, (k: string) => DayOfKey(k) == Some(dk));
    forall i | 0 <= i < |views|
      ensures (DayOfKey(MergeKey(views[i])) == Some(dk)) == (views[i].film == Some(dk.film) && views[i].date == dk.date)
    {
      DayOfMergeKey(views[i]);
    }
    UnmergedSum(views, (k: string) => DayOfKey(k) == Some(dk), (v: View) => v.film == Some(dk.film) && v.date == dk.date);
  }

  lemma FlushRows(s: Store, views: seq<View>, dk: DayKey)
    requires PlainDays(views) && ApplyAll(s, Merge(views)).Some?
    ensures dk in ApplyAll(s, Merge(views)).value.daily <==> dk in s.daily || dk in Touched(views)
  {
    ApplyAllRows(s, Merge(views), dk);
    MergeKeys(views);
    DaysByKeys(Merge(views));
    DaysByKeys(Unmerged(views));
    UnmergedDays(views);
  }

  /** With every view applicable, the merged totals are the reference totals. */
  lemma FlushedTotalsAgree(s: Store, views: seq<View>)
    requires PlainDays(views) && ApplyAll(s, Merge(views)).Some?
    ensures ApplyAll(s, Merge(views)).value.totals == Flushed(s, views).totals
  {
    var r := ApplyAll(s, Merge(views)).value;
    var f := Flushed(s, views);
    forall id | id in s.totals ensures r.totals[id] == f.totals[id] {
      FlushTotals(s, views, id);
    }
  }

  /** With every view applicable, the merged daily rows are the reference rows. */
  lemma FlushedDailyAgree(s: Store, views: seq<View>)
    requires PlainDays(views) && ApplyAll(s, Merge(views)).Some?
    ensures ApplyAll(s, Merge(views)).value.daily == Flushed(s, views).daily
  {
    var r := ApplyAll(s, Merge(views)).value;
    var f := Flushed(s, views);
    FlushedRowsAgree(s, views);
    forall dk | dk in r.daily ensures r.daily[dk] == f.daily[dk] {
      FlushDaily(s, views, dk);
      assert f.daily[dk] == DailyCount(s, dk) + ViewSum(views, (v: View) => v.film == Some(dk.film) && v.date == dk.date);
    }
  }

  /** With every view applicable, the merged daily rows exist exactly where the reference ones do. */
  lemma FlushedRowsAgree(s: Store, views: seq<View>)
    requires PlainDays(views) && ApplyAll(s, Merge(views)).Some?
    ensures ApplyAll(s, Merge(views)).value.daily.Keys == Flushed(s, views).daily.Keys
  {
    forall dk ensures dk in ApplyAll(s, Merge(views)).value.daily <==> dk in s.daily.Keys + Touched(views) {
      FlushRows(s, views, dk);
    }
  }

  /** Applying the merged entries succeeds iff every view names an existing film, whatever the days. */
  lemma ApplyMergedApplicable(s: Store, views: seq<View>)
    ensures ApplyAll(s, Merge(views)).Some? <==> KnownFilms(views, s.totals.Keys)
  {
    MergeKeys(views);
    ApplicableByKeys(Merge(views), s.totals.Keys);
    ApplicableByKeys(Unmerged(views), s.totals.Keys);
    UnmergedApplicable(views, s.totals.Keys);
  }

  /**
   * Processing a batch that collection produced writes exactly its reference
   * effect: applying the merged entries succeeds iff every view names an existing
   * film, and then yields `Flushed`, the same as adding every view unmerged.
   */
  lemma ApplyMergedIsFlush(s: Store, views: seq<View>)
    requires PlainDays(views)
    ensures ApplyAll(s, Merge(views)).Some? <==> KnownFilms(views, s.totals.Keys)
    ensures KnownFilms(views, s.totals.Keys) ==> ApplyAll(s, Merge(views)) == Some(Flushed(s, views))
  {
    ApplyMergedApplicable(s, views);
    if KnownFilms(views, s.totals.Keys) {
      FlushedTotalsAgree(s, views);
      FlushedDailyAgree(s, views);
    }
  }
}
