/**
 * The relational store as the view counter sees it: each film's total `viewCount`
 * and the per-(film, day) `FilmDailyView` rows. Only the two writes the pipeline
 * issues inside its transactions are modelled.
 */
module DurableStore {
  import opened Wrappers

  /** The unique key `filmId_date` of a daily row; the day is opaque text. */
  datatype DayKey = DayKey(film: int, date: string)

  /** `totals` holds one entry per existing film; `daily` one per existing daily row. */
  datatype Store = Store(totals: map<int, int>, daily: map<DayKey, int>)

  /** A daily row's count, 0 when the row does not exist. */
  function DailyCount(s: Store, k: DayKey): int {
    if k in s.daily then s.daily[k] else 0
  }

  /**
   * `film.update({ where: { id }, data: { viewCount: { increment: delta } } })`: fails
   * (the client throws) when no film has that id.
   */
  function IncrementFilm(s: Store, id: int, delta: int): (r: Option<Store>)
    ensures r.Some? <==> id in s.totals
    ensures r.Some? ==> r.value.totals.Keys == s.totals.Keys && r.value.daily == s.daily
    ensures r.Some? ==> r.value.totals[id] == s.totals[id] + delta
    ensures r.Some? ==> forall other :: other in s.totals && other != id ==> r.value.totals[other] == s.totals[other]
  {
    if id in s.totals then Some(s.(totals := s.totals[id := s.totals[id] + delta])) else None
  }

  /** `filmDailyView.upsert(...)`: adds `delta` to the row, creating it with `delta` when absent. */
  function UpsertDaily(s: Store, k: DayKey, delta: int): (r: Store)
    ensures r.totals == s.totals
    ensures k in r.daily && DailyCount(r, k) == DailyCount(s, k) + delta
    ensures forall other :: other != k ==> (other in r.daily <==> other in s.daily) && DailyCount(r, other) == DailyCount(s, other)
  {
    s.(daily := s.daily[k := DailyCount(s, k) + delta])
  }
}
