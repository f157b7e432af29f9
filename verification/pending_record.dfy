/**
 * The pending-batch record the view counter stores in the cache: a snapshot of the
 * live counters taken by one collection.
 */
module PendingRecord {
  import opened Wrappers

  /**
   * One swept counter. `film` is `None` when the film id read from the key was `NaN`
   * (JSON turns it into `null`); `date` is the calendar day, kept as opaque text.
   */
  datatype View = View(film: Option<int>, date: string, count: int)

  datatype PendingBatch = PendingBatch(batchId: string, createdAt: string, views: seq<View>)

  /** The sum of the counts of `views`. */
  function Total(views: seq<View>): int {
    if |views| == 0 then 0 else views[0].count + Total(views[1..])
  }

  lemma {:induction false} TotalAppend(a: seq<View>, b: seq<View>)
    ensures Total(a + b) == Total(a) + Total(b)
    decreases |a|
  {
    if |a| > 0 {
      assert (a + b)[1..] == a[1..] + b;
      TotalAppend(a[1..], b);
    } else {
      assert a + b == b;
    }
  }
}
