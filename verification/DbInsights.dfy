/**
 The filtered question, asked of the database and of memory: the WHERE clause picks the rows before
 they are grouped, the in-memory path filters the entries before it buckets them.
 */
module DbInsights {
  import opened LogEntries
  import opened LogFilters
  import opened LogCache
  import opened SqlFilters
  import opened MinuteBuckets
  import opened BucketOrder
  import opened ErrorBuckets
  import opened DbBuckets
  import opened DayWindow

  /** The rows the emitted conditions keep. */
  function Selected(table: seq<Entry>, f: Filters): seq<Entry>
    requires forall e <- table :: Storable(e)
  {
    if table == [] then []
    else
      var last := table[|table| - 1];
      Selected(table[..|table| - 1], f) + if SqlSelects(f, RowOf(last)) then [last] else []
  }

  lemma {:induction false} SelectedIsMatching(table: seq<Entry>, f: Filters)
    requires PortableFilters(f) && forall e <- table :: Storable(e) && Comparable(e)
    ensures Selected(table, f) == Matching(table, f)
  {
    if table != [] {
      SelectedIsMatching(table[..|table| - 1], f);
      FiltersAgree(f, table[|table| - 1]);
    }
  }

  lemma MatchingIgnoresOrder(table: seq<Entry>, logs: seq<Entry>, f: Filters)
    requires multiset(table) == multiset(logs)
    ensures multiset(Matching(table, f)) == multiset(Matching(logs, f))
  {
    forall e ensures multiset(Matching(table, f))[e] == multiset(Matching(logs, f))[e] {
      MatchingMultiplicity(table, f, e);
      MatchingMultiplicity(logs, f, e);
    }
  }

  /**
   For portable filters and comparable entries, the filtered buckets and summary of the two paths are
   the same if and only if the window is shorter than a day, or of the selected entries none is in its
   first minute and some are in its last.
   */
  lemma InsightsAgreeIff(totals: seq<TotalRow>, codes: seq<CodeRow>, table: seq<Entry>, logs: seq<Entry>, f: Filters,
                         now: int, window: nat, logLimit: nat, buckets: seq<Bucket>)
    requires PortableFilters(f) && forall e <- table :: Storable(e) && Comparable(e)
    requires multiset(table) == multiset(logs)
    requires window <= DAY && Queried(totals, codes, Selected(table, f), now, window)
    requires var m := DbMap(totals, codes, WindowStart(now, window), window);
             Increasing(buckets) && Holds(buckets, m, m.Keys)
    ensures var start, rows := WindowStart(now, window), Selected(table, f);
            SameAnswer(buckets, InsightsAnswer(logs, f, window, logLimit, now))
            <==> window < DAY || (InFirstMinute(rows, start) == 0 && InLastMinute(rows, start) > 0)
  {
    SelectedIsMatching(table, f);
    MatchingIgnoresOrder(table, logs, f);
    PathsAgreeIff(totals, codes, Selected(table, f), Matching(logs, f), now, window, logLimit, buckets);
    StoredNeverRaises(Selected(table, f), Matching(logs, f), now, window,
                      InsightsReport(logs, f, window, logLimit, now));
  }
}
