/**
 The in-memory answer to "errors per minute": empty buckets for the window, one pass over the log,
 rates, and the buckets sorted by time.
 */
module ErrorBuckets {
  import opened Wrappers
  import opened LogEntries
  import opened LogFilters
  import opened LogCache
  import opened Counting
  import MapSums
  import opened NewestFirst
  import opened MergeLogs
  import opened MinuteBuckets
  import opened BucketOrder

  // ---------------------------------------------------------------- building the buckets

  /** First of the `n` slots so far that has not been replaced by a later one. */
  function FirstOf(n: nat): nat { if n <= DAY then 0 else n - DAY }

  function Unrated(b: Bucket): Bucket { b.(rate := 0.0) }

  /** `m` has exactly the keys of the `n` slots, each key with the latest slot that has it. */
  ghost predicate SlotMap(m: map<int, Bucket>, h: seq<Entry>, start: int, n: nat) {
    (forall i :: FirstOf(n) <= i < n ==>
       SlotKey(start, i) in m && m[SlotKey(start, i)] == Unrated(SlotBucket(h, start, i)))
    && (forall k :: k in m ==> exists i :: FirstOf(n) <= i < n && k == SlotKey(start, i))
  }

  lemma SlotKeysRepeatDaily(start: int, i: int)
    ensures SlotKey(start, i + DAY) == SlotKey(start, i)
  {
    SlotMinute(start, i);
    SlotMinute(start, i + DAY);
    AddDay(MinuteOf(start) + i);
  }

  lemma AddDay(a: int)
    ensures (a + DAY) % DAY == a % DAY
  {
  }

  lemma SlotKeysDiffer(start: int, i: int, j: int)
    requires i < j < i + DAY
    ensures SlotKey(start, i) != SlotKey(start, j)
  {
    SlotMinute(start, i);
    SlotMinute(start, j);
    if SlotKey(start, i) == SlotKey(start, j) { KeysWithinADay(MinuteOf(start) + i, MinuteOf(start) + j); }
  }

  method EmptyBuckets(start: int, window: nat) returns (m: map<int, Bucket>)
    ensures SlotMap(m, [], start, window + 1)
  {
    m := map[];
    for i := 0 to window + 1
      invariant SlotMap(m, [], start, i)
    {
      ghost var before := m;
      var key := SlotKey(start, i);
      m := m[key := Bucket(key, SlotTime(start, i), 0, 0, 0.0, map[])];
      AddSlot(before, m, start, i);
    }
  }

  lemma AddSlot(m: map<int, Bucket>, m': map<int, Bucket>, start: int, n: nat)
    requires SlotMap(m, [], start, n)
    requires m' == m[SlotKey(start, n) := Bucket(SlotKey(start, n), SlotTime(start, n), 0, 0, 0.0, map[])]
    ensures SlotMap(m', [], start, n + 1)
  {
    forall i | FirstOf(n + 1) <= i < n ensures SlotKey(start, i) != SlotKey(start, n) {
      SlotKeysDiffer(start, i, n);
    }
    forall k | k in m' ensures exists i :: FirstOf(n + 1) <= i < n + 1 && k == SlotKey(start, i) {
      if k in m && k != SlotKey(start, n) {
        var i :| FirstOf(n) <= i < n && k == SlotKey(start, i);
        if i < FirstOf(n + 1) { SlotKeysRepeatDaily(start, i); }
      } else {
        assert k == SlotKey(start, n);
      }
    }
  }

  // ---------------------------------------------------------------- one pass over the log

  predicate InWindow(e: Entry, start: int, window: nat) {
    e.time.Some? && e.time.value >= start && Offset(e, start, FirstSlot(window)) < SlotCount(window)
  }

  /** `int()` raises on this entry's status, and the entry is one the loop looks at. */
  predicate Raises(e: Entry, start: int, window: nat) { e.status.BadStatus? && InWindow(e, start, window) }

  function ErrorEntries(h: seq<Entry>, start: int, window: nat): seq<Entry> {
    if h == [] then []
    else
      var e := h[|h| - 1];
      ErrorEntries(h[..|h| - 1], start, window) + if InWindow(e, start, window) && IsError(e) then [e] else []
  }

  lemma KeyInWindow(m: map<int, Bucket>, h: seq<Entry>, e: Entry, start: int, window: nat)
    requires SlotMap(m, h, start, window + 1) && e.time.Some? && e.time.value >= start
    ensures KeyOf(e.time.value) in m <==> InWindow(e, start, window)
  {
    var first, n := FirstSlot(window), Offset(e, start, FirstSlot(window));
    OffsetPicksSlot(e, start, first, n);
    if KeyOf(e.time.value) in m {
      var i :| FirstOf(window + 1) <= i < window + 1 && KeyOf(e.time.value) == SlotKey(start, i);
      OffsetPicksSlot(e, start, first, i - first);
    }
  }

  /** A bucket after one more entry. */
  lemma FilledStep(h: seq<Entry>, e: Entry, start: int, key: int, timestamp: int)
    ensures var b, b' := Filled(h, start, key, timestamp), Filled(h + [e], start, key, timestamp);
            if Lands(e, start, key) then
              b'.total == b.total + 1
              && b'.errors == b.errors + (if IsError(e) then 1 else 0)
              && b'.breakdown == (if IsError(e) then Bump(b.breakdown, e.status.code) else b.breakdown)
            else Unrated(b') == Unrated(b)
  {
    assert (h + [e])[..|h|] == h;
    CountStep(h, e, Hits(start, key, Always));
    CountStep(h, e, Hits(start, key, IsError));
  }

  /** The body of the loop for an entry that lands on a bucket. */
  function Recorded(b: Bucket, code: int): Bucket {
    var b := b.(total := b.total + 1);
    if code >= 400 then b.(errors := b.errors + 1, breakdown := Bump(b.breakdown, code)) else b
  }

  lemma RecordEntry(m: map<int, Bucket>, h: seq<Entry>, e: Entry, start: int, n: nat)
    requires SlotMap(m, h, start, n) && Eligible(e, start) && KeyOf(e.time.value) in m
    ensures SlotMap(m[KeyOf(e.time.value) := Recorded(m[KeyOf(e.time.value)], e.status.code)], h + [e], start, n)
  {
    forall i | FirstOf(n) <= i < n {
      FilledStep(h, e, start, SlotKey(start, i), SlotTime(start, i));
    }
  }

  lemma SkipEntry(m: map<int, Bucket>, h: seq<Entry>, e: Entry, start: int, n: nat)
    requires SlotMap(m, h, start, n) && (Eligible(e, start) ==> KeyOf(e.time.value) !in m)
    ensures SlotMap(m, h + [e], start, n)
  {
    forall i | FirstOf(n) <= i < n {
      FilledStep(h, e, start, SlotKey(start, i), SlotTime(start, i));
    }
  }

  /** Buckets and error list after the entries `h`, none of which raised. */
  ghost predicate FilledWith(m: map<int, Bucket>, errorLogs: seq<Entry>, h: seq<Entry>, start: int, window: nat) {
    SlotMap(m, h, start, window + 1) && errorLogs == ErrorEntries(h, start, window)
    && forall e <- h :: !Raises(e, start, window)
  }

  /** The loop passes over the entry. */
  predicate Skips(m: map<int, Bucket>, e: Entry, start: int) {
    e.time.None? || e.status.NoStatus? || e.status.NullStatus? || e.time.value < start || KeyOf(e.time.value) !in m
  }

  lemma ErrorEntriesStep(h: seq<Entry>, e: Entry, start: int, window: nat)
    ensures ErrorEntries(h + [e], start, window)
            == ErrorEntries(h, start, window) + if InWindow(e, start, window) && IsError(e) then [e] else []
  {
    assert (h + [e])[..|h|] == h;
  }

  lemma EntrySkipped(m: map<int, Bucket>, errorLogs: seq<Entry>, h: seq<Entry>, e: Entry, start: int, window: nat)
    requires FilledWith(m, errorLogs, h, start, window) && Skips(m, e, start)
    ensures FilledWith(m, errorLogs, h + [e], start, window)
  {
    SkipEntry(m, h, e, start, window + 1);
    ErrorEntriesStep(h, e, start, window);
    if e.time.Some? && e.time.value >= start { KeyInWindow(m, h, e, start, window); }
    assert ErrorEntries(h, start, window) + [] == ErrorEntries(h, start, window);
  }

  lemma EntryRecorded(m: map<int, Bucket>, errorLogs: seq<Entry>, h: seq<Entry>, e: Entry, start: int, window: nat)
    requires FilledWith(m, errorLogs, h, start, window) && !Skips(m, e, start) && e.status.Code?
    ensures var key := KeyOf(e.time.value);
            FilledWith(m[key := Recorded(m[key], e.status.code)],
                       errorLogs + if e.status.code >= 400 then [e] else [], h + [e], start, window)
  {
    RecordEntry(m, h, e, start, window + 1);
    ErrorEntriesStep(h, e, start, window);
    KeyInWindow(m, h, e, start, window);
  }

  method FillBuckets(m0: map<int, Bucket>, logs: seq<Entry>, start: int, window: nat)
    returns (m: map<int, Bucket>, errorLogs: seq<Entry>, raised: bool)
    requires SlotMap(m0, [], start, window + 1)
    ensures raised <==> exists e :: e in logs && Raises(e, start, window)
    ensures !raised ==> SlotMap(m, logs, start, window + 1) && errorLogs == ErrorEntries(logs, start, window)
  {
    m, errorLogs, raised := m0, [], false;
    assert logs[..0] == [];
    for i := 0 to |logs|
      invariant !raised && FilledWith(m, errorLogs, logs[..i], start, window)
    {
      var e := logs[i];
      assert logs[..i + 1] == logs[..i] + [e];
      if e.time.None? || e.status.NoStatus? || e.status.NullStatus? || e.time.value < start {
        EntrySkipped(m, errorLogs, logs[..i], e, start, window);
        continue;
      }
      var key := KeyOf(e.time.value);
      if key !in m {
        EntrySkipped(m, errorLogs, logs[..i], e, start, window);
        continue;
      }
      if e.status.BadStatus? {
        KeyInWindow(m, logs[..i], e, start, window);
        raised := true;
        assert e in logs && Raises(e, start, window);
        return;
      }
      EntryRecorded(m, errorLogs, logs[..i], e, start, window);
      m := m[key := Recorded(m[key], e.status.code)];
      if e.status.code >= 400 { errorLogs := errorLogs + [e]; }
    }
    assert logs[..|logs|] == logs;
  }

  // ---------------------------------------------------------------- the report

  datatype Summary = Summary(totalErrors: nat, totalRequests: nat, peakErrors: nat, currentRate: real)

  function PeakErrors(s: seq<Bucket>): nat {
    if s == [] then 0
    else
      var rest := PeakErrors(s[..|s| - 1]);
      if s[|s| - 1].errors > rest then s[|s| - 1].errors else rest
  }

  /** Totals over the window, its worst minute, and the error rate of its last five buckets. */
  function SummaryOf(s: seq<Bucket>): Summary {
    Summary(Errors(s), Totals(s), PeakErrors(s), Rate(Errors(LastN(s, 5)), Totals(LastN(s, 5))))
  }

  /** The largest number of errors in one bucket; 0 if there are no buckets. */
  ghost predicate IsPeak(peak: nat, s: seq<Bucket>) {
    (forall b <- s :: b.errors <= peak) && if s == [] then peak == 0 else exists b <- s :: b.errors == peak
  }

  /** `rate` is `part` in percent of `whole`; 0 of nothing. */
  predicate IsPercentage(rate: real, part: nat, whole: nat) {
    if whole == 0 then rate == 0.0 else rate * whole as real == 100.0 * part as real
  }

  /** What a summary says about the buckets shown with it. */
  ghost predicate Summarises(summary: Summary, s: seq<Bucket>) {
    var recent := if |s| <= 5 then s else s[|s| - 5..];
    summary.totalErrors == Errors(s) && summary.totalRequests == Totals(s) && IsPeak(summary.peakErrors, s)
    && IsPercentage(summary.currentRate, Errors(recent), Totals(recent))
  }

  lemma {:induction false} PeakIsPeak(s: seq<Bucket>)
    ensures IsPeak(PeakErrors(s), s)
  {
    if s != [] {
      var front, last := s[..|s| - 1], s[|s| - 1];
      PeakIsPeak(front);
      assert s == front + [last] && last in s && forall b <- front :: b in s;
    }
  }

  lemma RateIsPercentage(errors: nat, total: nat)
    ensures IsPercentage(Rate(errors, total), errors, total)
  {
  }

  lemma SummaryMeans(s: seq<Bucket>)
    ensures Summarises(SummaryOf(s), s)
  {
    PeakIsPeak(s);
    RateIsPercentage(Errors(LastN(s, 5)), Totals(LastN(s, 5)));
  }

  datatype Report = Report(buckets: seq<Bucket>, logs: seq<Entry>, summary: Summary)

  /** A report on `buckets` that shows the first `limit` of `logs`, newest first. */
  function ReportOn(buckets: seq<Bucket>, logs: seq<Entry>, key: Entry -> string, limit: nat): Report {
    Report(buckets, FirstN(Sort(logs, key), limit), SummaryOf(buckets))
  }

  /** The report sums up its buckets and shows the newest `limit` of `logs`. */
  ghost predicate Informs(r: Report, logs: seq<Entry>, key: Entry -> string, limit: nat) {
    Summarises(r.summary, r.buckets) && IsNewest(r.logs, logs, key, limit)
  }

  lemma ReportInforms(buckets: seq<Bucket>, logs: seq<Entry>, key: Entry -> string, limit: nat)
    ensures Informs(ReportOn(buckets, logs, key, limit), logs, key, limit)
  {
    SummaryMeans(buckets);
    var sorted, n := Sort(logs, key), if |logs| <= limit then |logs| else limit;
    PrefixIsNewest(logs, key, n);
    SortKeepsLength(logs, key);
    assert FirstN(sorted, limit) == sorted[..n];
  }

  lemma SlotMapTimesAreDistinct(m: map<int, Bucket>, h: seq<Entry>, start: int, n: nat)
    requires SlotMap(m, h, start, n)
    ensures DistinctTimes(m)
  {
    forall k, l | k in m && l in m && m[k].timestamp == m[l].timestamp ensures k == l {
      var i :| FirstOf(n) <= i < n && k == SlotKey(start, i);
      var j :| FirstOf(n) <= j < n && l == SlotKey(start, j);
    }
  }

  function Rated(m: map<int, Bucket>): map<int, Bucket> {
    map k | k in m :: m[k].(rate := Rate(m[k].errors, m[k].total))
  }

  lemma SlotsAreIncreasing(h: seq<Entry>, start: int, window: nat)
    ensures Increasing(Slots(h, start, window))
  {
    var s := Slots(h, start, window);
    forall i, j | 0 <= i < j < |s| ensures s[i].timestamp < s[j].timestamp {
      assert s[i].timestamp == SlotTime(start, FirstSlot(window) + i);
      assert s[j].timestamp == SlotTime(start, FirstSlot(window) + j);
    }
  }

  lemma RatedSlot(m: map<int, Bucket>, h: seq<Entry>, start: int, window: nat, j: nat)
    requires SlotMap(m, h, start, window + 1) && j < SlotCount(window)
    ensures var k := SlotKey(start, FirstSlot(window) + j);
            k in m && Rated(m)[k] == Slots(h, start, window)[j]
  {
  }

  lemma RatedIsSlot(m: map<int, Bucket>, h: seq<Entry>, start: int, window: nat, k: int) returns (j: nat)
    requires SlotMap(m, h, start, window + 1) && k in m
    ensures j < SlotCount(window) && Rated(m)[k] == Slots(h, start, window)[j]
  {
    var i :| FirstOf(window + 1) <= i < window + 1 && k == SlotKey(start, i);
    j := i - FirstSlot(window);
    RatedSlot(m, h, start, window, j);
  }

  /** Rating and sorting the finished map gives the window's slots, oldest first. */
  lemma SortedSlots(m: map<int, Bucket>, h: seq<Entry>, start: int, window: nat, s: seq<Bucket>)
    requires SlotMap(m, h, start, window + 1) && Increasing(s) && Holds(s, Rated(m), m.Keys)
    ensures s == Slots(h, start, window)
  {
    var rated, slots := Rated(m), Slots(h, start, window);
    SlotsAreIncreasing(h, start, window);
    forall b | b in s ensures b in slots {
      var k :| k in m.Keys && rated[k] == b;
      var j := RatedIsSlot(m, h, start, window, k);
    }
    forall j | 0 <= j < |slots| ensures slots[j] in s {
      RatedSlot(m, h, start, window, j);
      assert rated[SlotKey(start, FirstSlot(window) + j)] in s;
    }
    SortingIsUnique(s, slots);
  }

  method WindowBuckets(logs: seq<Entry>, start: int, window: nat)
    returns (buckets: seq<Bucket>, errorLogs: seq<Entry>, raised: bool)
    ensures raised <==> exists e :: e in logs && Raises(e, start, window)
    ensures !raised ==> buckets == Slots(logs, start, window) && errorLogs == ErrorEntries(logs, start, window)
  {
    buckets := [];
    var empty := EmptyBuckets(start, window);
    var m;
    m, errorLogs, raised := FillBuckets(empty, logs, start, window);
    if raised { return; }
    SlotMapTimesAreDistinct(m, logs, start, window + 1);
    buckets := SortByTimestamp(Rated(m));
    assert Rated(m).Keys == m.Keys;
    SortedSlots(m, logs, start, window, buckets);
  }

  function ErrorReport(logs: seq<Entry>, window: nat, logLimit: nat, now: int): Report {
    var start := WindowStart(now, window);
    ReportOn(Slots(logs, start, window), ErrorEntries(logs, start, window), SortText, logLimit)
  }

  /** A report, unless a status in the window is not a number. */
  function Unless(logs: seq<Entry>, now: int, window: nat, report: Report): Option<Report> {
    if exists e :: e in logs && Raises(e, WindowStart(now, window), window) then None else Some(report)
  }

  function ErrorAnswer(logs: seq<Entry>, window: nat, logLimit: nat, now: int): Option<Report> {
    Unless(logs, now, window, ErrorReport(logs, window, logLimit, now))
  }

  /** Buckets, newest error entries and summary. */
  method GetErrorBuckets(logs: seq<Entry>, window: nat, logLimit: nat, now: int) returns (r: Option<Report>)
    ensures r == ErrorAnswer(logs, window, logLimit, now)
    ensures r.Some? ==> Informs(r.value, ErrorEntries(logs, WindowStart(now, window), window), SortText, logLimit)
  {
    var start := now - window * MINUTE;
    assert start == WindowStart(now, window);
    var buckets, errorLogs, raised := WindowBuckets(logs, start, window);
    if raised { return None; }
    ReportInforms(buckets, errorLogs, SortText, logLimit);
    r := Some(ReportOn(buckets, errorLogs, SortText, logLimit));
  }

  /** `str(e.get("timestamp", ""))`. */
  function TimeText(e: Entry): string { AsText(e.timestamp, "") }

  function InsightsReport(logs: seq<Entry>, f: Filters, window: nat, logLimit: nat, now: int): Report {
    ReportOn(Slots(Matching(logs, f), WindowStart(now, window), window), Matching(logs, f), TimeText, logLimit)
  }

  function InsightsAnswer(logs: seq<Entry>, f: Filters, window: nat, logLimit: nat, now: int): Option<Report> {
    Unless(Matching(logs, f), now, window, InsightsReport(logs, f, window, logLimit, now))
  }

  method GetLogInsights(logs: seq<Entry>, f: Filters, window: nat, logLimit: nat, now: int)
    returns (r: Option<Report>)
    ensures r == InsightsAnswer(logs, f, window, logLimit, now)
    ensures r.Some? ==> Informs(r.value, Matching(logs, f), TimeText, logLimit)
  {
    var start := now - window * MINUTE;
    assert start == WindowStart(now, window);
    var filtered := Matching(logs, f);
    var buckets, _, raised := WindowBuckets(filtered, start, window);
    if raised { return None; }
    assert buckets == Slots(filtered, start, window);
    ReportInforms(buckets, filtered, TimeText, logLimit);
    r := Some(ReportOn(buckets, filtered, TimeText, logLimit));
  }

  lemma {:induction false} ErrorEntriesCounted(h: seq<Entry>, start: int, window: nat)
    ensures |ErrorEntries(h, start, window)| == Count(h, HitsAny(start, FirstSlot(window), SlotCount(window), IsError))
  {
    if h != [] {
      var e := h[|h| - 1];
      ErrorEntriesCounted(h[..|h| - 1], start, window);
      var counted := HitsAny(start, FirstSlot(window), SlotCount(window), IsError);
      assert counted(e) == (InWindow(e, start, window) && IsError(e));
    }
  }

  /**
   The report adds up: the summary's totals are the entries the window's keys cover, its errors are
   the length of the error log before the limit, and every bucket's errors are its breakdown's sum.
   */
  lemma ReportAddsUp(logs: seq<Entry>, window: nat, logLimit: nat, now: int)
    ensures var r, start := ErrorReport(logs, window, logLimit, now), WindowStart(now, window);
            r.summary.totalErrors == |ErrorEntries(logs, start, window)|
            && r.summary.totalRequests == Count(logs, HitsAny(start, FirstSlot(window), SlotCount(window), Always))
            && (NotInFuture(logs, now) ==> r.summary.totalRequests == Count(logs, EligibleAnd(start, Always)))
            && forall b <- r.buckets :: b.errors == MapSums.Sum(b.breakdown)
  {
    var start := WindowStart(now, window);
    BucketsConserve(logs, start, window);
    ErrorEntriesCounted(logs, start, window);
    if NotInFuture(logs, now) { WindowConserves(logs, now, window); }
    forall b | b in Slots(logs, start, window) ensures b.errors == MapSums.Sum(b.breakdown) {
      var j :| 0 <= j < |Slots(logs, start, window)| && Slots(logs, start, window)[j] == b;
      BreakdownSums(logs, start, SlotKey(start, FirstSlot(window) + j));
    }
  }

}
