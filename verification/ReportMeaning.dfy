/**
 What an error report says about the log, in plain counts: no bucket, key or rate of the model is named,
 only times in microseconds, status codes and minutes of day.
 */
module ReportMeaning {
  import opened Wrappers
  import opened LogEntries
  import opened LogCache
  import opened LogFilters
  import opened FilterMeaning
  import opened Counting
  import opened NewestFirst
  import MergeLogs
  import opened MinuteBuckets
  import opened ErrorBuckets

  /** Minute of day, 0 to 1439, of a moment. */
  function MinuteOfDay(t: int): int { (t / 60_000_000) % 1440 }

  /** A request with a status code, not older than `since`. */
  function RequestSince(since: int): Entry -> bool {
    (e: Entry) => e.status.Code? && e.time.Some? && e.time.value >= since
  }

  function FailureSince(since: int): Entry -> bool {
    (e: Entry) => e.status.Code? && e.status.code >= 400 && e.time.Some? && e.time.value >= since
  }

  function RequestOn(since: int, minute: int): Entry -> bool {
    (e: Entry) => e.status.Code? && e.time.Some? && e.time.value >= since && MinuteOfDay(e.time.value) == minute
  }

  function FailureOn(since: int, minute: int): Entry -> bool {
    (e: Entry) => e.status.Code? && e.status.code >= 400 && e.time.Some? && e.time.value >= since
                  && MinuteOfDay(e.time.value) == minute
  }

  function CodeOn(since: int, minute: int, code: int): Entry -> bool {
    (e: Entry) => e.status == Code(code) && e.time.Some? && e.time.value >= since
                  && MinuteOfDay(e.time.value) == minute
  }

  /** The bucket stands for the moment `at` and counts the entries of its minute of day. */
  ghost predicate BucketMeans(b: Bucket, h: seq<Entry>, since: int, at: int) {
    b.timestamp == at && b.minute == MinuteOfDay(at)
    && b.total == Count(h, RequestOn(since, b.minute)) && b.errors == Count(h, FailureOn(since, b.minute))
    && IsPercentage(b.rate, b.errors, b.total)
    && forall code :: (if code in b.breakdown then b.breakdown[code] else 0)
                      == if code >= 400 then Count(h, CodeOn(since, b.minute, code)) else 0
  }

  /** One bucket a minute up to now, as many as the window has minutes, at most a day's. */
  ghost predicate BucketsMean(s: seq<Bucket>, h: seq<Entry>, now: int, window: nat) {
    |s| == (if window < 1439 then window + 1 else 1440)
    && forall j :: 0 <= j < |s| ==>
         BucketMeans(s[j], h, now - window * 60_000_000, now - (|s| - 1 - j) * 60_000_000)
  }

  lemma SameCounts(h: seq<Entry>, since: int, key: int)
    ensures Count(h, Hits(since, key, Always)) == Count(h, RequestOn(since, key))
    ensures Count(h, Hits(since, key, IsError)) == Count(h, FailureOn(since, key))
  {
    forall e | e in h ensures Hits(since, key, Always)(e) <==> RequestOn(since, key)(e) {
      assert Hits(since, key, Always)(e) == (Lands(e, since, key) && Always(e));
    }
    CountAgrees(h, Hits(since, key, Always), RequestOn(since, key));
    forall e | e in h ensures Hits(since, key, IsError)(e) <==> FailureOn(since, key)(e) {
      assert Hits(since, key, IsError)(e) == (Lands(e, since, key) && IsError(e));
    }
    CountAgrees(h, Hits(since, key, IsError), FailureOn(since, key));
  }

  lemma SameCodes(h: seq<Entry>, since: int, key: int, code: int)
    ensures Count(h, Hits(since, key, HasCode(code))) == Count(h, CodeOn(since, key, code))
  {
    CountAgrees(h, Hits(since, key, HasCode(code)), CodeOn(since, key, code));
  }

  lemma FilledMeans(h: seq<Entry>, since: int, at: int)
    ensures BucketMeans(Filled(h, since, KeyOf(at), at), h, since, at)
  {
    var b, key := Filled(h, since, KeyOf(at), at), KeyOf(at);
    SameCounts(h, since, key);
    RateIsPercentage(b.errors, b.total);
    forall code
      ensures (if code in b.breakdown then b.breakdown[code] else 0)
              == if code >= 400 then Count(h, CodeOn(since, key, code)) else 0
    {
      BreakdownCounts(h, since, key, code);
      SameCodes(h, since, key, code);
    }
  }

  lemma SlotsMean(h: seq<Entry>, now: int, window: nat)
    ensures BucketsMean(Slots(h, WindowStart(now, window), window), h, now, window)
  {
    var since, first := WindowStart(now, window), FirstSlot(window);
    var s := Slots(h, since, window);
    forall j | 0 <= j < |s|
      ensures BucketMeans(s[j], h, now - window * 60_000_000, now - (|s| - 1 - j) * 60_000_000)
    {
      assert SlotTime(since, first + j) == now - (|s| - 1 - j) * 60_000_000;
      FilledMeans(h, since, SlotTime(since, first + j));
    }
  }

  // ---------------------------------------------------------------- the error log

  /** Some minute of the window has the moment's minute of day. */
  ghost predicate Covers(now: int, window: nat, t: int) {
    exists k: nat :: k <= window && MinuteOfDay(now - k * 60_000_000) == MinuteOfDay(t)
  }

  lemma CoversIff(e: Entry, now: int, window: nat)
    requires e.time.Some?
    ensures Covers(now, window, e.time.value)
            <==> Offset(e, WindowStart(now, window), FirstSlot(window)) < SlotCount(window)
  {
    var since, first := WindowStart(now, window), FirstSlot(window);
    var n := Offset(e, since, first);
    OffsetPicksSlot(e, since, first, n);
    if n < SlotCount(window) {
      SlotIsAgo(now, window, first + n);
    }
    if window < 1440 && Covers(now, window, e.time.value) {
      var k: nat :| k <= window && MinuteOfDay(now - k * 60_000_000) == MinuteOfDay(e.time.value);
      SlotIsAgo(now, window, window - k);
      OffsetPicksSlot(e, since, first, window - k);
    }
  }

  lemma SlotIsAgo(now: int, window: nat, i: nat)
    requires i <= window
    ensures SlotKey(WindowStart(now, window), i) == MinuteOfDay(now - (window - i) * 60_000_000)
  {
    assert SlotTime(WindowStart(now, window), i) == now - (window - i) * 60_000_000;
  }

  /** A failed request of the window. */
  ghost predicate Fails(e: Entry, now: int, window: nat) {
    e.status.Code? && e.status.code >= 400 && e.time.Some? && e.time.value >= now - window * 60_000_000
    && Covers(now, window, e.time.value)
  }

  /** The error log is the failed requests of the window, each as often as it was logged. */
  lemma {:induction false} ErrorLogMeans(h: seq<Entry>, now: int, window: nat, e: Entry)
    ensures multiset(ErrorEntries(h, WindowStart(now, window), window))[e]
            == if Fails(e, now, window) then multiset(h)[e] else 0
  {
    if h != [] {
      var front, last := h[..|h| - 1], h[|h| - 1];
      assert h == front + [last];
      ErrorLogMeans(front, now, window, e);
      if e.time.Some? { CoversIff(e, now, window); }
    }
  }

  /** The time a report sorts its error log by: nothing if there is none. */
  function TimeGiven(e: Entry): string { if e.timestamp.Text? then e.timestamp.value else "" }

  /** The time the filtered report sorts by: a null reads as the text "None". */
  function TimeShown(e: Entry): string {
    match e.timestamp
    case Text(t) => t
    case Null => "None"
    case Missing => ""
  }

  lemma SameOrder(shown: seq<Entry>, all: seq<Entry>, key: Entry -> string, key': Entry -> string, limit: nat)
    requires IsNewest(shown, all, key, limit) && forall e :: key(e) == key'(e)
    ensures IsNewest(shown, all, key', limit)
  {
    var omitted :| Omits(omitted, shown, all, key);
    assert Omits(omitted, shown, all, key');
  }

  // ---------------------------------------------------------------- whole answers

  /** An entry of the window whose status is not a number. */
  ghost predicate Spoils(e: Entry, now: int, window: nat) {
    e.status.BadStatus? && e.time.Some? && e.time.value >= now - window * 60_000_000
    && Covers(now, window, e.time.value)
  }

  lemma AnswerUnlessSpoiled(logs: seq<Entry>, now: int, window: nat, report: Report)
    ensures Unless(logs, now, window, report)
            == if exists e :: e in logs && Spoils(e, now, window) then None else Some(report)
  {
    forall e | e in logs ensures Raises(e, WindowStart(now, window), window) <==> Spoils(e, now, window) {
      if e.time.Some? { CoversIff(e, now, window); }
    }
  }

  /** With no future dates the totals are the requests and the failures since the window began. */
  lemma TotalsMean(logs: seq<Entry>, now: int, window: nat)
    requires NotInFuture(logs, now)
    ensures var s := Slots(logs, WindowStart(now, window), window);
            Totals(s) == Count(logs, RequestSince(now - window * 60_000_000))
            && Errors(s) == Count(logs, FailureSince(now - window * 60_000_000))
  {
    var since := WindowStart(now, window);
    WindowConserves(logs, now, window);
    forall e | e in logs ensures EligibleAnd(since, Always)(e) <==> RequestSince(since)(e) {
      assert EligibleAnd(since, Always)(e) == (Eligible(e, since) && Always(e));
    }
    CountAgrees(logs, EligibleAnd(since, Always), RequestSince(since));
    forall e | e in logs ensures EligibleAnd(since, IsError)(e) <==> FailureSince(since)(e) {
      assert EligibleAnd(since, IsError)(e) == (Eligible(e, since) && IsError(e));
    }
    CountAgrees(logs, EligibleAnd(since, IsError), FailureSince(since));
  }

  lemma ErrorLogShown(logs: seq<Entry>, window: nat, logLimit: nat, now: int, e: Entry)
    requires e in ErrorReport(logs, window, logLimit, now).logs
    ensures e in logs && Fails(e, now, window)
  {
    var r, since := ErrorReport(logs, window, logLimit, now), WindowStart(now, window);
    var errors := ErrorEntries(logs, since, window);
    ReportInforms(r.buckets, errors, MergeLogs.SortText, logLimit);
    ShownIsMember(r.logs, errors, MergeLogs.SortText, logLimit, e);
    ErrorLogMeans(logs, now, window, e);
    assert multiset(errors)[e] > 0;
  }

  /**
   What the in-memory report says, for every log and window: there is none exactly if an entry of the
   window has a status that is no number; otherwise every bucket counts its minute, the error log shows
   failed requests of the window, and with no future dates the totals are the requests and failures since
   the window began.
   */
  lemma ErrorAnswerMeans(logs: seq<Entry>, window: nat, logLimit: nat, now: int)
    ensures var r := ErrorAnswer(logs, window, logLimit, now);
            (r.None? <==> exists e :: e in logs && Spoils(e, now, window))
            && (r.Some? ==>
                  BucketsMean(r.value.buckets, logs, now, window)
                  && Summarises(r.value.summary, r.value.buckets)
                  && IsNewest(r.value.logs, ErrorEntries(logs, WindowStart(now, window), window), TimeGiven, logLimit)
                  && (forall e <- r.value.logs :: e in logs && Fails(e, now, window))
                  && (NotInFuture(logs, now) ==>
                        r.value.summary.totalRequests == Count(logs, RequestSince(now - window * 60_000_000))
                        && r.value.summary.totalErrors == Count(logs, FailureSince(now - window * 60_000_000))))
  {
    var r := ErrorReport(logs, window, logLimit, now);
    AnswerUnlessSpoiled(logs, now, window, r);
    SlotsMean(logs, now, window);
    SummaryMeans(r.buckets);
    var errors := ErrorEntries(logs, WindowStart(now, window), window);
    ReportInforms(r.buckets, errors, MergeLogs.SortText, logLimit);
    SameOrder(r.logs, errors, MergeLogs.SortText, TimeGiven, logLimit);
    forall e | e in r.logs ensures e in logs && Fails(e, now, window) {
      ErrorLogShown(logs, window, logLimit, now, e);
    }
    if NotInFuture(logs, now) { TotalsMean(logs, now, window); }
  }

  lemma ShownIsMember(shown: seq<Entry>, all: seq<Entry>, key: Entry -> string, limit: nat, e: Entry)
    requires IsNewest(shown, all, key, limit) && e in shown
    ensures e in all
  {
    var omitted :| Omits(omitted, shown, all, key);
    assert e in multiset(shown) + multiset(omitted);
  }

  /** The entries of `logs` that the filters accept, each as often as it was logged. */
  ghost predicate KeepsAccepted(kept: seq<Entry>, logs: seq<Entry>, f: Filters) {
    forall e :: multiset(kept)[e] == if Accepts(e, f) then multiset(logs)[e] else 0
  }

  lemma MatchingMeans(logs: seq<Entry>, f: Filters)
    ensures KeepsAccepted(Matching(logs, f), logs, f)
  {
    forall e ensures multiset(Matching(logs, f))[e] == if Accepts(e, f) then multiset(logs)[e] else 0 {
      MatchingMultiplicity(logs, f, e);
      FiltersMean(e, f);
    }
  }

  lemma ShownTimes(shown: seq<Entry>, kept: seq<Entry>, limit: nat)
    requires IsNewest(shown, kept, TimeText, limit)
    ensures IsNewest(shown, kept, TimeShown, limit)
  {
    SameOrder(shown, kept, TimeText, TimeShown, limit);
  }

  lemma ShownMeans(r: Report, kept: seq<Entry>, window: nat, logLimit: nat, now: int)
    requires r == ReportOn(Slots(kept, WindowStart(now, window), window), kept, TimeText, logLimit)
    ensures BucketsMean(r.buckets, kept, now, window) && Summarises(r.summary, r.buckets)
    ensures IsNewest(r.logs, kept, TimeShown, logLimit)
  {
    SlotsMean(kept, now, window);
    ReportInforms(r.buckets, kept, TimeText, logLimit);
    ShownTimes(r.logs, kept, logLimit);
  }

  /**
   The filtered report says the same about the entries the filters accept, each as often as it was logged,
   and shows the newest of them.
   */
  lemma InsightsAnswerMeans(logs: seq<Entry>, f: Filters, window: nat, logLimit: nat, now: int)
    ensures var r, kept := InsightsAnswer(logs, f, window, logLimit, now), Matching(logs, f);
            (r.None? <==> exists e :: e in kept && Spoils(e, now, window))
            && (r.Some? ==> BucketsMean(r.value.buckets, kept, now, window)
                            && Summarises(r.value.summary, r.value.buckets)
                            && IsNewest(r.value.logs, kept, TimeShown, logLimit))
            && KeepsAccepted(kept, logs, f)
  {
    var r := InsightsReport(logs, f, window, logLimit, now);
    AnswerUnlessSpoiled(Matching(logs, f), now, window, r);
    ShownMeans(r, Matching(logs, f), window, logLimit, now);
    MatchingMeans(logs, f);
  }
}
