/**
 The same question answered from the database: two GROUP BY queries, their rows folded into a map by
 minute of day, the missing minutes filled in, the result sorted by time.  The filled-in buckets carry
 the window's own offset into the minute, the queried ones carry whole minutes.
 */
module DbBuckets {
  import opened Wrappers
  import opened LogEntries
  import opened LogCache
  import opened Counting
  import opened MinuteBuckets
  import opened BucketOrder
  import opened ErrorBuckets

  /** A row of the per-minute totals query, and of the per-minute status breakdown query. */
  datatype TotalRow = TotalRow(minute: int, total: nat, errors: nat)
  datatype CodeRow = CodeRow(minute: int, code: int, count: nat)

  /** `SELECT minute, COUNT(*), COUNT(*) FILTER (...) ... WHERE timestamp >= start AND ... GROUP BY minute` */
  ghost predicate IsTotalsQuery(q: seq<TotalRow>, table: seq<Entry>, start: int) {
    (forall i, j :: 0 <= i < j < |q| ==> q[i].minute < q[j].minute)
    && (forall g <- q :: g.total > 0 && g.total == Count(table, InMinute(start, g.minute, Always))
                         && g.errors == Count(table, InMinute(start, g.minute, IsError)))
    && (forall e <- table :: Eligible(e, start) ==> exists g <- q :: g.minute == MinuteOf(e.time.value))
  }

  /** `SELECT minute, status_code, COUNT(*) ... WHERE ... AND status_code >= 400 GROUP BY minute, status_code` */
  ghost predicate IsCodesQuery(q: seq<CodeRow>, table: seq<Entry>, start: int) {
    (forall c <- q :: c.code >= 400 && c.count > 0
                      && c.count == Count(table, InMinute(start, c.minute, HasCode(c.code))))
    && (forall e <- table :: Eligible(e, start) && IsError(e) ==>
          exists c <- q :: c.minute == MinuteOf(e.time.value) && c.code == e.status.code)
  }

  // ---------------------------------------------------------------- what the code does with the rows

  function TotalsBucket(g: TotalRow): Bucket {
    Bucket(g.minute % DAY, g.minute * MINUTE, g.total, g.errors, Rate(g.errors, g.total), map[])
  }

  /** Later rows replace earlier ones with the same key. */
  function TotalsMap(q: seq<TotalRow>): map<int, Bucket> {
    if q == [] then map[]
    else
      var g := q[|q| - 1];
      TotalsMap(q[..|q| - 1])[g.minute % DAY := TotalsBucket(g)]
  }

  function WithCode(m: map<int, Bucket>, c: CodeRow): map<int, Bucket> {
    var key := c.minute % DAY;
    if key in m then m[key := m[key].(breakdown := m[key].breakdown[c.code := c.count])] else m
  }

  function WithCodes(m: map<int, Bucket>, q: seq<CodeRow>): map<int, Bucket> {
    if q == [] then m else WithCode(WithCodes(m, q[..|q| - 1]), q[|q| - 1])
  }

  function GapBucket(start: int, i: int): Bucket {
    Bucket(SlotKey(start, i), SlotTime(start, i), 0, 0, 0.0, map[])
  }

  /** The map after the first `n` slots were filled in where missing. */
  function GapFilled(m: map<int, Bucket>, start: int, n: nat): map<int, Bucket> {
    if n == 0 then m
    else
      var before := GapFilled(m, start, n - 1);
      if SlotKey(start, n - 1) in before then before
      else before[SlotKey(start, n - 1) := GapBucket(start, n - 1)]
  }

  ghost predicate KeyedByTime(m: map<int, Bucket>) {
    forall k :: k in m ==> KeyOf(m[k].timestamp) == k
  }

  lemma WholeMinuteKey(minute: int)
    ensures MinuteOf(minute * MINUTE) == minute && KeyOf(minute * MINUTE) == minute % DAY
  {
  }

  method QueryErrorBuckets(totals: seq<TotalRow>, codes: seq<CodeRow>) returns (m: map<int, Bucket>)
    ensures m == WithCodes(TotalsMap(totals), codes) && KeyedByTime(m)
  {
    m := map[];
    for i := 0 to |totals|
      invariant m == TotalsMap(totals[..i]) && KeyedByTime(m)
    {
      assert totals[..i + 1][..i] == totals[..i];
      WholeMinuteKey(totals[i].minute);
      m := m[totals[i].minute % DAY := TotalsBucket(totals[i])];
    }
    assert totals[..|totals|] == totals;
    for i := 0 to |codes|
      invariant m == WithCodes(TotalsMap(totals), codes[..i]) && KeyedByTime(m)
    {
      assert codes[..i + 1][..i] == codes[..i];
      var key := codes[i].minute % DAY;
      if key in m {
        m := m[key := m[key].(breakdown := m[key].breakdown[codes[i].code := codes[i].count])];
      }
    }
    assert codes[..|codes|] == codes;
  }

  method GetErrors(totals: seq<TotalRow>, codes: seq<CodeRow>, window: nat, now: int)
    returns (buckets: seq<Bucket>, summary: Summary)
    ensures var m := GapFilled(WithCodes(TotalsMap(totals), codes), WindowStart(now, window), window + 1);
            Increasing(buckets) && Holds(buckets, m, m.Keys)
    ensures summary == SummaryOf(buckets) && Summarises(summary, buckets)
  {
    var start := now - window * MINUTE;
    var m := QueryErrorBuckets(totals, codes);
    ghost var queried := m;
    for i := 0 to window + 1
      invariant m == GapFilled(queried, start, i) && KeyedByTime(m)
    {
      var key := SlotKey(start, i);
      if key !in m { m := m[key := GapBucket(start, i)]; }
    }
    buckets := SortByTimestamp(m);
    SummaryMeans(buckets);
    summary := SummaryOf(buckets);
  }

  // ---------------------------------------------------------------- agreement with memory

  /** Everything the API shows of a bucket except its exact time. */
  function View(b: Bucket): Bucket { b.(timestamp := 0) }

  predicate SameViews(s: seq<Bucket>, t: seq<Bucket>) {
    |s| == |t| && forall i :: 0 <= i < |s| ==> View(s[i]) == View(t[i])
  }

  /** The minute of a queried group is one of the window's. */
  lemma GroupMinuteInWindow(table: seq<Entry>, minute: int, p: Entry -> bool, now: int, window: nat)
    returns (e: Entry)
    requires NotInFuture(table, now) && Count(table, InMinute(WindowStart(now, window), minute, p)) > 0
    ensures 0 <= minute - MinuteOf(WindowStart(now, window)) <= window
    ensures e in table && Eligible(e, WindowStart(now, window)) && MinuteOf(e.time.value) == minute
  {
    e := CountWitness(table, InMinute(WindowStart(now, window), minute, p));
    InWindowIsCounted(e, now, window);
  }

  // -- the first and the last minute of a day-long window

  /** HTTP entries in the first minute of the window, which the window's start cuts off. */
  function InFirstMinute(table: seq<Entry>, start: int): nat {
    Count(table, InMinute(start, MinuteOf(start), Always))
  }

  /** HTTP entries a day later: in a day-long window, its last minute. */
  function InLastMinute(table: seq<Entry>, start: int): nat {
    Count(table, InMinute(start, MinuteOf(start) + DAY, Always))
  }

  /** Slot `i` does not share its key with a minute that has entries. */
  predicate Unshared(table: seq<Entry>, start: int, window: nat, i: nat) {
    window < DAY || 0 < i < DAY || (i == 0 && InLastMinute(table, start) == 0)
    || (i == DAY && InFirstMinute(table, start) == 0)
  }

  lemma SlotIsOwn(table: seq<Entry>, now: int, window: nat, i: nat)
    requires window <= DAY && i <= window && NotInFuture(table, now)
    requires Unshared(table, WindowStart(now, window), window, i)
    ensures OwnMinuteOnly(table, WindowStart(now, window), i)
  {
    var start := WindowStart(now, window);
    forall e | e in table && Lands(e, start, SlotKey(start, i))
      ensures MinuteOf(e.time.value) == MinuteOf(start) + i
    {
      var minute := MinuteOf(e.time.value);
      InWindowIsCounted(e, now, window);
      SlotMinute(start, i);
      if -DAY < minute - (MinuteOf(start) + i) < DAY {
        KeysWithinADay(minute, MinuteOf(start) + i);
      } else {
        assert Eligible(e, start) && Always(e);
        CountPositive(table, InMinute(start, minute, Always), e);
      }
    }
  }

  // -- the totals

  /** Slot `i`'s key is present exactly if some queried row is for that minute, and then holds that row. */
  ghost predicate HoldsSlot(m: map<int, Bucket>, q: seq<TotalRow>, start: int, i: nat) {
    var minute := MinuteOf(start) + i;
    (SlotKey(start, i) in m <==> exists g :: g in q && g.minute == minute)
    && (forall g :: g in q && g.minute == minute ==>
          SlotKey(start, i) in m && m[SlotKey(start, i)] == TotalsBucket(g))
  }

  predicate MinutesInWindow(q: seq<TotalRow>, start: int, window: nat) {
    forall g <- q :: 0 <= g.minute - MinuteOf(start) <= window
  }

  /** Rows with slot `i`'s key are of slot `i`'s minute. */
  predicate OwnRowsOnly(q: seq<TotalRow>, start: int, i: int) {
    forall g <- q :: g.minute % DAY == SlotKey(start, i) ==> g.minute == MinuteOf(start) + i
  }

  lemma NextTotalBySlot(q: seq<TotalRow>, g: TotalRow, start: int, i: nat)
    requires HoldsSlot(TotalsMap(q), q, start, i) && forall x <- q :: x.minute < g.minute
    requires g.minute % DAY == SlotKey(start, i) ==> g.minute == MinuteOf(start) + i
    ensures HoldsSlot(TotalsMap(q)[g.minute % DAY := TotalsBucket(g)], q + [g], start, i)
  {
    SlotMinute(start, i);
    assert forall x :: x in q + [g] <==> x in q || x == g;
  }

  lemma {:induction false} TotalsBySlot(q: seq<TotalRow>, start: int, i: nat)
    requires OwnRowsOnly(q, start, i)
    requires forall a, b :: 0 <= a < b < |q| ==> q[a].minute < q[b].minute
    ensures HoldsSlot(TotalsMap(q), q, start, i)
  {
    if q != [] {
      var front, g := q[..|q| - 1], q[|q| - 1];
      assert q == front + [g] && g in q && forall x <- front :: x in q;
      TotalsBySlot(front, start, i);
      NextTotalBySlot(front, g, start, i);
    }
  }

  lemma {:induction false} TotalsKeysAreSlots(q: seq<TotalRow>, start: int, window: nat, k: int) returns (i: nat)
    requires MinutesInWindow(q, start, window) && k in TotalsMap(q)
    ensures i <= window && k == SlotKey(start, i)
  {
    var front, g := q[..|q| - 1], q[|q| - 1];
    assert g in q && forall x <- front :: x in q;
    if k == g.minute % DAY {
      i := g.minute - MinuteOf(start);
      SlotMinute(start, i);
    } else {
      i := TotalsKeysAreSlots(front, start, window, k);
    }
  }

  // -- the breakdowns

  /** The breakdown the rows of one minute of day amount to. */
  function CodesOf(q: seq<CodeRow>, key: int): map<int, nat> {
    if q == [] then map[]
    else
      var c, front := q[|q| - 1], CodesOf(q[..|q| - 1], key);
      if c.minute % DAY == key then front[c.code := c.count] else front
  }

  /** The codes query only writes breakdowns, and only where there is a bucket. */
  lemma {:induction false} CodesOnlyAddBreakdowns(m: map<int, Bucket>, q: seq<CodeRow>, k: int)
    requires forall l :: l in m ==> m[l].breakdown == map[]
    ensures k in WithCodes(m, q) <==> k in m
    ensures k in m ==> WithCodes(m, q)[k] == m[k].(breakdown := CodesOf(q, k))
  {
    if q != [] { CodesOnlyAddBreakdowns(m, q[..|q| - 1], k); }
  }

  lemma {:induction false} TotalsHaveNoBreakdowns(q: seq<TotalRow>)
    ensures forall k :: k in TotalsMap(q) ==> TotalsMap(q)[k].breakdown == map[]
  {
    if q != [] { TotalsHaveNoBreakdowns(q[..|q| - 1]); }
  }

  lemma {:induction false} CodesOfContains(q: seq<CodeRow>, key: int, code: int)
    ensures code in CodesOf(q, key) <==> exists c :: c in q && c.minute % DAY == key && c.code == code
    ensures code in CodesOf(q, key) ==>
              exists c :: c in q && c.minute % DAY == key && c.code == code && c.count == CodesOf(q, key)[code]
  {
    if q != [] {
      CodesOfContains(q[..|q| - 1], key, code);
      assert forall c :: c in q <==> c in q[..|q| - 1] || c == q[|q| - 1];
    }
  }

  lemma CodeAgrees(q: seq<CodeRow>, table: seq<Entry>, now: int, window: nat, i: nat, code: int)
    requires NotInFuture(table, now) && OwnMinuteOnly(table, WindowStart(now, window), i)
    requires IsCodesQuery(q, table, WindowStart(now, window))
    ensures var start, key := WindowStart(now, window), SlotKey(WindowStart(now, window), i);
            var ours, theirs := CodesOf(q, key), BreakdownOf(table, start, key);
            Lookup(ours, code) == Lookup(theirs, code) && (code in ours <==> code in theirs)
  {
    var start := WindowStart(now, window);
    var key := SlotKey(start, i);
    CodesOfContains(q, key, code);
    BreakdownCounts(table, start, key, code);
    SlotCountsItsMinute(table, start, i, HasCode(code));
    if code in CodesOf(q, key) {
      var c :| c in q && c.minute % DAY == key && c.code == code && c.count == CodesOf(q, key)[code];
      CodeRowMinute(c, q, table, now, window, i);
    } else if code in BreakdownOf(table, start, key) {
      var e := CountWitness(table, Hits(start, key, HasCode(code)));
    }
  }

  /** Slot `i`'s queried breakdown is the breakdown of the entries that land on it. */
  lemma CodesAreBreakdown(q: seq<CodeRow>, table: seq<Entry>, now: int, window: nat, i: nat)
    requires NotInFuture(table, now) && OwnMinuteOnly(table, WindowStart(now, window), i)
    requires IsCodesQuery(q, table, WindowStart(now, window))
    ensures var start := WindowStart(now, window);
            CodesOf(q, SlotKey(start, i)) == BreakdownOf(table, start, SlotKey(start, i))
  {
    var start := WindowStart(now, window);
    var ours, theirs := CodesOf(q, SlotKey(start, i)), BreakdownOf(table, start, SlotKey(start, i));
    forall code ensures Lookup(ours, code) == Lookup(theirs, code) && (code in ours <==> code in theirs) {
      CodeAgrees(q, table, now, window, i, code);
    }
    assert forall code :: code in ours ==> ours[code] == Lookup(ours, code) == Lookup(theirs, code) == theirs[code];
  }

  lemma CodeRowMinute(c: CodeRow, q: seq<CodeRow>, table: seq<Entry>, now: int, window: nat, i: nat)
    requires NotInFuture(table, now) && OwnMinuteOnly(table, WindowStart(now, window), i)
    requires IsCodesQuery(q, table, WindowStart(now, window)) && c in q
    requires c.minute % DAY == SlotKey(WindowStart(now, window), i)
    ensures c.minute == MinuteOf(WindowStart(now, window)) + i
  {
    var e := GroupMinuteInWindow(table, c.minute, HasCode(c.code), now, window);
  }

  // -- filling the gaps

  lemma {:induction false} GapFilledBySlot(m: map<int, Bucket>, start: int, n: nat, i: nat)
    requires i < n && i < DAY
    ensures var k, filled := SlotKey(start, i), GapFilled(m, start, n);
            k in filled && filled[k] == if k in m then m[k] else GapBucket(start, i)
  {
    var k, last := SlotKey(start, i), SlotKey(start, n - 1);
    if i < n - 1 {
      GapFilledBySlot(m, start, n - 1, i);
    } else {
      GapFilledOnlySlots(m, start, n - 1, k);
      GapFilledKeeps(m, start, n - 1, k);
      forall j: nat | j < n - 1 ensures SlotKey(start, j) != k { SlotKeysDiffer(start, j, i); }
    }
  }

  lemma {:induction false} GapFilledOnlySlots(m: map<int, Bucket>, start: int, n: nat, k: int)
    ensures k in GapFilled(m, start, n) && k !in m ==> exists j: nat :: j < n && k == SlotKey(start, j)
  {
    if n > 0 {
      GapFilledOnlySlots(m, start, n - 1, k);
      if k == SlotKey(start, n - 1) { assert n - 1 < n; }
    }
  }

  lemma {:induction false} GapFilledKeeps(m: map<int, Bucket>, start: int, n: nat, k: int)
    ensures k in m ==> k in GapFilled(m, start, n) && GapFilled(m, start, n)[k] == m[k]
  {
    if n > 0 { GapFilledKeeps(m, start, n - 1, k); }
  }

  // -- one slot, then the whole list

  function DbMap(totals: seq<TotalRow>, codes: seq<CodeRow>, start: int, window: nat): map<int, Bucket> {
    GapFilled(WithCodes(TotalsMap(totals), codes), start, window + 1)
  }

  /** The two queries on a table, whose status column holds integers. */
  ghost predicate Queried(totals: seq<TotalRow>, codes: seq<CodeRow>, table: seq<Entry>, now: int, window: nat) {
    (forall e <- table :: Storable(e))
    && NotInFuture(table, now) && IsTotalsQuery(totals, table, WindowStart(now, window))
    && IsCodesQuery(codes, table, WindowStart(now, window))
  }

  lemma TotalsMinutesInWindow(totals: seq<TotalRow>, table: seq<Entry>, now: int, window: nat)
    requires NotInFuture(table, now) && IsTotalsQuery(totals, table, WindowStart(now, window))
    ensures MinutesInWindow(totals, WindowStart(now, window), window)
  {
    forall g | g in totals ensures 0 <= g.minute - MinuteOf(WindowStart(now, window)) <= window {
      var e := GroupMinuteInWindow(table, g.minute, Always, now, window);
    }
  }

  lemma TotalsOwnRows(totals: seq<TotalRow>, table: seq<Entry>, now: int, window: nat, i: int)
    requires NotInFuture(table, now) && IsTotalsQuery(totals, table, WindowStart(now, window))
    requires OwnMinuteOnly(table, WindowStart(now, window), i)
    ensures OwnRowsOnly(totals, WindowStart(now, window), i)
  {
    forall g | g in totals && g.minute % DAY == SlotKey(WindowStart(now, window), i)
      ensures g.minute == MinuteOf(WindowStart(now, window)) + i
    {
      var e := GroupMinuteInWindow(table, g.minute, Always, now, window);
    }
  }

  lemma {:induction false} EmptyBreakdown(h: seq<Entry>, start: int, key: int)
    requires Count(h, Hits(start, key, IsError)) == 0
    ensures BreakdownOf(h, start, key) == map[]
  {
    if h != [] {
      assert !Hits(start, key, IsError)(h[|h| - 1]);
      EmptyBreakdown(h[..|h| - 1], start, key);
    }
  }

  /** A minute nobody queried has no entries. */
  lemma MissingGroupIsEmpty(totals: seq<TotalRow>, codes: seq<CodeRow>, table: seq<Entry>, now: int, window: nat,
                            minute: int)
    requires Queried(totals, codes, table, now, window)
    requires forall g <- totals :: g.minute != minute
    ensures Count(table, InMinute(WindowStart(now, window), minute, Always)) == 0
    ensures Count(table, InMinute(WindowStart(now, window), minute, IsError)) == 0
  {
    var start := WindowStart(now, window);
    if Count(table, InMinute(start, minute, Always)) > 0 {
      var e := CountWitness(table, InMinute(start, minute, Always));
    }
    if Count(table, InMinute(start, minute, IsError)) > 0 {
      var e := CountWitness(table, InMinute(start, minute, IsError));
    }
  }

  lemma RowOfMinute(totals: seq<TotalRow>, table: seq<Entry>, start: int, minute: int) returns (g: TotalRow)
    requires IsTotalsQuery(totals, table, start) && Count(table, InMinute(start, minute, Always)) > 0
    ensures g in totals && g.minute == minute && g.total == Count(table, InMinute(start, minute, Always))
  {
    var e := CountWitness(table, InMinute(start, minute, Always));
    g :| g in totals && g.minute == MinuteOf(e.time.value);
  }

  /** A minute with requests shows its beginning, one without them the moment of its slot. */
  predicate Dated(b: Bucket, start: int, i: int) {
    b.timestamp == if b.total > 0 then (start / 60_000_000 + i) * 60_000_000 else start + i * 60_000_000
  }

  lemma DatedInMinute(b: Bucket, start: int, i: int)
    requires Dated(b, start, i)
    ensures MinuteOf(b.timestamp) == MinuteOf(start) + i
  {
  }

  /** The map holds slot `f + j`, dated in its own minute. */
  ghost predicate HasSlot(m: map<int, Bucket>, table: seq<Entry>, start: int, f: nat, j: int) {
    var k := SlotKey(start, f + j);
    k in m && View(m[k]) == View(SlotBucket(table, start, f + j)) && Dated(m[k], start, f + j)
  }

  /** The totals map holds the rows of slot `i`'s own minute under its key, and no breakdowns yet. */
  lemma SlotOfTotals(totals: seq<TotalRow>, codes: seq<CodeRow>, table: seq<Entry>, now: int, window: nat, i: nat)
    requires window <= DAY && i <= window && Queried(totals, codes, table, now, window)
    requires Unshared(table, WindowStart(now, window), window, i)
    ensures OwnMinuteOnly(table, WindowStart(now, window), i)
    ensures HoldsSlot(TotalsMap(totals), totals, WindowStart(now, window), i)
  {
    var start := WindowStart(now, window);
    SlotIsOwn(table, now, window, i);
    TotalsOwnRows(totals, table, now, window, i);
    TotalsBySlot(totals, start, i);
  }

  /** A slot whose minute the queries returned. */
  lemma QueriedSlot(totals: seq<TotalRow>, codes: seq<CodeRow>, table: seq<Entry>, now: int, window: nat, i: nat,
                    g: TotalRow)
    requires window <= DAY && i <= window && Queried(totals, codes, table, now, window)
    requires Unshared(table, WindowStart(now, window), window, i)
    requires g in totals && g.minute == MinuteOf(WindowStart(now, window)) + i
    ensures var start := WindowStart(now, window); HasSlot(DbMap(totals, codes, start, window), table, start, 0, i)
  {
    var start := WindowStart(now, window);
    var k := SlotKey(start, i);
    SlotOfTotals(totals, codes, table, now, window, i);
    SlotMinute(start, i);
    TotalsHaveNoBreakdowns(totals);
    CodesOnlyAddBreakdowns(TotalsMap(totals), codes, k);
    GapFilledKeeps(WithCodes(TotalsMap(totals), codes), start, window + 1, k);
    CodesAreBreakdown(codes, table, now, window, i);
    SlotCountsItsMinute(table, start, i, Always);
    SlotCountsItsMinute(table, start, i, IsError);
    WholeMinuteKey(g.minute);
  }

  /** A slot whose minute they did not return. */
  lemma MissingSlot(totals: seq<TotalRow>, codes: seq<CodeRow>, table: seq<Entry>, now: int, window: nat, i: nat)
    requires window <= DAY && i <= window && Queried(totals, codes, table, now, window)
    requires Unshared(table, WindowStart(now, window), window, i)
    requires i < DAY && forall g <- totals :: g.minute != MinuteOf(WindowStart(now, window)) + i
    ensures var start := WindowStart(now, window); HasSlot(DbMap(totals, codes, start, window), table, start, 0, i)
  {
    var start := WindowStart(now, window);
    var k := SlotKey(start, i);
    SlotOfTotals(totals, codes, table, now, window, i);
    SlotMinute(start, i);
    TotalsHaveNoBreakdowns(totals);
    CodesOnlyAddBreakdowns(TotalsMap(totals), codes, k);
    GapFilledBySlot(WithCodes(TotalsMap(totals), codes), start, window + 1, i);
    MissingGroupIsEmpty(totals, codes, table, now, window, MinuteOf(start) + i);
    SlotCountsItsMinute(table, start, i, Always);
    SlotCountsItsMinute(table, start, i, IsError);
    EmptyBreakdown(table, start, k);
  }

  /** What the database path ends up holding for slot `i`, if no other minute's entries share its key. */
  lemma DbSlot(totals: seq<TotalRow>, codes: seq<CodeRow>, table: seq<Entry>, now: int, window: nat, i: nat)
    requires window <= DAY && i <= window && Queried(totals, codes, table, now, window)
    requires Unshared(table, WindowStart(now, window), window, i)
    requires i == DAY ==> InLastMinute(table, WindowStart(now, window)) > 0
    ensures var start := WindowStart(now, window); HasSlot(DbMap(totals, codes, start, window), table, start, 0, i)
  {
    var minute := MinuteOf(WindowStart(now, window)) + i;
    if i == DAY { var late := RowOfMinute(totals, table, WindowStart(now, window), minute); }
    if g :| g in totals && g.minute == minute {
      QueriedSlot(totals, codes, table, now, window, i, g);
    } else {
      MissingSlot(totals, codes, table, now, window, i);
    }
  }

  lemma DbKeysAreSlots(totals: seq<TotalRow>, codes: seq<CodeRow>, table: seq<Entry>, now: int, window: nat, k: int)
    returns (i: nat)
    requires Queried(totals, codes, table, now, window)
    requires k in DbMap(totals, codes, WindowStart(now, window), window)
    ensures i <= window && k == SlotKey(WindowStart(now, window), i)
  {
    var start := WindowStart(now, window);
    TotalsHaveNoBreakdowns(totals);
    CodesOnlyAddBreakdowns(TotalsMap(totals), codes, k);
    TotalsMinutesInWindow(totals, table, now, window);
    if k in TotalsMap(totals) {
      i := TotalsKeysAreSlots(totals, start, window, k);
    } else {
      GapFilledOnlySlots(WithCodes(TotalsMap(totals), codes), start, window + 1, k);
      i :| 0 <= i < window + 1 && k == SlotKey(start, i);
    }
  }

  lemma EarlierMinuteIsEarlier(a: int, b: int)
    requires MinuteOf(a) < MinuteOf(b)
    ensures a < b
  {
  }

  /** The buckets of `n` slots from slot `f` on. */
  function SlotsFrom(h: seq<Entry>, start: int, f: nat, n: nat): seq<Bucket> {
    seq(n, j requires 0 <= j < n => SlotBucket(h, start, f + j))
  }

  /** Every slot from `f` to the end of its day has a key to itself, and the database path fills it. */
  predicate SlotsFilled(table: seq<Entry>, start: int, window: nat, f: nat) {
    window <= DAY
    && if window < DAY then f == 0
       else if f == 0 then InLastMinute(table, start) == 0
       else f == 1 && InFirstMinute(table, start) == 0 && InLastMinute(table, start) > 0
  }

  lemma DbKeysFrom(totals: seq<TotalRow>, codes: seq<CodeRow>, table: seq<Entry>, now: int, window: nat, f: nat, k: int)
    returns (j: nat)
    requires Queried(totals, codes, table, now, window) && SlotsFilled(table, WindowStart(now, window), window, f)
    requires k in DbMap(totals, codes, WindowStart(now, window), window)
    ensures j < SlotCount(window) && k == SlotKey(WindowStart(now, window), f + j)
  {
    var i := DbKeysAreSlots(totals, codes, table, now, window, k);
    SlotKeysRepeatDaily(WindowStart(now, window), 0);
    j := if i < f then DAY - f else if i == f + DAY then 0 else i - f;
  }

  function BucketAt(m: map<int, Bucket>, key: int): Bucket {
    if key in m then m[key] else Bucket(key, 0, 0, 0, 0.0, map[])
  }

  lemma DbSlotFrom(totals: seq<TotalRow>, codes: seq<CodeRow>, table: seq<Entry>, now: int, window: nat, f: nat, j: nat)
    requires Queried(totals, codes, table, now, window) && SlotsFilled(table, WindowStart(now, window), window, f)
    requires j < SlotCount(window)
    ensures var start := WindowStart(now, window); HasSlot(DbMap(totals, codes, start, window), table, start, f, j)
  {
    DbSlot(totals, codes, table, now, window, f + j);
  }

  /** Slots `f` to `f + n - 1` of the map, which has no others. */
  ghost predicate OnlySlots(m: map<int, Bucket>, table: seq<Entry>, start: int, f: nat, n: nat) {
    (forall j :: 0 <= j < n ==> HasSlot(m, table, start, f, j))
    && (forall k :: k in m ==> exists j :: 0 <= j < n && HasSlot(m, table, start, f, j) && k == SlotKey(start, f + j))
  }

  lemma DbMapIsSlots(totals: seq<TotalRow>, codes: seq<CodeRow>, table: seq<Entry>, now: int, window: nat, f: nat)
    requires Queried(totals, codes, table, now, window) && SlotsFilled(table, WindowStart(now, window), window, f)
    ensures var start := WindowStart(now, window);
            OnlySlots(DbMap(totals, codes, start, window), table, start, f, SlotCount(window))
  {
    var start, n := WindowStart(now, window), SlotCount(window);
    var m := DbMap(totals, codes, start, window);
    forall j | 0 <= j < n ensures HasSlot(m, table, start, f, j) {
      DbSlotFrom(totals, codes, table, now, window, f, j);
    }
    forall k | k in m ensures exists j :: 0 <= j < n && HasSlot(m, table, start, f, j) && k == SlotKey(start, f + j) {
      var j := DbKeysFrom(totals, codes, table, now, window, f, k);
      DbSlotFrom(totals, codes, table, now, window, f, j);
    }
  }

  lemma LaterSlotIsLater(m: map<int, Bucket>, table: seq<Entry>, start: int, f: nat, i: int, j: int)
    requires i < j && HasSlot(m, table, start, f, i) && HasSlot(m, table, start, f, j)
    ensures BucketAt(m, SlotKey(start, f + i)).timestamp < BucketAt(m, SlotKey(start, f + j)).timestamp
  {
    var a, b := SlotKey(start, f + i), SlotKey(start, f + j);
    DatedInMinute(m[a], start, f + i);
    DatedInMinute(m[b], start, f + j);
    EarlierMinuteIsEarlier(m[a].timestamp, m[b].timestamp);
  }

  lemma SameHoldings(s: seq<Bucket>, t: seq<Bucket>, m: map<int, Bucket>)
    requires Holds(s, m, m.Keys) && Holds(t, m, m.Keys) && Increasing(s) && Increasing(t)
    ensures s == t
  {
    SortingIsUnique(s, t);
  }

  function MapSlots(m: map<int, Bucket>, start: int, f: nat, n: nat): (t: seq<Bucket>)
    ensures |t| == n && forall j :: 0 <= j < n ==> t[j] == BucketAt(m, SlotKey(start, f + j))
  {
    seq(n, j requires 0 <= j < n => BucketAt(m, SlotKey(start, f + j)))
  }

  lemma MapSlotsIncrease(m: map<int, Bucket>, table: seq<Entry>, start: int, f: nat, n: nat)
    requires OnlySlots(m, table, start, f, n)
    ensures Increasing(MapSlots(m, start, f, n))
  {
    var t := MapSlots(m, start, f, n);
    forall i, j | 0 <= i < j < |t| ensures t[i].timestamp < t[j].timestamp {
      LaterSlotIsLater(m, table, start, f, i, j);
    }
  }

  lemma MapSlotsAreAll(m: map<int, Bucket>, table: seq<Entry>, start: int, f: nat, n: nat)
    requires OnlySlots(m, table, start, f, n)
    ensures Holds(MapSlots(m, start, f, n), m, m.Keys)
  {
    var t := MapSlots(m, start, f, n);
    forall k | k in m.Keys ensures m[k] in t {
      var j :| 0 <= j < n && HasSlot(m, table, start, f, j) && k == SlotKey(start, f + j);
      assert t[j] == m[k];
    }
    forall b | b in t ensures exists k :: k in m.Keys && m[k] == b {
      var j :| 0 <= j < |t| && t[j] == b;
      assert HasSlot(m, table, start, f, j);
    }
  }

  predicate AllDated(buckets: seq<Bucket>, start: int, f: nat) {
    forall j :: 0 <= j < |buckets| ==> Dated(buckets[j], start, f + j)
  }

  lemma MapSlotsLookAlike(m: map<int, Bucket>, table: seq<Entry>, start: int, f: nat, n: nat)
    requires OnlySlots(m, table, start, f, n)
    ensures SameViews(MapSlots(m, start, f, n), SlotsFrom(table, start, f, n))
    ensures AllDated(MapSlots(m, start, f, n), start, f)
  {
    var t, slots := MapSlots(m, start, f, n), SlotsFrom(table, start, f, n);
    forall j | 0 <= j < n ensures View(t[j]) == View(slots[j]) && Dated(t[j], start, f + j) {
      assert HasSlot(m, table, start, f, j);
    }
  }

  /** Sorting such a map puts the slots in order. */
  lemma SortedSlotsInOrder(m: map<int, Bucket>, table: seq<Entry>, start: int, f: nat, n: nat, buckets: seq<Bucket>)
    requires OnlySlots(m, table, start, f, n) && Increasing(buckets) && Holds(buckets, m, m.Keys)
    ensures SameViews(buckets, SlotsFrom(table, start, f, n)) && AllDated(buckets, start, f)
  {
    MapSlotsIncrease(m, table, start, f, n);
    MapSlotsAreAll(m, table, start, f, n);
    SameHoldings(buckets, MapSlots(m, start, f, n), m);
    MapSlotsLookAlike(m, table, start, f, n);
  }

  /** Sorting the mixed whole-minute and offset times puts the slots in order. */
  lemma DbBucketsAreSlots(totals: seq<TotalRow>, codes: seq<CodeRow>, table: seq<Entry>, now: int, window: nat,
                          buckets: seq<Bucket>, f: nat)
    requires Queried(totals, codes, table, now, window) && SlotsFilled(table, WindowStart(now, window), window, f)
    requires var m := DbMap(totals, codes, WindowStart(now, window), window);
             Increasing(buckets) && Holds(buckets, m, m.Keys)
    ensures SameViews(buckets, SlotsFrom(table, WindowStart(now, window), f, SlotCount(window)))
    ensures AllDated(buckets, WindowStart(now, window), f)
  {
    DbMapIsSlots(totals, codes, table, now, window, f);
    SortedSlotsInOrder(DbMap(totals, codes, WindowStart(now, window), window), table, WindowStart(now, window), f,
                       SlotCount(window), buckets);
  }

  // -- the same entries in another order

  lemma BreakdownIgnoresOrder(h: seq<Entry>, h': seq<Entry>, start: int, key: int)
    requires multiset(h) == multiset(h')
    ensures BreakdownOf(h, start, key) == BreakdownOf(h', start, key)
  {
    var a, b := BreakdownOf(h, start, key), BreakdownOf(h', start, key);
    forall code ensures Lookup(a, code) == Lookup(b, code) && (code in a <==> code in b) {
      BreakdownCounts(h, start, key, code);
      BreakdownCounts(h', start, key, code);
      CountIgnoresOrder(h, h', Hits(start, key, HasCode(code)));
    }
    assert forall code :: code in a ==> a[code] == Lookup(a, code) == Lookup(b, code) == b[code];
  }

  lemma SlotsIgnoreOrder(h: seq<Entry>, h': seq<Entry>, start: int, window: nat)
    requires multiset(h) == multiset(h')
    ensures Slots(h, start, window) == Slots(h', start, window)
  {
    forall i | 0 <= i < SlotCount(window) ensures Slots(h, start, window)[i] == Slots(h', start, window)[i] {
      var key := SlotKey(start, FirstSlot(window) + i);
      CountIgnoresOrder(h, h', Hits(start, key, Always));
      CountIgnoresOrder(h, h', Hits(start, key, IsError));
      BreakdownIgnoresOrder(h, h', start, key);
    }
  }

  lemma {:induction false} SummaryPartsOfViews(s: seq<Bucket>, t: seq<Bucket>)
    requires SameViews(s, t)
    ensures Errors(s) == Errors(t) && Totals(s) == Totals(t) && PeakErrors(s) == PeakErrors(t)
  {
    if s != [] {
      assert View(s[|s| - 1]) == View(t[|t| - 1]);
      SummaryPartsOfViews(s[..|s| - 1], t[..|t| - 1]);
    }
  }

  lemma SummaryOfViews(s: seq<Bucket>, t: seq<Bucket>)
    requires SameViews(s, t)
    ensures SummaryOf(s) == SummaryOf(t)
  {
    SummaryPartsOfViews(s, t);
    SummaryPartsOfViews(LastN(s, 5), LastN(t, 5));
  }

  /** What a client is shown: the bucket list and the summary. */
  predicate SameAnswer(buckets: seq<Bucket>, r: Option<Report>) {
    r.Some? && SameViews(buckets, r.value.buckets) && SummaryOf(buckets) == r.value.summary
  }

  /** Entries that a table can hold do not make the in-memory path raise. */
  lemma StoredNeverRaises(table: seq<Entry>, logs: seq<Entry>, now: int, window: nat, report: Report)
    requires multiset(table) == multiset(logs) && forall e <- table :: Storable(e)
    ensures Unless(logs, now, window, report) == Some(report)
  {
    forall e | e in logs ensures !Raises(e, WindowStart(now, window), window) {
      assert e in multiset(logs) && e in table;
    }
  }

  /**
   For every window shorter than a day and every log with no future dates, the database path (on a
   table holding the same entries, in any order) and the in-memory path give the same minutes in the
   same order with the same totals, errors, rates and breakdowns, and the same summary.
   */
  lemma DatabaseAgreesWithMemory(totals: seq<TotalRow>, codes: seq<CodeRow>, table: seq<Entry>, logs: seq<Entry>,
                                 now: int, window: nat, logLimit: nat, buckets: seq<Bucket>)
    requires window < DAY && Queried(totals, codes, table, now, window) && multiset(table) == multiset(logs)
    requires var m := DbMap(totals, codes, WindowStart(now, window), window);
             Increasing(buckets) && Holds(buckets, m, m.Keys)
    ensures SameAnswer(buckets, ErrorAnswer(logs, window, logLimit, now))
  {
    DbBucketsAreSlots(totals, codes, table, now, window, buckets, 0);
    assert Slots(table, WindowStart(now, window), window)
        == SlotsFrom(table, WindowStart(now, window), 0, SlotCount(window));
    SlotsIgnoreOrder(table, logs, WindowStart(now, window), window);
    StoredNeverRaises(table, logs, now, window, ErrorReport(logs, window, logLimit, now));
    SummaryOfViews(buckets, ErrorReport(logs, window, logLimit, now).buckets);
  }
}
