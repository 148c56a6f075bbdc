/**
 Windows of a whole day, the longest the API accepts: the first and the last minute share a bucket key,
 and the database path and the in-memory path agree only if they happen to treat it alike.
 */
module DayWindow {
  import opened LogEntries
  import opened LogCache
  import opened Counting
  import opened MinuteBuckets
  import opened BucketOrder
  import opened ErrorBuckets
  import opened DbBuckets

  /** Among rows with the same key the last one, which has the latest minute, is what remains. */
  lemma {:induction false} LatestRowRemains(q: seq<TotalRow>, g: TotalRow)
    requires forall a, b :: 0 <= a < b < |q| ==> q[a].minute < q[b].minute
    requires g in q && forall x <- q :: x.minute % DAY == g.minute % DAY ==> x.minute <= g.minute
    ensures g.minute % DAY in TotalsMap(q) && TotalsMap(q)[g.minute % DAY] == TotalsBucket(g)
  {
    var last := q[|q| - 1];
    if last != g {
      var a :| 0 <= a < |q| && q[a] == g;
      assert q[a].minute < q[|q| - 1].minute && last in q;
      assert g == q[..|q| - 1][a];
      LatestRowRemains(q[..|q| - 1], g);
    }
  }

  lemma MinutesOfOneKey(minute: int, first: int)
    requires first <= minute <= first + DAY && minute % DAY == first % DAY
    ensures minute == first || minute == first + DAY
  {
    if minute < first + DAY { KeysWithinADay(minute, first); }
  }

  /** In memory, the first and the last minute of a day-long window are counted together. */
  lemma MemoryAddsBothMinutes(table: seq<Entry>, now: int)
    requires NotInFuture(table, now)
    ensures var start := WindowStart(now, DAY);
            Count(table, Hits(start, SlotKey(start, 0), Always))
            == Count(table, InMinute(start, MinuteOf(start), Always))
               + Count(table, InMinute(start, MinuteOf(start) + DAY, Always))
  {
    var start := WindowStart(now, DAY);
    var first := MinuteOf(start);
    SlotMinute(start, 0);
    AddDay(first);
    var both, early, late := Hits(start, SlotKey(start, 0), Always), InMinute(start, first, Always),
                             InMinute(start, first + DAY, Always);
    forall e | e in table ensures (both(e) <==> early(e) || late(e)) && !(early(e) && late(e)) {
      if Eligible(e, start) {
        InWindowIsCounted(e, now, DAY);
        if both(e) { MinutesOfOneKey(MinuteOf(e.time.value), first); }
      }
    }
    CountSplits(table, both, early, late);
  }

  lemma RowsOfTheSharedKey(totals: seq<TotalRow>, table: seq<Entry>, now: int, x: TotalRow)
    requires NotInFuture(table, now) && IsTotalsQuery(totals, table, WindowStart(now, DAY)) && x in totals
    ensures var first := MinuteOf(WindowStart(now, DAY));
            x.minute % DAY == first % DAY ==> x.minute == first || x.minute == first + DAY
  {
    var start := WindowStart(now, DAY);
    var f := CountWitness(table, InMinute(start, x.minute, Always));
    InWindowIsCounted(f, now, DAY);
    if x.minute % DAY == MinuteOf(start) % DAY { MinutesOfOneKey(x.minute, MinuteOf(start)); }
  }

  /** Of the two minutes that share a key, the later one with a row is what the totals map keeps. */
  lemma LaterRowRemains(totals: seq<TotalRow>, table: seq<Entry>, now: int, g: TotalRow)
    requires NotInFuture(table, now) && IsTotalsQuery(totals, table, WindowStart(now, DAY)) && g in totals
    requires var first := MinuteOf(WindowStart(now, DAY));
             g.minute == first + DAY || (g.minute == first && forall x <- totals :: x.minute != first + DAY)
    ensures var k := MinuteOf(WindowStart(now, DAY)) % DAY;
            k in TotalsMap(totals) && TotalsMap(totals)[k] == TotalsBucket(g)
  {
    var first := MinuteOf(WindowStart(now, DAY));
    AddDay(first);
    forall x | x in totals && x.minute % DAY == g.minute % DAY ensures x.minute <= g.minute {
      RowsOfTheSharedKey(totals, table, now, x);
    }
    LatestRowRemains(totals, g);
  }

  // -- the shared bucket, and the whole answer

  lemma {:induction false} TotalsKeyedByMinute(q: seq<TotalRow>, k: int)
    ensures k in TotalsMap(q) ==> TotalsMap(q)[k].minute == k
  {
    if q != [] { TotalsKeyedByMinute(q[..|q| - 1], k); }
  }

  lemma {:induction false} GapFilledKeyedByMinute(m: map<int, Bucket>, start: int, n: nat, k: int)
    requires k in m ==> m[k].minute == k
    ensures k in GapFilled(m, start, n) ==> GapFilled(m, start, n)[k].minute == k
  {
    if n > 0 { GapFilledKeyedByMinute(m, start, n - 1, k); }
  }

  lemma DbMapKeyedByMinute(totals: seq<TotalRow>, codes: seq<CodeRow>, start: int, window: nat, k: int)
    requires k in DbMap(totals, codes, start, window)
    ensures DbMap(totals, codes, start, window)[k].minute == k
  {
    TotalsHaveNoBreakdowns(totals);
    CodesOnlyAddBreakdowns(TotalsMap(totals), codes, k);
    TotalsKeyedByMinute(totals, k);
    GapFilledKeyedByMinute(WithCodes(TotalsMap(totals), codes), start, window + 1, k);
  }

  /** With entries in the last minute of a day-long window, the bucket of the shared key holds just those. */
  lemma SharedBucketTotal(totals: seq<TotalRow>, codes: seq<CodeRow>, table: seq<Entry>, now: int)
    requires Queried(totals, codes, table, now, DAY) && InLastMinute(table, WindowStart(now, DAY)) > 0
    ensures var start := WindowStart(now, DAY);
            var m, k := DbMap(totals, codes, start, DAY), SlotKey(start, 0);
            k in m && m[k].total == InLastMinute(table, start)
  {
    var start := WindowStart(now, DAY);
    SlotMinute(start, 0);
    var g := RowOfMinute(totals, table, start, MinuteOf(start) + DAY);
    LaterRowRemains(totals, table, now, g);
    TotalsHaveNoBreakdowns(totals);
    CodesOnlyAddBreakdowns(TotalsMap(totals), codes, SlotKey(start, 0));
    GapFilledKeeps(WithCodes(TotalsMap(totals), codes), start, DAY + 1, SlotKey(start, 0));
  }

  /** Entries in both minutes: memory counts them all in its last bucket, the database path does not. */
  lemma BothMinutesDiffer(totals: seq<TotalRow>, codes: seq<CodeRow>, table: seq<Entry>, now: int, buckets: seq<Bucket>)
    requires Queried(totals, codes, table, now, DAY)
    requires var start := WindowStart(now, DAY); InFirstMinute(table, start) > 0 && InLastMinute(table, start) > 0
    requires var m := DbMap(totals, codes, WindowStart(now, DAY), DAY); Holds(buckets, m, m.Keys)
    ensures !SameViews(buckets, Slots(table, WindowStart(now, DAY), DAY))
  {
    var start := WindowStart(now, DAY);
    var m, slots := DbMap(totals, codes, start, DAY), Slots(table, start, DAY);
    SharedBucketTotal(totals, codes, table, now);
    MemoryAddsBothMinutes(table, now);
    SlotKeysRepeatDaily(start, 0);
    var last := slots[DAY - 1];
    assert last == SlotBucket(table, start, DAY) && last.minute == SlotKey(start, 0);
    if SameViews(buckets, slots) {
      var b := buckets[DAY - 1];
      assert View(b) == View(last) && b in buckets;
      var k :| k in m.Keys && m[k] == b;
      DbMapKeyedByMinute(totals, codes, start, DAY, k);
      assert false;
    }
  }

  /**
   No entries in the last minute: the database path dates the shared key in the first minute, so its
   list starts with the bucket that memory's list ends with, and every bucket is one place off.
   */
  lemma ListIsRotated(totals: seq<TotalRow>, codes: seq<CodeRow>, table: seq<Entry>, now: int, buckets: seq<Bucket>)
    requires Queried(totals, codes, table, now, DAY) && InLastMinute(table, WindowStart(now, DAY)) == 0
    requires var m := DbMap(totals, codes, WindowStart(now, DAY), DAY); Increasing(buckets) && Holds(buckets, m, m.Keys)
    ensures var slots := Slots(table, WindowStart(now, DAY), DAY);
            SameViews(buckets, [slots[DAY - 1]] + slots[..DAY - 1]) && !SameViews(buckets, slots)
  {
    var start := WindowStart(now, DAY);
    var slots, ours := Slots(table, start, DAY), SlotsFrom(table, start, 0, DAY);
    DbBucketsAreSlots(totals, codes, table, now, DAY, buckets, 0);
    SlotKeysRepeatDaily(start, 0);
    SlotKeysDiffer(start, DAY - 1, DAY);
    assert ours[0] == SlotBucket(table, start, 0) && slots[DAY - 1] == SlotBucket(table, start, DAY);
    forall i | 0 <= i < DAY ensures View(ours[i]) == View(([slots[DAY - 1]] + slots[..DAY - 1])[i]) {
      assert i > 0 ==> ours[i] == SlotBucket(table, start, i) == slots[i - 1];
    }
    assert View(buckets[DAY - 1]) == View(ours[DAY - 1]) && ours[DAY - 1].minute == SlotKey(start, DAY - 1);
    assert slots[DAY - 1].minute == SlotKey(start, DAY);
  }

  /**
   For every window the API accepts, the whole answer of the two paths (the ordered buckets and the
   summary) is the same if and only if the window is shorter than a day, or its first minute has no
   HTTP entry and its last minute has one.
   */
  lemma PathsAgreeIff(totals: seq<TotalRow>, codes: seq<CodeRow>, table: seq<Entry>, logs: seq<Entry>,
                      now: int, window: nat, logLimit: nat, buckets: seq<Bucket>)
    requires window <= DAY && Queried(totals, codes, table, now, window) && multiset(table) == multiset(logs)
    requires var m := DbMap(totals, codes, WindowStart(now, window), window);
             Increasing(buckets) && Holds(buckets, m, m.Keys)
    ensures var start := WindowStart(now, window);
            SameAnswer(buckets, ErrorAnswer(logs, window, logLimit, now))
            <==> window < DAY || (InFirstMinute(table, start) == 0 && InLastMinute(table, start) > 0)
  {
    var start := WindowStart(now, window);
    SlotsIgnoreOrder(table, logs, start, window);
    StoredNeverRaises(table, logs, now, window, ErrorReport(logs, window, logLimit, now));
    if window < DAY {
      DatabaseAgreesWithMemory(totals, codes, table, logs, now, window, logLimit, buckets);
    } else if InLastMinute(table, start) == 0 {
      ListIsRotated(totals, codes, table, now, buckets);
    } else if InFirstMinute(table, start) > 0 {
      BothMinutesDiffer(totals, codes, table, now, buckets);
    } else {
      DbBucketsAreSlots(totals, codes, table, now, DAY, buckets, 1);
      assert Slots(table, start, DAY) == SlotsFrom(table, start, 1, DAY);
      SummaryOfViews(buckets, Slots(table, start, DAY));
    }
  }

  /** The empty log is already answered differently over a whole day. */
  lemma EmptyLogDiffers(now: int, logLimit: nat, buckets: seq<Bucket>)
    requires var m := DbMap([], [], WindowStart(now, DAY), DAY); Increasing(buckets) && Holds(buckets, m, m.Keys)
    ensures Queried([], [], [], now, DAY) && !SameAnswer(buckets, ErrorAnswer([], DAY, logLimit, now))
  {
    assert Queried([], [], [], now, DAY);
    PathsAgreeIff([], [], [], [], now, DAY, logLimit, buckets);
  }

  lemma OneMoreBucket(s: seq<Bucket>, b: Bucket)
    ensures Errors(s + [b]) == Errors(s) + b.errors && Totals(s + [b]) == Totals(s) + b.total
  {
    assert (s + [b])[..|s|] == s;
  }

  lemma FiveBuckets(a: Bucket, b: Bucket, c: Bucket, d: Bucket, e: Bucket)
    ensures Errors([a, b, c, d, e]) == a.errors + b.errors + c.errors + d.errors + e.errors
    ensures Totals([a, b, c, d, e]) == a.total + b.total + c.total + d.total + e.total
  {
    var none: seq<Bucket> := [];
    OneMoreBucket(none, a);
    assert none + [a] == [a];
    OneMoreBucket([a], b);
    assert [a] + [b] == [a, b];
    OneMoreBucket([a, b], c);
    assert [a, b] + [c] == [a, b, c];
    OneMoreBucket([a, b, c], d);
    assert [a, b, c] + [d] == [a, b, c, d];
    OneMoreBucket([a, b, c, d], e);
    assert [a, b, c, d] + [e] == [a, b, c, d, e];
  }

  lemma CountOne(e: Entry, p: Entry -> bool)
    ensures Count([e], p) == if p(e) then 1 else 0
  {
    CountStep([], e, p);
    assert [] + [e] == [e];
  }

  lemma OneEntrySlot(e: Entry, now: int, i: nat)
    requires 0 < i < DAY && NotInFuture([e], now) && IsError(e) && e.time.Some?
    requires MinuteOf(e.time.value) == MinuteOf(WindowStart(now, DAY)) + 1435
    ensures var b := SlotBucket([e], WindowStart(now, DAY), i);
            b.total == b.errors == if i == 1435 then 1 else 0
  {
    var start := WindowStart(now, DAY);
    EarlierMinuteIsEarlier(start, e.time.value);
    SlotMinute(start, i);
    if KeyOf(e.time.value) == SlotKey(start, i) { KeysWithinADay(MinuteOf(e.time.value), MinuteOf(start) + i); }
    var key := SlotKey(start, i);
    assert Lands(e, start, key) <==> i == 1435;
    assert Always(e);
    assert Hits(start, key, Always)(e) == (Lands(e, start, key) && Always(e));
    assert Hits(start, key, IsError)(e) == (Lands(e, start, key) && IsError(e));
    CountOne(e, Hits(start, SlotKey(start, i), Always));
    CountOne(e, Hits(start, SlotKey(start, i), IsError));
  }

  lemma LastSlotIsEmpty(e: Entry, now: int)
    requires e.time.Some? && MinuteOf(e.time.value) == MinuteOf(WindowStart(now, DAY)) + 1435
    ensures var b := SlotBucket([e], WindowStart(now, DAY), DAY); b.total == b.errors == 0
    ensures InLastMinute([e], WindowStart(now, DAY)) == 0
  {
    var start := WindowStart(now, DAY);
    SlotMinute(start, DAY);
    if KeyOf(e.time.value) == SlotKey(start, DAY) { KeysWithinADay(MinuteOf(e.time.value), MinuteOf(start) + DAY); }
    CountOne(e, Hits(start, SlotKey(start, DAY), Always));
    CountOne(e, Hits(start, SlotKey(start, DAY), IsError));
    CountOne(e, InMinute(start, MinuteOf(start) + DAY, Always));
  }

  lemma RateOfFive(s: seq<Bucket>, a: Bucket, b: Bucket, c: Bucket, d: Bucket, e: Bucket)
    requires |s| >= 5 && s[|s| - 5..] == [a, b, c, d, e]
    requires b.total == c.total == d.total == e.total == 0 && b.errors == c.errors == d.errors == e.errors == 0
    ensures SummaryOf(s).currentRate == Rate(a.errors, a.total)
  {
    FiveBuckets(a, b, c, d, e);
    if |s| == 5 { assert s == [a, b, c, d, e]; }
  }

  predicate IsQuiet(b: Bucket) { b.total == b.errors == 0 }

  lemma RatesOfRotation(slots: seq<Bucket>)
    requires |slots| == DAY && slots[1434].total == slots[1434].errors == 1
    requires forall i :: 1435 <= i < DAY ==> IsQuiet(slots[i])
    ensures SummaryOf([slots[DAY - 1]] + slots[..DAY - 1]).currentRate == 100.0
    ensures SummaryOf(slots).currentRate == 0.0
  {
    RateOfFive([slots[1439]] + slots[..1439], slots[1434], slots[1435], slots[1436], slots[1437], slots[1438]);
    RateOfFive(slots, slots[1435], slots[1436], slots[1437], slots[1438], slots[1439]);
  }

  /** The single error is in the sixth minute from the end, and nothing after it. */
  lemma TailOfDay(e: Entry, now: int)
    requires NotInFuture([e], now) && IsError(e) && e.time.Some?
    requires MinuteOf(e.time.value) == MinuteOf(WindowStart(now, DAY)) + 1435
    ensures var slots := Slots([e], WindowStart(now, DAY), DAY);
            slots[1434].total == slots[1434].errors == 1 && forall i :: 1435 <= i < DAY ==> IsQuiet(slots[i])
  {
    var start := WindowStart(now, DAY);
    var slots := Slots([e], start, DAY);
    LastSlotIsEmpty(e, now);
    forall i | 1434 <= i < DAY ensures if i == 1434 then slots[i].total == slots[i].errors == 1 else IsQuiet(slots[i]) {
      assert slots[i] == SlotBucket([e], start, 1 + i);
      if i < DAY - 1 { OneEntrySlot(e, now, 1 + i); }
    }
  }

  /**
   Rotation reaches the summary: with a single error in the sixth minute from the end of a day-long
   window, the current rate is 100 from the database and 0 from memory.
   */
  lemma CurrentRateDiffers(totals: seq<TotalRow>, codes: seq<CodeRow>, e: Entry, now: int, buckets: seq<Bucket>)
    requires Queried(totals, codes, [e], now, DAY) && IsError(e) && e.time.Some?
    requires MinuteOf(e.time.value) == MinuteOf(WindowStart(now, DAY)) + 1435
    requires var m := DbMap(totals, codes, WindowStart(now, DAY), DAY); Increasing(buckets) && Holds(buckets, m, m.Keys)
    ensures SummaryOf(buckets).currentRate == 100.0
    ensures SummaryOf(Slots([e], WindowStart(now, DAY), DAY)).currentRate == 0.0
  {
    var start := WindowStart(now, DAY);
    var slots := Slots([e], start, DAY);
    LastSlotIsEmpty(e, now);
    ListIsRotated(totals, codes, [e], now, buckets);
    SummaryOfViews(buckets, [slots[DAY - 1]] + slots[..DAY - 1]);
    TailOfDay(e, now);
    RatesOfRotation(slots);
  }
}
