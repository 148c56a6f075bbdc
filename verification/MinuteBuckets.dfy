/**
 Per-minute buckets keyed by minute of day: the arithmetic of keys modulo 1440, what one bucket
 counts, and the proof that a window's buckets share out its entries without loss or overlap.

 Times are microseconds.  A key "HH:MM" is its minute of day, 0 to 1439.
 */
module MinuteBuckets {
  import opened Wrappers
  import opened LogEntries
  import opened LogCache
  import opened Counting
  import opened MapSums

  const MINUTE := 60_000_000
  const DAY := 1440

  function MinuteOf(t: int): int { t / MINUTE }

  function KeyOf(t: int): int { MinuteOf(t) % DAY }

  function WindowStart(now: int, window: nat): int { now - window * MINUTE }

  /** The moment slot `i` of the window stands for, and its key. */
  function SlotTime(start: int, i: int): int { start + i * MINUTE }

  function SlotKey(start: int, i: int): int { KeyOf(SlotTime(start, i)) }

  datatype Bucket = Bucket(minute: int, timestamp: int, total: nat, errors: nat, rate: real, breakdown: map<int, nat>)

  /** Error percentage; rounding is not modelled. */
  function Rate(errors: nat, total: nat): real {
    if total > 0 then errors as real / total as real * 100.0 else 0.0
  }

  lemma SlotMinute(start: int, i: int)
    ensures MinuteOf(SlotTime(start, i)) == MinuteOf(start) + i
  {
  }

  /** Two minutes less than a day apart have the same key only if they are the same minute. */
  lemma KeysWithinADay(a: int, b: int)
    requires a % DAY == b % DAY && -DAY < a - b < DAY
    ensures a == b
  {
  }

  // ---------------------------------------------------------------- what a bucket counts

  /** An HTTP entry recent enough to be bucketed. */
  predicate Eligible(e: Entry, start: int) {
    e.time.Some? && e.time.value >= start && e.status.Code?
  }

  predicate Lands(e: Entry, start: int, key: int) { Eligible(e, start) && KeyOf(e.time.value) == key }

  predicate Always(e: Entry) { e.status.Code? }

  function Hits(start: int, key: int, p: Entry -> bool): Entry -> bool {
    (e: Entry) => Lands(e, start, key) && p(e)
  }

  /** Error codes of the entries that land on `key`, each with its number of entries. */
  function BreakdownOf(h: seq<Entry>, start: int, key: int): map<int, nat> {
    if h == [] then map[]
    else
      var front, e := BreakdownOf(h[..|h| - 1], start, key), h[|h| - 1];
      if Lands(e, start, key) && IsError(e) then Bump(front, e.status.code) else front
  }

  /** A bucket with the counts of the entries of `h` that land on its key. */
  function Filled(h: seq<Entry>, start: int, key: int, timestamp: int): Bucket {
    var total, errors := Count(h, Hits(start, key, Always)), Count(h, Hits(start, key, IsError));
    Bucket(key, timestamp, total, errors, Rate(errors, total), BreakdownOf(h, start, key))
  }

  /** A bucket's errors are exactly what its status breakdown adds up to. */
  lemma {:induction false} BreakdownSums(h: seq<Entry>, start: int, key: int)
    ensures Sum(BreakdownOf(h, start, key)) == Count(h, Hits(start, key, IsError))
  {
    if h != [] {
      var front, e := h[..|h| - 1], h[|h| - 1];
      BreakdownSums(front, start, key);
      var m := BreakdownOf(front, start, key);
      if Lands(e, start, key) && IsError(e) {
        SumUpdate(m, e.status.code, Lookup(m, e.status.code) + 1);
      }
    }
  }

  /** Error entries with status `code` that land on the key. */
  lemma {:induction false} BreakdownCounts(h: seq<Entry>, start: int, key: int, code: int)
    ensures Lookup(BreakdownOf(h, start, key), code)
            == if code >= 400 then Count(h, Hits(start, key, HasCode(code))) else 0
    ensures code in BreakdownOf(h, start, key) <==> Lookup(BreakdownOf(h, start, key), code) > 0
  {
    if h != [] { BreakdownCounts(h[..|h| - 1], start, key, code); }
  }

  // ---------------------------------------------------------------- the window

  /** Slots before this one share their key with a later slot, which replaces them. */
  function FirstSlot(window: nat): nat { if window < DAY then 0 else window + 1 - DAY }

  function SlotCount(window: nat): nat { window + 1 - FirstSlot(window) }

  /** The finished bucket of slot `i`. */
  function SlotBucket(h: seq<Entry>, start: int, i: int): Bucket {
    Filled(h, start, SlotKey(start, i), SlotTime(start, i))
  }

  /** The buckets of a window, oldest first. */
  function Slots(h: seq<Entry>, start: int, window: nat): (s: seq<Bucket>)
    ensures |s| == (if window + 1 < DAY then window + 1 else DAY)
    ensures forall j :: 0 <= j < |s| ==> s[j] == SlotBucket(h, start, FirstSlot(window) + j)
  {
    seq(SlotCount(window), j requires 0 <= j < SlotCount(window) => SlotBucket(h, start, FirstSlot(window) + j))
  }

  /** How many slots after slot `first` the entry's key comes up, counting round the day. */
  function Offset(e: Entry, start: int, first: int): int
    requires e.time.Some?
  {
    (MinuteOf(e.time.value) - MinuteOf(start) - first) % DAY
  }

  lemma OffsetPicksSlot(e: Entry, start: int, first: int, n: nat)
    requires e.time.Some? && n < DAY
    ensures KeyOf(e.time.value) == SlotKey(start, first + n) <==> Offset(e, start, first) == n
  {
    var a, b := MinuteOf(e.time.value), MinuteOf(start) + first + n;
    SlotMinute(start, first + n);
    CongruentIffOffset(a, b - n, n);
  }

  lemma CongruentIffOffset(a: int, b: int, n: nat)
    requires n < DAY
    ensures a % DAY == (b + n) % DAY <==> (a - b) % DAY == n
  {
  }

  /** The entry is eligible, passes `p`, and its key comes up among the first `n` slots. */
  function HitsAny(start: int, first: int, n: nat, p: Entry -> bool): Entry -> bool {
    (e: Entry) => Eligible(e, start) && Offset(e, start, first) < n && p(e)
  }

  function Totals(s: seq<Bucket>): nat { if s == [] then 0 else Totals(s[..|s| - 1]) + s[|s| - 1].total }

  function Errors(s: seq<Bucket>): nat { if s == [] then 0 else Errors(s[..|s| - 1]) + s[|s| - 1].errors }

  lemma NextSlot(h: seq<Entry>, start: int, first: int, n: nat, p: Entry -> bool)
    requires n < DAY
    ensures Count(h, HitsAny(start, first, n + 1, p))
            == Count(h, HitsAny(start, first, n, p)) + Count(h, Hits(start, SlotKey(start, first + n), p))
  {
    var longer, shorter, slot := HitsAny(start, first, n + 1, p), HitsAny(start, first, n, p),
                                 Hits(start, SlotKey(start, first + n), p);
    forall e | e in h
      ensures (longer(e) <==> shorter(e) || slot(e)) && !(shorter(e) && slot(e))
    {
      if e.time.Some? { OffsetPicksSlot(e, start, first, n); }
    }
    CountSplits(h, longer, shorter, slot);
  }

  lemma {:induction false} SlotsShareOut(h: seq<Entry>, start: int, window: nat, n: nat)
    requires n <= SlotCount(window)
    ensures Totals(Slots(h, start, window)[..n]) == Count(h, HitsAny(start, FirstSlot(window), n, Always))
    ensures Errors(Slots(h, start, window)[..n]) == Count(h, HitsAny(start, FirstSlot(window), n, IsError))
  {
    var s := Slots(h, start, window);
    if n == 0 {
      CountNone(h, HitsAny(start, FirstSlot(window), 0, Always));
      CountNone(h, HitsAny(start, FirstSlot(window), 0, IsError));
    } else {
      SlotsShareOut(h, start, window, n - 1);
      assert s[..n][..n - 1] == s[..n - 1];
      NextSlot(h, start, FirstSlot(window), n - 1, Always);
      NextSlot(h, start, FirstSlot(window), n - 1, IsError);
    }
  }

  /**
   Conservation, for every window and every entry, past or future: bucket totals add up to the
   eligible entries whose key is in the window, and bucket errors to the error entries among them.
   */
  lemma BucketsConserve(h: seq<Entry>, start: int, window: nat)
    ensures var s := Slots(h, start, window);
            Totals(s) == Count(h, HitsAny(start, FirstSlot(window), SlotCount(window), Always))
            && Errors(s) == Count(h, HitsAny(start, FirstSlot(window), SlotCount(window), IsError))
  {
    SlotsShareOut(h, start, window, SlotCount(window));
    var s := Slots(h, start, window);
    assert s[..SlotCount(window)] == s;
  }

  /** No entry is dated after `now`. */
  predicate NotInFuture(h: seq<Entry>, now: int) {
    forall e <- h :: e.time.Some? ==> e.time.value <= now
  }

  function EligibleAnd(start: int, p: Entry -> bool): Entry -> bool {
    (e: Entry) => Eligible(e, start) && p(e)
  }

  lemma InWindowIsCounted(e: Entry, now: int, window: nat)
    requires Eligible(e, WindowStart(now, window)) && e.time.value <= now
    ensures 0 <= MinuteOf(e.time.value) - MinuteOf(WindowStart(now, window)) <= window
    ensures Offset(e, WindowStart(now, window), FirstSlot(window)) < SlotCount(window)
    ensures window < DAY ==> Offset(e, WindowStart(now, window), 0)
                             == MinuteOf(e.time.value) - MinuteOf(WindowStart(now, window))
  {
    var start := WindowStart(now, window);
    SlotMinute(start, window);
    assert SlotTime(start, window) == now;
    MinutesAreMonotone(e.time.value, now);
    MinutesAreMonotone(start, e.time.value);
  }

  lemma MinutesAreMonotone(a: int, b: int)
    requires a <= b
    ensures MinuteOf(a) <= MinuteOf(b)
  {
  }

  /** When no entry is dated in the future, every eligible entry is in exactly one bucket. */
  lemma WindowConserves(h: seq<Entry>, now: int, window: nat)
    requires NotInFuture(h, now)
    ensures var start := WindowStart(now, window);
            var s := Slots(h, start, window);
            Totals(s) == Count(h, EligibleAnd(start, Always)) && Errors(s) == Count(h, EligibleAnd(start, IsError))
  {
    var start := WindowStart(now, window);
    BucketsConserve(h, start, window);
    forall e | e in h && Eligible(e, start) ensures Offset(e, start, FirstSlot(window)) < SlotCount(window) {
      InWindowIsCounted(e, now, window);
    }
    CountAgrees(h, HitsAny(start, FirstSlot(window), SlotCount(window), Always), EligibleAnd(start, Always));
    CountAgrees(h, HitsAny(start, FirstSlot(window), SlotCount(window), IsError), EligibleAnd(start, IsError));
  }

  function InMinute(start: int, minute: int, p: Entry -> bool): Entry -> bool {
    (e: Entry) => Eligible(e, start) && MinuteOf(e.time.value) == minute && p(e)
  }

  /** For windows shorter than a day, an in-window entry lands on slot `i` exactly if minute `i` is its own. */
  lemma SlotHoldsItsMinute(e: Entry, now: int, window: nat, i: nat)
    requires window < DAY && i <= window && Eligible(e, WindowStart(now, window)) && e.time.value <= now
    ensures var start := WindowStart(now, window);
            Lands(e, start, SlotKey(start, i)) <==> MinuteOf(e.time.value) == MinuteOf(start) + i
  {
    OffsetPicksSlot(e, WindowStart(now, window), 0, i);
    InWindowIsCounted(e, now, window);
  }

  /** Whatever lands on slot `i` is of slot `i`'s own minute. */
  ghost predicate OwnMinuteOnly(h: seq<Entry>, start: int, i: int) {
    forall e <- h :: Lands(e, start, SlotKey(start, i)) ==> MinuteOf(e.time.value) == MinuteOf(start) + i
  }

  lemma SlotCountsItsMinute(h: seq<Entry>, start: int, i: int, p: Entry -> bool)
    requires OwnMinuteOnly(h, start, i)
    ensures Count(h, Hits(start, SlotKey(start, i), p)) == Count(h, InMinute(start, MinuteOf(start) + i, p))
  {
    SlotMinute(start, i);
    CountAgrees(h, Hits(start, SlotKey(start, i), p), InMinute(start, MinuteOf(start) + i, p));
  }
}
