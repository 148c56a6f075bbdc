/**
 The in-memory log cache: a ring buffer, rolling counters per instance and the queue of entries not
 yet flushed.  The object is mutated under a lock, so each method body is one atomic step.

 What is proved about it: after any sequence of operations the ring buffer and every counter are
 functions of the entries ingested since the last clear.
 */
module LogCache {
  import opened LogEntries
  import opened LogFilters
  import opened Counting
  import opened MapSums

  datatype InstanceStats = InstanceStats(
    requestCount: nat,
    errorCount: nat,
    totalDurationMs: real,
    statusCodes: map<int, nat>,
    levels: map<Field, nat>)

  const NEW_STATS := InstanceStats(0, 0, 0.0, map[], map[])

  datatype CacheState = CacheState(
    logs: seq<Entry>,
    stats: map<string, InstanceStats>,
    totalIngested: nat,
    pending: seq<Entry>)

  const EMPTY_CACHE := CacheState([], map[], 0, [])

  function InstanceOf(e: Entry): string { AsText(e.instanceId, "unknown") }

  function LevelOf(e: Entry): Field { if e.level.Missing? then Text("UNKNOWN") else e.level }

  predicate CountsAsRequest(e: Entry) { !e.status.NoStatus? }

  /** `int(entry["status_code"])` raises. */
  predicate StatusRaises(e: Entry) { e.status.NullStatus? || e.status.BadStatus? }

  function Bump<K>(m: map<K, nat>, k: K): map<K, nat> { m[k := (if k in m then m[k] else 0) + 1] }

  /**
   A raising status code leaves the request counted but neither its code nor its duration; a raising
   duration leaves everything but the duration counted.
   */
  function StatsAfter(s: InstanceStats, e: Entry): InstanceStats {
    var s := s.(levels := Bump(s.levels, LevelOf(e)));
    if !CountsAsRequest(e) then s
    else
      var s := s.(requestCount := s.requestCount + 1);
      if StatusRaises(e) then s
      else
        s.(statusCodes := Bump(s.statusCodes, e.status.code),
           errorCount := s.errorCount + if IsErrorCode(e.status) then 1 else 0,
           totalDurationMs := s.totalDurationMs + if e.durationMs.Millis? then e.durationMs.ms else 0.0)
  }

  function StatsFor(stats: map<string, InstanceStats>, id: string): InstanceStats {
    if id in stats then stats[id] else NEW_STATS
  }

  function UpdatedStats(stats: map<string, InstanceStats>, e: Entry): map<string, InstanceStats> {
    stats[InstanceOf(e) := StatsAfter(StatsFor(stats, InstanceOf(e)), e)]
  }

  /** The last `n` elements. */
  function LastN<T>(s: seq<T>, n: nat): seq<T> { if |s| <= n then s else s[|s| - n..] }

  function Added(s: CacheState, e: Entry, maxEntries: nat): CacheState {
    CacheState(LastN(s.logs + [e], maxEntries), UpdatedStats(s.stats, e), s.totalIngested + 1, s.pending + [e])
  }

  function Grabbed(s: CacheState): CacheState { s.(pending := []) }

  function Restored(s: CacheState, batch: seq<Entry>): CacheState { s.(pending := batch + s.pending) }

  function Matching(logs: seq<Entry>, f: Filters): seq<Entry> {
    if logs == [] then []
    else Matching(logs[..|logs| - 1], f)
         + if EntryMatchesFilters(logs[|logs| - 1], f) then [logs[|logs| - 1]] else []
  }

  /** Each accepted entry as often as it was logged. */
  lemma {:induction false} MatchingMultiplicity(logs: seq<Entry>, f: Filters, e: Entry)
    ensures multiset(Matching(logs, f))[e] == if EntryMatchesFilters(e, f) then multiset(logs)[e] else 0
  {
    if logs != [] {
      var front, last := logs[..|logs| - 1], logs[|logs| - 1];
      assert logs == front + [last];
      MatchingMultiplicity(front, f, e);
    }
  }

  function Reversed<T>(s: seq<T>): (r: seq<T>)
    ensures |r| == |s| && forall i :: 0 <= i < |s| ==> r[i] == s[|s| - 1 - i]
  {
    seq(|s|, i requires 0 <= i < |s| => s[|s| - 1 - i])
  }

  function FirstN<T>(s: seq<T>, n: nat): seq<T> { if |s| <= n then s else s[..n] }

  /** Going back from the newest entry, those that match, up to the limit. */
  function NewestMatching(logs: seq<Entry>, f: Filters, limit: nat): seq<Entry> {
    if logs == [] || limit == 0 then []
    else
      var older, e := logs[..|logs| - 1], logs[|logs| - 1];
      if EntryMatchesFilters(e, f) then [e] + NewestMatching(older, f, limit - 1) else NewestMatching(older, f, limit)
  }

  lemma ReversedPrefix<T>(s: seq<T>, x: T, n: nat)
    requires n > 0
    ensures FirstN(Reversed(s + [x]), n) == [x] + FirstN(Reversed(s), n - 1)
  {
    var longer := s + [x];
    assert Reversed(longer) == [x] + Reversed(s) by {
      assert forall i :: 0 < i < |longer| ==> Reversed(longer)[i] == longer[|s| - i] == s[|s| - i];
    }
  }

  /** Going back one entry. */
  lemma NewestStep(logs: seq<Entry>, f: Filters, limit: nat, hit: bool)
    requires logs != [] && limit > 0 && hit == EntryMatchesFilters(logs[|logs| - 1], f)
    ensures var older, e := logs[..|logs| - 1], logs[|logs| - 1];
            Matching(logs, f) == Matching(older, f) + (if hit then [e] else [])
            && NewestMatching(logs, f, limit)
               == if hit then [e] + NewestMatching(older, f, limit - 1) else NewestMatching(older, f, limit)
  {
  }

  lemma {:induction false} ReversedMatchingIsNewest(logs: seq<Entry>, f: Filters, limit: nat)
    ensures FirstN(Reversed(Matching(logs, f)), limit) == NewestMatching(logs, f, limit)
  {
    if logs == [] || limit == 0 {
      assert FirstN(Reversed(Matching(logs, f)), limit) == [];
    } else {
      var older, e, hit := logs[..|logs| - 1], logs[|logs| - 1], EntryMatchesFilters(logs[|logs| - 1], f);
      NewestStep(logs, f, limit, hit);
      ReversedMatchingIsNewest(older, f, if hit then limit - 1 else limit);
      if hit { ReversedPrefix(Matching(older, f), e, limit); }
    }
  }

  class Cache {
    const maxEntries: nat
    var logs: seq<Entry>
    var stats: map<string, InstanceStats>
    var totalIngested: nat
    var pendingFlush: seq<Entry>

    function State(): CacheState
      reads this
    {
      CacheState(logs, stats, totalIngested, pendingFlush)
    }

    constructor (maxEntries: nat)
      ensures State() == EMPTY_CACHE && this.maxEntries == maxEntries
    {
      this.maxEntries := maxEntries;
      logs, stats, totalIngested, pendingFlush := [], map[], 0, [];
    }

    /** Ingests one entry; `raised` tells the caller that a number in it could not be read. */
    method Add(e: Entry) returns (raised: bool)
      modifies this
      ensures State() == Added(old(State()), e, maxEntries)
      ensures raised <==> Unreadable(e) || (e.status.Code? && (e.durationMs == NullTiming || e.durationMs == BadTiming))
    {
      logs := logs + [e];
      if |logs| > maxEntries { logs := logs[|logs| - maxEntries..]; }
      pendingFlush := pendingFlush + [e];
      totalIngested := totalIngested + 1;
      raised := UpdateStats(e);
    }

    method UpdateStats(e: Entry) returns (raised: bool)
      modifies this`stats
      ensures stats == UpdatedStats(old(stats), e)
      ensures raised <==> Unreadable(e) || (e.status.Code? && (e.durationMs == NullTiming || e.durationMs == BadTiming))
    {
      var id := AsText(e.instanceId, "unknown");
      if id !in stats { stats := stats[id := NEW_STATS]; }
      var s := stats[id];
      s := s.(levels := Bump(s.levels, LevelOf(e)));
      raised := false;
      if !e.status.NoStatus? {
        s := s.(requestCount := s.requestCount + 1);
        if e.status.Code? {
          s := s.(statusCodes := Bump(s.statusCodes, e.status.code));
          if e.status.code >= 400 { s := s.(errorCount := s.errorCount + 1); }
          if e.durationMs.Millis? {
            s := s.(totalDurationMs := s.totalDurationMs + e.durationMs.ms);
          } else {
            raised := !e.durationMs.NoTiming?;
          }
        } else {
          raised := true;
        }
      }
      stats := stats[id := s];
    }

    /** Newest first, filtered, at most `limit`. */
    method GetLogs(limit: nat, f: Filters) returns (result: seq<Entry>)
      ensures result == NewestMatching(logs, f, limit)
    {
      var kept := [];
      for i := 0 to |logs|
        invariant kept == Matching(logs[..i], f)
      {
        assert logs[..i + 1][..i] == logs[..i];
        if EntryMatchesFilters(logs[i], f) { kept := kept + [logs[i]]; }
      }
      assert logs[..|logs|] == logs;
      ReversedMatchingIsNewest(logs, f, limit);
      result := FirstN(Reversed(kept), limit);
    }

    method Clear()
      modifies this
      ensures State() == EMPTY_CACHE
    {
      logs, stats, totalIngested, pendingFlush := [], map[], 0, [];
    }

    /** First locked section of a flush: takes the whole queue. */
    method GrabPending() returns (batch: seq<Entry>)
      modifies this`pendingFlush
      ensures State() == Grabbed(old(State())) && batch == old(pendingFlush)
    {
      batch := pendingFlush;
      pendingFlush := [];
    }

    /** Second locked section, after a failed insert: puts the batch back in front. */
    method RestorePending(batch: seq<Entry>)
      modifies this`pendingFlush
      ensures State() == Restored(old(State()), batch)
    {
      pendingFlush := batch + pendingFlush;
    }
  }

  // ---------------------------------------------------------------- histories

  datatype CacheOp = Add(e: Entry) | Clear | Grab | Restore(batch: seq<Entry>)

  function Perform(s: CacheState, op: CacheOp, maxEntries: nat): CacheState {
    match op
    case Add(e) => Added(s, e, maxEntries)
    case Clear => EMPTY_CACHE
    case Grab => Grabbed(s)
    case Restore(batch) => Restored(s, batch)
  }

  function PerformAll(ops: seq<CacheOp>, maxEntries: nat): CacheState {
    if ops == [] then EMPTY_CACHE
    else Perform(PerformAll(ops[..|ops| - 1], maxEntries), ops[|ops| - 1], maxEntries)
  }

  /** The entries ingested since the last clear, oldest first. */
  function History(ops: seq<CacheOp>): seq<Entry> {
    if ops == [] then []
    else
      var before := History(ops[..|ops| - 1]);
      match ops[|ops| - 1]
      case Add(e) => before + [e]
      case Clear => []
      case Grab => before
      case Restore(_) => before
  }

  /** The instance an entry is counted under. */
  predicate CameFrom(e: Entry, id: string) {
    match e.instanceId
    case Missing => id == "unknown"
    case Null => id == "None"
    case Text(name) => id == name
  }

  function Duration(h: seq<Entry>, id: string): real {
    if h == [] then 0.0
    else
      var e := h[|h| - 1];
      Duration(h[..|h| - 1], id)
      + if CameFrom(e, id) && e.status.Code? && e.durationMs.Millis? then e.durationMs.ms else 0.0
  }

  function From(id: string, p: Entry -> bool): Entry -> bool { (e: Entry) => CameFrom(e, id) && p(e) }

  predicate HasStatus(e: Entry) { e.status != NoStatus }

  /** The field is there but holds no integer. */
  predicate Unreadable(e: Entry) { e.status == NullStatus || e.status == BadStatus }

  predicate IsError(e: Entry) { e.status.Code? && e.status.code >= 400 }

  function Of(id: string): Entry -> bool { (e: Entry) => CameFrom(e, id) }

  function HasCode(code: int): Entry -> bool { (e: Entry) => e.status == Code(code) }

  function HasLevel(level: Field): Entry -> bool {
    (e: Entry) => level == if e.level == Missing then Text("UNKNOWN") else e.level
  }

  function Lookup<K>(m: map<K, nat>, k: K): nat { if k in m then m[k] else 0 }

  /** Every counter of `s` is the count of the corresponding entries of instance `id` in `h`. */
  ghost predicate CountersMatch(s: InstanceStats, h: seq<Entry>, id: string) {
    s.requestCount == Count(h, From(id, HasStatus))
    && s.errorCount == Count(h, From(id, IsError))
    && s.totalDurationMs == Duration(h, id)
    && (forall code :: Lookup(s.statusCodes, code) == Count(h, From(id, HasCode(code))))
    && (forall level :: Lookup(s.levels, level) == Count(h, From(id, HasLevel(level))))
  }

  /** The counters of instance `id` after entry `e`, whichever instance that is from. */
  function NextStats(s: InstanceStats, e: Entry, id: string): InstanceStats {
    if CameFrom(e, id) then StatsAfter(s, e) else s
  }

  lemma TotalsStep(s: InstanceStats, h: seq<Entry>, e: Entry, id: string)
    requires CountersMatch(s, h, id)
    ensures var s', h' := NextStats(s, e, id), h + [e];
            s'.requestCount == Count(h', From(id, HasStatus)) && s'.errorCount == Count(h', From(id, IsError))
            && s'.totalDurationMs == Duration(h', id)
  {
    CountStep(h, e, From(id, HasStatus));
    CountStep(h, e, From(id, IsError));
    assert From(id, HasStatus)(e) == (CameFrom(e, id) && HasStatus(e));
    assert From(id, IsError)(e) == (CameFrom(e, id) && IsError(e));
    assert (h + [e])[..|h|] == h;
  }

  lemma CodesStep(s: InstanceStats, h: seq<Entry>, e: Entry, id: string, code: int)
    requires CountersMatch(s, h, id)
    ensures Lookup(NextStats(s, e, id).statusCodes, code) == Count(h + [e], From(id, HasCode(code)))
  {
    CountStep(h, e, From(id, HasCode(code)));
  }

  lemma LevelsStep(s: InstanceStats, h: seq<Entry>, e: Entry, id: string, level: Field)
    requires CountersMatch(s, h, id)
    ensures Lookup(NextStats(s, e, id).levels, level) == Count(h + [e], From(id, HasLevel(level)))
  {
    CountStep(h, e, From(id, HasLevel(level)));
  }

  lemma CountersStep(s: InstanceStats, h: seq<Entry>, e: Entry, id: string)
    requires CountersMatch(s, h, id)
    ensures CountersMatch(NextStats(s, e, id), h + [e], id)
  {
    var s' := NextStats(s, e, id);
    TotalsStep(s, h, e, id);
    forall code ensures Lookup(s'.statusCodes, code) == Count(h + [e], From(id, HasCode(code))) {
      CodesStep(s, h, e, id, code);
    }
    forall level ensures Lookup(s'.levels, level) == Count(h + [e], From(id, HasLevel(level))) {
      LevelsStep(s, h, e, id, level);
    }
  }

  ghost predicate Known(id: string, h: seq<Entry>) { exists e <- h :: CameFrom(e, id) }

  /**
   The buffer holds the last `maxEntries` of `h`, the total is its length, the known instances are
   those of `h`, and every counter of instance `id` is the number of entries it describes.
   */
  ghost predicate Mirrors(s: CacheState, h: seq<Entry>, maxEntries: nat, id: string) {
    s.logs == (if |h| <= maxEntries then h else h[|h| - maxEntries..]) && s.totalIngested == |h|
    && (id in s.stats <==> Known(id, h))
    && CountersMatch(StatsFor(s.stats, id), h, id)
  }

  lemma LastNStep<T>(h: seq<T>, e: T, n: nat)
    ensures LastN(LastN(h, n) + [e], n) == LastN(h + [e], n)
  {
  }

  lemma KnownStep(h: seq<Entry>, e: Entry, id: string)
    ensures Known(id, h + [e]) <==> Known(id, h) || CameFrom(e, id)
  {
    assert forall x :: x in h + [e] <==> x in h || x == e;
  }

  lemma StatsStep(stats: map<string, InstanceStats>, e: Entry, id: string)
    ensures id in UpdatedStats(stats, e) <==> id in stats || CameFrom(e, id)
    ensures StatsFor(UpdatedStats(stats, e), id) == NextStats(StatsFor(stats, id), e, id)
  {
  }

  lemma AddedMirrors(s: CacheState, h: seq<Entry>, e: Entry, maxEntries: nat, id: string)
    requires Mirrors(s, h, maxEntries, id)
    ensures Mirrors(Added(s, e, maxEntries), h + [e], maxEntries, id)
  {
    LastNStep(h, e, maxEntries);
    KnownStep(h, e, id);
    StatsStep(s.stats, e, id);
    CountersStep(StatsFor(s.stats, id), h, e, id);
  }

  /** After any operations the cache mirrors the entries ingested since the last clear. */
  lemma {:induction false} CacheIsFunctionOfHistory(ops: seq<CacheOp>, maxEntries: nat, id: string)
    ensures Mirrors(PerformAll(ops, maxEntries), History(ops), maxEntries, id)
  {
    if ops == [] {
      assert Mirrors(EMPTY_CACHE, [], maxEntries, id);
    } else {
      var front, op := ops[..|ops| - 1], ops[|ops| - 1];
      CacheIsFunctionOfHistory(front, maxEntries, id);
      match op
      case Add(e) => AddedMirrors(PerformAll(front, maxEntries), History(front), e, maxEntries, id);
      case Clear => assert Mirrors(EMPTY_CACHE, [], maxEntries, id);
      case Grab =>
      case Restore(_) =>
    }
  }

  // ---------------------------------------------------------------- how the counters add up

  /** Codes add up to the requests whose status parsed; errors never exceed them. */
  ghost predicate SumsMatch(s: InstanceStats, h: seq<Entry>, id: string) {
    s.requestCount == Sum(s.statusCodes) + Count(h, From(id, Unreadable))
    && s.errorCount <= Sum(s.statusCodes)
    && Sum(s.levels) == Count(h, Of(id))
  }

  lemma SumsStep(s: InstanceStats, h: seq<Entry>, e: Entry, id: string)
    requires SumsMatch(s, h, id)
    ensures SumsMatch(NextStats(s, e, id), h + [e], id)
  {
    CountStep(h, e, From(id, Unreadable));
    CountStep(h, e, Of(id));
    SumUpdate(s.levels, LevelOf(e), Lookup(s.levels, LevelOf(e)) + 1);
    if e.status.Code? {
      SumUpdate(s.statusCodes, e.status.code, Lookup(s.statusCodes, e.status.code) + 1);
    }
    assert From(id, Unreadable)(e) == (CameFrom(e, id) && Unreadable(e));
  }

  /**
   For every instance the status-code counts fall short of the request count by exactly the entries
   whose status code could not be read, so they add up to it if and only if there were none.
   */
  lemma {:induction false} StatusCodesSumToRequests(ops: seq<CacheOp>, maxEntries: nat, id: string)
    ensures var s, h := StatsFor(PerformAll(ops, maxEntries).stats, id), History(ops);
            SumsMatch(s, h, id)
            && s.errorCount <= s.requestCount
            && (Sum(s.statusCodes) == s.requestCount <==> Count(h, From(id, Unreadable)) == 0)
  {
    if ops != [] {
      var front, op := ops[..|ops| - 1], ops[|ops| - 1];
      StatusCodesSumToRequests(front, maxEntries, id);
      if op.Add? {
        StatsStep(PerformAll(front, maxEntries).stats, op.e, id);
        SumsStep(StatsFor(PerformAll(front, maxEntries).stats, id), History(front), op.e, id);
      }
    }
  }

  /** One entry whose status cannot be read is enough: a request without a code. */
  lemma UnreadableStatusHasNoCode(e: Entry, maxEntries: nat)
    requires Unreadable(e)
    ensures var s := StatsFor(PerformAll([Add(e)], maxEntries).stats, InstanceOf(e));
            s.requestCount == 1 && Sum(s.statusCodes) == 0
  {
    assert [Add(e)][..0] == [];
    assert PerformAll([Add(e)][..0], maxEntries) == EMPTY_CACHE;
  }

  /** Per instance, how many log lines it has been seen with. */
  ghost function LevelTotals(stats: map<string, InstanceStats>): map<string, nat> {
    map id | id in stats :: Sum(stats[id].levels)
  }

  lemma LevelsGrow(s: InstanceStats, e: Entry)
    ensures Sum(StatsAfter(s, e).levels) == Sum(s.levels) + 1
  {
    SumUpdate(s.levels, LevelOf(e), Lookup(s.levels, LevelOf(e)) + 1);
  }

  lemma OneMore(totals: map<string, nat>, id: string)
    ensures Sum(totals[id := Lookup(totals, id) + 1]) == Sum(totals) + 1
  {
    SumUpdate(totals, id, Lookup(totals, id) + 1);
  }

  lemma LevelTotalsUpdate(stats: map<string, InstanceStats>, id: string, s: InstanceStats)
    ensures LevelTotals(stats[id := s]) == LevelTotals(stats)[id := Sum(s.levels)]
  {
  }

  lemma LevelTotalsLookup(stats: map<string, InstanceStats>, id: string)
    ensures Lookup(LevelTotals(stats), id) == Sum(StatsFor(stats, id).levels)
  {
  }

  lemma LevelTotalsStep(stats: map<string, InstanceStats>, e: Entry)
    ensures Sum(LevelTotals(UpdatedStats(stats, e))) == Sum(LevelTotals(stats)) + 1
  {
    var id, s := InstanceOf(e), StatsFor(stats, InstanceOf(e));
    LevelsGrow(s, e);
    LevelTotalsUpdate(stats, id, StatsAfter(s, e));
    LevelTotalsLookup(stats, id);
    OneMore(LevelTotals(stats), id);
  }

  /** Level counts over all instances add up to everything ingested since the last clear. */
  lemma {:induction false} LevelsSumToIngested(ops: seq<CacheOp>, maxEntries: nat)
    ensures Sum(LevelTotals(PerformAll(ops, maxEntries).stats)) == PerformAll(ops, maxEntries).totalIngested
  {
    if ops == [] {
      assert LevelTotals(map[]) == map[];
    } else {
      var front, op := ops[..|ops| - 1], ops[|ops| - 1];
      LevelsSumToIngested(front, maxEntries);
      if op.Add? {
        LevelTotalsStep(PerformAll(front, maxEntries).stats, op.e);
      } else {
        assert op.Clear? ==> LevelTotals(map[]) == map[];
      }
    }
  }
}
