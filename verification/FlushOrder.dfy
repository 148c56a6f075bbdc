/**
 The order in which rows are stored when flushes overlap: it is the ingestion order while the batches
 under way commute, and from the moment two of them do not, it can be lost.
 */
module FlushOrder {
  import opened Wrappers
  import opened LogEntries
  import opened LogCache
  import opened FlushProtocol

  // ---------------------------------------------------------------- subsequences

  /** `a` is `b` with some elements left out. */
  predicate Subsequence<T(==)>(a: seq<T>, b: seq<T>) {
    a == []
    || (b != []
        && ((a[|a| - 1] == b[|b| - 1] && Subsequence(a[..|a| - 1], b[..|b| - 1])) || Subsequence(a, b[..|b| - 1])))
  }

  lemma SubsequenceAppend<T>(a: seq<T>, b: seq<T>, e: T)
    requires Subsequence(a, b)
    ensures Subsequence(a + [e], b + [e])
  {
    assert (a + [e])[..|a|] == a && (b + [e])[..|b|] == b;
  }

  lemma {:induction false} SubsequencePrefix<T>(a: seq<T>, c: seq<T>, b: seq<T>)
    requires Subsequence(a + c, b)
    ensures Subsequence(a, b)
  {
    if c == [] {
      assert a + c == a;
    } else if a != [] {
      if Subsequence(a + c, b[..|b| - 1]) {
        SubsequencePrefix(a, c, b[..|b| - 1]);
      } else {
        assert (a + c)[..|a + c| - 1] == a + c[..|c| - 1];
        SubsequencePrefix(a, c[..|c| - 1], b[..|b| - 1]);
      }
    }
  }

  lemma {:induction false} SubsequenceSuffix<T>(a: seq<T>, c: seq<T>, b: seq<T>)
    requires Subsequence(a + c, b)
    ensures Subsequence(c, b)
  {
    if c != [] {
      if Subsequence(a + c, b[..|b| - 1]) {
        SubsequenceSuffix(a, c, b[..|b| - 1]);
      } else {
        assert (a + c)[..|a + c| - 1] == a + c[..|c| - 1];
        SubsequenceSuffix(a, c[..|c| - 1], b[..|b| - 1]);
      }
    }
  }

  /** Leaving nothing out is being equal. */
  lemma {:induction false} SubsequenceLength<T>(a: seq<T>, b: seq<T>)
    requires Subsequence(a, b)
    ensures |a| <= |b| && (|a| == |b| ==> a == b)
  {
    if a != [] {
      if Subsequence(a, b[..|b| - 1]) {
        SubsequenceLength(a, b[..|b| - 1]);
      } else {
        SubsequenceLength(a[..|a| - 1], b[..|b| - 1]);
      }
    }
  }

  /** The first part of a sequence that leaves nothing out is a prefix. */
  lemma FirstPartInOrder<T>(first: seq<T>, rest: seq<T>, all: seq<T>)
    requires Subsequence(first + rest, all)
    ensures Subsequence(first, all) && (|first + rest| == |all| ==> first <= all)
  {
    SubsequencePrefix(first, rest, all);
    SubsequenceLength(first + rest, all);
  }

  lemma Cancel<T>(t: seq<T>, x: seq<T>, y: seq<T>)
    requires t + x == t + y
    ensures x == y
  {
    assert (t + x)[|t|..] == x && (t + y)[|t|..] == y;
  }

  lemma Associate<T>(a: seq<T>, b: seq<T>, c: seq<T>)
    ensures a + b + c == a + (b + c)
  {
  }

  // ---------------------------------------------------------------- lining up the batches

  ghost predicate Commute(a: seq<Entry>, b: seq<Entry>) { a + b == b + a }

  /** Whatever order the batches under way are stored in, the same rows result. */
  ghost predicate AllCommute(flights: map<nat, Flight>) {
    forall f, g :: f in flights && g in flights ==> Commute(flights[f].batch, flights[g].batch)
  }

  function BatchOf(flights: map<nat, Flight>, f: nat): seq<Entry> { if f in flights then flights[f].batch else [] }

  /** The batches of the flushes in `fs`, one after the other. */
  function Batches(flights: map<nat, Flight>, fs: seq<nat>): seq<Entry> {
    if fs == [] then [] else Batches(flights, fs[..|fs| - 1]) + BatchOf(flights, fs[|fs| - 1])
  }

  lemma {:induction false} BatchesOfConcat(flights: map<nat, Flight>, a: seq<nat>, b: seq<nat>)
    ensures Batches(flights, a + b) == Batches(flights, a) + Batches(flights, b)
  {
    if b == [] {
      assert a + b == a;
    } else {
      assert (a + b)[..|a + b| - 1] == a + b[..|b| - 1];
      BatchesOfConcat(flights, a, b[..|b| - 1]);
    }
  }

  lemma {:induction false} BatchesAgree(flights: map<nat, Flight>, flights': map<nat, Flight>, fs: seq<nat>)
    requires forall f <- fs :: BatchOf(flights, f) == BatchOf(flights', f)
    ensures Batches(flights, fs) == Batches(flights', fs)
  {
    if fs != [] {
      assert fs[|fs| - 1] in fs && forall f <- fs[..|fs| - 1] :: f in fs;
      BatchesAgree(flights, flights', fs[..|fs| - 1]);
    }
  }

  lemma {:induction false} BatchesCommute(flights: map<nat, Flight>, fs: seq<nat>, f: nat)
    requires AllCommute(flights) && f in flights && forall g <- fs :: g in flights
    ensures Commute(Batches(flights, fs), flights[f].batch)
  {
    var batch := flights[f].batch;
    if fs == [] {
      assert [] + batch == batch + [];
    } else {
      var front, g := fs[..|fs| - 1], fs[|fs| - 1];
      assert g in fs && forall h <- front :: h in fs;
      BatchesCommute(flights, front, f);
      var rest, last := Batches(flights, front), flights[g].batch;
      assert Commute(last, batch);
      calc {
        rest + last + batch;
        rest + (last + batch);
        rest + (batch + last);
        rest + batch + last;
        batch + rest + last;
        batch + (rest + last);
      }
    }
  }

  /** Every flush under way exactly once. */
  ghost predicate Arranged(flights: map<nat, Flight>, fs: seq<nat>) {
    (forall f :: f in flights <==> f in fs) && forall i, j :: 0 <= i < j < |fs| ==> fs[i] != fs[j]
  }

  /** Stored rows, batches under way, queue. */
  function Line(w: World, fs: seq<nat>): seq<Entry> { w.table + Batches(w.flights, fs) + w.cache.pending }

  /** Everything ingested is lined up in order, but for what was cleared. */
  ghost predicate LinedUp(w: World, fs: seq<nat>) {
    Arranged(w.flights, fs) && Subsequence(Line(w, fs), w.ingested)
    && (w.cleared == multiset{} ==> |Line(w, fs)| == |w.ingested|)
  }

  /** A batch that commutes with those around it may stand first or last. */
  lemma BatchesAround(flights: map<nat, Flight>, before: seq<nat>, f: nat, after: seq<nat>)
    requires AllCommute(flights) && f in flights && forall g <- before + after :: g in flights
    ensures Batches(flights, before + [f] + after) == flights[f].batch + Batches(flights, before + after)
    ensures Batches(flights, before + [f] + after) == Batches(flights, before + after) + flights[f].batch
  {
    var a, b, batch := Batches(flights, before), Batches(flights, after), flights[f].batch;
    BatchesOfConcat(flights, before + [f], after);
    BatchesOfConcat(flights, before, [f]);
    BatchesOfConcat(flights, before, after);
    assert Batches(flights, [f]) == batch by { assert [f][..0] == []; }
    assert (forall g <- before :: g in before + after) && forall g <- after :: g in before + after;
    BatchesCommute(flights, before, f);
    BatchesCommute(flights, after, f);
    Associate(batch, a, b);
    Associate(a, batch, b);
    Associate(a, b, batch);
  }

  /** Taking `f` out of the arrangement: its batch may stand first or last. */
  lemma TakeOutFlight(flights: map<nat, Flight>, fs: seq<nat>, f: nat) returns (rest: seq<nat>)
    requires Arranged(flights, fs) && AllCommute(flights) && f in flights
    ensures Arranged(flights - {f}, rest)
    ensures Batches(flights, fs) == flights[f].batch + Batches(flights - {f}, rest)
    ensures Batches(flights, fs) == Batches(flights - {f}, rest) + flights[f].batch
  {
    var i :| 0 <= i < |fs| && fs[i] == f;
    rest := fs[..i] + fs[i + 1..];
    assert fs == fs[..i] + [f] + fs[i + 1..];
    ArrangedWithout(flights, fs, i);
    assert forall g <- rest :: g in flights - {f};
    BatchesAround(flights, fs[..i], f, fs[i + 1..]);
    BatchesAgree(flights, flights - {f}, rest);
  }

  lemma ArrangedWithout(flights: map<nat, Flight>, fs: seq<nat>, i: nat)
    requires Arranged(flights, fs) && i < |fs|
    ensures Arranged(flights - {fs[i]}, fs[..i] + fs[i + 1..])
  {
    var rest := fs[..i] + fs[i + 1..];
    forall g ensures g in flights - {fs[i]} <==> g in rest {
      if g in rest {
        var j :| 0 <= j < |rest| && rest[j] == g;
        assert g == fs[if j < i then j else j + 1];
      }
      if g in fs && g != fs[i] {
        var j :| 0 <= j < |fs| && fs[j] == g;
        assert rest[if j < i then j else j - 1] == g;
      }
    }
  }

  lemma ArrangedWith(flights: map<nat, Flight>, fs: seq<nat>, f: nat, flight: Flight)
    requires Arranged(flights, fs) && f !in flights
    ensures Arranged(flights[f := flight], fs + [f])
    ensures Batches(flights[f := flight], fs + [f]) == Batches(flights, fs) + flight.batch
  {
    assert forall g :: g in fs + [f] <==> g in fs || g == f;
    assert (fs + [f])[..|fs|] == fs;
    BatchesAgree(flights, flights[f := flight], fs);
  }

  /** The same line cut in other places. */
  ghost predicate SameLine(w: World, fs: seq<nat>, w': World, fs': seq<nat>) {
    w'.ingested == w.ingested && w'.cleared == w.cleared && Line(w', fs') == Line(w, fs)
  }

  lemma QueueTaken<T>(table: seq<T>, held: seq<T>, queue: seq<T>)
    ensures table + (held + queue) + [] == table + held + queue
  {
  }

  lemma FirstBatchStored<T>(table: seq<T>, batch: seq<T>, held: seq<T>, queue: seq<T>)
    ensures (table + batch) + held + queue == table + (batch + held) + queue
  {
    Associate(table, batch, held);
  }

  lemma LastBatchQueued<T>(table: seq<T>, held: seq<T>, batch: seq<T>, queue: seq<T>)
    ensures table + held + (batch + queue) == table + (held + batch) + queue
  {
    Associate(table, held, batch);
    Associate(table + held, batch, queue);
  }

  lemma TakeLinesUp(w: World, fs: seq<nat>, f: nat, maxEntries: nat) returns (fs': seq<nat>)
    requires Arranged(w.flights, fs) && f !in w.flights
    ensures Arranged(Apply(w, Take(f), maxEntries).flights, fs')
    ensures SameLine(w, fs, Apply(w, Take(f), maxEntries), fs')
  {
    if w.cache.pending == [] {
      fs' := fs;
    } else {
      fs' := fs + [f];
      ArrangedWith(w.flights, fs, f, Flight(w.cache.pending, false));
      QueueTaken(w.table, Batches(w.flights, fs), w.cache.pending);
    }
  }

  lemma InsertLinesUp(w: World, fs: seq<nat>, f: nat, maxEntries: nat) returns (fs': seq<nat>)
    requires Arranged(w.flights, fs) && AllCommute(w.flights) && Enabled(w, InsertOk(f))
    ensures Arranged(Apply(w, InsertOk(f), maxEntries).flights, fs')
    ensures SameLine(w, fs, Apply(w, InsertOk(f), maxEntries), fs')
  {
    fs' := TakeOutFlight(w.flights, fs, f);
    FirstBatchStored(w.table, w.flights[f].batch, Batches(w.flights - {f}, fs'), w.cache.pending);
  }

  lemma PutBackLinesUp(w: World, fs: seq<nat>, f: nat, maxEntries: nat) returns (fs': seq<nat>)
    requires Arranged(w.flights, fs) && AllCommute(w.flights) && Enabled(w, PutBack(f))
    ensures Arranged(Apply(w, PutBack(f), maxEntries).flights, fs')
    ensures SameLine(w, fs, Apply(w, PutBack(f), maxEntries), fs')
  {
    fs' := TakeOutFlight(w.flights, fs, f);
    LastBatchQueued(w.table, Batches(w.flights - {f}, fs'), w.flights[f].batch, w.cache.pending);
  }

  lemma FailureLinesUp(w: World, fs: seq<nat>, f: nat, maxEntries: nat)
    requires Arranged(w.flights, fs) && Enabled(w, InsertFails(f))
    ensures Arranged(Apply(w, InsertFails(f), maxEntries).flights, fs)
    ensures SameLine(w, fs, Apply(w, InsertFails(f), maxEntries), fs)
  {
    BatchesAgree(w.flights, Apply(w, InsertFails(f), maxEntries).flights, fs);
  }

  lemma IngestLinesUp(w: World, fs: seq<nat>, e: Entry, maxEntries: nat)
    requires LinedUp(w, fs)
    ensures LinedUp(Apply(w, Ingest(e), maxEntries), fs)
  {
    SubsequenceAppend(Line(w, fs), w.ingested, e);
    Associate(w.table + Batches(w.flights, fs), w.cache.pending, [e]);
  }

  lemma ClearCacheLinesUp(w: World, fs: seq<nat>, maxEntries: nat)
    requires LinedUp(w, fs)
    ensures LinedUp(Apply(w, ClearCache, maxEntries), fs)
  {
    var stored, queue := w.table + Batches(w.flights, fs), w.cache.pending;
    SubsequencePrefix(stored, queue, w.ingested);
    assert stored + [] == stored;
    ClearedSize(w.cleared, queue);
  }

  lemma DeleteRowsLinesUp(w: World, fs: seq<nat>, maxEntries: nat)
    requires LinedUp(w, fs)
    ensures LinedUp(Apply(w, DeleteRows, maxEntries), fs)
  {
    var held, queue := Batches(w.flights, fs), w.cache.pending;
    Associate(w.table, held, queue);
    SubsequenceSuffix(w.table, held + queue, w.ingested);
    assert [] + held == held;
    ClearedSize(w.cleared, w.table);
  }

  lemma ClearedSize<T>(cleared: multiset<T>, more: seq<T>)
    ensures |cleared + multiset(more)| == |cleared| + |more|
  {
    assert |multiset(more)| == |more|;
  }

  lemma StepLinesUp(w: World, fs: seq<nat>, step: Step, maxEntries: nat) returns (fs': seq<nat>)
    requires LinedUp(w, fs) && AllCommute(w.flights) && Enabled(w, step)
    ensures LinedUp(Apply(w, step, maxEntries), fs')
  {
    fs' := fs;
    match step
    case Ingest(e) => IngestLinesUp(w, fs, e, maxEntries);
    case Take(f) => fs' := TakeLinesUp(w, fs, f, maxEntries);
    case InsertFails(f) => FailureLinesUp(w, fs, f, maxEntries);
    case InsertOk(f) => fs' := InsertLinesUp(w, fs, f, maxEntries);
    case PutBack(f) => fs' := PutBackLinesUp(w, fs, f, maxEntries);
    case ClearCache => ClearCacheLinesUp(w, fs, maxEntries);
    case DeleteRows => DeleteRowsLinesUp(w, fs, maxEntries);
  }

  // ---------------------------------------------------------------- order kept

  /** At every moment of the run the batches under way commute. */
  ghost predicate AlwaysCommute(steps: seq<Step>, maxEntries: nat)
    requires Run(steps, maxEntries).Some?
  {
    AllCommute(Run(steps, maxEntries).value.flights)
    && (steps != [] ==> AlwaysCommute(steps[..|steps| - 1], maxEntries))
  }

  lemma {:induction false} RunLinesUp(steps: seq<Step>, maxEntries: nat) returns (fs: seq<nat>)
    requires Run(steps, maxEntries).Some? && AlwaysCommute(steps, maxEntries)
    ensures LinedUp(Run(steps, maxEntries).value, fs)
  {
    if steps == [] {
      fs := [];
      assert LinedUp(INITIAL_WORLD, []);
    } else {
      var front, last := steps[..|steps| - 1], steps[|steps| - 1];
      fs := RunLinesUp(front, maxEntries);
      fs := StepLinesUp(Run(front, maxEntries).value, fs, last, maxEntries);
    }
  }

  lemma LinedUpTable(w: World, fs: seq<nat>)
    requires LinedUp(w, fs)
    ensures Subsequence(w.table, w.ingested) && (w.cleared == multiset{} ==> w.table <= w.ingested)
  {
    Associate(w.table, Batches(w.flights, fs), w.cache.pending);
    FirstPartInOrder(w.table, Batches(w.flights, fs) + w.cache.pending, w.ingested);
  }

  /**
   While the batches under way commute (in particular while there is at most one), rows are stored in
   ingestion order: with clears the stored rows are some of the ingested ones in their order, and as
   long as nothing was cleared they are the first of them, without a gap.
   */
  lemma CommutingFlightsKeepOrder(steps: seq<Step>, w: World, maxEntries: nat)
    requires Run(steps, maxEntries) == Some(w) && AlwaysCommute(steps, maxEntries)
    ensures Subsequence(w.table, w.ingested) && (w.cleared == multiset{} ==> w.table <= w.ingested)
  {
    var fs := RunLinesUp(steps, maxEntries);
    LinedUpTable(w, fs);
  }

  // ---------------------------------------------------------------- order lost

  lemma FreshFlush(flights: map<nat, Flight>) returns (h: nat)
    ensures h !in flights
  {
    h := FreshAbove(flights.Keys);
  }

  lemma {:induction false} FreshAbove(ids: set<nat>) returns (h: nat)
    ensures forall i <- ids :: i < h
    decreases |ids|
  {
    h := 0;
    if i :| i in ids {
      var rest := FreshAbove(ids - {i});
      h := if rest > i then rest else i + 1;
      assert forall j <- ids :: j == i || j in ids - {i};
    }
  }

  /** The same tables and histories; only queue and flights may differ. */
  ghost predicate SameRecords(w: World, w': World) {
    w'.table == w.table && w'.ingested == w.ingested && w'.cleared == w.cleared
  }

  /** However it stands with flush `f`, its batch can be brought back into a flush that may still insert. */
  lemma Retry(steps: seq<Step>, w: World, f: nat, maxEntries: nat) returns (longer: seq<Step>, w': World)
    requires Run(steps, maxEntries) == Some(w) && f in w.flights && w.flights[f].batch != []
    ensures steps <= longer && Run(longer, maxEntries) == Some(w') && SameRecords(w, w')
    ensures f in w'.flights && w'.flights[f] == Flight(w.flights[f].batch, false)
    ensures forall g :: g in w.flights && g != f ==> g in w'.flights && w'.flights[g] == w.flights[g]
  {
    longer, w' := steps, w;
    if w.flights[f].failed {
      var h := FreshFlush(w.flights);
      var w1 := Apply(w, Take(h), maxEntries);
      var w2 := Apply(w1, PutBack(f), maxEntries);
      assert w2.cache.pending == w.flights[f].batch;
      w' := Apply(w2, Take(f), maxEntries);
      Extend(steps, w, Take(h), maxEntries);
      Extend(steps + [Take(h)], w1, PutBack(f), maxEntries);
      Extend(steps + [Take(h)] + [PutBack(f)], w2, Take(f), maxEntries);
      longer := steps + [Take(h)] + [PutBack(f)] + [Take(f)];
    }
  }

  lemma InsertBoth(steps: seq<Step>, w: World, f: nat, g: nat, maxEntries: nat)
    returns (longer: seq<Step>, w': World)
    requires Run(steps, maxEntries) == Some(w) && f in w.flights && g in w.flights && f != g
    requires !w.flights[f].failed && !w.flights[g].failed
    ensures steps <= longer && Run(longer, maxEntries) == Some(w')
    ensures w'.ingested == w.ingested && w'.cleared == w.cleared
    ensures w'.table == w.table + w.flights[f].batch + w.flights[g].batch
  {
    var w1 := Apply(w, InsertOk(f), maxEntries);
    w' := Apply(w1, InsertOk(g), maxEntries);
    Extend(steps, w, InsertOk(f), maxEntries);
    Extend(steps + [InsertOk(f)], w1, InsertOk(g), maxEntries);
    longer := steps + [InsertOk(f)] + [InsertOk(g)];
  }

  /** Two batches ready to be inserted that do not commute: one of the two orders is wrong. */
  lemma ReadyFlightsCanReorder(steps: seq<Step>, w: World, f: nat, g: nat, maxEntries: nat)
    returns (longer: seq<Step>, w': World)
    requires Run(steps, maxEntries) == Some(w) && f in w.flights && g in w.flights
    requires !w.flights[f].failed && !w.flights[g].failed
    requires !Commute(w.flights[f].batch, w.flights[g].batch)
    ensures steps <= longer && Run(longer, maxEntries) == Some(w')
    ensures w'.cleared == w.cleared && !(w'.table <= w'.ingested)
  {
    var a, b := w.flights[f].batch, w.flights[g].batch;
    var longerB, wB := InsertBoth(steps, w, g, f, maxEntries);
    longer, w' := InsertBoth(steps, w, f, g, maxEntries);
    if w'.table <= w'.ingested {
      if wB.table <= wB.ingested {
        assert |w'.table| == |wB.table| && w'.table == wB.table;
        Associate(w.table, a, b);
        Associate(w.table, b, a);
        Cancel(w.table, a + b, b + a);
        assert false;
      }
      longer, w' := longerB, wB;
    }
  }

  lemma NonCommutingDiffer(a: seq<Entry>, b: seq<Entry>)
    requires !Commute(a, b)
    ensures a != [] && b != [] && a != b
  {
    assert a + [] == a == [] + a && b + [] == b == [] + b;
  }

  /**
   As soon as two batches under way do not commute, whether their inserts have failed or not, the run
   can go on, without any clear, to a table that is not the beginning of what was ingested.
   */
  lemma NonCommutingFlightsCanReorder(steps: seq<Step>, w: World, f: nat, g: nat, maxEntries: nat)
    returns (longer: seq<Step>, w': World)
    requires Run(steps, maxEntries) == Some(w) && f in w.flights && g in w.flights
    requires !Commute(w.flights[f].batch, w.flights[g].batch)
    ensures steps <= longer && Run(longer, maxEntries) == Some(w')
    ensures w'.cleared == w.cleared && !(w'.table <= w'.ingested)
  {
    NonCommutingDiffer(w.flights[f].batch, w.flights[g].batch);
    var longer1, w1 := Retry(steps, w, f, maxEntries);
    var longer2, w2 := Retry(longer1, w1, g, maxEntries);
    longer, w' := ReadyFlightsCanReorder(longer2, w2, f, g, maxEntries);
  }
}
