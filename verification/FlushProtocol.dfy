/**
 Draining the pending queue to the database: take the queue under the lock, insert with no lock held,
 put the batch back if the insert failed.  Ingestion, clears and other flushes may run in between.
 */
module FlushProtocol {
  import opened Wrappers
  import opened LogEntries
  import opened LogCache

  /** The `kafka_logs` table; an insert is one transaction. */
  class LogTable {
    var rows: seq<Entry>

    constructor ()
      ensures rows == []
    {
      rows := [];
    }

    /** Returns the number of rows inserted: all of them, or none when the transaction fails. */
    method FlushLogs(batch: seq<Entry>, dbUp: bool) returns (count: nat)
      modifies this
      ensures rows == (if dbUp then old(rows) + batch else old(rows))
      ensures count == (if dbUp then |batch| else 0)
    {
      count := 0;
      if batch == [] || !dbUp { return; }
      rows := rows + batch;
      count := |batch|;
    }
  }

  /** One flush with nothing else running: the queue reaches the table, or stays as it was. */
  method FlushToDb(cache: Cache, table: LogTable, dbUp: bool)
    modifies cache`pendingFlush, table
    ensures table.rows == (if dbUp then old(table.rows) + old(cache.pendingFlush) else old(table.rows))
    ensures cache.pendingFlush == (if dbUp then [] else old(cache.pendingFlush))
  {
    var batch := cache.GrabPending();
    if batch != [] {
      var flushed := table.FlushLogs(batch, dbUp);
      if flushed == 0 {
        cache.RestorePending(batch);
      }
    }
  }

  // ---------------------------------------------------------------- interleavings

  /** A batch some flush is holding; `failed` once its insert was rolled back. */
  datatype Flight = Flight(batch: seq<Entry>, failed: bool)

  /** `flights` maps each flush under way to its batch; `ingested` and `cleared` are histories. */
  datatype World = World(
    cache: CacheState,
    table: seq<Entry>,
    flights: map<nat, Flight>,
    ingested: seq<Entry>,
    cleared: multiset<Entry>)

  const INITIAL_WORLD := World(EMPTY_CACHE, [], map[], [], multiset{})

  datatype Step =
    | Ingest(e: Entry)
    | ClearCache
    | DeleteRows
    | Take(flush: nat)
    | InsertOk(flush: nat)
    | InsertFails(flush: nat)
    | PutBack(flush: nat)

  predicate Enabled(w: World, step: Step) {
    match step
    case Ingest(_) => true
    case ClearCache => true
    case DeleteRows => true
    case Take(f) => f !in w.flights
    case InsertOk(f) => f in w.flights && !w.flights[f].failed
    case InsertFails(f) => f in w.flights && !w.flights[f].failed
    case PutBack(f) => f in w.flights && w.flights[f].failed
  }

  function Apply(w: World, step: Step, maxEntries: nat): World
    requires Enabled(w, step)
  {
    match step
    case Ingest(e) => w.(cache := Added(w.cache, e, maxEntries), ingested := w.ingested + [e])
    case ClearCache => w.(cache := EMPTY_CACHE, cleared := w.cleared + multiset(w.cache.pending))
    case DeleteRows => w.(table := [], cleared := w.cleared + multiset(w.table))
    case Take(f) =>
      w.(cache := Grabbed(w.cache),
         flights := if w.cache.pending == [] then w.flights else w.flights[f := Flight(w.cache.pending, false)])
    case InsertOk(f) => w.(table := w.table + w.flights[f].batch, flights := w.flights - {f})
    case InsertFails(f) => w.(flights := w.flights[f := w.flights[f].(failed := true)])
    case PutBack(f) => w.(cache := Restored(w.cache, w.flights[f].batch), flights := w.flights - {f})
  }

  /** The world after the steps, or none if one of them was not enabled. */
  function Run(steps: seq<Step>, maxEntries: nat): Option<World> {
    if steps == [] then Some(INITIAL_WORLD)
    else
      var before := Run(steps[..|steps| - 1], maxEntries);
      if before.Some? && Enabled(before.value, steps[|steps| - 1])
      then Some(Apply(before.value, steps[|steps| - 1], maxEntries)) else None
  }

  // ---------------------------------------------------------------- conservation

  ghost function HeldBy(flights: map<nat, Flight>, flushes: set<nat>): multiset<Entry>
    requires flushes <= flights.Keys
  {
    if flushes == {} then multiset{}
    else
      var f :| f in flushes;
      multiset(flights[f].batch) + HeldBy(flights, flushes - {f})
  }

  ghost function InFlight(flights: map<nat, Flight>): multiset<Entry> { HeldBy(flights, flights.Keys) }

  lemma {:induction false} HeldWithout(flights: map<nat, Flight>, flushes: set<nat>, f: nat)
    requires flushes <= flights.Keys && f in flushes
    ensures HeldBy(flights, flushes) == multiset(flights[f].batch) + HeldBy(flights, flushes - {f})
    decreases |flushes|
  {
    var g :| g in flushes && HeldBy(flights, flushes) == multiset(flights[g].batch) + HeldBy(flights, flushes - {g});
    if g != f {
      HeldWithout(flights, flushes - {g}, f);
      HeldWithout(flights, flushes - {f}, g);
      assert flushes - {g} - {f} == flushes - {f} - {g};
    }
  }

  lemma {:induction false} HeldAgrees(flights: map<nat, Flight>, flights': map<nat, Flight>, flushes: set<nat>)
    requires flushes <= flights.Keys && flushes <= flights'.Keys
    requires forall f <- flushes :: flights[f].batch == flights'[f].batch
    ensures HeldBy(flights, flushes) == HeldBy(flights', flushes)
    decreases |flushes|
  {
    if flushes != {} {
      var f :| f in flushes;
      HeldWithout(flights, flushes, f);
      HeldWithout(flights', flushes, f);
      HeldAgrees(flights, flights', flushes - {f});
    }
  }

  lemma FlightLands(flights: map<nat, Flight>, f: nat)
    requires f in flights
    ensures InFlight(flights) == multiset(flights[f].batch) + InFlight(flights - {f})
  {
    HeldWithout(flights, flights.Keys, f);
    assert (flights - {f}).Keys == flights.Keys - {f};
    HeldAgrees(flights, flights - {f}, flights.Keys - {f});
  }

  lemma FlightStarts(flights: map<nat, Flight>, f: nat, flight: Flight)
    requires f !in flights
    ensures InFlight(flights[f := flight]) == multiset(flight.batch) + InFlight(flights)
  {
    FlightLands(flights[f := flight], f);
    assert flights[f := flight] - {f} == flights;
  }

  lemma FlightFails(flights: map<nat, Flight>, f: nat)
    requires f in flights
    ensures InFlight(flights[f := flights[f].(failed := true)]) == InFlight(flights)
  {
    assert flights[f := flights[f].(failed := true)].Keys == flights.Keys;
    HeldAgrees(flights, flights[f := flights[f].(failed := true)], flights.Keys);
  }

  /** Every ingested entry is in exactly one place. */
  ghost predicate Conserved(w: World) {
    multiset(w.ingested)
    == multiset(w.table) + InFlight(w.flights) + multiset(w.cache.pending) + w.cleared
  }

  lemma StepConserves(w: World, step: Step, maxEntries: nat)
    requires Conserved(w) && Enabled(w, step)
    ensures Conserved(Apply(w, step, maxEntries))
  {
    match step
    case Take(f) => if w.cache.pending != [] { FlightStarts(w.flights, f, Flight(w.cache.pending, false)); }
    case InsertOk(f) => FlightLands(w.flights, f);
    case InsertFails(f) => FlightFails(w.flights, f);
    case PutBack(f) => FlightLands(w.flights, f);
    case _ =>
  }

  /**
   Under any interleaving of ingestion, clears and any number of flushes, the ingested entries are,
   as a multiset, the stored ones, those in flight, the pending ones and the deliberately cleared
   ones: nothing is lost and nothing is stored twice.
   */
  lemma {:induction false} FlushConserves(steps: seq<Step>, maxEntries: nat)
    requires Run(steps, maxEntries).Some?
    ensures Conserved(Run(steps, maxEntries).value)
  {
    if steps != [] {
      var front := steps[..|steps| - 1];
      FlushConserves(front, maxEntries);
      StepConserves(Run(front, maxEntries).value, steps[|steps| - 1], maxEntries);
    }
  }

  // ---------------------------------------------------------------- order

  /** No clears, and a flush starts only when no other is under way. */
  predicate OneFlusher(steps: seq<Step>, maxEntries: nat) {
    steps == []
    || (var front, last := steps[..|steps| - 1], steps[|steps| - 1];
        OneFlusher(front, maxEntries) && !last.ClearCache? && !last.DeleteRows?
        && (last.Take? && Run(front, maxEntries).Some? ==> Run(front, maxEntries).value.flights == map[]))
  }

  /** At most one batch is held, and table, batch and queue concatenate to the ingestion order. */
  ghost predicate InOrder(w: World) {
    (w.flights == map[] && w.ingested == w.table + w.cache.pending)
    || (exists f :: f in w.flights && w.flights.Keys == {f}
                    && w.ingested == w.table + w.flights[f].batch + w.cache.pending)
  }

  lemma StepKeepsOrder(w: World, step: Step, maxEntries: nat)
    requires InOrder(w) && Enabled(w, step) && !step.ClearCache? && !step.DeleteRows?
    requires step.Take? ==> w.flights == map[]
    ensures InOrder(Apply(w, step, maxEntries))
  {
    var w' := Apply(w, step, maxEntries);
    match step
    case Ingest(e) =>
      if w.flights != map[] {
        var f :| f in w.flights && w.flights.Keys == {f}
                 && w.ingested == w.table + w.flights[f].batch + w.cache.pending;
        assert w'.ingested == w'.table + w'.flights[f].batch + w'.cache.pending;
      }
    case Take(f) =>
      if w.cache.pending != [] {
        assert w'.flights.Keys == {f} && w'.flights[f].batch == w.cache.pending;
        assert w'.ingested == w'.table + w'.flights[f].batch + w'.cache.pending;
      }
    case InsertOk(f) =>
      assert w'.flights == map[];
    case InsertFails(f) =>
      assert w'.flights.Keys == w.flights.Keys == {f};
      assert w'.flights[f].batch == w.flights[f].batch;
    case PutBack(f) =>
      assert w'.flights == map[];
      assert w'.ingested == w'.table + w'.cache.pending;
  }

  /** With one flusher at a time and no clears, even after retries, rows are stored in ingestion order. */
  lemma {:induction false} OneFlusherKeepsOrder(steps: seq<Step>, maxEntries: nat)
    requires Run(steps, maxEntries).Some? && OneFlusher(steps, maxEntries)
    ensures InOrder(Run(steps, maxEntries).value)
    ensures Run(steps, maxEntries).value.table <= Run(steps, maxEntries).value.ingested
  {
    if steps != [] {
      var front := steps[..|steps| - 1];
      OneFlusherKeepsOrder(front, maxEntries);
      StepKeepsOrder(Run(front, maxEntries).value, steps[|steps| - 1], maxEntries);
    }
  }

  lemma Extend(steps: seq<Step>, w: World, step: Step, maxEntries: nat)
    requires Run(steps, maxEntries) == Some(w) && Enabled(w, step)
    ensures Run(steps + [step], maxEntries) == Some(Apply(w, step, maxEntries))
  {
    assert (steps + [step])[..|steps|] == steps;
  }

  /** `a` is taken by flush 0 and, before that one stores it, `b` by flush 1. */
  lemma TwoFlushesUnderWay(a: Entry, b: Entry, maxEntries: nat) returns (steps: seq<Step>, w: World)
    ensures Run(steps, maxEntries) == Some(w) && w.ingested == [a, b] && w.table == []
    ensures w.flights == map[0 := Flight([a], false), 1 := Flight([b], false)]
  {
    var w1 := Apply(INITIAL_WORLD, Ingest(a), maxEntries);
    assert w1.cache.pending == [a] && w1.flights == map[];
    var w2 := Apply(w1, Take(0), maxEntries);
    assert w2.cache.pending == [] && w2.flights == map[0 := Flight([a], false)];
    var w3 := Apply(w2, Ingest(b), maxEntries);
    assert w3.cache.pending == [b];
    Extend([], INITIAL_WORLD, Ingest(a), maxEntries);
    Extend([] + [Ingest(a)], w1, Take(0), maxEntries);
    Extend([] + [Ingest(a)] + [Take(0)], w2, Ingest(b), maxEntries);
    Extend([] + [Ingest(a)] + [Take(0)] + [Ingest(b)], w3, Take(1), maxEntries);
    steps, w := [] + [Ingest(a)] + [Take(0)] + [Ingest(b)] + [Take(1)], Apply(w3, Take(1), maxEntries);
  }

  /** Two overlapping flushes (the timer and a forced one) can store entries out of order. */
  lemma OverlappingFlushesReorder(a: Entry, b: Entry, maxEntries: nat)
    ensures exists steps :: Run(steps, maxEntries).Some?
                            && Run(steps, maxEntries).value.ingested == [a, b]
                            && Run(steps, maxEntries).value.table == [b, a]
  {
    var steps, w := TwoFlushesUnderWay(a, b, maxEntries);
    Extend(steps, w, InsertOk(1), maxEntries);
    Extend(steps + [InsertOk(1)], Apply(w, InsertOk(1), maxEntries), InsertOk(0), maxEntries);
    assert Run(steps + [InsertOk(1)] + [InsertOk(0)], maxEntries).Some?;
  }
}
