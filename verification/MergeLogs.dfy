/** Merging the ring buffer with database rows: newest first, without duplicates, up to a limit. */
module MergeLogs {
  import opened Wrappers
  import opened LogEntries
  import opened LogCache
  import opened NewestFirst
  import opened FirstOccurrences

  type Key = (string, string, string, string)

  function LogEntryKey(e: Entry): Key {
    (AsText(e.timestamp, ""), AsText(e.message, ""), AsText(e.instanceId, ""), AsText(e.logger, ""))
  }

  /** `str(e.get("timestamp") or "")`. */
  function SortText(e: Entry): string { if e.timestamp.Text? then e.timestamp.value else "" }

  /** The limit takes effect after an entry was kept, so even a limit below 1, which no
   caller in the API passes, would let one through. */
  function AtLeastOne(limit: int): nat { if limit < 1 then 1 else limit }

  /** All distinct entries of both sources, newest first. */
  function AllMerged(memory: seq<Entry>, db: seq<Entry>): seq<Entry> {
    Distinct(Sort(memory + db, SortText), LogEntryKey, {})
  }

  function Merged(memory: seq<Entry>, db: seq<Entry>, limit: int): seq<Entry> {
    FirstN(AllMerged(memory, db), AtLeastOne(limit))
  }

  /** Position `i` of the loop: `out` is what has been kept, the rest is still to be looked at. */
  ghost predicate KeptSoFar(all: seq<Entry>, combined: seq<Entry>, i: nat, seen: set<Key>, out: seq<Entry>) {
    i <= |combined| && all == out + Distinct(combined[i..], LogEntryKey, seen)
  }

  lemma KeepNext(all: seq<Entry>, combined: seq<Entry>, i: nat, seen: set<Key>, out: seq<Entry>)
    requires KeptSoFar(all, combined, i, seen, out) && i < |combined|
    ensures var k := LogEntryKey(combined[i]);
            if k in seen then KeptSoFar(all, combined, i + 1, seen, out)
            else KeptSoFar(all, combined, i + 1, seen + {k}, out + [combined[i]])
  {
    assert combined[i..][0] == combined[i] && combined[i..][1..] == combined[i + 1..];
  }

  method MergeLogs(memory: seq<Entry>, db: seq<Entry>, limit: int) returns (out: seq<Entry>)
    ensures out == Merged(memory, db, limit)
    ensures IsMerge(out, memory, db, limit)
  {
    MergeMeans(memory, db, limit);
    var combined := Sort(memory + db, SortText);
    var seen: set<Key> := {};
    out := [];
    ghost var all := AllMerged(memory, db);
    assert combined[0..] == combined;
    for i := 0 to |combined|
      invariant |out| < AtLeastOne(limit)
      invariant KeptSoFar(all, combined, i, seen, out)
    {
      KeepNext(all, combined, i, seen, out);
      var k := LogEntryKey(combined[i]);
      if k in seen { continue; }
      seen := seen + {k};
      out := out + [combined[i]];
      if |out| >= limit { break; }
    }
  }

  /** Memory copies win: a returned entry with a twin (same key, same time text) in memory is from memory. */
  lemma MemoryWins(memory: seq<Entry>, db: seq<Entry>, limit: int, e: Entry, twin: Entry)
    requires e in Merged(memory, db, limit) && twin in memory
    requires LogEntryKey(twin) == LogEntryKey(e) && SortText(twin) == SortText(e)
    ensures e in memory
    ensures First(WithKey(memory, SortText, SortText(e)), LogEntryKey, LogEntryKey(e)) == Some(e)
  {
    var t, k := SortText(e), LogEntryKey(e);
    assert e in AllMerged(memory, db);
    SurvivorIsFirstOfItsAge(memory + db, LogEntryKey, SortText, e);
    WithKeyOfConcat(memory, db, SortText, t);
    FirstOfConcat(WithKey(memory, SortText, t), WithKey(db, SortText, t), LogEntryKey, k);
    WithKeyMembers(memory, SortText, t, twin);
    FirstIsMember(WithKey(memory, SortText, t), LogEntryKey, twin);
    WithKeyMembers(memory, SortText, t, e);
  }

  /** An entry may be missing only if its key is there, or the list is full of entries at least as new. */
  ghost predicate Accounted(e: Entry, out: seq<Entry>, limit: int) {
    (exists d <- out :: LogEntryKey(d) == LogEntryKey(e))
    || (|out| == AtLeastOne(limit) && forall d <- out :: AtMost(SortText(e), SortText(d)))
  }

  /** The copy of `e` that survives, and where. */
  lemma CopySurvives(memory: seq<Entry>, db: seq<Entry>, e: Entry) returns (i: nat)
    requires e in memory + db
    ensures var all := AllMerged(memory, db);
            i < |all| && LogEntryKey(all[i]) == LogEntryKey(e) && AtMost(SortText(e), SortText(all[i]))
  {
    var sorted := Sort(memory + db, SortText);
    SortKeepsElements(memory + db, SortText);
    assert e in multiset(memory + db) && e in sorted;
    FirstIsMember(sorted, LogEntryKey, e);
    FirstSurvives(sorted, LogEntryKey, {}, LogEntryKey(e));
    var all, d := AllMerged(memory, db), First(sorted, LogEntryKey, LogEntryKey(e)).value;
    i :| 0 <= i < |all| && all[i] == d;
    SurvivorIsNewest(memory + db, LogEntryKey, SortText, d, e);
  }

  lemma AllMergedIsSorted(memory: seq<Entry>, db: seq<Entry>)
    ensures Sorted(AllMerged(memory, db), SortText)
    ensures UniqueKeys(AllMerged(memory, db), LogEntryKey)
  {
    var sorted := Sort(memory + db, SortText);
    SortSorts(memory + db, SortText);
    DistinctStaysSorted(sorted, LogEntryKey, {}, SortText);
    DistinctKeysDiffer(sorted, LogEntryKey, {});
  }

  /** Every entry that is missing from the merge is accounted for. */
  lemma OmittedAreOlder(memory: seq<Entry>, db: seq<Entry>, limit: int, e: Entry)
    requires e in memory + db
    ensures Accounted(e, Merged(memory, db, limit), limit)
  {
    var all, out := AllMerged(memory, db), Merged(memory, db, limit);
    var i := CopySurvives(memory, db, e);
    AllMergedIsSorted(memory, db);
    if i < |out| {
      assert out[i] in out;
    } else {
      forall r | r in out ensures AtMost(SortText(e), SortText(r)) {
        var j :| 0 <= j < |out| && out[j] == r;
        AtMostTransitive(SortText(e), SortText(all[i]), SortText(all[j]));
      }
    }
  }

  /** The merge: entries of either source, keys unique, newest first, at most `limit` (never cut below one). */
  lemma MergeSpecification(memory: seq<Entry>, db: seq<Entry>, limit: int)
    ensures var out := Merged(memory, db, limit);
            UniqueKeys(out, LogEntryKey) && Sorted(out, SortText) && |out| <= AtLeastOne(limit)
            && forall e <- out :: e in memory + db
  {
    AllMergedIsSorted(memory, db);
    forall e | e in Merged(memory, db, limit) ensures e in memory + db {
      assert e in AllMerged(memory, db);
      SurvivorIsFirst(Sort(memory + db, SortText), LogEntryKey, {}, e);
      SortKeepsElements(memory + db, SortText);
      assert e in multiset(Sort(memory + db, SortText));
    }
  }

  // ---------------------------------------------------------------- in terms of the fields

  /** The same field, or one absent and the other empty, or one null and the other the text that shows it. */
  predicate SameText(a: Field, b: Field) {
    a == b || (a == Missing && b == Text("")) || (a == Text("") && b == Missing)
    || (a == Null && b == Text("None")) || (a == Text("None") && b == Null)
  }

  /** Entries that count as the same: time, message, instance and logger. */
  predicate SameEntry(a: Entry, b: Entry) {
    SameText(a.timestamp, b.timestamp) && SameText(a.message, b.message)
    && SameText(a.instanceId, b.instanceId) && SameText(a.logger, b.logger)
  }

  /** `a` has no time, or `b` has one and it is as late. */
  predicate NotNewer(a: Entry, b: Entry) {
    !a.timestamp.Text? || a.timestamp.value == "" || (b.timestamp.Text? && AtMost(a.timestamp.value, b.timestamp.value))
  }

  lemma KeyMeans(a: Entry, b: Entry)
    ensures LogEntryKey(a) == LogEntryKey(b) <==> SameEntry(a, b)
    ensures AtMost(SortText(a), SortText(b)) <==> NotNewer(a, b)
    ensures SortText(a) == SortText(b) <==> NotNewer(a, b) && NotNewer(b, a)
  {
    AtMostTotal(SortText(a), SortText(b));
  }

  /** `out` holds a copy of `e` that is at least as new, or is full of entries at least as new. */
  ghost predicate Represented(e: Entry, out: seq<Entry>, limit: int) {
    (exists d <- out :: SameEntry(d, e) && NotNewer(e, d))
    || (|out| == (if limit < 1 then 1 else limit) && forall d <- out :: NotNewer(e, d))
  }

  /** `out` merges the two sources: distinct entries of theirs, newest first, memory preferred, none lost. */
  ghost predicate IsMerge(out: seq<Entry>, memory: seq<Entry>, db: seq<Entry>, limit: int) {
    (forall i, j :: 0 <= i < j < |out| ==> !SameEntry(out[i], out[j]) && NotNewer(out[j], out[i]))
    && |out| <= (if limit < 1 then 1 else limit)
    && (forall e <- out :: e in memory || e in db)
    && (forall e, twin :: e in out && twin in memory && SameEntry(twin, e) && NotNewer(e, twin) && NotNewer(twin, e)
                          ==> e in memory)
    && (forall e :: e in memory || e in db ==> Represented(e, out, limit))
  }

  lemma EntryIsRepresented(memory: seq<Entry>, db: seq<Entry>, limit: int, e: Entry)
    requires e in memory || e in db
    ensures Represented(e, Merged(memory, db, limit), limit)
  {
    var all, out := AllMerged(memory, db), Merged(memory, db, limit);
    var i := CopySurvives(memory, db, e);
    KeyMeans(all[i], e);
    KeyMeans(e, all[i]);
    if i < |out| {
      assert out[i] in out;
    } else {
      AllMergedIsSorted(memory, db);
      forall d | d in out ensures NotNewer(e, d) {
        var j :| 0 <= j < |out| && out[j] == d;
        AtMostTransitive(SortText(e), SortText(all[i]), SortText(all[j]));
        KeyMeans(e, d);
      }
    }
  }

  lemma MergeMeans(memory: seq<Entry>, db: seq<Entry>, limit: int)
    ensures IsMerge(Merged(memory, db, limit), memory, db, limit)
  {
    var out := Merged(memory, db, limit);
    MergeSpecification(memory, db, limit);
    forall i, j | 0 <= i < j < |out| ensures !SameEntry(out[i], out[j]) && NotNewer(out[j], out[i]) {
      KeyMeans(out[i], out[j]);
      KeyMeans(out[j], out[i]);
    }
    forall e, twin | e in out && twin in memory && SameEntry(twin, e) && NotNewer(e, twin) && NotNewer(twin, e)
      ensures e in memory
    {
      KeyMeans(twin, e);
      MemoryWins(memory, db, limit, e, twin);
    }
    forall e | e in memory || e in db ensures Represented(e, out, limit) {
      EntryIsRepresented(memory, db, limit, e);
    }
  }
}
