/**
 The same filters as SQL text: the conditions and parameters the database path emits, their meaning
 under three-valued logic, and the proof that they select the rows the in-memory predicate selects.
 */
module SqlFilters {
  import opened Wrappers
  import opened LogEntries
  import opened AsciiText
  import opened LogFilters

  // ---------------------------------------------------------------- rows and conditions

  /** The columns of `kafka_logs` the conditions mention; `None` is NULL. */
  datatype LogRow = LogRow(level: Option<string>, logger: Option<string>, message: Option<string>,
                           instanceId: string, path: Option<string>, status: Option<int>)

  function Column(f: Field): Option<string> { if f.Text? then Some(f.value) else None }

  /** The row an entry is stored as (only a storable entry has one). */
  function RowOf(e: Entry): LogRow
    requires Storable(e)
  {
    LogRow(Column(e.level), Column(e.logger), Column(e.message), AsText(e.instanceId, "unknown"),
           Column(e.path), StatusInt(e))
  }

  datatype Condition =
    | StatusAtLeast(lo: int)
    | StatusBelow(hi: int)
    | StatusEquals(code: int)
    | StatusAnyOf(codes: seq<int>)
    | LevelEquals(param: string)
    | InstanceEquals(param: string)
    | MessageILike(param: string)
    | LoggerILike(param: string)
    | PathILike(param: string)
    | And(left: Condition, right: Condition)
    | Or(left: Condition, right: Condition)

  datatype Truth = T | F | Null3

  function FromBool(b: bool): Truth { if b then T else F }

  function And3(a: Truth, b: Truth): Truth { if a.F? || b.F? then F else if a.T? && b.T? then T else Null3 }

  function Or3(a: Truth, b: Truth): Truth { if a.T? || b.T? then T else if a.F? && b.F? then F else Null3 }

  /** SQL LIKE with its default escape character; a pattern ending in an escape matches nothing. */
  predicate Like(p: string, s: string)
    decreases |p| + |s|
  {
    if p == [] then s == []
    else if p[0] == '%' then Like(p[1..], s) || (s != [] && Like(p, s[1..]))
    else if p[0] == '_' then s != [] && Like(p[1..], s[1..])
    else if p[0] == '\\' then |p| > 1 && s != [] && s[0] == p[1] && Like(p[2..], s[1..])
    else s != [] && s[0] == p[0] && Like(p[1..], s[1..])
  }

  predicate ILike(s: string, p: string) { Like(Lower(p), Lower(s)) }

  function NullableILike(s: Option<string>, p: string): Truth {
    if s.None? then Null3 else FromBool(ILike(s.value, p))
  }

  function Eval(c: Condition, r: LogRow): Truth {
    match c
    case StatusAtLeast(lo) => if r.status.None? then Null3 else FromBool(r.status.value >= lo)
    case StatusBelow(hi) => if r.status.None? then Null3 else FromBool(r.status.value < hi)
    case StatusEquals(code) => if r.status.None? then Null3 else FromBool(r.status.value == code)
    case StatusAnyOf(codes) =>
      if codes == [] then F else if r.status.None? then Null3 else FromBool(r.status.value in codes)
    case LevelEquals(p) => if r.level.None? then Null3 else FromBool(Upper(Trim(r.level.value)) == Upper(Trim(p)))
    case InstanceEquals(p) => FromBool(r.instanceId == p)
    case MessageILike(p) => NullableILike(r.message, p)
    case LoggerILike(p) => NullableILike(r.logger, p)
    case PathILike(p) => FromBool(ILike(if r.path.None? then "" else r.path.value, p))
    case And(a, b) => And3(Eval(a, r), Eval(b, r))
    case Or(a, b) => Or3(Eval(a, r), Eval(b, r))
  }

  // ---------------------------------------------------------------- what the code emits

  function SqlStatusCondition(raw: Option<string>): Option<Condition> {
    if !Given(raw) || Strip(raw.value) == [] then None
    else
      var s := Lower(Strip(raw.value));
      var range := ClassRange(s);
      if range.Some? then Some(And(StatusAtLeast(range.value.0), StatusBelow(range.value.1)))
      else if ',' in s then
        var parts := ListedCodes(Split(s, ','));
        if parts == [] then None else Some(StatusAnyOf(parts))
      else if AllDigits(s) then Some(StatusEquals(ToInt(s)))
      else None
  }

  function SearchCondition(q: string): Condition {
    var p := "%" + q + "%";
    Or(Or(MessageILike(p), LoggerILike(p)), PathILike(p))
  }

  /** The list of conditions, joined by AND in the query. */
  method BuildConditions(f: Filters) returns (conditions: seq<Condition>)
    ensures forall r :: Selects(conditions, r) <==> SqlSelects(f, r)
  {
    conditions := [];
    if f.level.Some? && f.level.value != [] {
      SelectsAppend(conditions, LevelEquals(f.level.value));
      conditions := conditions + [LevelEquals(f.level.value)];
    }
    if f.instanceId.Some? && f.instanceId.value != [] {
      SelectsAppend(conditions, InstanceEquals(f.instanceId.value));
      conditions := conditions + [InstanceEquals(f.instanceId.value)];
    }
    if f.search.Some? && f.search.value != [] && Strip(f.search.value) != [] {
      SelectsAppend(conditions, SearchCondition(Strip(f.search.value)));
      conditions := conditions + [SearchCondition(Strip(f.search.value))];
    }
    var status := SqlStatusCondition(f.statusCode);
    if status.Some? {
      SelectsAppend(conditions, status.value);
      conditions := conditions + [status.value];
    }
  }

  /** The conditions joined by AND, as three-valued logic evaluates them; no conditions, no WHERE. */
  function Where(conditions: seq<Condition>, r: LogRow): Truth {
    if conditions == [] then T
    else And3(Where(conditions[..|conditions| - 1], r), Eval(conditions[|conditions| - 1], r))
  }

  /** A row is selected when the conjunction is true, neither false nor unknown. */
  predicate Selects(conditions: seq<Condition>, r: LogRow) { Where(conditions, r) == T }

  lemma SelectsAppend(conditions: seq<Condition>, c: Condition)
    ensures forall r :: Selects(conditions + [c], r) <==> Selects(conditions, r) && Eval(c, r) == T
  {
    assert (conditions + [c])[..|conditions|] == conditions;
  }

  /** The conjunction is true exactly when no condition is false or unknown. */
  lemma {:induction false} WhereIsTrueIff(conditions: seq<Condition>, r: LogRow)
    ensures Where(conditions, r) == T <==> forall c <- conditions :: Eval(c, r) == T
  {
    if conditions != [] {
      var front, last := conditions[..|conditions| - 1], conditions[|conditions| - 1];
      WhereIsTrueIff(front, r);
      assert last in conditions && forall c <- front :: c in conditions;
      assert forall c <- conditions :: c in front || c == last by { assert conditions == front + [last]; }
    }
  }

  /** What the WHERE clause says, filter by filter. */
  predicate SqlSelects(f: Filters, r: LogRow) {
    && (Given(f.level) ==> Eval(LevelEquals(f.level.value), r) == T)
    && (Given(f.instanceId) ==> Eval(InstanceEquals(f.instanceId.value), r) == T)
    && (Given(f.search) && Strip(f.search.value) != [] ==> Eval(SearchCondition(Strip(f.search.value)), r) == T)
    && (SqlStatusCondition(f.statusCode).Some? ==> Eval(SqlStatusCondition(f.statusCode).value, r) == T)
  }

  // ---------------------------------------------------------------- status filters

  /** For every filter text, the SQL condition accepts a stored entry exactly when the predicate does. */
  lemma StatusFiltersAgree(raw: Option<string>, e: Entry)
    requires Storable(e)
    ensures StatusMatches(e, raw)
            <==> (SqlStatusCondition(raw).Some? ==> Eval(SqlStatusCondition(raw).value, RowOf(e)) == T)
    ensures StatusPredicate(raw).Some? <==> SqlStatusCondition(raw).Some?
  {
    if Given(raw) && Strip(raw.value) != [] {
      var s := Lower(Strip(raw.value));
      if ClassRange(s).None? && ',' in s {
        var parts := ListedCodes(Split(s, ','));
        var codes := set c | c in parts;
        assert forall c :: c in parts <==> c in codes;
        if parts != [] { assert parts[0] in codes; } else { assert codes == {}; }
      }
    }
  }

  // ---------------------------------------------------------------- LIKE and substring search

  /** Free of the characters LIKE treats specially. */
  predicate Plain(q: string) { forall c <- q :: c != '%' && c != '_' && c != '\\' }

  lemma {:induction false} PercentMatchesAll(s: string)
    ensures Like("%", s)
  {
    if s != [] { PercentMatchesAll(s[1..]); } else { assert Like("%"[1..], []); }
  }

  lemma {:induction false} PlainPrefix(q: string, s: string)
    requires Plain(q)
    ensures Like(q + "%", s) <==> q <= s
  {
    if q == [] {
      assert q + "%" == "%";
      PercentMatchesAll(s);
    } else {
      assert (q + "%")[1..] == q[1..] + "%";
      assert q[0] in q && forall c <- q[1..] :: c in q;
      if s != [] {
        PlainPrefix(q[1..], s[1..]);
        assert q <= s <==> q[0] == s[0] && q[1..] <= s[1..];
      }
    }
  }

  lemma {:induction false} LeadingPercent(p: string, s: string)
    ensures Like("%" + p, s) <==> exists i :: 0 <= i <= |s| && Like(p, s[i..])
  {
    assert ("%" + p)[1..] == p;
    assert s[0..] == s;
    if s != [] {
      LeadingPercent(p, s[1..]);
      if exists i :: 0 <= i <= |s[1..]| && Like(p, s[1..][i..]) {
        var i :| 0 <= i <= |s[1..]| && Like(p, s[1..][i..]);
        assert s[1..][i..] == s[i + 1..];
      }
      if exists i :: 0 <= i <= |s| && Like(p, s[i..]) {
        var i :| 0 <= i <= |s| && Like(p, s[i..]);
        if i > 0 { assert s[1..][i - 1..] == s[i..]; }
      }
    }
  }

  lemma LikeIsContains(q: string, s: string)
    requires Plain(q)
    ensures Like("%" + q + "%", s) <==> Contains(s, q)
  {
    assert "%" + q + "%" == "%" + (q + "%");
    LeadingPercent(q + "%", s);
    forall i | 0 <= i <= |s| ensures Like(q + "%", s[i..]) <==> q <= s[i..] {
      PlainPrefix(q, s[i..]);
    }
  }

  /** A string that `q`, read as a pattern, matches as literally as it can. */
  function LiteralReading(q: string): string {
    if q == [] then []
    else if q[0] == '%' then LiteralReading(q[1..])
    else if q[0] == '_' then "x" + LiteralReading(q[1..])
    else if q[0] == '\\' then
      if |q| == 1 then "%" else [q[1]] + LiteralReading(q[2..])
    else [q[0]] + LiteralReading(q[1..])
  }

  lemma {:induction false} ReadingMatches(q: string)
    ensures Like(q + "%", LiteralReading(q))
  {
    var p, s := q + "%", LiteralReading(q);
    if q == [] {
      assert p == "%";
      PercentMatchesAll([]);
    } else if q[0] == '\\' {
      if |q| == 1 {
        assert p[2..] == [] && s[1..] == [];
      } else {
        ReadingMatches(q[2..]);
        assert p[2..] == q[2..] + "%" && s[1..] == LiteralReading(q[2..]);
      }
    } else {
      ReadingMatches(q[1..]);
      assert p[1..] == q[1..] + "%";
      if q[0] != '%' { assert s[1..] == LiteralReading(q[1..]); }
    }
  }

  lemma {:induction false} ReadingDiffers(q: string)
    ensures |LiteralReading(q)| <= |q|
    ensures LiteralReading(q) == q <==> Plain(q)
  {
    if q != [] {
      assert q == [q[0]] + q[1..] && q[0] in q;
      if q[0] == '\\' {
        if |q| > 1 { ReadingDiffers(q[2..]); }
      } else {
        ReadingDiffers(q[1..]);
        assert forall c :: c in q <==> c == q[0] || c in q[1..];
        if q[0] != '%' && q[0] != '_' {
          assert LiteralReading(q)[1..] == LiteralReading(q[1..]);
        }
      }
    }
  }

  /** A different text that is no longer than `q` cannot contain it. */
  lemma NoRoomForMatch(s: string, q: string)
    requires |s| <= |q| && s != q
    ensures !Contains(s, q)
  {
    forall i | 0 <= i <= |s| ensures !(q <= s[i..]) {
      if i == 0 { assert s[0..] == s; }
    }
  }

  /** Searching for `q` with LIKE means "contains `q`" for every text exactly when `q` is plain. */
  lemma LikeSearchAgreesIffPlain(q: string)
    ensures (forall s :: Like("%" + q + "%", s) <==> Contains(s, q)) <==> Plain(q)
  {
    if Plain(q) {
      forall s ensures Like("%" + q + "%", s) <==> Contains(s, q) { LikeIsContains(q, s); }
    } else {
      var s := LiteralReading(q);
      ReadingMatches(q);
      ReadingDiffers(q);
      assert "%" + q + "%" == "%" + (q + "%");
      LeadingPercent(q + "%", s);
      assert s[0..] == s;
      NoRoomForMatch(s, q);
    }
  }

  lemma PlainLower(q: string)
    requires Plain(q)
    ensures Plain(Lower(q))
  {
    forall c | c in Lower(q) ensures c != '%' && c != '_' && c != '\\' {
      var i :| 0 <= i < |q| && Lower(q)[i] == c;
      assert q[i] in q;
    }
  }

  lemma ILikeIsCaselessContains(s: string, q: string)
    requires Plain(q)
    ensures ILike(s, "%" + q + "%") <==> HasSubstring(Lower(s), Lower(q))
  {
    assert Lower("%" + q + "%") == "%" + Lower(q) + "%";
    PlainLower(q);
    LikeIsContains(Lower(q), Lower(s));
    HasSubstringIsContains(Lower(s), Lower(q));
  }

  // ---------------------------------------------------------------- the whole WHERE clause

  /**
   Entries on which the two paths can be compared: storable, with no JSON null among the searched
   fields, an instance id, and a level that carries no surrounding blanks.
   */
  predicate Comparable(e: Entry) {
    Storable(e) && e.instanceId.Text? && e.level.Text? && Trim(e.level.value) == e.level.value
    && !e.message.Null? && !e.logger.Null? && !e.path.Null?
  }

  /** Filters both paths read alike: a plain search text, and a level padded with blanks at most. */
  predicate PortableFilters(f: Filters) {
    (Given(f.search) ==> Plain(Strip(f.search.value)))
    && (Given(f.level) ==> Upper(Strip(f.level.value)) == Upper(Trim(f.level.value)))
  }

  lemma EmptyTextHasNoMatch(q: string)
    requires q != []
    ensures !HasSubstring(Lower(""), Lower(q))
  {
  }

  lemma SearchAgrees(e: Entry, q: string)
    requires Comparable(e) && q != [] && Plain(q)
    ensures Eval(SearchCondition(q), RowOf(e)) == T
            <==> HasSubstring(Lower(AsText(e.message, "")), Lower(q))
                 || HasSubstring(Lower(AsText(e.logger, "")), Lower(q))
                 || HasSubstring(Lower(AsText(e.path, "")), Lower(q))
  {
    EmptyTextHasNoMatch(q);
    ILikeIsCaselessContains(AsText(e.message, ""), q);
    ILikeIsCaselessContains(AsText(e.logger, ""), q);
    ILikeIsCaselessContains(AsText(e.path, ""), q);
    var p, r := "%" + q + "%", RowOf(e);
    assert Eval(Or(MessageILike(p), LoggerILike(p)), r)
           == Or3(NullableILike(r.message, p), NullableILike(r.logger, p));
  }

  /** The WHERE clause selects a stored entry exactly when the in-memory predicate accepts it. */
  lemma FiltersAgree(f: Filters, e: Entry)
    requires Comparable(e) && PortableFilters(f)
    ensures SqlSelects(f, RowOf(e)) <==> EntryMatchesFilters(e, f)
  {
    StatusFiltersAgree(f.statusCode, e);
    if Given(f.level) { StripOfUpper(f.level.value); }
    if Given(f.search) && Strip(f.search.value) != [] { SearchAgrees(e, Strip(f.search.value)); }
  }

  // ---------------------------------------------------------------- and only then

  lemma PlainIgnoresCase(q: string)
    ensures Plain(Lower(q)) <==> Plain(q)
  {
    if Plain(q) { PlainLower(q); }
    if Plain(Lower(q)) {
      forall c | c in q ensures c != '%' && c != '_' && c != '\\' {
        var i :| 0 <= i < |q| && q[i] == c;
        assert Lower(q)[i] in Lower(q);
      }
    }
  }

  lemma {:induction false} ReadingIsLower(q: string)
    requires Lower(q) == q
    ensures Lower(LiteralReading(q)) == LiteralReading(q)
  {
    if q != [] {
      var skip := if q[0] == '\\' && |q| > 1 then 2 else 1;
      assert Lower(q[skip..]) == Lower(q)[skip..];
      ReadingIsLower(q[skip..]);
      assert forall i :: 0 <= i < |q| ==> LowerChar(q[i]) == q[i];
    }
  }

  /** A text that LIKE finds for a search that is not plain, although it does not contain it. */
  lemma SearchCounterexample(q: string) returns (s: string)
    requires !Plain(q)
    ensures ILike(s, "%" + q + "%") && !HasSubstring(Lower(s), Lower(q))
  {
    var l := Lower(q);
    s := LiteralReading(l);
    PlainIgnoresCase(q);
    LowerOfLower(q);
    ReadingIsLower(l);
    ReadingMatches(l);
    ReadingDiffers(l);
    assert Lower("%" + q + "%") == "%" + l + "%" == "%" + (l + "%");
    LeadingPercent(l + "%", s);
    assert s[0..] == s;
    HasSubstringIsContains(s, l);
    NoRoomForMatch(s, l);
  }

  /** Some integer passes any status filter. */
  lemma StatusFilterIsSatisfiable(raw: Option<string>) returns (code: int)
    ensures forall e: Entry :: e.status == Code(code) ==> StatusMatches(e, raw)
  {
    code := 0;
    if StatusPredicate(raw).Some? {
      var s := Lower(Strip(raw.value));
      if ClassRange(s).Some? {
        code := ClassRange(s).value.0;
      } else if ',' in s {
        code := ListedCodes(Split(s, ','))[0];
      } else {
        code := ToInt(s);
      }
    }
  }

  /** An entry that passes the level, instance and status filters in memory. */
  function Passing(f: Filters, code: int, message: string): Entry {
    Entry(Missing, None, Text(if Given(f.level) then Strip(f.level.value) else ""), Text(""), Text(message),
          Text(""), Text(if Given(f.instanceId) then f.instanceId.value else ""), Code(code), NoTiming)
  }

  lemma PassingPasses(f: Filters, code: int, message: string)
    requires forall e: Entry :: e.status == Code(code) ==> StatusMatches(e, f.statusCode)
    ensures var e := Passing(f, code, message);
            Comparable(e) && LevelMatches(e, f.level) && InstanceMatches(e, f.instanceId)
            && StatusMatches(e, f.statusCode)
  {
    if Given(f.level) {
      TrimOfStrip(f.level.value);
      StripOfUpper(f.level.value);
    }
  }

  lemma SearchFindsItself(q: string)
    ensures HasSubstring(Lower(q), Lower(q))
  {
  }

  /** A level padded with more than blanks: an entry of the bare level passes in memory only. */
  lemma PaddedLevelDiffers(f: Filters, code: int) returns (e: Entry)
    requires Given(f.level) && Upper(Strip(f.level.value)) != Upper(Trim(f.level.value))
    requires forall x: Entry :: x.status == Code(code) ==> StatusMatches(x, f.statusCode)
    ensures Comparable(e) && !SqlSelects(f, RowOf(e)) && EntryMatchesFilters(e, f)
  {
    var message := if Given(f.search) then Strip(f.search.value) else "";
    e := Passing(f, code, message);
    PassingPasses(f, code, message);
    SearchFindsItself(message);
    TrimOfStrip(f.level.value);
    assert Eval(LevelEquals(f.level.value), RowOf(e)) == F;
  }

  /** In memory the message must contain the search text: the other fields of the entry are empty. */
  lemma MessageMisses(e: Entry, search: Option<string>)
    requires Given(search) && Strip(search.value) != [] && e.message.Text? && e.logger == e.path == Text("")
    requires !HasSubstring(Lower(e.message.value), Lower(Strip(search.value)))
    ensures !SearchMatches(e, search)
  {
    EmptyTextHasNoMatch(Strip(search.value));
  }

  /** In SQL it is enough that the message is like the pattern. */
  lemma MessageIsLike(q: string, r: LogRow)
    requires r.message.Some? && ILike(r.message.value, "%" + q + "%")
    ensures Eval(SearchCondition(q), r) == T
  {
    var p := "%" + q + "%";
    assert Eval(MessageILike(p), r) == T;
    assert Eval(Or(MessageILike(p), LoggerILike(p)), r) == T;
  }

  /** What passes the other filters in memory passes them in SQL. */
  lemma PassingSelected(f: Filters, code: int, message: string)
    requires Given(f.level) ==> Upper(Strip(f.level.value)) == Upper(Trim(f.level.value))
    requires forall x: Entry :: x.status == Code(code) ==> StatusMatches(x, f.statusCode)
    ensures var r := RowOf(Passing(f, code, message));
            (Given(f.level) ==> Eval(LevelEquals(f.level.value), r) == T)
            && (Given(f.instanceId) ==> Eval(InstanceEquals(f.instanceId.value), r) == T)
            && (SqlStatusCondition(f.statusCode).Some? ==> Eval(SqlStatusCondition(f.statusCode).value, r) == T)
  {
    var e := Passing(f, code, message);
    PassingPasses(f, code, message);
    if Given(f.level) { TrimOfStrip(f.level.value); }
    StatusFiltersAgree(f.statusCode, e);
  }

  /** A search text with special characters: a text it matches as a pattern passes in SQL only. */
  lemma PatternSearchDiffers(f: Filters, code: int) returns (e: Entry)
    requires Given(f.search) && !Plain(Strip(f.search.value))
    requires Given(f.level) ==> Upper(Strip(f.level.value)) == Upper(Trim(f.level.value))
    requires forall x: Entry :: x.status == Code(code) ==> StatusMatches(x, f.statusCode)
    ensures Comparable(e) && SqlSelects(f, RowOf(e)) && !EntryMatchesFilters(e, f)
  {
    var q := Strip(f.search.value);
    var message := SearchCounterexample(q);
    e := Passing(f, code, message);
    PassingPasses(f, code, message);
    PassingSelected(f, code, message);
    MessageMisses(e, f.search);
    MessageIsLike(q, RowOf(e));
  }

  /** Outside portable filters the two paths part on some comparable entry. */
  lemma UnportableFiltersDiffer(f: Filters) returns (e: Entry)
    requires !PortableFilters(f)
    ensures Comparable(e) && !(SqlSelects(f, RowOf(e)) <==> EntryMatchesFilters(e, f))
  {
    var code := StatusFilterIsSatisfiable(f.statusCode);
    if Given(f.level) && Upper(Strip(f.level.value)) != Upper(Trim(f.level.value)) {
      e := PaddedLevelDiffers(f, code);
    } else {
      e := PatternSearchDiffers(f, code);
    }
  }

  /** The two paths select the same comparable entries exactly for portable filters. */
  lemma FiltersAgreeIffPortable(f: Filters)
    ensures (forall e | Comparable(e) :: SqlSelects(f, RowOf(e)) <==> EntryMatchesFilters(e, f))
            <==> PortableFilters(f)
  {
    if PortableFilters(f) {
      forall e | Comparable(e) ensures SqlSelects(f, RowOf(e)) <==> EntryMatchesFilters(e, f) { FiltersAgree(f, e); }
    } else {
      var e := UnportableFiltersDiffer(f);
    }
  }
}
