/** The log filters as the in-memory path applies them: one predicate on an entry. */
module LogFilters {
  import opened Wrappers
  import opened LogEntries
  import opened AsciiText

  /** Filter parameters of a request; each may be absent. */
  datatype Filters = Filters(level: Option<string>, instanceId: Option<string>, search: Option<string>,
                             statusCode: Option<string>)

  /** Python truthiness of an optional string. */
  predicate Given(s: Option<string>) { s.Some? && s.value != [] }

  function StatusInt(e: Entry): Option<int> {
    if e.status.Code? then Some(e.status.code) else None
  }

  /** The four class tokens and the half-open ranges they stand for. */
  function ClassRange(s: string): Option<(int, int)> {
    if s == "2xx" then Some((200, 300))
    else if s == "3xx" then Some((300, 400))
    else if s == "4xx" then Some((400, 500))
    else if s == "5xx" then Some((500, 600))
    else None
  }

  /** The integers of a comma list; pieces that are not all digits are ignored. */
  function ListedCodes(parts: seq<string>): seq<int> {
    if parts == [] then []
    else
      var p := Strip(parts[0]);
      (if AllDigits(p) then [ToInt(p)] else []) + ListedCodes(parts[1..])
  }

  /** A predicate on entries, or none when the text is no status filter. */
  function StatusPredicate(raw: Option<string>): Option<Entry -> bool> {
    if !Given(raw) || Strip(raw.value) == [] then None
    else
      var s := Lower(Strip(raw.value));
      var range := ClassRange(s);
      if range.Some? then
        Some((e: Entry) => StatusInt(e).Some? && range.value.0 <= StatusInt(e).value < range.value.1)
      else if ',' in s then
        var codes := set c | c in ListedCodes(Split(s, ','));
        if codes == {} then None
        else Some((e: Entry) => StatusInt(e).Some? && StatusInt(e).value in codes)
      else if AllDigits(s) then
        var want := ToInt(s);
        Some((e: Entry) => StatusInt(e) == Some(want))
      else None
  }

  predicate LevelMatches(e: Entry, level: Option<string>) {
    Given(level) ==> Upper(AsText(e.level, "")) == Strip(Upper(level.value))
  }

  predicate InstanceMatches(e: Entry, id: Option<string>) {
    Given(id) ==> AsText(e.instanceId, "") == id.value
  }

  predicate SearchMatches(e: Entry, search: Option<string>) {
    Given(search) && Strip(search.value) != [] ==>
      var q := Lower(Strip(search.value));
      HasSubstring(Lower(AsText(e.message, "")), q)
      || HasSubstring(Lower(AsText(e.logger, "")), q)
      || HasSubstring(Lower(AsText(e.path, "")), q)
  }

  predicate StatusMatches(e: Entry, raw: Option<string>) {
    var p := StatusPredicate(raw);
    p.Some? ==> p.value(e)
  }

  predicate EntryMatchesFilters(e: Entry, f: Filters) {
    LevelMatches(e, f.level) && InstanceMatches(e, f.instanceId)
    && SearchMatches(e, f.search) && StatusMatches(e, f.statusCode)
  }
}
