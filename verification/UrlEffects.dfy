/**
 What a stored create, update or delete does to the two tables and to the answer, field by field, and when
 a request is refused and with what.
 */
module UrlEffects {
  import opened Wrappers
  import opened UrlTable
  import opened RedirectCache

  /** No other row than `id` differs. */
  predicate OthersKept(before: seq<Url>, after: seq<Url>, id: nat) {
    |after| == |before| && forall i :: 0 <= i < |before| && i != id ==> after[i] == before[i]
  }

  /** The given value if the body gives one, else the old one. */
  predicate FieldIs<T(==)>(now: T, before: T, given: Field<T>) {
    if given.Is? then now == given.value else now == before
  }

  // ---------------------------------------------------------------- updates

  /** A JSON object with at least one key, each known key of its type, and the address usable. */
  predicate UsableBody(b: UpdateBody) {
    b.Parsed? && (!b.originalUrl.Absent? || !b.title.Absent? || !b.isActive.Absent? || b.otherKeys)
    && !b.originalUrl.WrongType? && !b.title.WrongType? && !b.isActive.WrongType?
    && (b.originalUrl.Is? ==> b.originalUrl.value.valid)
  }

  /** Every field the body gives has the given value, every other field the old one. */
  predicate RowUpdated(now: Url, before: Url, b: UpdateBody)
    requires b.Parsed?
  {
    now.userId == before.userId && now.shortCode == before.shortCode
    && now.originalUrl == (if b.originalUrl.Is? then b.originalUrl.value.text else before.originalUrl)
    && FieldIs(now.title, before.title, b.title) && FieldIs(now.isActive, before.isActive, b.isActive)
  }

  lemma UpdateMeans(s: ServerState, users: set<int>, r: Request, now: int, redis: Redis)
    requires r.Update?
    ensures var o := Handle(s, users, r, now, redis);
            var rows, rows' := s.db.urls, o.state.db.urls;
            if r.id >= |rows| then o == Outcome(s, NotFound)
            else if !UsableBody(r.body) then o == Outcome(s, BadRequest)
            else if !r.stored then o == Outcome(s, ServerError)
            else OthersKept(rows, rows', r.id) && RowUpdated(rows'[r.id], rows[r.id], r.body)
                 && o.response == UpdatedUrl(rows'[r.id])
                 && o.state.db.events == s.db.events + [Event(r.id, rows[r.id].userId, UpdatedEvent, now)]
  {
  }

  // ---------------------------------------------------------------- deletes

  lemma DeleteMeans(s: ServerState, users: set<int>, r: Request, now: int, redis: Redis)
    requires r.Delete?
    ensures var o := Handle(s, users, r, now, redis);
            var rows, rows' := s.db.urls, o.state.db.urls;
            if r.id >= |rows| then o == Outcome(s, NothingToDelete)
            else if !r.stored then o == Outcome(s, ServerError)
            else OthersKept(rows, rows', r.id) && !rows'[r.id].isActive && o.response == DeletedUrl
                 && rows'[r.id].userId == rows[r.id].userId && rows'[r.id].shortCode == rows[r.id].shortCode
                 && rows'[r.id].originalUrl == rows[r.id].originalUrl && rows'[r.id].title == rows[r.id].title
                 && o.state.db.events == s.db.events + [Event(r.id, rows[r.id].userId, DeletedEvent, now)]
  {
  }

  // ---------------------------------------------------------------- redirects

  /** Row `id` is the first with this code. */
  predicate FirstRow(rows: seq<Url>, code: string, id: nat) {
    id < |rows| && rows[id].shortCode == code && forall i :: 0 <= i < id ==> rows[i].shortCode != code
  }

  lemma {:induction false} FindIsFirst(rows: seq<Url>, code: string)
    ensures match Find(rows, code)
            case Some(id) => FirstRow(rows, code, id)
            case None => forall i :: 0 <= i < |rows| ==> rows[i].shortCode != code
  {
    if rows != [] {
      var front := rows[..|rows| - 1];
      FindIsFirst(front, code);
    }
  }

  /**
   A redirect answers from a live cache entry if GET succeeds, else from the row; it logs a click on the
   row's behalf exactly when it sends the client on and there is such a row.
   */
  lemma RedirectMeans(s: ServerState, users: set<int>, code: string, now: int, redis: Redis, id: nat)
    requires FirstRow(s.db.urls, code, id) || (forall i :: 0 <= i < |s.db.urls| ==> s.db.urls[i].shortCode != code)
    ensures var o, stored := Handle(s, users, Redirect(code), now, redis), FirstRow(s.db.urls, code, id);
            var hit := redis.getOk && code in s.cache && now < s.cache[code].expiresAt;
            o.response == (if hit then if s.cache[code].active then RedirectTo(s.cache[code].url) else Gone
                           else if !stored then NotFound
                           else if s.db.urls[id].isActive then RedirectTo(s.db.urls[id].originalUrl) else Gone)
            && o.state.db.urls == s.db.urls
            && o.state.db.events == (s.db.events + if o.response.RedirectTo? && stored
                                                   then [Event(id, s.db.urls[id].userId, ClickEvent, now)] else [])
            && o.state.cache == (if hit || !stored || !redis.setOk then s.cache
                                 else var u := s.db.urls[id];
                                      s.cache[code := Cached(u.originalUrl, u.isActive, now + 300)])
  {
    FindIsFirst(s.db.urls, code);
  }

  /** What the other requests leave in the cache: a stored create caches its row for 300 s, a stored change deletes. */
  lemma CacheMeans(s: ServerState, users: set<int>, r: Request, now: int, redis: Redis)
    requires !r.Redirect?
    ensures var o := Handle(s, users, r, now, redis);
            o.state.cache
            == match o.response
               case CreatedUrl(_, url) =>
                 if redis.setOk then s.cache[url.shortCode := Cached(url.originalUrl, true, now + 300)] else s.cache
               case UpdatedUrl(url) => if redis.delOk then s.cache - {url.shortCode} else s.cache
               case DeletedUrl =>
                 if r.Delete? && r.id < |s.db.urls| && redis.delOk then s.cache - {s.db.urls[r.id].shortCode}
                 else s.cache
               case _ => s.cache
  {
  }

  // ---------------------------------------------------------------- creates

  /** What the handler asks of a body before it looks for the user. */
  predicate UsableFields(r: Request)
    requires r.Create?
  {
    r.originalUrl.Is? && r.originalUrl.value.valid && r.userId.Is? && !r.title.WrongType?
  }

  /** The code asked for, or the first of the drawn ones that no row has. */
  predicate CodeIs(rows: seq<Url>, r: Request, code: string)
    requires r.Create?
  {
    if r.shortCode.Is? && r.shortCode.value != "" then code == r.shortCode.value
    else exists i :: 0 <= i < |r.draws| && r.draws[i] == code && (forall u <- rows :: u.shortCode != code)
                     && forall j :: 0 <= j < i ==> exists u <- rows :: u.shortCode == r.draws[j]
  }

  lemma {:induction false} FirstFreeMeans(rows: seq<Url>, draws: seq<string>) returns (i: nat)
    requires FirstFree(rows, draws).Some?
    ensures i < |draws| && draws[i] == FirstFree(rows, draws).value
    ensures forall j :: 0 <= j < i ==> exists u <- rows :: u.shortCode == draws[j]
  {
    if Find(rows, draws[0]).None? {
      i := 0;
    } else {
      var k := FirstFreeMeans(rows, draws[1..]);
      i := k + 1;
      forall j | 0 <= j < i ensures exists u <- rows :: u.shortCode == draws[j] {
        if j > 0 { assert draws[1..][j - 1] == draws[j]; }
      }
    }
  }

  /** A row stored for the request: at the end of the table, active, with what the request gave. */
  predicate RowCreated(rows: seq<Url>, rows': seq<Url>, r: Request)
    requires r.Create? && UsableFields(r)
  {
    |rows'| == |rows| + 1 && rows' == rows + [rows'[|rows|]]
    && var u := rows'[|rows|];
       u.userId == r.userId.value && u.originalUrl == r.originalUrl.value.text && u.isActive
       && u.title == (if r.title.Is? then r.title.value else "") && CodeIs(rows, r, u.shortCode)
  }

  /** The refusals in the order of the handler, and the stored row if there is none. */
  lemma CreateMeans(s: ServerState, users: set<int>, r: Request, now: int, redis: Redis)
    requires r.Create?
    ensures var o := Handle(s, users, r, now, redis);
            var rows, rows' := s.db.urls, o.state.db.urls;
            if !UsableFields(r) then o == Outcome(s, BadRequest)
            else if r.userId.value !in users then o == Outcome(s, NotFound)
            else if r.shortCode.WrongType? then o == Outcome(s, BadRequest)
            else if !exists code :: CodeIs(rows, r, code) then o == Outcome(s, NoAnswer)
            else if exists u <- rows :: CodeIs(rows, r, u.shortCode) then o == Outcome(s, Conflict)
            else if !r.stored then o == Outcome(s, ServerError)
            else RowCreated(rows, rows', r) && o.response == CreatedUrl(|rows|, rows'[|rows|])
                 && o.state.db.events == s.db.events + [Event(|rows|, r.userId.value, CreatedEvent, now)]
  {
    var rows := s.db.urls;
    var code := RequestedCode(rows, r);
    if code.Some? {
      CodeIsRequested(rows, r, code.value);
      forall c | CodeIs(rows, r, c) ensures c == code.value { CodeIsUnique(rows, r, c, code.value); }
    } else {
      NoCodeRequested(rows, r);
    }
  }

  lemma CodeIsRequested(rows: seq<Url>, r: Request, code: string)
    requires r.Create? && RequestedCode(rows, r) == Some(code)
    ensures CodeIs(rows, r, code)
  {
    if !(r.shortCode.Is? && r.shortCode.value != "") {
      var i := FirstFreeMeans(rows, r.draws);
      assert r.draws[i] == code;
    }
  }

  lemma CodeIsUnique(rows: seq<Url>, r: Request, a: string, b: string)
    requires r.Create? && CodeIs(rows, r, a) && CodeIs(rows, r, b)
    ensures a == b
  {
    if !(r.shortCode.Is? && r.shortCode.value != "") {
      var i :| 0 <= i < |r.draws| && r.draws[i] == a && (forall u <- rows :: u.shortCode != a)
               && forall j :: 0 <= j < i ==> exists u <- rows :: u.shortCode == r.draws[j];
      var k :| 0 <= k < |r.draws| && r.draws[k] == b && (forall u <- rows :: u.shortCode != b)
               && forall j :: 0 <= j < k ==> exists u <- rows :: u.shortCode == r.draws[j];
    }
  }

  lemma NoCodeRequested(rows: seq<Url>, r: Request)
    requires r.Create? && RequestedCode(rows, r).None?
    ensures !exists code :: CodeIs(rows, r, code)
  {
    forall code ensures !CodeIs(rows, r, code) {
      if i :| 0 <= i < |r.draws| && r.draws[i] == code {
        assert r.draws[i] in r.draws && Find(rows, code).Some?;
      }
    }
  }
}
