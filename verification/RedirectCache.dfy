/**
 The server with its Redis redirect cache, handlers run one at a time, and the proof that clients and
 the event log cannot tell it from the server without a cache as long as deletions from Redis succeed.
 */
module RedirectCache {
  import opened Wrappers
  import opened UrlTable

  const REDIRECT_TTL := 300

  datatype Cached = Cached(url: string, active: bool, expiresAt: int)

  /** Whether Redis answers this request's GET, SETEX and DEL; a failed operation has no effect. */
  datatype Redis = Redis(getOk: bool, setOk: bool, delOk: bool)

  datatype ServerState = ServerState(db: Db, cache: map<string, Cached>)

  const EMPTY_SERVER := ServerState(EMPTY_DB, map[])

  function CacheRedirect(cache: map<string, Cached>, code: string, url: string, active: bool, now: int, redis: Redis)
    : map<string, Cached>
  {
    if redis.setOk then cache[code := Cached(url, active, now + REDIRECT_TTL)] else cache
  }

  /** The live entry for `code`, if Redis answers. */
  function GetCachedRedirect(cache: map<string, Cached>, code: string, now: int, redis: Redis): Option<Cached> {
    if redis.getOk && code in cache && now < cache[code].expiresAt then Some(cache[code]) else None
  }

  function InvalidateRedirect(cache: map<string, Cached>, code: string, redis: Redis): map<string, Cached> {
    if redis.delOk then cache - {code} else cache
  }

  datatype Outcome = Outcome(state: ServerState, response: Response)

  function Handle(s: ServerState, users: set<int>, r: Request, now: int, redis: Redis): Outcome {
    match r
    case Create(_, _, _, _, _, _) =>
      var reply := PlainCreate(s.db, users, r, now);
      var cache :=
        if reply.response.CreatedUrl?
        then CacheRedirect(s.cache, reply.response.url.shortCode, reply.response.url.originalUrl, true, now, redis)
        else s.cache;
      Outcome(ServerState(reply.db, cache), reply.response)
    case Update(id, _, _) =>
      var reply := PlainUpdate(s.db, r, now);
      var cache :=
        if reply.response.UpdatedUrl?
        then InvalidateRedirect(s.cache, reply.response.url.shortCode, redis) else s.cache;
      Outcome(ServerState(reply.db, cache), reply.response)
    case Delete(id, _) =>
      var reply := PlainDelete(s.db, r, now);
      var cache :=
        if reply.response.DeletedUrl? then InvalidateRedirect(s.cache, s.db.urls[id].shortCode, redis) else s.cache;
      Outcome(ServerState(reply.db, cache), reply.response)
    case Redirect(code) =>
      var cached := GetCachedRedirect(s.cache, code, now, redis);
      var id := Find(s.db.urls, code);
      if cached.Some? then
        if !cached.value.active then Outcome(s, Gone)
        else
          var db := if id.Some? then WithEvent(s.db, id.value, ClickEvent, now) else s.db;
          Outcome(s.(db := db), RedirectTo(cached.value.url))
      else if id.None? then Outcome(s, NotFound)
      else
        var url := s.db.urls[id.value];
        var reply := PlainRedirect(s.db, code, now);
        Outcome(ServerState(reply.db, CacheRedirect(s.cache, code, url.originalUrl, url.isActive, now, redis)),
                reply.response)
  }

  // ---------------------------------------------------------------- the mutable server

  class Server {
    const users: set<int>
    var urls: seq<Url>
    var events: seq<Event>
    var cache: map<string, Cached>

    function State(): ServerState
      reads this
    {
      ServerState(Db(urls, events), cache)
    }

    constructor (users: set<int>)
      ensures State() == EMPTY_SERVER && this.users == users
    {
      this.users := users;
      urls, events, cache := [], [], map[];
    }

    method GenerateShortCode(draws: seq<string>) returns (code: Option<string>)
      ensures code == FirstFree(urls, draws)
    {
      for i := 0 to |draws|
        invariant FirstFree(urls, draws) == FirstFree(urls, draws[i..])
      {
        if Find(urls, draws[i]).None? { return Some(draws[i]); }
        assert draws[i..][1..] == draws[i + 1..];
      }
      code := None;
    }

    method CreateShortUrl(r: Request, now: int, redis: Redis) returns (response: Response)
      requires r.Create?
      modifies this
      ensures Outcome(State(), response) == Handle(old(State()), users, r, now, redis)
    {
      if r.originalUrl.Absent? || r.userId.Absent? { return BadRequest; }
      if r.originalUrl.WrongType? || !r.originalUrl.value.valid { return BadRequest; }
      if r.userId.WrongType? || r.title.WrongType? { return BadRequest; }
      if r.userId.value !in users { return NotFound; }
      if r.shortCode.WrongType? { return BadRequest; }
      var code: string;
      if r.shortCode.Is? && r.shortCode.value != [] {
        code := r.shortCode.value;
      } else {
        var generated := GenerateShortCode(r.draws);
        if generated.None? { return NoAnswer; }
        code := generated.value;
      }
      if Find(urls, code).Some? { return Conflict; }
      if !r.stored { return ServerError; }
      var id, url := |urls|, NewUrl(r, code);
      urls := urls + [url];
      events := events + [Event(id, url.userId, CreatedEvent, now)];
      if redis.setOk { cache := cache[code := Cached(url.originalUrl, true, now + REDIRECT_TTL)]; }
      response := CreatedUrl(id, url);
    }

    method UpdateUrl(r: Request, now: int, redis: Redis) returns (response: Response)
      requires r.Update?
      modifies this
      ensures Outcome(State(), response) == Handle(old(State()), users, r, now, redis)
    {
      if r.id >= |urls| { return NotFound; }
      var error := UpdateError(r.body);
      if error.Some? { return error.value; }
      if !r.stored { return ServerError; }
      var url := urls[r.id];
      if r.body.originalUrl.Is? { url := url.(originalUrl := r.body.originalUrl.value.text); }
      if r.body.title.Is? { url := url.(title := r.body.title.value); }
      if r.body.isActive.Is? { url := url.(isActive := r.body.isActive.value); }
      urls := urls[r.id := url];
      events := events + [Event(r.id, url.userId, UpdatedEvent, now)];
      if redis.delOk { cache := cache - {url.shortCode}; }
      response := UpdatedUrl(url);
    }

    method DeleteUrl(r: Request, now: int, redis: Redis) returns (response: Response)
      requires r.Delete?
      modifies this
      ensures Outcome(State(), response) == Handle(old(State()), users, r, now, redis)
    {
      if r.id >= |urls| { return NothingToDelete; }
      if !r.stored { return ServerError; }
      var url := urls[r.id];
      events := events + [Event(r.id, url.userId, DeletedEvent, now)];
      urls := urls[r.id := url.(isActive := false)];
      if redis.delOk { cache := cache - {url.shortCode}; }
      response := DeletedUrl;
    }

    method RedirectToUrl(code: string, now: int, redis: Redis) returns (response: Response)
      modifies this
      ensures Outcome(State(), response) == Handle(old(State()), users, Redirect(code), now, redis)
    {
      var cached := GetCachedRedirect(cache, code, now, redis);
      var id := Find(urls, code);
      if cached.Some? {
        if !cached.value.active { return Gone; }
        if id.Some? { events := events + [Event(id.value, urls[id.value].userId, ClickEvent, now)]; }
        return RedirectTo(cached.value.url);
      }
      if id.None? { return NotFound; }
      var url := urls[id.value];
      if redis.setOk { cache := cache[code := Cached(url.originalUrl, url.isActive, now + REDIRECT_TTL)]; }
      if !url.isActive { return Gone; }
      events := events + [Event(id.value, url.userId, ClickEvent, now)];
      response := RedirectTo(url.originalUrl);
    }
  }

  // ---------------------------------------------------------------- invisibility

  predicate Live(cache: map<string, Cached>, code: string, now: int) {
    code in cache && now < cache[code].expiresAt
  }

  /** What a redirect shows of an entry or a row: its address, or that it is gone. */
  function Shown(url: string, active: bool): Option<string> { if active then Some(url) else None }

  function RowShows(u: Url): Option<string> { Shown(u.originalUrl, u.isActive) }

  /** Every live entry shows what its row shows. */
  ghost predicate Coherent(urls: seq<Url>, cache: map<string, Cached>, now: int) {
    forall code :: Live(cache, code, now) ==>
      Find(urls, code).Some?
      && Shown(cache[code].url, cache[code].active) == RowShows(urls[Find(urls, code).value])
  }

  ghost predicate Sound(s: ServerState, now: int) {
    CodesUnique(s.db.urls) && Coherent(s.db.urls, s.cache, now)
  }

  lemma FindUnique(urls: seq<Url>, id: nat)
    requires CodesUnique(urls) && id < |urls|
    ensures Find(urls, urls[id].shortCode) == Some(id)
  {
  }

  /** A row with a fresh code has no live entry yet. */
  lemma NewRowStaysCoherent(urls: seq<Url>, cache: map<string, Cached>, url: Url, now: int)
    requires Coherent(urls, cache, now) && Find(urls, url.shortCode).None?
    ensures Coherent(urls + [url], cache, now) && Find(urls + [url], url.shortCode) == Some(|urls|)
  {
    FindAppend(urls, url, url.shortCode);
    forall code | Live(cache, code, now) ensures Find(urls + [url], code) == Find(urls, code) {
      FindAppend(urls, url, code);
    }
  }

  lemma CachingStaysCoherent(urls: seq<Url>, cache: map<string, Cached>, code: string, now: int, redis: Redis)
    requires Coherent(urls, cache, now) && Find(urls, code).Some?
    ensures var u := urls[Find(urls, code).value];
            Coherent(urls, CacheRedirect(cache, code, u.originalUrl, u.isActive, now, redis), now)
  {
  }

  /** Changing a row and dropping its code from the cache keeps the cache coherent. */
  lemma ChangeStaysCoherent(urls: seq<Url>, cache: map<string, Cached>, id: nat, u: Url, now: int)
    requires Coherent(urls, cache, now) && id < |urls| && u.shortCode == urls[id].shortCode
    ensures Coherent(urls[id := u], cache - {u.shortCode}, now)
  {
    forall code | Live(cache - {u.shortCode}, code, now) ensures Find(urls[id := u], code) == Find(urls, code) {
      assert Live(cache, code, now);
      FindAfterChange(urls, id, u, code);
    }
  }

  /** Changing a row and keeping its entry does so exactly if the entry is dead or the change does not show. */
  lemma KeptEntryCoherentIff(urls: seq<Url>, cache: map<string, Cached>, id: nat, u: Url, now: int)
    requires CodesUnique(urls) && Coherent(urls, cache, now)
    requires id < |urls| && u.shortCode == urls[id].shortCode
    ensures Coherent(urls[id := u], cache, now)
            <==> !Live(cache, u.shortCode, now) || RowShows(u) == RowShows(urls[id])
  {
    FindUnique(urls, id);
    FindAfterChange(urls, id, u, u.shortCode);
    forall code | Live(cache, code, now) ensures Find(urls[id := u], code) == Find(urls, code) {
      FindAfterChange(urls, id, u, code);
    }
  }

  /** A stored change of row `id`, and the row after it. */
  predicate ChangesRow(r: Request, id: nat) {
    (r.Update? && r.id == id && r.stored && UpdateError(r.body).None?) || r == Delete(id, true)
  }

  function ChangedRow(u: Url, r: Request): (v: Url)
    requires r.Update? ==> r.body.Parsed?
    ensures v.shortCode == u.shortCode
  {
    if r.Update? then Changed(u, r.body) else u.(isActive := false)
  }

  /** If the request changes a row: the DEL succeeds, or there is no live entry, or the change does not show. */
  predicate Harmless(s: ServerState, r: Request, now: int, redis: Redis) {
    (r.Update? || r.Delete?) && ChangesRow(r, r.id) && r.id < |s.db.urls| ==>
      var u := s.db.urls[r.id];
      redis.delOk || !Live(s.cache, u.shortCode, now) || RowShows(ChangedRow(u, r)) == RowShows(u)
  }

  /** Same response, same tables. */
  ghost predicate Invisible(s: ServerState, users: set<int>, r: Request, now: int, redis: Redis) {
    var o, p := Handle(s, users, r, now, redis), PlainHandle(s.db, users, r, now);
    o.response == p.response && o.state.db == p.db
  }

  lemma CreateStaysCoherent(s: ServerState, users: set<int>, r: Request, now: int, redis: Redis)
    requires Coherent(s.db.urls, s.cache, now) && r.Create?
    ensures var after := Handle(s, users, r, now, redis).state; Coherent(after.db.urls, after.cache, now)
  {
    var reply := PlainCreate(s.db, users, r, now);
    if reply.response.CreatedUrl? {
      var url := reply.response.url;
      NewRowStaysCoherent(s.db.urls, s.cache, url, now);
      CachingStaysCoherent(s.db.urls + [url], s.cache, url.shortCode, now, redis);
    }
  }

  /** What an update or a delete of an existing row does to rows and cache. */
  lemma ChangeEffect(s: ServerState, users: set<int>, r: Request, now: int, redis: Redis)
    requires (r.Update? || r.Delete?) && ChangesRow(r, r.id) && r.id < |s.db.urls|
    ensures var after, v := Handle(s, users, r, now, redis).state, ChangedRow(s.db.urls[r.id], r);
            after.db.urls == s.db.urls[r.id := v]
            && after.cache == InvalidateRedirect(s.cache, v.shortCode, redis)
  {
  }

  lemma ChangeCoherentIff(s: ServerState, users: set<int>, r: Request, now: int, redis: Redis)
    requires Sound(s, now) && (r.Update? || r.Delete?)
    ensures var after := Handle(s, users, r, now, redis).state;
            Coherent(after.db.urls, after.cache, now) <==> Harmless(s, r, now, redis)
  {
    if ChangesRow(r, r.id) && r.id < |s.db.urls| {
      ChangeEffect(s, users, r, now, redis);
      var v := ChangedRow(s.db.urls[r.id], r);
      if redis.delOk {
        ChangeStaysCoherent(s.db.urls, s.cache, r.id, v, now);
      } else {
        KeptEntryCoherentIff(s.db.urls, s.cache, r.id, v, now);
      }
    }
  }

  lemma RedirectIsInvisible(s: ServerState, users: set<int>, code: string, now: int, redis: Redis)
    requires Coherent(s.db.urls, s.cache, now)
    ensures Invisible(s, users, Redirect(code), now, redis)
  {
    if GetCachedRedirect(s.cache, code, now, redis).Some? {
      assert Live(s.cache, code, now);
    }
  }

  lemma RedirectStaysCoherent(s: ServerState, users: set<int>, code: string, now: int, redis: Redis)
    requires Coherent(s.db.urls, s.cache, now)
    ensures var after := Handle(s, users, Redirect(code), now, redis).state;
            Coherent(after.db.urls, after.cache, now)
  {
    if Find(s.db.urls, code).Some? {
      CachingStaysCoherent(s.db.urls, s.cache, code, now, redis);
    }
  }

  /**
   One request to a server whose live entries show what their rows show: same response and same tables
   as without a cache, and the entries still do so if and only if the request is harmless.
   */
  lemma RequestIsInvisible(s: ServerState, users: set<int>, r: Request, now: int, redis: Redis)
    requires Sound(s, now)
    ensures Invisible(s, users, r, now, redis)
    ensures Sound(Handle(s, users, r, now, redis).state, now) <==> Harmless(s, r, now, redis)
  {
    CodesStayUnique(s.db, users, r, now);
    match r
    case Create(_, _, _, _, _, _) => CreateStaysCoherent(s, users, r, now, redis);
    case Update(_, _, _) => ChangeCoherentIff(s, users, r, now, redis);
    case Delete(_, _) => ChangeCoherentIff(s, users, r, now, redis);
    case Redirect(code) =>
      RedirectIsInvisible(s, users, code, now, redis);
      RedirectStaysCoherent(s, users, code, now, redis);
  }

  /** A request with the time it is served and how Redis treats it. */
  datatype Arrival = Arrival(request: Request, now: int, redis: Redis)

  datatype Session<S> = Session(state: S, responses: seq<Response>)

  function RunCached(users: set<int>, run: seq<Arrival>): Session<ServerState> {
    if run == [] then Session(EMPTY_SERVER, [])
    else
      var before, a := RunCached(users, run[..|run| - 1]), run[|run| - 1];
      var o := Handle(before.state, users, a.request, a.now, a.redis);
      Session(o.state, before.responses + [o.response])
  }

  function RunPlain(users: set<int>, run: seq<Arrival>): Session<Db> {
    if run == [] then Session(EMPTY_DB, [])
    else
      var before, a := RunPlain(users, run[..|run| - 1]), run[|run| - 1];
      var p := PlainHandle(before.state, users, a.request, a.now);
      Session(p.db, before.responses + [p.response])
  }

  predicate NotBefore(now: int, run: seq<Arrival>) { run == [] || run[|run| - 1].now <= now }

  predicate ForwardClock(run: seq<Arrival>) {
    run == [] || (NotBefore(run[|run| - 1].now, run[..|run| - 1]) && ForwardClock(run[..|run| - 1]))
  }

  /** In the whole run no deletion is lost of a live entry whose row then shows something else. */
  predicate AlwaysHarmless(users: set<int>, run: seq<Arrival>) {
    run == []
    || (var front, a := run[..|run| - 1], run[|run| - 1];
        AlwaysHarmless(users, front) && Harmless(RunCached(users, front).state, a.request, a.now, a.redis))
  }

  /** Nothing but time passes: fewer entries are live. */
  lemma SoundLater(s: ServerState, now: int, later: int)
    requires Sound(s, now) && now <= later
    ensures Sound(s, later)
  {
    assert forall code :: Live(s.cache, code, later) ==> Live(s.cache, code, now);
  }

  /**
   Over any run of requests, with entries expiring as they may and GETs and SETEXs failing at will,
   the cached server gives the same responses and the same tables (so the same click events) as the
   server without a cache, provided each lost DEL is harmless.
   */
  lemma {:induction false} CacheIsInvisible(users: set<int>, run: seq<Arrival>, now: int)
    requires ForwardClock(run) && NotBefore(now, run) && AlwaysHarmless(users, run)
    ensures var c, p := RunCached(users, run), RunPlain(users, run);
            c.responses == p.responses && c.state.db == p.state && Sound(c.state, now)
  {
    if run != [] {
      var front, a := run[..|run| - 1], run[|run| - 1];
      CacheIsInvisible(users, front, a.now);
      RequestIsInvisible(RunCached(users, front).state, users, a.request, a.now, a.redis);
      SoundLater(RunCached(users, run).state, a.now, now);
    }
  }

  lemma SessionStep(users: set<int>, run: seq<Arrival>, a: Arrival)
    ensures var c, p := RunCached(users, run), RunPlain(users, run);
            var o := Handle(c.state, users, a.request, a.now, a.redis);
            var q := PlainHandle(p.state, users, a.request, a.now);
            RunCached(users, run + [a]) == Session(o.state, c.responses + [o.response])
            && RunPlain(users, run + [a]) == Session(q.db, p.responses + [q.response])
  {
    assert (run + [a])[..|run|] == run;
  }

  const ALL_OK := Redis(true, true, true)

  /** Somebody follows `code` while Redis answers. */
  function Probe(code: string, at: int): Arrival { Arrival(Redirect(code), at, ALL_OK) }

  /** A client who follows a link now or later gets what the server without a cache would answer. */
  ghost predicate ProbesAgree(users: set<int>, run: seq<Arrival>) {
    forall code, at :: NotBefore(at, run) ==>
      RunCached(users, run + [Probe(code, at)]).responses == RunPlain(users, run + [Probe(code, at)]).responses
  }

  /** No client could have told the two servers apart by following a link at any moment of the run. */
  ghost predicate Undetected(users: set<int>, run: seq<Arrival>) {
    ProbesAgree(users, run) && (run != [] ==> Undetected(users, run[..|run| - 1]))
  }

  lemma HarmlessProbesAgree(users: set<int>, run: seq<Arrival>)
    requires ForwardClock(run) && AlwaysHarmless(users, run)
    ensures ProbesAgree(users, run)
  {
    forall code, at | NotBefore(at, run)
      ensures RunCached(users, run + [Probe(code, at)]).responses == RunPlain(users, run + [Probe(code, at)]).responses
    {
      CacheIsInvisible(users, run, at);
      RequestIsInvisible(RunCached(users, run).state, users, Redirect(code), at, ALL_OK);
      SessionStep(users, run, Probe(code, at));
    }
  }

  /**
   How long a lost DEL shows: after an update or a delete whose invalidation failed, a redirect then or
   later answers differently from the server without a cache if and only if the code's entry is still
   live and the change altered the active flag or an active row's address.
   */
  lemma LostInvalidationVisibleIff(s: ServerState, users: set<int>, id: nat, r: Request, now: int, at: int,
                                   ok: Redis, lost: Redis)
    requires Sound(s, now) && now <= at && id < |s.db.urls|
    requires ChangesRow(r, id) && !lost.delOk && ok.getOk
    ensures var u, v := s.db.urls[id], ChangedRow(s.db.urls[id], r);
            var after := Handle(s, users, r, now, lost).state;
            Handle(after, users, Redirect(u.shortCode), at, ok).response
              != PlainHandle(after.db, users, Redirect(u.shortCode), at).response
            <==> Live(s.cache, u.shortCode, at)
                 && (u.isActive != v.isActive || (v.isActive && u.originalUrl != v.originalUrl))
  {
    var u := s.db.urls[id];
    ChangeEffect(s, users, r, now, lost);
    FindUnique(s.db.urls, id);
    FindAfterChange(s.db.urls, id, ChangedRow(u, r), u.shortCode);
    if Live(s.cache, u.shortCode, at) {
      assert Live(s.cache, u.shortCode, now);
    }
  }

  /** The server without a cache stands where the cached one does, so one answer tells them apart. */
  lemma ProbeTells(users: set<int>, run: seq<Arrival>, code: string, at: int)
    requires NotBefore(at, run) && RunPlain(users, run).state == RunCached(users, run).state.db
    requires var s := RunCached(users, run).state;
             Handle(s, users, Redirect(code), at, ALL_OK).response
               != PlainHandle(s.db, users, Redirect(code), at).response
    ensures !ProbesAgree(users, run)
  {
    SessionStep(users, run, Probe(code, at));
    var c, p := RunCached(users, run + [Probe(code, at)]), RunPlain(users, run + [Probe(code, at)]);
    assert c.responses[|c.responses| - 1] != p.responses[|p.responses| - 1];
  }

  /** The first lost DEL that is not harmless is seen by whoever follows the link at once. */
  lemma HarmIsSeen(users: set<int>, front: seq<Arrival>, a: Arrival)
    requires ForwardClock(front) && NotBefore(a.now, front) && AlwaysHarmless(users, front)
    requires !Harmless(RunCached(users, front).state, a.request, a.now, a.redis)
    ensures !ProbesAgree(users, front + [a])
  {
    CacheIsInvisible(users, front, a.now);
    var s := RunCached(users, front).state;
    RequestIsInvisible(s, users, a.request, a.now, a.redis);
    LostInvalidationVisibleIff(s, users, a.request.id, a.request, a.now, a.now, ALL_OK, a.redis);
    SessionStep(users, front, a);
    ProbeTells(users, front + [a], s.db.urls[a.request.id].shortCode, a.now);
  }

  /**
   Over every run in which time does not run backwards, no client can tell the two servers apart at any
   moment of it if and only if each lost DEL was of an entry that had expired, or of a row that still
   shows the same.
   */
  lemma {:induction false} UndetectedIff(users: set<int>, run: seq<Arrival>)
    requires ForwardClock(run)
    ensures Undetected(users, run) <==> AlwaysHarmless(users, run)
  {
    if run != [] {
      UndetectedIff(users, run[..|run| - 1]);
    }
    if AlwaysHarmless(users, run) {
      HarmlessProbesAgree(users, run);
    } else if AlwaysHarmless(users, run[..|run| - 1]) {
      assert run == run[..|run| - 1] + [run[|run| - 1]];
      HarmIsSeen(users, run[..|run| - 1], run[|run| - 1]);
    }
  }

  /** A link is created, deactivated with the DEL lost, and followed: only the cached server redirects. */
  lemma LostDeleteIsSeen(address: string)
    ensures var u := Url(1, "c", address, "", true);
            var run := [Arrival(Create(Is(UrlText(address, true)), Is(1), Absent, Is("c"), [], true), 0, ALL_OK),
                        Arrival(Delete(0, true), 1, Redis(true, true, false)),
                        Arrival(Redirect("c"), 2, ALL_OK)];
            RunCached({1}, run).responses == [CreatedUrl(0, u), DeletedUrl, RedirectTo(address)]
            && RunPlain({1}, run).responses == [CreatedUrl(0, u), DeletedUrl, Gone]
  {
    var a := Arrival(Create(Is(UrlText(address, true)), Is(1), Absent, Is("c"), [], true), 0, ALL_OK);
    var b := Arrival(Delete(0, true), 1, Redis(true, true, false));
    var c := Arrival(Redirect("c"), 2, ALL_OK);
    var none: seq<Arrival> := [];
    SessionStep({1}, none, a);
    assert none + [a] == [a];
    SessionStep({1}, [a], b);
    assert [a] + [b] == [a, b];
    SessionStep({1}, [a, b], c);
    assert [a, b] + [c] == [a, b, c];
    var u := Url(1, "c", address, "", true);
    FindAppend([], u, "c");
    assert [] + [u] == [u];
    FindAfterChange([u], 0, u.(isActive := false), "c");
    assert RunCached({1}, [a]).state.db.urls == [u] == RunPlain({1}, [a]).state.urls;
    assert RunCached({1}, [a, b]).state.db.urls == [u.(isActive := false)] == RunPlain({1}, [a, b]).state.urls;
  }
}
