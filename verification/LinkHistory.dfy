/**
 What a short link answers and what is logged about it, told from the requests and their answers: over every
 run a redirect shows what the last stored create, update or delete of the link left.
 */
module LinkHistory {
  import opened Wrappers
  import opened UrlTable
  import opened RedirectCache
  import opened UrlEffects

  /** A link as its requests left it. */
  datatype Link = Link(id: nat, owner: int, address: string, active: bool)

  /** What a request that was answered in this way did to the link with this code. */
  function LinkWith(link: Option<Link>, r: Request, answer: Response, code: string): Option<Link> {
    match r
    case Create(originalUrl, userId, _, _, _, _) =>
      if answer.CreatedUrl? && answer.url.shortCode == code && originalUrl.Is? && userId.Is?
      then Some(Link(answer.id, userId.value, originalUrl.value.text, true)) else link
    case Update(id, body, _) =>
      if answer.UpdatedUrl? && link.Some? && link.value.id == id && body.Parsed?
      then Some(link.value.(
             address := if body.originalUrl.Is? then body.originalUrl.value.text else link.value.address,
             active := if body.isActive.Is? then body.isActive.value else link.value.active))
      else link
    case Delete(id, _) =>
      if answer.DeletedUrl? && link.Some? && link.value.id == id then Some(link.value.(active := false)) else link
    case Redirect(_) => link
  }

  /** The link with this code after the run. */
  function LinkAfter(run: seq<Arrival>, answers: seq<Response>, code: string): Option<Link>
    requires |run| == |answers|
  {
    if run == [] then None
    else
      var n := |run| - 1;
      LinkWith(LinkAfter(run[..n], answers[..n], code), run[n].request, answers[n], code)
  }

  /** What following the link answers. */
  function Answer(link: Option<Link>): Response {
    if link.None? then NotFound else if link.value.active then RedirectTo(link.value.address) else Gone
  }

  /** Who owns the row, by the request that created it. */
  function OwnerAfter(run: seq<Arrival>, answers: seq<Response>, id: nat): Option<int>
    requires |run| == |answers|
  {
    if run == [] then None
    else
      var n, r := |run| - 1, run[|run| - 1].request;
      if r.Create? && answers[n].CreatedUrl? && answers[n].id == id && r.userId.Is? then Some(r.userId.value)
      else OwnerAfter(run[..n], answers[..n], id)
  }

  /** The event an answered request leaves behind, if any. */
  function EventOf(run: seq<Arrival>, answers: seq<Response>): seq<Event>
    requires |run| == |answers| > 0
  {
    var n := |run| - 1;
    var front, before := run[..n], answers[..n];
    var r, now := run[n].request, run[n].now;
    match r
    case Create(_, userId, _, _, _, _) =>
      if answers[n].CreatedUrl? && userId.Is? then [Event(answers[n].id, userId.value, CreatedEvent, now)] else []
    case Update(id, _, _) =>
      var owner := OwnerAfter(front, before, id);
      if answers[n].UpdatedUrl? && owner.Some? then [Event(id, owner.value, UpdatedEvent, now)] else []
    case Delete(id, _) =>
      var owner := OwnerAfter(front, before, id);
      if answers[n].DeletedUrl? && owner.Some? then [Event(id, owner.value, DeletedEvent, now)] else []
    case Redirect(code) =>
      var link := LinkAfter(front, before, code);
      if answers[n].RedirectTo? && link.Some? then [Event(link.value.id, link.value.owner, ClickEvent, now)] else []
  }

  function EventsAfter(run: seq<Arrival>, answers: seq<Response>): seq<Event>
    requires |run| == |answers|
  {
    if run == [] then []
    else EventsAfter(run[..|run| - 1], answers[..|run| - 1]) + EventOf(run, answers)
  }

  // ---------------------------------------------------------------- the tables say the same

  /** The table's row for the code is the link. */
  ghost predicate RowIsLink(rows: seq<Url>, code: string, link: Option<Link>) {
    (forall i :: 0 <= i < |rows| && rows[i].shortCode == code ==>
       link == Some(Link(i, rows[i].userId, rows[i].originalUrl, rows[i].isActive)))
    && (link.Some? ==> link.value.id < |rows| && rows[link.value.id].shortCode == code)
  }

  ghost predicate RowHasOwner(rows: seq<Url>, id: nat, owner: Option<int>) {
    owner == if id < |rows| then Some(rows[id].userId) else None
  }

  lemma CreateIsLink(db: Db, users: set<int>, r: Request, now: int, code: string, link: Option<Link>)
    requires r.Create? && RowIsLink(db.urls, code, link)
    ensures var p := PlainHandle(db, users, r, now); RowIsLink(p.db.urls, code, LinkWith(link, r, p.response, code))
  {
    var p := PlainHandle(db, users, r, now);
    if p.response.CreatedUrl? {
      assert forall i :: 0 <= i < |db.urls| ==> db.urls[i] in db.urls;
    }
  }

  lemma ChangeIsLink(db: Db, users: set<int>, r: Request, now: int, code: string, link: Option<Link>)
    requires !r.Create? && RowIsLink(db.urls, code, link)
    ensures var p := PlainHandle(db, users, r, now); RowIsLink(p.db.urls, code, LinkWith(link, r, p.response, code))
  {
  }

  lemma OwnerIsKept(db: Db, users: set<int>, r: Request, now: int, id: nat)
    ensures var p := PlainHandle(db, users, r, now);
            RowHasOwner(p.db.urls, id,
                        if r.Create? && p.response.CreatedUrl? && p.response.id == id && r.userId.Is?
                        then Some(r.userId.value)
                        else if id < |db.urls| then Some(db.urls[id].userId) else None)
  {
  }

  lemma FindIsLink(rows: seq<Url>, code: string, link: Option<Link>)
    requires RowIsLink(rows, code, link)
    ensures Find(rows, code) == if link.Some? then Some(link.value.id) else None
  {
    assert forall i :: 0 <= i < |rows| ==> rows[i] in rows;
  }

  lemma RunLengths(users: set<int>, run: seq<Arrival>)
    ensures |RunPlain(users, run).responses| == |run| && |RunCached(users, run).responses| == |run|
  {
    if run != [] { RunLengths(users, run[..|run| - 1]); }
  }

  /** In every run of the server without a cache the rows are the links and their owners. */
  lemma {:induction false} RowsAreLinks(users: set<int>, run: seq<Arrival>, code: string, id: nat)
    ensures var p := RunPlain(users, run);
            |p.responses| == |run|
            && RowIsLink(p.state.urls, code, LinkAfter(run, p.responses, code))
            && RowHasOwner(p.state.urls, id, OwnerAfter(run, p.responses, id))
  {
    if run != [] {
      var front, a := run[..|run| - 1], run[|run| - 1];
      var before, after := RunPlain(users, front), RunPlain(users, run);
      RowsAreLinks(users, front, code, id);
      assert after.responses[..|run| - 1] == before.responses;
      if a.request.Create? {
        CreateIsLink(before.state, users, a.request, a.now, code, LinkAfter(front, before.responses, code));
      } else {
        ChangeIsLink(before.state, users, a.request, a.now, code, LinkAfter(front, before.responses, code));
      }
      OwnerIsKept(before.state, users, a.request, a.now, id);
    }
  }

  /** What one request adds to the event table. */
  lemma EventIsAdded(users: set<int>, front: seq<Arrival>, a: Arrival)
    ensures var before, after := RunPlain(users, front), RunPlain(users, front + [a]);
            |after.responses| == |front + [a]|
            && after.state.events == before.state.events + EventOf(front + [a], after.responses)
  {
    var run := front + [a];
    var before, after := RunPlain(users, front), RunPlain(users, run);
    assert run[..|front|] == front;
    RunLengths(users, front);
    assert after.responses[..|front|] == before.responses;
    match a.request
    case Create(_, _, _, _, _, _) =>
    case Update(id, _, _) => RowsAreLinks(users, front, "", id);
    case Delete(id, _) => RowsAreLinks(users, front, "", id);
    case Redirect(code) =>
      RowsAreLinks(users, front, code, 0);
      FindIsLink(before.state.urls, code, LinkAfter(front, before.responses, code));
  }

  lemma {:induction false} EventsAreHistory(users: set<int>, run: seq<Arrival>)
    ensures var p := RunPlain(users, run);
            |p.responses| == |run| && p.state.events == EventsAfter(run, p.responses)
  {
    if run != [] {
      var front, a := run[..|run| - 1], run[|run| - 1];
      EventsAreHistory(users, front);
      assert run == front + [a];
      EventIsAdded(users, front, a);
      assert RunPlain(users, run).responses[..|front|] == RunPlain(users, front).responses;
    }
  }

  // ---------------------------------------------------------------- the server with its cache

  /**
   Over every run in time order in which each lost DEL is harmless, the events stored are those of the
   requests answered, and whoever follows a link next, whether Redis answers or not, gets what the last
   stored create, update or delete of that link left.
   */
  lemma FollowedLink(users: set<int>, run: seq<Arrival>, code: string, at: int, redis: Redis)
    requires ForwardClock(run) && NotBefore(at, run) && AlwaysHarmless(users, run)
    ensures var c := RunCached(users, run);
            |c.responses| == |run|
            && c.state.db.events == EventsAfter(run, c.responses)
            && Handle(c.state, users, Redirect(code), at, redis).response == Answer(LinkAfter(run, c.responses, code))
  {
    CacheIsInvisible(users, run, at);
    EventsAreHistory(users, run);
    RowsAreLinks(users, run, code, 0);
    var p := RunPlain(users, run);
    FindIsLink(p.state.urls, code, LinkAfter(run, p.responses, code));
    RequestIsInvisible(RunCached(users, run).state, users, Redirect(code), at, redis);
  }

  /** Following the link of row `id` shows the row. */
  lemma RowIsFollowed(s: ServerState, users: set<int>, id: nat, at: int, redis: Redis)
    requires Sound(s, at) && id < |s.db.urls|
    ensures var u := s.db.urls[id];
            Handle(s, users, Redirect(u.shortCode), at, redis).response
            == if u.isActive then RedirectTo(u.originalUrl) else Gone
  {
    FindUnique(s.db.urls, id);
    RequestIsInvisible(s, users, Redirect(s.db.urls[id].shortCode), at, redis);
  }

  /**
   A stored update takes effect at once: if its DEL is not lost, whoever follows the link next is told that
   it is gone if the body made it inactive, and is sent to the new address if the body gave one and the link
   is active.
   */
  lemma UpdateTakesEffect(users: set<int>, run: seq<Arrival>, update: Arrival, at: int, redis: Redis)
    requires ForwardClock(run) && NotBefore(update.now, run) && AlwaysHarmless(users, run) && update.now <= at
    requires update.request.Update? && update.redis.delOk
    requires |RunCached(users, run + [update]).responses| > |run|
    requires RunCached(users, run + [update]).responses[|run|].UpdatedUrl?
    ensures update.request.body.Parsed?
    ensures var c, body := RunCached(users, run + [update]), update.request.body;
            var shown := c.responses[|run|].url;
            var next := Handle(c.state, users, Redirect(shown.shortCode), at, redis).response;
            (body.isActive == Is(false) ==> next == Gone)
            && (body.originalUrl.Is? && shown.isActive ==> next == RedirectTo(body.originalUrl.value.text))
            && (shown.isActive ==> next == RedirectTo(shown.originalUrl)) && (!shown.isActive ==> next == Gone)
  {
    var before, r := RunCached(users, run), update.request;
    var o := Handle(before.state, users, r, update.now, update.redis);
    RunLengths(users, run);
    SessionStep(users, run, update);
    CacheIsInvisible(users, run, update.now);
    UpdateMeans(before.state, users, r, update.now, update.redis);
    RequestIsInvisible(before.state, users, r, update.now, update.redis);
    SoundLater(o.state, update.now, at);
    RowIsFollowed(o.state, users, r.id, at, redis);
  }
}
