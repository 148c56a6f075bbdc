/**
 The URL shortener's persistent side: the `urls` and `events` tables, the requests, and the four
 handlers as they would be without any cache.
 */
module UrlTable {
  import opened Wrappers

  datatype Url = Url(userId: int, shortCode: string, originalUrl: string, title: string, isActive: bool)

  datatype EventKind = CreatedEvent | UpdatedEvent | DeletedEvent | ClickEvent

  datatype Event = Event(urlId: nat, userId: int, kind: EventKind, at: int)

  /** Rows are never removed, so a row's id is its position. */
  datatype Db = Db(urls: seq<Url>, events: seq<Event>)

  const EMPTY_DB := Db([], [])

  /** A JSON field: absent, of the wrong type, or usable. */
  datatype Field<T> = Absent | WrongType | Is(value: T)

  /** `valid` is the verdict of the URL parser on a string. */
  datatype UrlText = UrlText(text: string, valid: bool)

  datatype Request =
    | Create(originalUrl: Field<UrlText>, userId: Field<int>, title: Field<string>, shortCode: Field<string>,
             draws: seq<string>, stored: bool)
    | Update(id: nat, body: UpdateBody, stored: bool)
    | Delete(id: nat, stored: bool)
    | Redirect(code: string)

  datatype UpdateBody =
    | Unparsable
    | Parsed(originalUrl: Field<UrlText>, title: Field<string>, isActive: Field<bool>, otherKeys: bool)

  datatype Response =
    | BadRequest | NotFound | Conflict | Gone
    | ServerError          // the transaction was rolled back
    | NoAnswer             // the code generator never found a free code
    | CreatedUrl(id: nat, url: Url)
    | UpdatedUrl(url: Url)
    | DeletedUrl
    | NothingToDelete
    | RedirectTo(location: string)

  // ---------------------------------------------------------------- lookups

  /** The row with this short code. */
  function Find(urls: seq<Url>, code: string): (r: Option<nat>)
    ensures r.Some? ==> r.value < |urls| && urls[r.value].shortCode == code
    ensures r.None? <==> forall u <- urls :: u.shortCode != code
  {
    if urls == [] then None
    else
      var front := Find(urls[..|urls| - 1], code);
      if front.Some? then front
      else if urls[|urls| - 1].shortCode == code then Some(|urls| - 1)
      else None
  }

  lemma FindAppend(urls: seq<Url>, u: Url, code: string)
    ensures Find(urls + [u], code)
            == if Find(urls, code).Some? then Find(urls, code)
               else if u.shortCode == code then Some(|urls|) else None
  {
    assert (urls + [u])[..|urls|] == urls;
  }

  lemma {:induction false} FindAfterChange(urls: seq<Url>, id: nat, u: Url, code: string)
    requires id < |urls| && u.shortCode == urls[id].shortCode
    ensures Find(urls[id := u], code) == Find(urls, code)
  {
    var front := urls[..|urls| - 1];
    if id < |front| {
      assert urls[id := u][..|urls| - 1] == front[id := u];
      FindAfterChange(front, id, u, code);
    } else {
      assert urls[id := u][..|urls| - 1] == front;
    }
  }

  /** The first drawn code that no row uses. */
  function FirstFree(urls: seq<Url>, draws: seq<string>): (r: Option<string>)
    ensures r.Some? ==> r.value in draws && Find(urls, r.value).None?
    ensures r.None? ==> forall d <- draws :: Find(urls, d).Some?
  {
    if draws == [] then None
    else if Find(urls, draws[0]).None? then Some(draws[0])
    else FirstFree(urls, draws[1..])
  }

  // ---------------------------------------------------------------- request checks

  /** Checks in the order the handler makes them; none when the request may be stored. */
  function CreateError(users: set<int>, r: Request): Option<Response>
    requires r.Create?
  {
    if r.originalUrl.Absent? || r.userId.Absent? then Some(BadRequest)
    else if r.originalUrl.WrongType? || !r.originalUrl.value.valid then Some(BadRequest)
    else if r.userId.WrongType? then Some(BadRequest)
    else if r.title.WrongType? then Some(BadRequest)
    else if r.userId.value !in users then Some(NotFound)
    else if r.shortCode.WrongType? then Some(BadRequest)
    else None
  }

  function RequestedCode(urls: seq<Url>, r: Request): Option<string>
    requires r.Create?
  {
    if r.shortCode.Is? && r.shortCode.value != [] then Some(r.shortCode.value) else FirstFree(urls, r.draws)
  }

  function NewUrl(r: Request, code: string): Url
    requires r.Create? && r.originalUrl.Is? && r.userId.Is?
  {
    Url(r.userId.value, code, r.originalUrl.value.text, if r.title.Is? then r.title.value else "", true)
  }

  function UpdateError(b: UpdateBody): Option<Response> {
    if b.Unparsable? then Some(BadRequest)
    else if b.originalUrl.Absent? && b.title.Absent? && b.isActive.Absent? && !b.otherKeys then Some(BadRequest)
    else if b.originalUrl.WrongType? || (b.originalUrl.Is? && !b.originalUrl.value.valid) then Some(BadRequest)
    else if b.title.WrongType? || b.isActive.WrongType? then Some(BadRequest)
    else None
  }

  function Changed(u: Url, b: UpdateBody): Url
    requires b.Parsed?
  {
    u.(originalUrl := if b.originalUrl.Is? then b.originalUrl.value.text else u.originalUrl,
       title := if b.title.Is? then b.title.value else u.title,
       isActive := if b.isActive.Is? then b.isActive.value else u.isActive)
  }

  function WithEvent(db: Db, id: nat, kind: EventKind, now: int): Db
    requires id < |db.urls|
  {
    db.(events := db.events + [Event(id, db.urls[id].userId, kind, now)])
  }

  // ---------------------------------------------------------------- the server without a cache

  datatype Reply = Reply(db: Db, response: Response)

  function PlainCreate(db: Db, users: set<int>, r: Request, now: int): Reply
    requires r.Create?
  {
    var error := CreateError(users, r);
    if error.Some? then Reply(db, error.value)
    else
      var code := RequestedCode(db.urls, r);
      if code.None? then Reply(db, NoAnswer)
      else if Find(db.urls, code.value).Some? then Reply(db, Conflict)
      else if !r.stored then Reply(db, ServerError)
      else
        var id, url := |db.urls|, NewUrl(r, code.value);
        Reply(WithEvent(db.(urls := db.urls + [url]), id, CreatedEvent, now), CreatedUrl(id, url))
  }

  function PlainUpdate(db: Db, r: Request, now: int): Reply
    requires r.Update?
  {
    if r.id >= |db.urls| then Reply(db, NotFound)
    else
      var error := UpdateError(r.body);
      if error.Some? then Reply(db, error.value)
      else if !r.stored then Reply(db, ServerError)
      else
        var url := Changed(db.urls[r.id], r.body);
        Reply(WithEvent(db.(urls := db.urls[r.id := url]), r.id, UpdatedEvent, now), UpdatedUrl(url))
  }

  function PlainDelete(db: Db, r: Request, now: int): Reply
    requires r.Delete?
  {
    if r.id >= |db.urls| then Reply(db, NothingToDelete)
    else if !r.stored then Reply(db, ServerError)
    else
      Reply(WithEvent(db.(urls := db.urls[r.id := db.urls[r.id].(isActive := false)]), r.id, DeletedEvent, now),
            DeletedUrl)
  }

  function PlainRedirect(db: Db, code: string, now: int): Reply {
    var id := Find(db.urls, code);
    if id.None? then Reply(db, NotFound)
    else if !db.urls[id.value].isActive then Reply(db, Gone)
    else Reply(WithEvent(db, id.value, ClickEvent, now), RedirectTo(db.urls[id.value].originalUrl))
  }

  function PlainHandle(db: Db, users: set<int>, r: Request, now: int): Reply {
    match r
    case Create(_, _, _, _, _, _) => PlainCreate(db, users, r, now)
    case Update(_, _, _) => PlainUpdate(db, r, now)
    case Delete(_, _) => PlainDelete(db, r, now)
    case Redirect(code) => PlainRedirect(db, code, now)
  }

  ghost predicate CodesUnique(urls: seq<Url>) {
    forall i, j :: 0 <= i < j < |urls| ==> urls[i].shortCode != urls[j].shortCode
  }

  /** No request can give two rows the same short code. */
  lemma CodesStayUnique(db: Db, users: set<int>, r: Request, now: int)
    requires CodesUnique(db.urls)
    ensures CodesUnique(PlainHandle(db, users, r, now).db.urls)
  {
    if r.Create? {
      var code := RequestedCode(db.urls, r);
      if code.Some? && Find(db.urls, code.value).None? {
        assert forall i :: 0 <= i < |db.urls| ==> db.urls[i] in db.urls && db.urls[i].shortCode != code.value;
      }
    }
  }
}
