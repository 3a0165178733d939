/** The REST routes under `/api/websites`: each route is a function from the
    database and the request to the response and the database after commit. */
module Routes {
  import opened Common
  import opened Models

  /** A JSON request body as the routes read it: each key they look at is
      either absent or present with a value; `otherKeys` records whether the
      object has keys the routes ignore. */
  datatype Fields = Fields(
    name: Option<string>,
    url: Option<string>,
    checkIntervalMinutes: Option<int>,
    isActive: Option<bool>,
    otherKeys: bool)

  /** Python truthiness of `data`: a missing body and `{}` are both falsy. */
  predicate Truthy(body: Option<Fields>) {
    match body
    case None => false
    case Some(f) =>
      f.name.Some? || f.url.Some? || f.checkIntervalMinutes.Some? || f.isActive.Some? || f.otherKeys
  }

  /** Python truthiness of `data.get(key)` for a string value. */
  predicate Given(v: Option<string>) {
    v.Some? && |v.value| > 0
  }

  /** The `pagination` object of the checks route. */
  datatype Pagination = Pagination(
    total: nat,
    pages: nat,
    page: int,
    perPage: int,
    next: Option<int>,
    prev: Option<int>)

  datatype Payload =
    | NoContent
    | Aborted(description: Option<string>)
    | One(website: WebsiteDict)
    | Many(websites: seq<WebsiteDict>)
    | StatusReport(website: WebsiteDict, latestStatus: Option<StatusDict>, recentChecks: seq<CheckDict>)
    | CheckPage(checks: seq<CheckDict>, pagination: Pagination)

  datatype Response = Response(code: int, payload: Payload)

  /** A response together with the database as committed by the route. */
  datatype Reply = Reply(response: Response, db: Db)

  const DefaultInterval := 5
  const RecentLimit := 10
  const DefaultPage := 1
  const DefaultPerPage := 20

  const NotFound := Response(404, Aborted(None))

  function DecodeChecks(ds: seq<CheckDict>): (cs: seq<Check>)
    ensures |cs| == |ds|
    ensures forall i :: 0 <= i < |ds| ==> cs[i] == CheckFromDict(ds[i])
  {
    seq(|ds|, i requires 0 <= i < |ds| => CheckFromDict(ds[i]))
  }

  function EncodeChecks(cs: seq<Check>): (ds: seq<CheckDict>)
    ensures DecodeChecks(ds) == cs
  {
    seq(|cs|, i requires 0 <= i < |cs| => CheckToDict(cs[i]))
  }

  /** `GET /api/websites`: every stored website, in storage order. */
  function ListWebsites(db: Db): (r: Response)
    ensures r.code == 200 && r.payload.Many?
    ensures |r.payload.websites| == |db.websites|
    ensures forall i :: 0 <= i < |db.websites| ==>
              && WebsiteFromDict(r.payload.websites[i]) == db.websites[i]
              && r.payload.websites[i].latestStatus == GetLatestStatus(db, db.websites[i].id)
  {
    Response(200, Many(seq(|db.websites|, i requires 0 <= i < |db.websites| =>
                                            WebsiteToDict(db, db.websites[i]))))
  }

  /** `GET /api/websites/<id>`. */
  function GetWebsite(db: Db, id: nat): (r: Response)
    ensures r.code == 404 <==> id !in WebsiteIds(db)
    ensures r.code != 404 ==> r.code == 200 && r.payload.One?
                              && r.payload.website.id == id
                              && FindWebsite(db.websites, id).Some?
                              && WebsiteFromDict(r.payload.website) == db.websites[FindWebsite(db.websites, id).value]
                              && r.payload.website.latestStatus == GetLatestStatus(db, id)
  {
    match FindWebsite(db.websites, id)
    case None => NotFound
    case Some(k) => Response(200, One(WebsiteToDict(db, db.websites[k])))
  }

  /** `POST /api/websites`: rejected with 400 and no change unless the body
      has a non-empty name and url; otherwise one website is appended with
      the interval defaulting to 5 minutes and monitoring defaulting to on. */
  function CreateWebsite(db: Db, body: Option<Fields>, now: Timestamp): (r: Reply)
    ensures r.response.code == 400 <==>
              body.None? || !Given(body.value.name) || !Given(body.value.url)
    ensures r.response.code == 400 ==>
              r.db == db && r.response.payload == Aborted(Some("Name and URL are required"))
    ensures r.response.code != 400 ==>
              && r.response.code == 201
              && |r.db.websites| == |db.websites| + 1
              && r.db.websites[..|db.websites|] == db.websites
              && r.db.checks == db.checks
              && var w := r.db.websites[|db.websites|];
              && w.id !in WebsiteIds(db)
              && w.name == body.value.name.value
              && w.url == body.value.url.value
              && w.checkIntervalMinutes == body.value.checkIntervalMinutes.GetOr(5)
              && w.isActive == body.value.isActive.GetOr(true)
              && w.createdAt == Some(now)
              && r.response.payload.One?
              && WebsiteFromDict(r.response.payload.website) == w
              && (Valid(db) ==> r.response.payload.website.latestStatus.None?)
    ensures Valid(db) ==> Valid(r.db)
  {
    if !Truthy(body) || !Given(body.value.name) || !Given(body.value.url) then
      Reply(Response(400, Aborted(Some("Name and URL are required"))), db)
    else
      var f := body.value;
      var w := Website(NextWebsiteId(db), f.name.value, f.url.value,
                       f.checkIntervalMinutes.GetOr(DefaultInterval), Some(now),
                       f.isActive.GetOr(true));
      var db' := Db(db.websites + [w], db.checks);
      assert db'.websites[..|db.websites|] == db.websites;
      assert WebsiteIds(db') == WebsiteIds(db) + {w.id};
      assert Valid(db) ==> Valid(db') by {
        if Valid(db) {
          forall i, j | 0 <= i < j < |db'.websites|
            ensures db'.websites[i].id != db'.websites[j].id
          {
            if j == |db.websites| {
              assert db'.websites[i] in db.websites;
            }
          }
        }
      }
      Reply(Response(201, One(WebsiteToDict(db', w))), db')
  }

  /** Field-wise reading of a partial update: a key present in the body sets
      that column, an absent key leaves it, and the key columns never change. */
  ghost predicate UpdatedFrom(before: Website, after: Website, f: Fields) {
    && after.id == before.id
    && after.createdAt == before.createdAt
    && after.name == (if f.name.Some? then f.name.value else before.name)
    && after.url == (if f.url.Some? then f.url.value else before.url)
    && after.checkIntervalMinutes ==
         (if f.checkIntervalMinutes.Some? then f.checkIntervalMinutes.value else before.checkIntervalMinutes)
    && after.isActive == (if f.isActive.Some? then f.isActive.value else before.isActive)
  }

  function ApplyFields(w: Website, f: Fields): (r: Website)
    ensures UpdatedFrom(w, r, f)
  {
    var w1 := if f.name.Some? then w.(name := f.name.value) else w;
    var w2 := if f.url.Some? then w1.(url := f.url.value) else w1;
    var w3 := if f.checkIntervalMinutes.Some? then w2.(checkIntervalMinutes := f.checkIntervalMinutes.value) else w2;
    if f.isActive.Some? then w3.(isActive := f.isActive.value) else w3
  }

  /** `PUT /api/websites/<id>`: 404 for an unknown id, 400 for a missing or
      empty body, otherwise exactly the supplied fields of that one website
      change. */
  function UpdateWebsite(db: Db, id: nat, body: Option<Fields>): (r: Reply)
    ensures r.response.code == 404 <==> id !in WebsiteIds(db)
    ensures r.response.code == 400 <==> id in WebsiteIds(db) && !Truthy(body)
    ensures r.response.code in {400, 404} ==> r.db == db
    ensures r.response.code !in {400, 404} ==>
              && r.response.code == 200
              && r.db.checks == db.checks
              && |r.db.websites| == |db.websites|
              && exists k :: && 0 <= k < |db.websites|
                             && db.websites[k].id == id
                             && UpdatedFrom(db.websites[k], r.db.websites[k], body.value)
                             && (forall i :: 0 <= i < |db.websites| && i != k ==>
                                               r.db.websites[i] == db.websites[i])
                             && r.response.payload == One(WebsiteToDict(r.db, r.db.websites[k]))
    ensures Valid(db) ==> Valid(r.db)
  {
    match FindWebsite(db.websites, id)
    case None => Reply(NotFound, db)
    case Some(k) =>
      if !Truthy(body) then
        Reply(Response(400, Aborted(Some("No data provided"))), db)
      else
        var w := ApplyFields(db.websites[k], body.value);
        var db' := Db(db.websites[k := w], db.checks);
        ReplaceKeepsValid(db, k, w);
        Reply(Response(200, One(WebsiteToDict(db', w))), db')
  }

  /** Replacing a website by one with the same id keeps the id set and validity. */
  lemma ReplaceKeepsValid(db: Db, k: nat, w: Website)
    requires k < |db.websites| && w.id == db.websites[k].id
    ensures WebsiteIds(Db(db.websites[k := w], db.checks)) == WebsiteIds(db)
    ensures Valid(db) ==> Valid(Db(db.websites[k := w], db.checks))
  {
    var db' := Db(db.websites[k := w], db.checks);
    forall x | x in WebsiteIds(db) ensures x in WebsiteIds(db') {
      var v :| v in db.websites && v.id == x;
      var m :| 0 <= m < |db.websites| && db.websites[m] == v;
      assert db'.websites[m].id == x;
    }
    forall x | x in WebsiteIds(db') ensures x in WebsiteIds(db) {
      var v :| v in db'.websites && v.id == x;
      var m :| 0 <= m < |db'.websites| && db'.websites[m] == v;
      assert db.websites[m].id == x;
    }
    if Valid(db) {
      forall i, j | 0 <= i < j < |db'.websites|
        ensures db'.websites[i].id != db'.websites[j].id
      {
        assert db'.websites[i].id == db.websites[i].id;
        assert db'.websites[j].id == db.websites[j].id;
      }
    }
  }

  /** Sending the same update twice has the effect of sending it once. */
  lemma UpdateIdempotent(db: Db, id: nat, body: Option<Fields>)
    ensures UpdateWebsite(UpdateWebsite(db, id, body).db, id, body).db == UpdateWebsite(db, id, body).db
  {
    match FindWebsite(db.websites, id)
    case None =>
    case Some(k) =>
      if Truthy(body) {
        var w := ApplyFields(db.websites[k], body.value);
        var ws := db.websites[k := w];
        FindFirst(ws, id, k);
        assert ApplyFields(w, body.value) == w;
        assert ws[k := w] == ws;
      }
  }

  /** The first website carrying `id` is the one `FindWebsite` returns. */
  lemma {:induction false} FindFirst(ws: seq<Website>, id: nat, k: nat)
    requires k < |ws| && ws[k].id == id
    requires forall i :: 0 <= i < k ==> ws[i].id != id
    ensures FindWebsite(ws, id) == Some(k)
  {
    if k > 0 {
      FindFirst(ws[1..], id, k - 1);
    }
  }

  /** `DELETE /api/websites/<id>`: 404 for an unknown id; otherwise 204 with
      an empty body, the website and all of its checks are gone, and nothing
      else changes. */
  function DeleteWebsite(db: Db, id: nat): (r: Reply)
    ensures r.response.code == 404 <==> id !in WebsiteIds(db)
    ensures r.response.code == 404 ==> r.db == db
    ensures r.response.code != 404 ==>
              && r.response == Response(204, NoContent)
              && id !in WebsiteIds(r.db)
              && (forall c :: c in r.db.checks ==> c.websiteId != id)
              && (forall w :: w in r.db.websites <==> w in db.websites && w.id != id)
              && (forall c :: c in r.db.checks <==> c in db.checks && c.websiteId != id)
    ensures Valid(db) ==> Valid(r.db)
  {
    match FindWebsite(db.websites, id)
    case None => Reply(NotFound, db)
    case Some(_) =>
      assert Valid(db) ==> Valid(CascadeDelete(db, id)) by {
        if Valid(db) {
          CascadeDeleteValid(db, id);
        }
      }
      Reply(Response(204, NoContent), CascadeDelete(db, id))
  }

  function Take<T>(s: seq<T>, n: nat): (r: seq<T>)
    ensures |r| == if |s| < n then |s| else n
    ensures r == s[..|r|]
  {
    if |s| <= n then s else s[..n]
  }

  /** The at most ten newest checks of website `id`, newest first. */
  function RecentChecks(db: Db, id: nat): (r: seq<Check>)
    ensures |r| <= RecentLimit
    ensures var n := |Filter(db.checks, BelongsTo(id))|;
            |r| == if n < RecentLimit then n else RecentLimit
    ensures NewestFirst(r)
    ensures forall c :: c in r ==> c in db.checks && c.websiteId == id
    ensures forall c, d :: c in db.checks && c.websiteId == id && c !in r && d in r ==> Key(c) <= Key(d)
    ensures multiset(r) <= multiset(Filter(db.checks, BelongsTo(id)))
  {
    var h := History(db, id);
    var r := Take(h, RecentLimit);
    assert h == r + h[|r|..];
    HistoryLength(db, id);
    TakeKeepsNewest(h, RecentLimit);
    r
  }

  lemma HistoryLength(db: Db, id: nat)
    ensures |History(db, id)| == |Filter(db.checks, BelongsTo(id))|
  {
    assert |multiset(History(db, id))| == |multiset(Filter(db.checks, BelongsTo(id)))|;
  }

  /** A prefix of a newest-first sequence is newest first, and nothing left
      out of it is newer than anything in it. */
  lemma TakeKeepsNewest(h: seq<Check>, n: nat)
    requires NewestFirst(h)
    ensures NewestFirst(Take(h, n))
    ensures forall c, d :: c in h && c !in Take(h, n) && d in Take(h, n) ==> Key(c) <= Key(d)
  {
    var r := Take(h, n);
    forall c, d | c in h && c !in r && d in r
      ensures Key(c) <= Key(d)
    {
      var m :| 0 <= m < |h| && h[m] == c;
      var j :| 0 <= j < |r| && r[j] == d;
      assert h[j] == d;
    }
  }

  /** `GET /api/websites/<id>/status`: the website, its latest status, and its
      at most ten newest checks, newest first. */
  function WebsiteStatus(db: Db, id: nat): (r: Response)
    ensures r.code == 404 <==> id !in WebsiteIds(db)
    ensures r.code != 404 ==>
              && r.code == 200
              && r.payload.StatusReport?
              && r.payload.website.id == id
              && FindWebsite(db.websites, id).Some?
              && WebsiteFromDict(r.payload.website) == db.websites[FindWebsite(db.websites, id).value]
              && r.payload.latestStatus == GetLatestStatus(db, id)
              && r.payload.latestStatus == r.payload.website.latestStatus
              && DecodeChecks(r.payload.recentChecks) == RecentChecks(db, id)
              && (r.payload.latestStatus.None? <==> forall c :: c in db.checks ==> c.websiteId != id)
              && var recent := DecodeChecks(r.payload.recentChecks);
              && |recent| <= RecentLimit
              && NewestFirst(recent)
              && (forall c :: c in recent ==> c in db.checks && c.websiteId == id)
              && (forall c, d :: c in db.checks && c.websiteId == id && c !in recent && d in recent ==>
                                   Key(c) <= Key(d))
  {
    match FindWebsite(db.websites, id)
    case None => NotFound
    case Some(k) =>
      Response(200, StatusReport(WebsiteToDict(db, db.websites[k]), GetLatestStatus(db, id),
                                 EncodeChecks(RecentChecks(db, id))))
  }

  /** Flask-SQLAlchemy's page slice for positive arguments. */
  function Window<T>(s: seq<T>, page: int, perPage: int): (r: seq<T>)
    ensures page >= 1 && perPage >= 1 ==> |r| <= perPage
    ensures page < 1 || perPage < 1 ==> r == []
    ensures forall x :: x in r ==> x in s
  {
    if page < 1 || perPage < 1 then []
    else
      var start := (page - 1) * perPage;
      if start >= |s| then []
      else if start + perPage >= |s| then s[start..]
      else s[start..start + perPage]
  }

  lemma WindowKeepsOrder(h: seq<Check>, page: int, perPage: int)
    requires NewestFirst(h)
    ensures NewestFirst(Window(h, page, perPage))
  {
    if page >= 1 && perPage >= 1 {
      var start := (page - 1) * perPage;
      var items := Window(h, page, perPage);
      if start < |h| {
        forall i, j | 0 <= i < j < |items|
          ensures Key(items[i]) >= Key(items[j])
        {
          assert items[i] == h[start + i] && items[j] == h[start + j];
        }
      }
    }
  }

  /** Paging covers the whole list: the item at index `i` is shown on page
      `i / perPage + 1`, at position `i % perPage` of that page. */
  lemma WindowPosition<T>(s: seq<T>, perPage: int, i: nat)
    requires perPage >= 1 && i < |s|
    ensures var w := Window(s, i / perPage + 1, perPage);
            i % perPage < |w| && w[i % perPage] == s[i]
  {
    var q, m := i / perPage, i % perPage;
    var start := (i / perPage + 1 - 1) * perPage;
    assert start == q * perPage;
    assert q * perPage + m == i;
  }

  /** Number of pages: zero without items, else the ceiling of total / per_page. */
  function PageCount(total: nat, perPage: int): (n: nat)
    ensures perPage >= 1 ==> (n - 1) * perPage < total <= n * perPage || (total == 0 && n == 0)
  {
    if total == 0 || perPage < 1 then 0 else (total + perPage - 1) / perPage
  }

  /** `GET /api/websites/<id>/checks?page=&per_page=`: a missing or
      non-integer `page` reads as 1 and `per_page` as 20, both are echoed
      back, and the page holds only that website's checks, newest first. */
  function WebsiteChecks(db: Db, id: nat, pageArg: Option<int>, perPageArg: Option<int>): (r: Response)
    ensures r.code == 404 <==> id !in WebsiteIds(db)
    ensures r.code != 404 ==>
              && r.code == 200
              && r.payload.CheckPage?
              && r.payload.pagination.page == pageArg.GetOr(DefaultPage)
              && r.payload.pagination.perPage == perPageArg.GetOr(DefaultPerPage)
              && r.payload.pagination.total == |Filter(db.checks, BelongsTo(id))|
              && r.payload.pagination.pages == PageCount(r.payload.pagination.total, r.payload.pagination.perPage)
              && (r.payload.pagination.next.Some? <==> r.payload.pagination.page < r.payload.pagination.pages)
              && (r.payload.pagination.prev.Some? <==> r.payload.pagination.page > 1)
              && (r.payload.pagination.next.Some? ==> r.payload.pagination.next.value == r.payload.pagination.page + 1)
              && (r.payload.pagination.prev.Some? ==> r.payload.pagination.prev.value == r.payload.pagination.page - 1)
              && var items := DecodeChecks(r.payload.checks);
              && items == Window(History(db, id), r.payload.pagination.page, r.payload.pagination.perPage)
              && |items| <= (if perPageArg.GetOr(DefaultPerPage) < 0 then 0 else perPageArg.GetOr(DefaultPerPage))
              && NewestFirst(items)
              && (forall c :: c in items ==> c in db.checks && c.websiteId == id)
  {
    match FindWebsite(db.websites, id)
    case None => NotFound
    case Some(_) =>
      var page := pageArg.GetOr(DefaultPage);
      var perPage := perPageArg.GetOr(DefaultPerPage);
      var h := History(db, id);
      HistoryLength(db, id);
      var items := Window(h, page, perPage);
      WindowKeepsOrder(h, page, perPage);
      var pages := PageCount(|h|, perPage);
      var pagination := Pagination(|h|, pages, page, perPage,
                                   if page < pages then Some(page + 1) else None,
                                   if page > 1 then Some(page - 1) else None);
      Response(200, CheckPage(EncodeChecks(items), pagination))
  }

  /** The first page of ten from the checks route is exactly the recent
      checks of the status route. */
  lemma FirstPageIsRecent(db: Db, id: nat)
    requires id in WebsiteIds(db)
    ensures WebsiteChecks(db, id, Some(1), Some(10)).payload.checks
         == WebsiteStatus(db, id).payload.recentChecks
  {
    var h := History(db, id);
    assert Window(h, 1, 10) == Take(h, RecentLimit);
  }
}
