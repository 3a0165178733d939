/** The back end's persistent data: monitored websites and the check records
    taken of them, their JSON serialisation, and the "latest status" query. */
module Models {
  import opened Common

  /** A monitored website. `name` and `url` are NOT NULL columns; the other
      columns carry defaults applied by the create route. */
  datatype Website = Website(
    id: nat,
    name: string,
    url: string,
    checkIntervalMinutes: int,
    createdAt: Option<Timestamp>,
    isActive: bool)

  /** One probe of one website. `isUp` is NOT NULL; status code, response
      time, timestamp and error message may each be absent. */
  datatype Check = Check(
    id: nat,
    websiteId: nat,
    statusCode: Option<int>,
    responseTimeMs: Option<nat>,
    isUp: bool,
    checkedAt: Option<Timestamp>,
    errorMessage: Option<string>)

  /** The two tables, each in storage order. */
  datatype Db = Db(websites: seq<Website>, checks: seq<Check>)

  /** `datetime.isoformat()`: an injective rendering kept opaque. */
  datatype IsoTime = IsoTime(instant: Timestamp)

  /** The `latest_status` object. */
  datatype StatusDict = StatusDict(
    isUp: bool,
    statusCode: Option<int>,
    responseTimeMs: Option<nat>,
    checkedAt: Option<IsoTime>,
    errorMessage: Option<string>)

  /** `Website.to_dict()`. */
  datatype WebsiteDict = WebsiteDict(
    id: nat,
    name: string,
    url: string,
    checkIntervalMinutes: int,
    createdAt: Option<IsoTime>,
    isActive: bool,
    latestStatus: Option<StatusDict>)

  /** `Check.to_dict()`. */
  datatype CheckDict = CheckDict(
    id: nat,
    websiteId: nat,
    statusCode: Option<int>,
    responseTimeMs: Option<nat>,
    isUp: bool,
    checkedAt: Option<IsoTime>,
    errorMessage: Option<string>)

  function WebsiteKey(w: Website): int { w.id }
  function CheckKey(c: Check): int { c.id }

  function WebsiteIds(db: Db): set<nat> {
    set w | w in db.websites :: w.id
  }

  /** Primary keys are unique and every check belongs to a stored website
      (the `website_id` foreign key). */
  ghost predicate Valid(db: Db) {
    && DistinctKeys(db.websites, WebsiteKey)
    && DistinctKeys(db.checks, CheckKey)
    && forall c :: c in db.checks ==> c.websiteId in WebsiteIds(db)
  }

  /** Largest id stored in `ws`, or 0. */
  function MaxWebsiteId(ws: seq<Website>): (m: nat)
    ensures forall w :: w in ws ==> w.id <= m
  {
    if |ws| == 0 then 0
    else
      var rest := MaxWebsiteId(ws[1..]);
      assert forall w :: w in ws ==> w == ws[0] || w in ws[1..];
      if ws[0].id > rest then ws[0].id else rest
  }

  /** Largest id stored in `cs`, or 0. */
  function MaxCheckId(cs: seq<Check>): (m: nat)
    ensures forall c :: c in cs ==> c.id <= m
  {
    if |cs| == 0 then 0
    else
      var rest := MaxCheckId(cs[1..]);
      assert forall c :: c in cs ==> c == cs[0] || c in cs[1..];
      if cs[0].id > rest then cs[0].id else rest
  }

  /** The key SQLite assigns to a new INTEGER PRIMARY KEY row: one more than
      the largest in use. */
  function NextWebsiteId(db: Db): (id: nat)
    ensures id !in WebsiteIds(db)
    ensures id >= 1
  {
    MaxWebsiteId(db.websites) + 1
  }

  function NextCheckId(db: Db): (id: nat)
    ensures forall c :: c in db.checks ==> c.id != id
    ensures id >= 1
  {
    MaxCheckId(db.checks) + 1
  }

  /** Position of the website with primary key `id` (`Website.query.get`). */
  function FindWebsite(ws: seq<Website>, id: nat): (r: Option<nat>)
    ensures r.None? <==> forall w :: w in ws ==> w.id != id
    ensures r.Some? ==> r.value < |ws| && ws[r.value].id == id
    ensures r.Some? ==> forall i :: 0 <= i < r.value ==> ws[i].id != id
  {
    if |ws| == 0 then None
    else if ws[0].id == id then Some(0)
    else
      assert forall w :: w in ws ==> w == ws[0] || w in ws[1..];
      match FindWebsite(ws[1..], id)
      case None => None
      case Some(k) => Some(k + 1)
  }

  /** `isoformat() if t else None`: a missing timestamp serialises as None. */
  function SerializeTime(t: Option<Timestamp>): (r: Option<IsoTime>)
    ensures r.None? <==> t.None?
    ensures r.Some? ==> r.value.instant == t.value
  {
    match t
    case None => None
    case Some(v) => Some(IsoTime(v))
  }

  function ParseTime(t: Option<IsoTime>): Option<Timestamp> {
    match t
    case None => None
    case Some(v) => Some(v.instant)
  }

  /** `Check.to_dict()`: every column is reported, and nothing is lost. */
  function CheckToDict(c: Check): (d: CheckDict)
    ensures d.checkedAt.None? <==> c.checkedAt.None?
    ensures CheckFromDict(d) == c
  {
    CheckDict(c.id, c.websiteId, c.statusCode, c.responseTimeMs, c.isUp,
              SerializeTime(c.checkedAt), c.errorMessage)
  }

  function CheckFromDict(d: CheckDict): Check {
    Check(d.id, d.websiteId, d.statusCode, d.responseTimeMs, d.isUp,
          ParseTime(d.checkedAt), d.errorMessage)
  }

  /** The `latest_status` object built from one check. */
  function StatusOf(c: Check): StatusDict {
    StatusDict(c.isUp, c.statusCode, c.responseTimeMs, SerializeTime(c.checkedAt), c.errorMessage)
  }

  // ---------------------------------------------------------------------------
  // Newest-first order: `ORDER BY checked_at DESC`. SQLite sorts NULL below
  // every value, so a check without a timestamp comes last.

  function Key(c: Check): int {
    match c.checkedAt
    case None => -1
    case Some(t) => t
  }

  ghost predicate NewestFirst(s: seq<Check>) {
    forall i, j :: 0 <= i < j < |s| ==> Key(s[i]) >= Key(s[j])
  }

  function Insert(c: Check, s: seq<Check>): (r: seq<Check>)
    ensures multiset(r) == multiset(s) + multiset{c}
    ensures |r| == |s| + 1
  {
    if |s| == 0 then [c]
    else if Key(c) >= Key(s[0]) then [c] + s
    else
      assert s == [s[0]] + s[1..];
      [s[0]] + Insert(c, s[1..])
  }

  lemma {:induction false} InsertKeepsOrder(c: Check, s: seq<Check>)
    requires NewestFirst(s)
    ensures NewestFirst(Insert(c, s))
  {
    if |s| > 0 && Key(c) < Key(s[0]) {
      var tail := s[1..];
      assert NewestFirst(tail) by {
        forall i, j | 0 <= i < j < |tail| ensures Key(tail[i]) >= Key(tail[j]) {
          assert tail[i] == s[i + 1] && tail[j] == s[j + 1];
        }
      }
      var rest := Insert(c, tail);
      InsertKeepsOrder(c, tail);
      assert forall m :: 0 <= m < |tail| ==> Key(tail[m]) <= Key(s[0]) by {
        forall m | 0 <= m < |tail| ensures Key(tail[m]) <= Key(s[0]) {
          assert tail[m] == s[m + 1];
        }
      }
      InsertBounded(c, tail, Key(s[0]));
      var r := [s[0]] + rest;
      forall i, j | 0 <= i < j < |r|
        ensures Key(r[i]) >= Key(r[j])
      {
        assert r[j] == rest[j - 1];
        if i > 0 {
          assert r[i] == rest[i - 1];
        }
      }
    }
  }

  /** Inserting a check no newer than a bound into checks no newer than it
      gives checks no newer than it. */
  lemma {:induction false} InsertBounded(c: Check, s: seq<Check>, bound: int)
    requires Key(c) <= bound
    requires forall i :: 0 <= i < |s| ==> Key(s[i]) <= bound
    ensures forall i :: 0 <= i < |Insert(c, s)| ==> Key(Insert(c, s)[i]) <= bound
  {
    if |s| > 0 && Key(c) < Key(s[0]) {
      var tail := s[1..];
      forall i | 0 <= i < |tail| ensures Key(tail[i]) <= bound {
        assert tail[i] == s[i + 1];
      }
      InsertBounded(c, tail, bound);
      var rest := Insert(c, tail);
      var r := [s[0]] + rest;
      assert Insert(c, s) == r;
      forall i | 1 <= i < |r| ensures Key(r[i]) <= bound {
        assert r[i] == rest[i - 1];
      }
    }
  }

  /** Sorted newest first; checks with equal timestamps keep storage order. */
  function SortNewestFirst(s: seq<Check>): (r: seq<Check>)
    ensures NewestFirst(r)
    ensures multiset(r) == multiset(s)
    ensures |r| == |s|
  {
    if |s| == 0 then []
    else
      assert s == [s[0]] + s[1..];
      var rest := SortNewestFirst(s[1..]);
      InsertKeepsOrder(s[0], rest);
      Insert(s[0], rest)
  }

  function BelongsTo(id: nat): Check -> bool {
    (c: Check) => c.websiteId == id
  }

  /** `Check.query.filter_by(website_id=id).order_by(Check.checked_at.desc())`. */
  function History(db: Db, id: nat): (r: seq<Check>)
    ensures NewestFirst(r)
    ensures forall c :: c in r <==> c in db.checks && c.websiteId == id
    ensures multiset(r) == multiset(Filter(db.checks, BelongsTo(id)))
  {
    var r := SortNewestFirst(Filter(db.checks, BelongsTo(id)));
    assert forall c :: c in r <==> c in multiset(r);
    r
  }

  /** `c` is a check of website `id` no other check of that website is newer than. */
  ghost predicate IsNewest(c: Check, checks: seq<Check>, id: nat) {
    && c in checks
    && c.websiteId == id
    && forall d :: d in checks && d.websiteId == id ==> Key(d) <= Key(c)
  }

  /** `Website.get_latest_status()`: None exactly when the website has no
      check; otherwise the fields of a newest check of that website. */
  function GetLatestStatus(db: Db, id: nat): (r: Option<StatusDict>)
    ensures r.None? <==> forall c :: c in db.checks ==> c.websiteId != id
    ensures r.Some? ==> exists c :: IsNewest(c, db.checks, id) && r.value == StatusOf(c)
  {
    var h := History(db, id);
    if |h| == 0 then None
    else
      assert h[0] in h;
      assert IsNewest(h[0], db.checks, id) by {
        forall d | d in db.checks && d.websiteId == id
          ensures Key(d) <= Key(h[0])
        {
          var k :| 0 <= k < |h| && h[k] == d;
        }
      }
      Some(StatusOf(h[0]))
  }

  /** A check strictly newer than every other check of its website becomes
      that website's latest status. */
  lemma LatestAfterNewerCheck(db: Db, c: Check)
    requires forall d :: d in db.checks && d.websiteId == c.websiteId ==> Key(d) < Key(c)
    ensures GetLatestStatus(Db(db.websites, db.checks + [c]), c.websiteId) == Some(StatusOf(c))
  {
    var checks := db.checks + [c];
    var r := GetLatestStatus(Db(db.websites, checks), c.websiteId);
    assert c in checks;
    var n :| IsNewest(n, checks, c.websiteId) && r.value == StatusOf(n);
    NewestIsUnique(db.checks, c, n);
  }

  lemma NewestIsUnique(checks: seq<Check>, c: Check, n: Check)
    requires forall d :: d in checks && d.websiteId == c.websiteId ==> Key(d) < Key(c)
    requires IsNewest(n, checks + [c], c.websiteId)
    ensures n == c
  {
    assert c in checks + [c];
    assert n in checks || n == c;
  }

  /** `Website.to_dict()`: the columns, with `created_at` serialised, and
      exactly `get_latest_status()` embedded as `latest_status`. */
  function WebsiteToDict(db: Db, w: Website): (d: WebsiteDict)
    ensures WebsiteFromDict(d) == w
    ensures d.createdAt.None? <==> w.createdAt.None?
    ensures d.latestStatus == GetLatestStatus(db, w.id)
    ensures d.latestStatus.None? <==> forall c :: c in db.checks ==> c.websiteId != w.id
    ensures d.latestStatus.Some? ==>
              exists c :: IsNewest(c, db.checks, w.id) && d.latestStatus.value == StatusOf(c)
  {
    WebsiteDict(w.id, w.name, w.url, w.checkIntervalMinutes, SerializeTime(w.createdAt),
                w.isActive, GetLatestStatus(db, w.id))
  }

  function WebsiteFromDict(d: WebsiteDict): Website {
    Website(d.id, d.name, d.url, d.checkIntervalMinutes, ParseTime(d.createdAt), d.isActive)
  }

  function NotWebsite(id: nat): Website -> bool {
    (w: Website) => w.id != id
  }

  function NotBelongsTo(id: nat): Check -> bool {
    (c: Check) => c.websiteId != id
  }

  /** Deleting a website; `cascade='all, delete-orphan'` deletes its checks. */
  function CascadeDelete(db: Db, id: nat): (r: Db)
    ensures id !in WebsiteIds(r)
    ensures forall c :: c in r.checks ==> c.websiteId != id
    ensures forall w :: w in r.websites <==> w in db.websites && w.id != id
    ensures forall c :: c in r.checks <==> c in db.checks && c.websiteId != id
  {
    Db(Filter(db.websites, NotWebsite(id)), Filter(db.checks, NotBelongsTo(id)))
  }

  /** The cascade leaves no check pointing at the deleted website, so the
      foreign key and the primary keys stay intact. */
  lemma CascadeDeleteValid(db: Db, id: nat)
    requires Valid(db)
    ensures Valid(CascadeDelete(db, id))
  {
    var r := CascadeDelete(db, id);
    FilterDistinct(db.websites, NotWebsite(id), WebsiteKey);
    FilterDistinct(db.checks, NotBelongsTo(id), CheckKey);
    forall c | c in r.checks
      ensures c.websiteId in WebsiteIds(r)
    {
      var w :| w in db.websites && w.id == c.websiteId;
      assert w in r.websites;
    }
  }
}
