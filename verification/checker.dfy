/** The back end's probe: classify one HTTP request's outcome as up or down,
    record it as a check, and probe every active website in turn. */
module Checker {
  import opened Common
  import opened Models

  /** What `requests.get` did: a response with a status code, or a
      `RequestException` with its text. The elapsed milliseconds and the
      moment of recording come from the clock and are inputs here. */
  datatype ProbeResult = Responded(statusCode: int) | RequestFailed(reason: string)

  datatype Probe = Probe(result: ProbeResult, elapsedMs: nat, at: Timestamp)

  /** 2xx and 3xx status codes count as up. */
  predicate IsUpStatus(code: int) {
    200 <= code < 400
  }

  /** `check_website`: the check record for one probe of `w`. */
  function CheckWebsite(w: Website, probe: Probe, id: nat): (c: Check)
    ensures c.id == id && c.websiteId == w.id
    ensures c.isUp <==> probe.result.Responded? && 200 <= probe.result.statusCode < 400
    ensures probe.result.Responded? ==>
              c.statusCode == Some(probe.result.statusCode) && c.errorMessage.None?
    ensures probe.result.RequestFailed? ==>
              !c.isUp && c.statusCode.None? && c.errorMessage == Some(probe.result.reason)
    ensures c.responseTimeMs == Some(probe.elapsedMs) && c.checkedAt == Some(probe.at)
  {
    match probe.result
    case Responded(code) =>
      Check(id, w.id, Some(code), Some(probe.elapsedMs), IsUpStatus(code), Some(probe.at), None)
    case RequestFailed(reason) =>
      Check(id, w.id, None, Some(probe.elapsedMs), false, Some(probe.at), Some(reason))
  }

  function IsActive(w: Website): bool { w.isActive }

  /** `Website.query.filter_by(is_active=True).all()`. */
  function ActiveWebsites(db: Db): seq<Website> {
    Filter(db.websites, IsActive)
  }

  /** The checks recorded while probing `sites` in order, each committed
      (and so given its id) before the next probe. */
  function RecordAll(db: Db, sites: seq<Website>, probes: seq<Probe>): (r: seq<Check>)
    requires |probes| == |sites|
    ensures |r| == |sites|
    ensures forall i :: 0 <= i < |sites| ==>
              r[i].websiteId == sites[i].id
              && (r[i].isUp <==> probes[i].result.Responded? && IsUpStatus(probes[i].result.statusCode))
    ensures forall i :: 0 <= i < |sites| ==> r[i] == CheckWebsite(sites[i], probes[i], r[i].id)
    ensures forall i :: 0 <= i < |sites| ==> forall c :: c in db.checks ==> c.id != r[i].id
    ensures DistinctKeys(r, CheckKey)
    decreases |sites|
  {
    if |sites| == 0 then []
    else
      var c := CheckWebsite(sites[0], probes[0], NextCheckId(db));
      var db1 := Db(db.websites, db.checks + [c]);
      assert c in db1.checks;
      var rest := RecordAll(db1, sites[1..], probes[1..]);
      var r := [c] + rest;
      assert forall i :: 1 <= i < |r| ==> r[i] == rest[i - 1];
      r
  }

  /** `check_all_websites`: one check per active website, in query order,
      and none for an inactive one. */
  function CheckAllWebsites(db: Db, probes: seq<Probe>): (r: (seq<Check>, Db))
    requires |probes| == |ActiveWebsites(db)|
    ensures |r.0| == |ActiveWebsites(db)|
    ensures forall i :: 0 <= i < |r.0| ==>
              r.0[i].websiteId == ActiveWebsites(db)[i].id
              && (r.0[i].isUp <==> probes[i].result.Responded? && IsUpStatus(probes[i].result.statusCode))
    ensures forall i :: 0 <= i < |r.0| ==> r.0[i] == CheckWebsite(ActiveWebsites(db)[i], probes[i], r.0[i].id)
    ensures r.1 == Db(db.websites, db.checks + r.0)
    ensures Valid(db) ==> Valid(r.1)
  {
    var sites := ActiveWebsites(db);
    var checks := RecordAll(db, sites, probes);
    var db' := Db(db.websites, db.checks + checks);
    assert Valid(db) ==> Valid(db') by {
      if Valid(db) {
        forall c | c in checks ensures c.websiteId in WebsiteIds(db) {
          var k :| 0 <= k < |checks| && checks[k] == c;
          assert sites[k] in sites;
        }
        AppendKeepsValid(db, checks);
      }
    }
    (checks, db')
  }

  /** Appending checks with fresh, distinct ids that name stored websites
      keeps the database well formed. */
  lemma AppendKeepsValid(db: Db, checks: seq<Check>)
    requires Valid(db)
    requires DistinctKeys(checks, CheckKey)
    requires forall i :: 0 <= i < |checks| ==> forall c :: c in db.checks ==> c.id != checks[i].id
    requires forall c :: c in checks ==> c.websiteId in WebsiteIds(db)
    ensures Valid(Db(db.websites, db.checks + checks))
  {
    var all := db.checks + checks;
    forall i, j | 0 <= i < j < |all|
      ensures all[i].id != all[j].id
    {
      if j >= |db.checks| {
        assert all[j] == checks[j - |db.checks|];
        if i < |db.checks| {
          assert all[i] in db.checks;
        } else {
          assert all[i] == checks[i - |db.checks|];
        }
      }
    }
  }

  /** No check recorded by the batch belongs to an inactive website: the
      website the `k`-th check names is stored as active. */
  lemma NoCheckForInactive(db: Db, probes: seq<Probe>, k: nat)
    requires Valid(db)
    requires |probes| == |ActiveWebsites(db)|
    requires k < |probes|
    ensures forall w :: w in db.websites && w.id == CheckAllWebsites(db, probes).0[k].websiteId ==> w.isActive
  {
    var a := ActiveWebsites(db)[k];
    assert a in db.websites && a.isActive;
    forall w | w in db.websites && w.id == a.id
      ensures w.isActive
    {
      var i :| 0 <= i < |db.websites| && db.websites[i] == w;
      var j :| 0 <= j < |db.websites| && db.websites[j] == a;
      assert i == j;
    }
  }
}
