/** The scheduled Lambda checker: it reads the active websites straight from
    SQLite, probes each, records each result, and reports a summary. */
module LambdaChecker {
  import opened Common
  import Checker

  /** A row of `SELECT id, name, url FROM websites`, with the stored
      `is_active` flag (SQLite keeps booleans as integers). */
  datatype Row = Row(id: nat, name: string, url: string, isActive: int)

  /** The dictionary `check_website` returns. */
  datatype CheckResult = CheckResult(
    websiteId: nat,
    statusCode: Option<int>,
    responseTimeMs: nat,
    isUp: bool,
    errorMessage: Option<string>)

  /** One element of `results`. */
  datatype Entry = Entry(websiteId: nat, websiteName: string, checkId: nat, isUp: bool)

  /** What happened for one website: the probe, and the row id `record_check`
      got back from the insert (or the error the insert raised). */
  datatype Step = Step(probe: Checker.Probe, insert: Outcome<nat>)

  /** The `message` of the response body. */
  datatype Message = CheckedCount(count: nat) | Failure(text: string)

  /** The dictionary `lambda_handler` returns. */
  datatype Response = Response(statusCode: int, message: Message, results: seq<Entry>)

  function IsActiveRow(r: Row): bool { r.isActive == 1 }

  /** `fetch_websites`: only rows with `is_active = 1`, in table order. */
  function FetchWebsites(table: seq<Row>): (r: seq<Row>)
    ensures forall x :: x in r <==> x in table && x.isActive == 1
  {
    Filter(table, IsActiveRow)
  }

  /** `check_website`: up exactly for a 2xx or 3xx response; a request
      exception leaves the status code empty and records its text. */
  function CheckSite(site: Row, probe: Checker.Probe): (r: CheckResult)
    ensures r.websiteId == site.id && r.responseTimeMs == probe.elapsedMs
    ensures r.isUp <==> probe.result.Responded? && 200 <= probe.result.statusCode < 400
    ensures probe.result.Responded? ==>
              r.statusCode == Some(probe.result.statusCode) && r.errorMessage.None?
    ensures probe.result.RequestFailed? ==>
              !r.isUp && r.statusCode.None? && r.errorMessage == Some(probe.result.reason)
  {
    match probe.result
    case Responded(code) =>
      CheckResult(site.id, Some(code), probe.elapsedMs, Checker.IsUpStatus(code), None)
    case RequestFailed(reason) =>
      CheckResult(site.id, None, probe.elapsedMs, false, Some(reason))
  }

  /** `e` is the summary `lambda_handler` appends for `site` after `step`. */
  ghost predicate Reports(e: Entry, site: Row, step: Step) {
    && step.insert.Ok?
    && e.websiteId == site.id
    && e.websiteName == site.name
    && e.checkId == step.insert.data
    && e.isUp == CheckSite(site, step.probe).isUp
  }

  /** `lambda_handler`: `connection` is the result of opening the database
      and reading the websites table. On success the status is 200 and the
      results list one entry per active website, in order; any database
      error ends the run with status 500 and the error's text. */
  method LambdaHandler(connection: Outcome<seq<Row>>, steps: seq<Step>) returns (r: Response)
    requires connection.Ok? ==> |steps| == |FetchWebsites(connection.data)|
    ensures r.statusCode == 200 || r.statusCode == 500
    ensures r.statusCode == 500 <==>
              connection.Err? || exists i :: 0 <= i < |steps| && steps[i].insert.Err?
    ensures r.statusCode == 500 ==> r.message.Failure? && r.results == []
    ensures connection.Err? ==> r.message == Failure("Error: " + connection.message)
    ensures connection.Ok? && r.statusCode == 500 ==>
              exists i :: 0 <= i < |steps| && steps[i].insert.Err?
                && (forall j :: 0 <= j < i ==> steps[j].insert.Ok?)
                && r.message == Failure("Error: " + steps[i].insert.message)
    ensures r.statusCode == 200 ==> r.message == CheckedCount(|r.results|)
    ensures r.statusCode == 200 ==> |r.results| == |steps|
    ensures r.statusCode == 200 ==>
              forall i :: 0 <= i < |steps| ==> Reports(r.results[i], FetchWebsites(connection.data)[i], steps[i])
  {
    if connection.Err? {
      return Response(500, Failure("Error: " + connection.message), []);
    }
    var sites := FetchWebsites(connection.data);
    var results: seq<Entry> := [];
    var i := 0;
    while i < |sites|
      invariant 0 <= i <= |sites|
      invariant |results| == i
      invariant forall j :: 0 <= j < i ==> Reports(results[j], sites[j], steps[j])
      invariant forall j :: 0 <= j < i ==> steps[j].insert.Ok?
    {
      var checked := CheckSite(sites[i], steps[i].probe);
      match steps[i].insert
      case Err(e) =>
        assert steps[i].insert.Err?;
        return Response(500, Failure("Error: " + e), []);
      case Ok(checkId) =>
        results := results + [Entry(sites[i].id, sites[i].name, checkId, checked.isUp)];
        i := i + 1;
    }
    forall j | 0 <= j < |steps| ensures steps[j].insert.Ok? {
      assert Reports(results[j], sites[j], steps[j]);
    }
    return Response(200, CheckedCount(|results|), results);
  }
}
