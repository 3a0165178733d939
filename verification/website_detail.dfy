/** The website detail page: the refresh that loads the website and then its
    status, the check-history pager, and which of its views is drawn. */
module WebsiteDetail {
  import opened Common
  import opened Client

  /** `website.latest_status` as the page holds it. The server's object has
      `response_time_ms`, `checked_at` and `error_message`; the object the
      refresh builds has `response_time`, `status_code` and `last_checked`.
      A field the object in hand lacks is absent. */
  datatype PageStatus = PageStatus(
    isUp: bool,
    statusCode: Option<int>,
    responseTime: Option<nat>,
    responseTimeMs: Option<nat>,
    lastChecked: Option<Timestamp>,
    checkedAt: Option<Timestamp>,
    errorMessage: Option<string>)

  /** The `website` state variable. */
  datatype PageSite = PageSite(
    id: nat,
    name: string,
    url: string,
    checkIntervalMinutes: int,
    isActive: bool,
    latestStatus: Option<PageStatus>)

  /** The `pagination` state variable (the page reads only these two keys). */
  datatype Pagination = Pagination(total: int, pages: int)

  /** The page's React state; `page` is the 0-based page of the table. */
  datatype State = State(
    website: Option<PageSite>,
    checks: seq<CheckJson>,
    loading: bool,
    error: Option<string>,
    page: int,
    rowsPerPage: int,
    pagination: Pagination)

  const EmptyPagination := Pagination(0, 0)

  const Initial := State(None, [], true, None, 0, 10, EmptyPagination)

  const DetailError := "Failed to load website details. Please try again later."
  const HistoryError := "Failed to load check history. Please try again later."

  /** The arguments of `getWebsiteChecks(id, page, perPage)`; `page` is 1-based. */
  datatype ChecksQuery = ChecksQuery(page: int, perPage: int)

  /** The body of the checks response, each key possibly missing. */
  datatype ChecksReply = ChecksReply(checks: Option<seq<CheckJson>>, pagination: Option<Pagination>)

  /** The body of the status response as this page reads it. */
  datatype StatusReply = StatusReply(
    status: Option<string>,
    responseTimeMs: Option<nat>,
    statusCode: Option<int>,
    lastChecked: Option<Timestamp>,
    history: Option<seq<CheckJson>>)

  /** A pager handler's request together with the state it leaves. */
  datatype Step = Step(query: ChecksQuery, state: State)

  /** The website object exactly as `getWebsite` returned it. */
  function FromServer(site: SiteJson): (p: PageSite)
    ensures p.id == site.id && p.name == site.name && p.url == site.url
    ensures p.checkIntervalMinutes == site.checkIntervalMinutes && p.isActive == site.isActive
    ensures p.latestStatus.Some? <==> site.latestStatus.Some?
    ensures p.latestStatus.Some? ==>
              && p.latestStatus.value.isUp == site.latestStatus.value.isUp
              && ShownResponseTime(p.latestStatus.value) == site.latestStatus.value.responseTimeMs
              && p.latestStatus.value.statusCode == site.latestStatus.value.statusCode
              && p.latestStatus.value.checkedAt == site.latestStatus.value.checkedAt
              && p.latestStatus.value.errorMessage == site.latestStatus.value.errorMessage
              && p.latestStatus.value.responseTime.None? && p.latestStatus.value.lastChecked.None?
  {
    var status := match site.latestStatus
      case None => None
      case Some(s) => Some(PageStatus(s.isUp, s.statusCode, None, s.responseTimeMs, None,
                                      s.checkedAt, s.errorMessage));
    PageSite(site.id, site.name, site.url, site.checkIntervalMinutes, site.isActive, status)
  }

  /** The response time the "Latest Check" card prints. */
  function ShownResponseTime(status: PageStatus): Option<nat> {
    status.responseTimeMs
  }

  /** The merge as written: the new status object stores the response time
      under `response_time`, a key the card never reads. */
  function MergeStatusAsWritten(site: PageSite, reply: StatusReply): (p: PageSite)
    ensures p.latestStatus.Some? && ShownResponseTime(p.latestStatus.value).None?
    ensures p.latestStatus.value.responseTime == reply.responseTimeMs
  {
    site.(latestStatus := Some(PageStatus(reply.status == Some("up"), reply.statusCode,
                                          reply.responseTimeMs, None, reply.lastChecked, None, None)))
  }

  /** A status reply with a response time of 120 ms whose merged card still
      shows no response time. */
  lemma ResponseTimeLost()
    ensures var site := PageSite(1, "example", "https://example.com", 5, true, None);
            var reply := StatusReply(Some("up"), Some(120), Some(200), Some(7), None);
            ShownResponseTime(MergeStatusAsWritten(site, reply).latestStatus.value) != reply.responseTimeMs
  {
  }

  /** The merge as intended: `latest_status` is replaced wholesale, `is_up`
      holds exactly when the reply says "up", the card shows the reply's
      response time, and every other field of the website is kept. */
  function MergeStatus(site: PageSite, reply: StatusReply): (p: PageSite)
    ensures p.latestStatus.Some?
    ensures p.latestStatus.value.isUp <==> reply.status == Some("up")
    ensures ShownResponseTime(p.latestStatus.value) == reply.responseTimeMs
    ensures p.latestStatus.value.statusCode == reply.statusCode
    ensures p.latestStatus.value.lastChecked == reply.lastChecked
    ensures p.latestStatus.value.errorMessage.None? && p.latestStatus.value.checkedAt.None?
    ensures p.(latestStatus := site.latestStatus) == site
  {
    site.(latestStatus := Some(PageStatus(reply.status == Some("up"), reply.statusCode,
                                          None, reply.responseTimeMs, reply.lastChecked, None, None)))
  }

  /** One run of `fetchWebsiteData` as written, given the outcomes of its two
      awaited requests. A failed website request changes nothing but the
      error; a failed status request still stores the website; when both
      succeed the status is merged in (losing the shown response time), the
      history replaces the checks and the error is cleared. The pager's page,
      size and totals are never touched. */
  function Refresh(s: State, siteOutcome: Outcome<SiteJson>, statusOutcome: Outcome<StatusReply>): (t: State)
    ensures !t.loading
    ensures t.page == s.page && t.rowsPerPage == s.rowsPerPage && t.pagination == s.pagination
    ensures siteOutcome.Err? ==>
              t.website == s.website && t.checks == s.checks && t.error == Some(DetailError)
    ensures siteOutcome.Ok? && statusOutcome.Err? ==>
              t.website == Some(FromServer(siteOutcome.data)) && t.checks == s.checks
              && t.error == Some(DetailError)
    ensures siteOutcome.Ok? && statusOutcome.Ok? ==>
              && t.website.Some?
              && t.website.value.id == siteOutcome.data.id
              && t.website.value.latestStatus.Some?
              && (t.website.value.latestStatus.value.isUp <==> statusOutcome.data.status == Some("up"))
              && t.checks == statusOutcome.data.history.GetOr([])
              && t.error.None?
              && t.website.value == MergeStatusAsWritten(FromServer(siteOutcome.data), statusOutcome.data)
              && ShownResponseTime(t.website.value.latestStatus.value).None?
  {
    match siteOutcome
    case Err(_) => s.(loading := false, error := Some(DetailError))
    case Ok(site) =>
      match statusOutcome
      case Err(_) => s.(website := Some(FromServer(site)), loading := false, error := Some(DetailError))
      case Ok(reply) =>
        s.(website := Some(MergeStatusAsWritten(FromServer(site), reply)),
           checks := reply.history.GetOr([]),
           loading := false,
           error := None)
  }

  /** `fetchWebsiteData` with the merge as intended: the same transitions,
      but the card shows the status reply's response time. */
  function RefreshIntended(s: State, siteOutcome: Outcome<SiteJson>, statusOutcome: Outcome<StatusReply>): (t: State)
    ensures !t.loading
    ensures t.page == s.page && t.rowsPerPage == s.rowsPerPage && t.pagination == s.pagination
    ensures siteOutcome.Err? ==>
              t.website == s.website && t.checks == s.checks && t.error == Some(DetailError)
    ensures siteOutcome.Ok? && statusOutcome.Err? ==>
              t.website == Some(FromServer(siteOutcome.data)) && t.checks == s.checks
              && t.error == Some(DetailError)
    ensures siteOutcome.Ok? && statusOutcome.Ok? ==>
              && t.website.Some?
              && t.website.value.(latestStatus := None) == FromServer(siteOutcome.data).(latestStatus := None)
              && t.website.value.latestStatus.Some?
              && (t.website.value.latestStatus.value.isUp <==> statusOutcome.data.status == Some("up"))
              && ShownResponseTime(t.website.value.latestStatus.value) == statusOutcome.data.responseTimeMs
              && t.checks == statusOutcome.data.history.GetOr([])
              && t.error.None?
  {
    match siteOutcome
    case Err(_) => s.(loading := false, error := Some(DetailError))
    case Ok(site) =>
      match statusOutcome
      case Err(_) => s.(website := Some(FromServer(site)), loading := false, error := Some(DetailError))
      case Ok(reply) =>
        s.(website := Some(MergeStatus(FromServer(site), reply)),
           checks := reply.history.GetOr([]),
           loading := false,
           error := None)
  }

  /** The refresh as written and as intended leave the same state except for
      where the merged status keeps its response time: every other field of
      the website and of its status agrees, and only the intended one lets the
      card show the reply's response time. */
  lemma RefreshDiffersOnlyInResponseTime(s: State, siteOutcome: Outcome<SiteJson>, statusOutcome: Outcome<StatusReply>)
    ensures var a := Refresh(s, siteOutcome, statusOutcome);
            var b := RefreshIntended(s, siteOutcome, statusOutcome);
            && a.(website := None) == b.(website := None)
            && (a.website.Some? <==> b.website.Some?)
            && (a.website.Some? ==> a.website.value.(latestStatus := None) == b.website.value.(latestStatus := None))
            && (siteOutcome.Ok? && statusOutcome.Ok? ==>
                  && a.website.value.latestStatus.value.(responseTime := None, responseTimeMs := None)
                     == b.website.value.latestStatus.value.(responseTime := None, responseTimeMs := None)
                  && a.website.value.latestStatus.value.responseTime
                     == ShownResponseTime(b.website.value.latestStatus.value))
    ensures siteOutcome.Err? || statusOutcome.Err? ==>
              Refresh(s, siteOutcome, statusOutcome) == RefreshIntended(s, siteOutcome, statusOutcome)
  {
  }

  /** `handleChangePage(event, newPage)`: asks the server for page
      `newPage + 1` at the current size; only a successful reply moves the
      table to `newPage`, and a failure keeps the rows, totals and page. */
  function ChangePage(s: State, newPage: int, outcome: Outcome<ChecksReply>): (r: Step)
    ensures r.query == ChecksQuery(newPage + 1, s.rowsPerPage)
    ensures !r.state.loading
    ensures r.state.website == s.website && r.state.rowsPerPage == s.rowsPerPage
    ensures outcome.Ok? ==>
              && r.state.page == newPage
              && r.query.page == r.state.page + 1
              && r.state.checks == outcome.data.checks.GetOr([])
              && r.state.pagination == outcome.data.pagination.GetOr(Pagination(0, 0))
              && r.state.error == s.error
    ensures outcome.Err? ==>
              && r.state.page == s.page
              && r.state.checks == s.checks
              && r.state.pagination == s.pagination
              && r.state.error == Some(HistoryError)
  {
    var query := ChecksQuery(newPage + 1, s.rowsPerPage);
    match outcome
    case Ok(reply) =>
      Step(query, s.(checks := reply.checks.GetOr([]),
                     pagination := reply.pagination.GetOr(EmptyPagination),
                     page := newPage,
                     loading := false))
    case Err(_) =>
      Step(query, s.(error := Some(HistoryError), loading := false))
  }

  /** `handleChangeRowsPerPage(event)`: asks for server page 1 at the new
      size; on success the table shows page 0 at that size, on failure the
      size, page, rows and totals stay. */
  function ChangeRowsPerPage(s: State, newRowsPerPage: int, outcome: Outcome<ChecksReply>): (r: Step)
    ensures r.query == ChecksQuery(1, newRowsPerPage)
    ensures !r.state.loading
    ensures r.state.website == s.website
    ensures outcome.Ok? ==>
              && r.state.page == 0
              && r.state.rowsPerPage == newRowsPerPage
              && r.query.page == r.state.page + 1
              && r.state.checks == outcome.data.checks.GetOr([])
              && r.state.pagination == outcome.data.pagination.GetOr(Pagination(0, 0))
              && r.state.error == s.error
    ensures outcome.Err? ==>
              && r.state.page == s.page
              && r.state.rowsPerPage == s.rowsPerPage
              && r.state.checks == s.checks
              && r.state.pagination == s.pagination
              && r.state.error == Some(HistoryError)
  {
    var query := ChecksQuery(1, newRowsPerPage);
    match outcome
    case Ok(reply) =>
      Step(query, s.(checks := reply.checks.GetOr([]),
                     pagination := reply.pagination.GetOr(EmptyPagination),
                     rowsPerPage := newRowsPerPage,
                     page := 0,
                     loading := false))
    case Err(_) =>
      Step(query, s.(error := Some(HistoryError), loading := false))
  }

  /** What the history section shows inside the details view. */
  datatype History = HistorySpinner | HistoryTable | NoHistory

  /** The four early returns of the component; the details carry the error
      alert drawn above the history, if any. */
  datatype View = Spinner | ErrorAlert(message: string) | NotFound | Details(history: History, alert: Option<string>)

  /** Spinner while the first load is running, the error while there is no
      website, "not found" once loading ended without one, otherwise the
      details, whose history shows a spinner during a reload and which show
      the current error, if any, above the history. */
  function RenderBranch(s: State): (v: View)
    ensures v == Spinner <==> s.loading && s.website.None?
    ensures v.ErrorAlert? <==> !s.loading && s.website.None? && s.error.Some?
    ensures v.ErrorAlert? ==> v.message == s.error.value
    ensures v == NotFound <==> !s.loading && s.website.None? && s.error.None?
    ensures v.Details? <==> s.website.Some?
    ensures v.Details? ==>
              (v.history == HistorySpinner <==> s.loading)
              && (v.history == HistoryTable <==> !s.loading && |s.checks| > 0)
              && v.alert == s.error
  {
    if s.loading && s.website.None? then Spinner
    else if s.error.Some? && s.website.None? then ErrorAlert(s.error.value)
    else if s.website.None? && !s.loading then NotFound
    else if s.loading then Details(HistorySpinner, s.error)
    else if |s.checks| > 0 then Details(HistoryTable, s.error)
    else Details(NoHistory, s.error)
  }
}
