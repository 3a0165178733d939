/** The JSON shapes the front end reads from the API, and the status chip
    the list pages draw for a website. */
module Client {
  import opened Common

  /** `website.latest_status` as received from `GET /api/websites`. */
  datatype StatusJson = StatusJson(
    isUp: bool,
    statusCode: Option<int>,
    responseTimeMs: Option<nat>,
    checkedAt: Option<Timestamp>,
    errorMessage: Option<string>)

  /** A website as received from the API. */
  datatype SiteJson = SiteJson(
    id: nat,
    name: string,
    url: string,
    checkIntervalMinutes: int,
    isActive: bool,
    latestStatus: Option<StatusJson>)

  /** A check record as the history table reads it. */
  datatype CheckJson = CheckJson(
    id: nat,
    checkedAt: Option<Timestamp>,
    isUp: bool,
    statusCode: Option<int>,
    responseTimeMs: Option<nat>,
    errorMessage: Option<string>)

  datatype Chip = Pending | Up | Down

  /** `renderStatusChip(website)`: Pending without a latest status,
      otherwise Up or Down by `is_up`. */
  function ChipFor(site: SiteJson): (c: Chip)
    ensures c == Pending <==> site.latestStatus.None?
    ensures c == Up <==> site.latestStatus.Some? && site.latestStatus.value.isUp
    ensures c == Down <==> site.latestStatus.Some? && !site.latestStatus.value.isUp
  {
    match site.latestStatus
    case None => Pending
    case Some(s) => if s.isUp then Up else Down
  }

  /** A predicate selecting the websites with one chip. */
  function HasChip(c: Chip): SiteJson -> bool {
    (site: SiteJson) => ChipFor(site) == c
  }
}
