/** The dashboard page: summary counts over the website list, and the state
    change of one load of that list. */
module Dashboard {
  import opened Common
  import opened Client

  /** The four figures at the top of the page. */
  datatype Stats = Stats(total: nat, up: nat, down: nat, unknown: int)

  function IsUpSite(site: SiteJson): bool {
    site.latestStatus.Some? && site.latestStatus.value.isUp
  }

  function IsDownSite(site: SiteJson): bool {
    site.latestStatus.Some? && !site.latestStatus.value.isUp
  }

  function IsUnchecked(site: SiteJson): bool {
    site.latestStatus.None?
  }

  /** Every website is exactly one of up, down or unchecked. */
  lemma {:induction false} ThreeWaySplit(ws: seq<SiteJson>)
    ensures |Filter(ws, IsUpSite)| + |Filter(ws, IsDownSite)| + |Filter(ws, IsUnchecked)| == |ws|
  {
    if |ws| > 0 {
      ThreeWaySplit(ws[1..]);
    }
  }

  /** The dashboard figures: `websitesUp` and `websitesDown` count the sites
      whose chip reads Up and Down, and `websitesUnknown`, computed as the
      remainder, is never negative and counts exactly the Pending sites. */
  function StatsOf(ws: seq<SiteJson>): (st: Stats)
    ensures st.total == |ws|
    ensures st.up == |Filter(ws, HasChip(Up))|
    ensures st.down == |Filter(ws, HasChip(Down))|
    ensures st.unknown == |Filter(ws, HasChip(Pending))|
    ensures st.unknown >= 0
    ensures st.up + st.down + st.unknown == st.total
  {
    var up := |Filter(ws, IsUpSite)|;
    var down := |Filter(ws, IsDownSite)|;
    ThreeWaySplit(ws);
    FilterCongruent(ws, IsUpSite, HasChip(Up));
    FilterCongruent(ws, IsDownSite, HasChip(Down));
    FilterCongruent(ws, IsUnchecked, HasChip(Pending));
    Stats(|ws|, up, down, |ws| - up - down)
  }

  /** The page's React state. */
  datatype State = State(websites: seq<SiteJson>, loading: bool, error: Option<string>)

  const Initial := State([], true, None)

  const LoadError := "Failed to load websites. Please try again later."

  /** One run of `fetchData`: a successful load replaces the list wholesale
      and clears the error; a failed one keeps the previous list and sets the
      error; either way loading ends. */
  function FetchData(s: State, outcome: Outcome<seq<SiteJson>>): (t: State)
    ensures !t.loading
    ensures outcome.Ok? ==> t.websites == outcome.data && t.error.None?
    ensures outcome.Err? ==> t.websites == s.websites && t.error == Some(LoadError)
  {
    match outcome
    case Ok(data) => State(data, false, None)
    case Err(_) => s.(loading := false, error := Some(LoadError))
  }
}
