/** The website list page: loading the list, the delete confirmation dialog,
    and deleting the selected website. */
module WebsiteList {
  import opened Common
  import opened Client
  import Dashboard

  /** The page's React state. */
  datatype State = State(
    websites: seq<SiteJson>,
    loading: bool,
    error: Option<string>,
    deleteDialogOpen: bool,
    websiteToDelete: Option<SiteJson>,
    deleteInProgress: bool)

  const Initial := State([], true, None, false, None, false)

  const LoadError := "Failed to load websites. Please try again later."
  const DeleteErrorPrefix := "Failed to delete website: "

  /** One run of `fetchData`: as on the dashboard, success replaces the list
      and clears the error, failure keeps the list and sets the error. */
  function FetchData(s: State, outcome: Outcome<seq<SiteJson>>): (t: State)
    ensures !t.loading
    ensures outcome.Ok? ==> t.websites == outcome.data && t.error.None?
    ensures outcome.Err? ==> t.websites == s.websites && t.error == Some(LoadError)
    ensures t.deleteDialogOpen == s.deleteDialogOpen && t.websiteToDelete == s.websiteToDelete
    ensures t.deleteInProgress == s.deleteInProgress
  {
    match outcome
    case Ok(data) => s.(websites := data, loading := false, error := None)
    case Err(_) => s.(loading := false, error := Some(LoadError))
  }

  /** `openDeleteDialog(website)`. */
  function OpenDeleteDialog(s: State, site: SiteJson): (t: State)
    ensures t.deleteDialogOpen && t.websiteToDelete == Some(site)
    ensures t.websites == s.websites && t.error == s.error && t.loading == s.loading
    ensures t.deleteInProgress == s.deleteInProgress
    ensures t.(deleteDialogOpen := s.deleteDialogOpen, websiteToDelete := s.websiteToDelete) == s
  {
    s.(websiteToDelete := Some(site), deleteDialogOpen := true)
  }

  /** `closeDeleteDialog()`. */
  function CloseDeleteDialog(s: State): (t: State)
    ensures !t.deleteDialogOpen && t.websiteToDelete.None?
    ensures t.websites == s.websites && t.error == s.error && t.loading == s.loading
    ensures t.deleteInProgress == s.deleteInProgress
    ensures t.(deleteDialogOpen := s.deleteDialogOpen, websiteToDelete := s.websiteToDelete) == s
  {
    s.(deleteDialogOpen := false, websiteToDelete := None)
  }

  function NotId(id: nat): SiteJson -> bool {
    (site: SiteJson) => site.id != id
  }

  /** The id `deleteWebsite` is called with, if the handler gets that far. */
  function DeleteRequest(s: State): (id: Option<nat>)
    ensures id.None? <==> s.websiteToDelete.None?
    ensures id.Some? ==> id.value == s.websiteToDelete.value.id
  {
    match s.websiteToDelete
    case None => None
    case Some(w) => Some(w.id)
  }

  /** `handleDeleteWebsite` given the outcome of the DELETE request. With no
      website selected nothing happens. On success every entry with the
      deleted id is gone, the others keep their order, and the dialog closes;
      on failure the list is untouched and the error is set. Either way the
      delete is no longer in progress. */
  function HandleDelete(s: State, outcome: Outcome<()>): (t: State)
    ensures s.websiteToDelete.None? ==> t == s
    ensures s.websiteToDelete.Some? ==> !t.deleteInProgress && t.loading == s.loading
    ensures s.websiteToDelete.Some? && outcome.Ok? ==>
              && t.websites == Filter(s.websites, NotId(s.websiteToDelete.value.id))
              && (forall w :: w in t.websites <==> w in s.websites && w.id != s.websiteToDelete.value.id)
              && IsSubsequence(t.websites, s.websites)
              && !t.deleteDialogOpen && t.websiteToDelete.None?
              && t.error == s.error
    ensures s.websiteToDelete.Some? && outcome.Err? ==>
              && t.websites == s.websites
              && t.error == Some(DeleteErrorPrefix + outcome.message)
              && t.deleteDialogOpen == s.deleteDialogOpen
              && t.websiteToDelete == s.websiteToDelete
  {
    match s.websiteToDelete
    case None => s
    case Some(target) =>
      match outcome
      case Ok(_) =>
        FilterKeepsOrder(s.websites, NotId(target.id));
        CloseDeleteDialog(s.(websites := Filter(s.websites, NotId(target.id))))
          .(deleteInProgress := false)
      case Err(message) =>
        s.(error := Some(DeleteErrorPrefix + message), deleteInProgress := false)
  }

  function HasId(id: nat): SiteJson -> bool {
    (site: SiteJson) => site.id == id
  }

  function SiteKey(site: SiteJson): int { site.id }

  /** Removing the entries with one id splits each count into what stays and
      what had that id. */
  lemma {:induction false} CountAfterRemoval(ws: seq<SiteJson>, id: nat, p: SiteJson -> bool)
    ensures |Filter(ws, p)| == |Filter(Filter(ws, NotId(id)), p)| + |Filter(Filter(ws, HasId(id)), p)|
  {
    if |ws| > 0 {
      var x, t := ws[0], ws[1..];
      assert ws == [x] + t;
      CountAfterRemoval(t, id, p);
      FilterCons(x, t, p);
      FilterCons(x, t, NotId(id));
      FilterCons(x, t, HasId(id));
      var kept, removed := Filter(t, NotId(id)), Filter(t, HasId(id));
      if x.id == id {
        assert Filter(ws, NotId(id)) == kept;
        assert Filter(ws, HasId(id)) == [x] + removed;
        FilterCons(x, removed, p);
      } else {
        assert Filter(ws, NotId(id)) == [x] + kept;
        assert Filter(ws, HasId(id)) == removed;
        FilterCons(x, kept, p);
      }
    }
  }

  /** In a list with distinct ids, the entries carrying the id of a listed
      website are that website alone. */
  lemma {:induction false} OnlyOneWithId(ws: seq<SiteJson>, site: SiteJson)
    requires DistinctKeys(ws, SiteKey)
    requires site in ws
    ensures Filter(ws, HasId(site.id)) == [site]
  {
    if ws[0] == site {
    } else {
      assert site in ws[1..];
      OnlyOneWithId(ws[1..], site);
      assert ws[0].id != site.id by {
        var m :| 0 <= m < |ws| && ws[m] == site;
        assert m > 0;
      }
    }
  }

  /** Deleting one listed website from a list with distinct ids lowers a
      count by one exactly when that website was counted. */
  lemma CountDrop(ws: seq<SiteJson>, target: SiteJson, p: SiteJson -> bool)
    requires DistinctKeys(ws, SiteKey)
    requires target in ws
    ensures |Filter(Filter(ws, NotId(target.id)), p)| + (if p(target) then 1 else 0) == |Filter(ws, p)|
  {
    OnlyOneWithId(ws, target);
    FilterCons(target, [], p);
    assert [target] + [] == [target];
    CountAfterRemoval(ws, target.id, p);
  }

  /** After the selected website is deleted from a list with distinct ids,
      the dashboard figures drop by exactly the listed entry `w` with the
      selected id (which a reload may have replaced since the dialog opened):
      one fewer in total and one fewer under that entry's chip. */
  lemma DeleteAdjustsStats(s: State, w: SiteJson)
    requires s.websiteToDelete.Some? && w in s.websites && w.id == s.websiteToDelete.value.id
    requires DistinctKeys(s.websites, SiteKey)
    ensures var before := Dashboard.StatsOf(s.websites);
            var after := Dashboard.StatsOf(HandleDelete(s, Ok(())).websites);
            var chip := ChipFor(w);
            && after.total == before.total - 1
            && after.up == before.up - (if chip == Up then 1 else 0)
            && after.down == before.down - (if chip == Down then 1 else 0)
            && after.unknown == before.unknown - (if chip == Pending then 1 else 0)
  {
    var ws := s.websites;
    var rest := Filter(ws, NotId(w.id));
    assert HandleDelete(s, Ok(())).websites == rest;
    CountDrop(ws, w, HasChip(Up));
    CountDrop(ws, w, HasChip(Down));
    CountDrop(ws, w, HasChip(Pending));
    OnlyOneWithId(ws, w);
    FilterPartition(ws, HasId(w.id), NotId(w.id));
  }
}
