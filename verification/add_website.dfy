/** The "Add New Website" page: it submits the form's values and, once the
    website exists, opens that website's detail page. */
module AddWebsite {
  import opened Common
  import opened Client
  import opened Decimal

  /** The page's React state, with the route it has navigated to, if any. */
  datatype State = State(isSubmitting: bool, error: Option<string>, navigation: Option<string>)

  const Initial := State(false, None, None)

  const AddError := "Failed to add website. Please try again."

  const DetailPrefix := "/websites/"

  /** The first two statements of `handleSubmit`: the form is disabled and
      any earlier error cleared while the request is in flight. */
  function StartSubmit(s: State): (t: State)
    ensures t.isSubmitting && t.error.None? && t.navigation == s.navigation
  {
    s.(isSubmitting := true, error := None)
  }

  /** `handleSubmit(formData)` given the outcome of `createWebsite`. On
      success the page goes to the new website's detail route and stays in
      the submitting state; on failure it shows the error and re-enables the
      form without navigating. */
  function HandleSubmit(s: State, outcome: Outcome<SiteJson>): (t: State)
    ensures outcome.Ok? ==>
              t.isSubmitting && t.error.None?
              && t.navigation == Some(DetailPrefix + NatToString(outcome.data.id))
    ensures outcome.Err? ==>
              !t.isSubmitting && t.error == Some(AddError) && t.navigation == s.navigation
  {
    var started := StartSubmit(s);
    match outcome
    case Ok(site) => started.(navigation := Some(DetailPrefix + NatToString(site.id)))
    case Err(_) => started.(isSubmitting := false, error := Some(AddError))
  }

  /** The props the page passes to the form: no website, so the form is in
      add mode, together with the page's submitting flag and error. */
  datatype FormProps = FormProps(website: Option<SiteJson>, isSubmitting: bool, error: Option<string>)

  function Render(s: State): (p: FormProps)
    ensures p.website.None?
    ensures p.isSubmitting == s.isSubmitting && p.error == s.error
  {
    FormProps(None, s.isSubmitting, s.error)
  }

  /** The route opened after a successful submit names the created website:
      its last segment reads back as that website's id. */
  lemma NavigatesToCreated(s: State, site: SiteJson)
    ensures var t := HandleSubmit(s, Ok(site));
            && t.navigation.Some?
            && |t.navigation.value| > |DetailPrefix|
            && t.navigation.value[..|DetailPrefix|] == DetailPrefix
            && ParseNat(t.navigation.value[|DetailPrefix|..]) == Some(site.id)
  {
    var path := DetailPrefix + NatToString(site.id);
    assert path[|DetailPrefix|..] == NatToString(site.id);
    ParsePrinted(site.id);
  }

  /** Websites with different ids are opened at different routes. */
  lemma DistinctSitesDistinctRoutes(s: State, a: SiteJson, b: SiteJson)
    requires a.id != b.id
    ensures HandleSubmit(s, Ok(a)).navigation != HandleSubmit(s, Ok(b)).navigation
  {
    var pa := DetailPrefix + NatToString(a.id);
    var pb := DetailPrefix + NatToString(b.id);
    if pa == pb {
      assert pa[|DetailPrefix|..] == NatToString(a.id);
      assert pb[|DetailPrefix|..] == NatToString(b.id);
      PrintInjective(a.id, b.id);
    }
  }
}
