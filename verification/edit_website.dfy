/** The "Edit Website" page: it loads the website named by the route,
    hands it to the form, and saves the form's values. */
module EditWebsite {
  import opened Common
  import opened Client
  import WebsiteForm

  /** The page's React state, with the route it has navigated to, if any. */
  datatype State = State(
    website: Option<SiteJson>,
    isLoading: bool,
    isSubmitting: bool,
    error: Option<string>,
    navigation: Option<string>)

  const Initial := State(None, true, false, None, None)

  const LoadError := "Failed to load website details. Please try again later."
  const UpdateError := "Failed to update website. Please try again."

  /** `fetchWebsite` given the outcome of `getWebsite(id)`: success stores
      the website and clears the error, failure keeps whatever website was
      held and sets the load error; loading ends either way. */
  function FetchWebsite(s: State, outcome: Outcome<SiteJson>): (t: State)
    ensures !t.isLoading
    ensures t.isSubmitting == s.isSubmitting && t.navigation == s.navigation
    ensures outcome.Ok? ==> t.website == Some(outcome.data) && t.error.None?
    ensures outcome.Err? ==> t.website == s.website && t.error == Some(LoadError)
  {
    match outcome
    case Ok(site) => s.(website := Some(site), error := None, isLoading := false)
    case Err(_) => s.(error := Some(LoadError), isLoading := false)
  }

  /** The first two statements of `handleSubmit`: the form is disabled and
      any earlier error cleared while the request is in flight. */
  function StartSubmit(s: State): (t: State)
    ensures t.isSubmitting && t.error.None?
    ensures t.website == s.website && t.isLoading == s.isLoading && t.navigation == s.navigation
  {
    s.(isSubmitting := true, error := None)
  }

  /** `handleSubmit(formData)` given the outcome of `updateWebsite(id, …)`:
      success goes back to the route's detail page, still submitting;
      failure shows the update error and re-enables the form. */
  function HandleSubmit(s: State, id: string, outcome: Outcome<()>): (t: State)
    ensures t.website == s.website && t.isLoading == s.isLoading
    ensures outcome.Ok? ==>
              t.isSubmitting && t.error.None? && t.navigation == Some("/websites/" + id)
    ensures outcome.Err? ==>
              !t.isSubmitting && t.error == Some(UpdateError) && t.navigation == s.navigation
  {
    var started := StartSubmit(s);
    match outcome
    case Ok(_) => started.(navigation := Some("/websites/" + id))
    case Err(_) => started.(isSubmitting := false, error := Some(UpdateError))
  }

  /** The four things the page can draw below its heading. */
  datatype View =
    | Spinner
    | ErrorAlert(message: string)
    | NotFoundWarning
    | Form(website: SiteJson, isSubmitting: bool, error: Option<string>)

  /** The render's conditional chain: spinner while loading, the error when
      there is no website, a warning when there is neither, else the form. */
  function Render(s: State): (v: View)
    ensures v == Spinner <==> s.isLoading
    ensures v.ErrorAlert? <==> !s.isLoading && s.error.Some? && s.website.None?
    ensures v.ErrorAlert? ==> v.message == s.error.value
    ensures v == NotFoundWarning <==> !s.isLoading && s.error.None? && s.website.None?
    ensures v.Form? <==> !s.isLoading && s.website.Some?
    ensures v.Form? ==> v.website == s.website.value && v.error == s.error && v.isSubmitting == s.isSubmitting
  {
    if s.isLoading then Spinner
    else if s.error.Some? && s.website.None? then ErrorAlert(s.error.value)
    else if s.website.None? then NotFoundWarning
    else Form(s.website.value, s.isSubmitting, s.error)
  }

  /** A first load that fails ends on the error alert; one that succeeds
      ends on the form for the loaded website. */
  lemma FirstLoadView(outcome: Outcome<SiteJson>)
    ensures outcome.Err? ==> Render(FetchWebsite(Initial, outcome)) == ErrorAlert(LoadError)
    ensures outcome.Ok? ==> Render(FetchWebsite(Initial, outcome)) == Form(outcome.data, false, None)
  {
  }

  /** A failed update leaves the form on screen, re-enabled and showing the
      update error, rather than replacing it with the alert. */
  lemma FailedUpdateKeepsForm(s: State, id: string, message: string)
    requires !s.isLoading && s.website.Some?
    ensures Render(HandleSubmit(s, id, Err(message))) == Form(s.website.value, false, Some(UpdateError))
  {
  }

  /** The website prop as the form's initialising effect sees it: every
      field present. */
  function AsLoaded(site: SiteJson): (l: WebsiteForm.Loaded)
    ensures l.name == Some(site.name) && l.url == Some(site.url)
    ensures l.checkIntervalMinutes == Some(site.checkIntervalMinutes)
    ensures l.isActive == Some(site.isActive)
  {
    WebsiteForm.Loaded(Some(site.name), Some(site.url), Some(site.checkIntervalMinutes), Some(site.isActive))
  }

  /** The form opens on the loaded website's own values, except that an
      interval of 0 is shown as the default 5. */
  lemma FormShowsLoadedWebsite(site: SiteJson)
    ensures var v := WebsiteForm.Initialize(WebsiteForm.InitialValues, Some(AsLoaded(site)));
            && v.name == site.name && v.url == site.url && v.isActive == site.isActive
            && v.checkIntervalMinutes == (if site.checkIntervalMinutes == 0 then 5 else site.checkIntervalMinutes)
  {
  }
}
