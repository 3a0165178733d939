# Monita uptime monitor — a Dafny model

Monita watches a list of websites. A Flask back end stores the websites and their
check records in SQLite and serves them over a small REST API. A checker, run either
inside the back end or as an AWS Lambda, fetches every active website, calls it
up for any 2xx or 3xx response, and records a check. A React front end shows the
websites on a dashboard, a list page, a detail page with a paged check history,
and add/edit forms.

This project models that core as pure functions over immutable data:

- `Common` — optional values, the outcome of an awaited network call, and an
  order-preserving `Filter` shared by SQL `WHERE` clauses and JavaScript `filter`.
- `Models` — the `websites` and `checks` tables, their integrity (unique ids and
  the `website_id` foreign key), SQLite's id assignment, `to_dict`, newest-first
  ordering, the latest status, and the cascading delete.
- `Routes` — every route of the websites blueprint, as a function from the
  database and the request to the response and the committed database.
- `Checker` and `LambdaChecker` — classifying one probe and checking every
  active website, in the back end and in the Lambda.
- `Client`, `Dashboard`, `WebsiteList`, `WebsiteDetail`, `WebsiteForm`,
  `AddWebsite`, `EditWebsite`, `AppSidebar` — the front end's pages and
  components as state transitions, each taking the outcome of its network calls
  as a parameter.
- `Decimal` — printing an id into a route and reading it back.

Network calls, the clock and `new URL` parsing are parameters. Timestamps are
natural numbers, because only their order matters. The front end has no request
tokens that discard stale responses, and the back end has no scheduler, so
neither appears in the model. The checks route does not clamp a page past the
last one to the last page: such a page comes back empty, in the source and in
the model.

## Model

| member | source | states |
|---|---|---|
| Common.Filter | frontend/src/pages/Dashboard.js:27-32 | Filtering keeps exactly the elements that satisfy the predicate, each as often as in the input, and never lengthens the list |
| Common.FilterKeepsOrder | frontend/src/pages/WebsiteList.js:82 | Filtering never reorders: the result is a subsequence of the input |
| Common.FilterDistinct | backend/app/models.py:8 | Filtering a list with unique keys keeps the keys unique |
| Models.MaxWebsiteId | backend/app/models.py:8 | Every stored website id is at most the returned maximum |
| Models.NextWebsiteId | backend/app/models.py:8 | The id SQLite gives a new website is positive and used by no stored website |
| Models.NextCheckId | backend/app/models.py:48 | The id SQLite gives a new check is positive and used by no stored check |
| Models.FindWebsite | backend/app/routes/websites.py:39 | `get_or_404` lookup: None exactly when no website has the id, otherwise the first position holding it |
| Models.SerializeTime | backend/app/models.py:25 | A missing timestamp serialises as null and a present one keeps its instant |
| Models.CheckToDict | backend/app/models.py:59-69 | `Check.to_dict` loses nothing: decoding the dictionary gives back the check, and a null `checked_at` stays null |
| Models.Insert | backend/app/routes/websites.py:84-85 | Inserting a check into the ordered history adds exactly that check |
| Models.InsertKeepsOrder | backend/app/routes/websites.py:84-85 | Inserting into a newest-first list keeps it newest first |
| Models.SortNewestFirst | backend/app/routes/websites.py:104-105 | `ORDER BY checked_at DESC` yields a newest-first permutation, with null timestamps last |
| Models.History | backend/app/routes/websites.py:104-105 | A website's history holds exactly its own checks, each as often as stored, newest first |
| Models.GetLatestStatus | backend/app/models.py:30-41 | `get_latest_status` is None exactly when the website has no check, otherwise the fields of a newest check of that website |
| Models.LatestAfterNewerCheck | backend/app/models.py:32 | After a check newer than all others of its website is recorded, that check is the website's latest status |
| Models.NewestIsUnique | backend/app/models.py:32 | A check strictly newer than the rest is the only newest one |
| Models.WebsiteToDict | backend/app/models.py:18-28 | `Website.to_dict` loses no column, reports `created_at` as null exactly when it is null, and embeds exactly the website's latest status |
| Models.CascadeDelete | backend/app/models.py:16 | Deleting a website removes it and every check of it, and keeps all other rows |
| Models.CascadeDeleteValid | backend/app/models.py:16 | The cascading delete keeps ids unique and leaves no check pointing at a missing website |
| Routes.EncodeChecks | backend/app/routes/websites.py:91 | The list of check dictionaries decodes back to the checks |
| Routes.ListWebsites | backend/app/routes/websites.py:8-12 | `GET /api/websites` returns 200 and one dictionary per stored website, in table order, each carrying that website's latest status |
| Routes.GetWebsite | backend/app/routes/websites.py:36-40 | 404 exactly for an unknown id, otherwise 200 with the stored website of that id and its latest status |
| Routes.CreateWebsite | backend/app/routes/websites.py:14-34 | 400 "Name and URL are required" with nothing stored exactly when the body, the name or the URL is missing or empty. Otherwise 201: one website is appended under a fresh id, with the defaults of 5 minutes and active, no latest status, and integrity kept |
| Routes.ApplyFields | backend/app/routes/websites.py:52-59 | Each field present in the body replaces the stored one, and absent fields, the id and `created_at` stay |
| Routes.UpdateWebsite | backend/app/routes/websites.py:42-63 | 404 for an unknown id. Otherwise 400 "No data provided" for an empty or missing body. Otherwise 200, where only the matching website changes, exactly as the body says, and integrity is kept |
| Routes.ReplaceKeepsValid | backend/app/routes/websites.py:61 | Replacing a website by one with the same id keeps the id set and integrity |
| Routes.UpdateIdempotent | backend/app/routes/websites.py:42-63 | Sending the same update twice leaves the database as sending it once |
| Routes.FindFirst | backend/app/routes/websites.py:45 | The lookup returns the first position holding the id |
| Routes.DeleteWebsite | backend/app/routes/websites.py:65-73 | 404 for an unknown id with nothing changed. Otherwise 204 with the website and all its checks gone, every other row kept, and integrity kept |
| Routes.Take | backend/app/routes/websites.py:86 | `LIMIT n` yields the first min(n, length) elements |
| Routes.RecentChecks | backend/app/routes/websites.py:84-86 | The recent checks are drawn from the website's checks without repetition, ten of them or all when there are fewer, newest first; no omitted check is newer than one shown |
| Routes.HistoryLength | backend/app/routes/websites.py:104 | The history has as many entries as the website has checks |
| Routes.TakeKeepsNewest | backend/app/routes/websites.py:85-86 | A prefix of a newest-first list is newest first, and nothing left out is newer than anything kept |
| Routes.WebsiteStatus | backend/app/routes/websites.py:75-92 | 404 for an unknown id. Otherwise 200 with the stored website, its latest status, which is null exactly when it has no check, and its 10 most recent checks, newest first |
| Routes.Window | backend/app/routes/websites.py:106 | A page holds at most `per_page` elements of the list |
| Routes.WindowKeepsOrder | backend/app/routes/websites.py:105-106 | A page of a newest-first list is newest first |
| Routes.WindowPosition | backend/app/routes/websites.py:106 | Paging covers the list: element i is at position i mod per_page of page i div per_page + 1 |
| Routes.PageCount | backend/app/routes/websites.py:112 | The page count is the ceiling of total over `per_page`, and zero without items |
| Routes.WebsiteChecks | backend/app/routes/websites.py:94-118 | 404 for an unknown id. Otherwise 200, where page and per_page default to 1 and 20 and are echoed, the total counts the website's checks, pages is the page count for per_page, next and prev exist exactly when there is such a page, and the page holds that window of its checks, newest first |
| Routes.FirstPageIsRecent | backend/app/routes/websites.py:84-86 | The checks route's first page of ten is the status route's recent checks |
| Checker.CheckWebsite | backend/app/utils/checker.py:7-51 | A probe is up exactly for a 2xx or 3xx status. A request exception is down, with no status code and the exception's text. The response time and check time are recorded |
| Checker.RecordAll | backend/app/utils/checker.py:63-65 | Each probed website gets one check, in order, built from its probe as `check_website` does, under fresh distinct ids |
| Checker.CheckAllWebsites | backend/app/utils/checker.py:53-67 | One check per active website, in query order, built from its probe, is appended to the table, and integrity is kept |
| Checker.AppendKeepsValid | backend/app/utils/checker.py:48-49 | Committing checks with fresh distinct ids for stored websites keeps integrity |
| Checker.NoCheckForInactive | backend/app/utils/checker.py:60 | No check of the batch belongs to an inactive website |
| LambdaChecker.FetchWebsites | lambda_function/lambda_function.py:18-22 | Exactly the rows with `is_active = 1` are fetched |
| LambdaChecker.CheckSite | lambda_function/lambda_function.py:35-63 | The same up/down classification as the back end, reported as a dictionary with the site's id, status code, error text and elapsed time |
| LambdaChecker.LambdaHandler | lambda_function/lambda_function.py:82-129 | 500 with "Error: " and the message exactly when the connection or some insert fails, and then the message is that of the connection or of the first failing insert. Otherwise 200 with one result per active website, in order, each with its name, check id and state, and a message counting them |
| Client.ChipFor | frontend/src/pages/WebsiteList.js:94-117 | Pending exactly without a latest status, otherwise Up or Down by `is_up` |
| Dashboard.ThreeWaySplit | frontend/src/pages/Dashboard.js:26-33 | Every website is exactly one of up, down or unchecked |
| Dashboard.StatsOf | frontend/src/pages/Dashboard.js:26-33 | The up, down and unknown counts are the numbers of websites with each chip, the unknown count is never negative, and the three add up to the total |
| Dashboard.FetchData | frontend/src/pages/Dashboard.js:37-49 | Success replaces the list and clears the error. Failure keeps the list and sets the load error. Loading ends either way |
| WebsiteList.FetchData | frontend/src/pages/WebsiteList.js:41-53 | As on the dashboard, and the delete dialog is untouched |
| WebsiteList.OpenDeleteDialog | frontend/src/pages/WebsiteList.js:63-66 | The dialog opens on the chosen website and nothing else changes, the progress flag included |
| WebsiteList.CloseDeleteDialog | frontend/src/pages/WebsiteList.js:68-71 | The dialog closes with no selection and nothing else changes, the progress flag included |
| WebsiteList.DeleteRequest | frontend/src/pages/WebsiteList.js:75-79 | A delete request is sent exactly when a website is selected, for that website's id |
| WebsiteList.HandleDelete | frontend/src/pages/WebsiteList.js:74-91 | Without a selection nothing happens. On success the list is the old one without the entries of the selected id, in order, and the dialog closes. On failure the list stays and the error names the failure. The progress flag ends false and the loading flag is untouched |
| WebsiteList.CountAfterRemoval | frontend/src/pages/WebsiteList.js:82 | Removing the entries with one id splits any count into the entries kept and those removed |
| WebsiteList.OnlyOneWithId | frontend/src/pages/WebsiteList.js:82 | With unique ids, only the selected website carries its id |
| WebsiteList.CountDrop | frontend/src/pages/WebsiteList.js:82 | With unique ids, deleting a website lowers a count by one exactly when that website was counted |
| WebsiteList.DeleteAdjustsStats | frontend/src/pages/WebsiteList.js:82 | After a successful delete the total falls by one, and only the chip count of the listed entry with the selected id falls, by one, even when a reload replaced that entry after the dialog opened |
| WebsiteDetail.FromServer | frontend/src/pages/WebsiteDetail.js:48-49 | The stored website is the server's object: id, name, URL, interval and active flag, and a latest status with the same up flag, status code, response time, check time and error |
| WebsiteDetail.MergeStatusAsWritten | frontend/src/pages/WebsiteDetail.js:57-65 | The merged status stores the reply's response time under a key the card does not read, so the card shows none |
| WebsiteDetail.ResponseTimeLost | frontend/src/pages/WebsiteDetail.js:61 | A reply with a 120 ms response time still shows no response time |
| WebsiteDetail.MergeStatus | frontend/src/pages/WebsiteDetail.js:57-65 | The latest status is replaced wholesale: up exactly when the reply says "up", its status code and time, and the response time the card shows. The rest of the website is kept |
| WebsiteDetail.Refresh | frontend/src/pages/WebsiteDetail.js:43-74 | A failed website request sets the error and changes no data. A failed status request still stores the website. When both succeed, the status is merged as written, so the card shows no response time, the history replaces the table and the error clears. Pager state is untouched |
| WebsiteDetail.RefreshIntended | frontend/src/pages/WebsiteDetail.js:43-74 | The same transitions with the intended merge: the website's own fields are kept and the card shows the reply's response time |
| WebsiteDetail.RefreshDiffersOnlyInResponseTime | frontend/src/pages/WebsiteDetail.js:57-65 | The refresh as written and as intended agree on everything but the key that holds the merged response time, and agree entirely when a request fails |
| WebsiteDetail.ChangePage | frontend/src/pages/WebsiteDetail.js:84-97 | Requests server page newPage + 1 at the current size. Only success moves the table to newPage with the reply's rows and totals. Failure keeps all and sets the history error |
| WebsiteDetail.ChangeRowsPerPage | frontend/src/pages/WebsiteDetail.js:100-115 | Requests server page 1 at the new size. Success shows page 0 at that size. Failure keeps size, page and rows and sets the history error |
| WebsiteDetail.RenderBranch | frontend/src/pages/WebsiteDetail.js:135-169 | The spinner, error, not-found and details views are chosen exactly by loading, website and error. The history shows a spinner while loading and the table only with rows, below an alert for the current error, if any |
| WebsiteForm.TrimStart | frontend/src/components/WebsiteForm.js:72 | Leading white space is removed and the rest kept |
| WebsiteForm.TrimEnd | frontend/src/components/WebsiteForm.js:76 | Trailing white space is removed and the rest kept |
| WebsiteForm.TrimEmptyIffBlank | frontend/src/components/WebsiteForm.js:72-76 | `trim()` gives the empty string exactly for strings of white space |
| WebsiteForm.Validate | frontend/src/components/WebsiteForm.js:69-88 | A blank name is "Name is required". A blank URL is "URL is required". A non-blank URL that does not parse is the valid-URL message. The form is valid exactly when no error is recorded |
| WebsiteForm.HandleSubmit | frontend/src/components/WebsiteForm.js:91-97 | `onSubmit` receives the values exactly when name and URL are non-blank and the URL parses, and the errors shown are validation's |
| WebsiteForm.HandleInputChange | frontend/src/components/WebsiteForm.js:44-58 | Only the edited field takes the new value, and only that field's error is cleared. The switch sets `is_active` |
| WebsiteForm.HandleSliderChange | frontend/src/components/WebsiteForm.js:61-66 | Only the interval changes |
| WebsiteForm.Initialize | frontend/src/components/WebsiteForm.js:32-41 | Without a website the values stay. Missing name and URL become empty, a missing or zero interval becomes 5, and a missing `is_active` becomes true |
| Decimal.NatToString | frontend/src/pages/AddWebsite.js:21 | An id prints as non-empty decimal digits without a leading zero |
| Decimal.ParseNat | backend/app/routes/websites.py:36 | An integer route segment parses exactly when it is a non-empty run of digits |
| Decimal.ParsePrinted | backend/app/routes/websites.py:36 | Reading back a printed id gives the id |
| Decimal.PrintInjective | frontend/src/pages/AddWebsite.js:21 | Different ids print differently |
| AddWebsite.StartSubmit | frontend/src/pages/AddWebsite.js:15-16 | While the request is in flight the form is disabled and no error is shown |
| AddWebsite.HandleSubmit | frontend/src/pages/AddWebsite.js:13-29 | Success navigates to the new website's detail route and stays submitting. Failure shows "Failed to add website. Please try again.", re-enables the form and does not navigate |
| AddWebsite.Render | frontend/src/pages/AddWebsite.js:48-52 | The form is given no website, so it is in add mode, with the page's submitting flag and error |
| AddWebsite.NavigatesToCreated | frontend/src/pages/AddWebsite.js:21 | The route opened after creation ends in a segment that reads back as the new website's id |
| AddWebsite.DistinctSitesDistinctRoutes | frontend/src/pages/AddWebsite.js:21 | Websites with different ids open different routes |
| EditWebsite.FetchWebsite | frontend/src/pages/EditWebsite.js:18-34 | Success stores the website and clears the error. Failure keeps the website and sets the load error. Loading ends |
| EditWebsite.StartSubmit | frontend/src/pages/EditWebsite.js:39-40 | While the request is in flight the form is disabled and no error is shown, and nothing else changes |
| EditWebsite.HandleSubmit | frontend/src/pages/EditWebsite.js:37-53 | Success navigates to the route's detail page. Failure shows the update error and re-enables the form |
| EditWebsite.Render | frontend/src/pages/EditWebsite.js:72-91 | Spinner while loading. Otherwise the error without a website, the warning with neither, else the form with the website, error and submitting flag |
| EditWebsite.FirstLoadView | frontend/src/pages/EditWebsite.js:18-34 | A failed first load ends on the error alert, a successful one on the form |
| EditWebsite.FailedUpdateKeepsForm | frontend/src/pages/EditWebsite.js:48-52 | A failed update keeps the form on screen with the update error |
| EditWebsite.FormShowsLoadedWebsite | frontend/src/components/WebsiteForm.js:33-39 | The edit form opens on the website's own values, with an interval of 0 shown as 5 |
| AppSidebar.IsActive | frontend/src/components/AppSidebar.js:37-42 | The root entry is highlighted only on the root, and every other entry on each location starting with its path |
| AppSidebar.OwnRouteActive | frontend/src/components/AppSidebar.js:37-42 | Every path, the root included, is highlighted when the location equals it |
| AppSidebar.EditPageHighlightsWebsites | frontend/src/components/AppSidebar.js:25-42 | An edit page highlights "Websites" and nothing else |
| AppSidebar.RootExclusive | frontend/src/components/AppSidebar.js:37-42 | The root entry is never highlighted together with another |
| AppSidebar.HandleNavigation | frontend/src/components/AppSidebar.js:45-51 | A click navigates to the entry, and toggles the drawer exactly on windows narrower than 600 |

## Left out

- Network calls, SQLite, SQLAlchemy sessions and the axios wrappers of `api.js` are not modelled. Each handler takes the outcome of its awaited calls as a parameter.
- Interleaving of concurrent handlers, and the 30-second polling intervals of the dashboard, list and detail pages, are not modelled. Each handler runs to completion on the state it started from.
- Flask application setup and `run.py` are not modelled.
- Timing is not modelled. Elapsed milliseconds and `utcnow()` are inputs, and timestamps are opaque naturals compared only by order.
- `new URL(...)` parsing is a parameter of `WebsiteForm.Validate`; no URL grammar is modelled.
- Routes.Window: for a page or `per_page` below 1 the model returns an empty page, and does not model what Flask-SQLAlchemy's `paginate` does with such arguments.
- Routes.WebsiteChecks: behaviour for non-positive arguments follows `Routes.Window`.
- Routes.CreateWebsite: JSON values of the wrong type, and JSON `null` for a field, are not modelled. Each field is either a value of the column's type or absent.
- Routes.UpdateWebsite: as for creation, a present field always holds a value of the column's type.
- Checker.CheckWebsite: exceptions other than `RequestException` propagate out of the source, and the model does not represent them.
- `notify_status_change` in the Lambda is never called by the handler and is not modelled.
- LambdaChecker.LambdaHandler: the 500 response's body carries no results list in the source. The model returns an empty list there.
- LambdaChecker.LambdaHandler: a probe that raises something other than `RequestException` ends the source's run with a 500 as well. Probes here always yield a response or a request failure, so that path is not modelled.
- WebsiteForm.Initialize: a stored `is_active` of null is treated like a missing one and gives true. The source keeps the null, which the switch shows as off. The column has a default of true but is nullable.
- Ties in `checked_at` are ordered stably in storage order. SQLite leaves that order unspecified.
- The client and server disagree on the status response's shape. The page reads `status`, `response_time_ms`, `last_checked` and `history`, while the route returns `website`, `latest_status` and `recent_checks`. Both sides are modelled as written, and nothing connects them.
- Decimal.ParseNat: a plain decimal reader that also accepts leading zeros. Werkzeug's integer converter is not part of this model.
- The Settings, Help and NotFound pages, `App.js` routing and `AppHeader` are not modelled.
- The drawer's rendering and icons are not modelled.

## Findings

| source | as written | input that shows it | evidently intended | confidence | as-written member | corrected member |
|---|---|---|---|---|---|---|
| frontend/src/pages/WebsiteDetail.js:61 | The merged `latest_status` stores the response time as `response_time`, but the "Latest Check" card at line 223 reads `response_time_ms` | A status reply with `response_time_ms: 120` gives a card that shows no response time | Store it as `response_time_ms`, so the card shows the reply's response time | not executed | WebsiteDetail.Refresh | WebsiteDetail.RefreshIntended |
