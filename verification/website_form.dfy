/** The add/edit form: its values and field errors, validation, the submit
    gate, input handling, and initialisation from a loaded website. */
module WebsiteForm {
  import opened Common

  /** The `formValues` state. */
  datatype Values = Values(name: string, url: string, checkIntervalMinutes: int, isActive: bool)

  /** The `formErrors` state: only the name and url fields ever get one. */
  datatype Errors = Errors(name: Option<string>, url: Option<string>)

  const InitialValues := Values("", "", 5, true)
  const NoErrors := Errors(None, None)

  const NameRequired := "Name is required"
  const UrlRequired := "URL is required"
  const UrlInvalid := "Please enter a valid URL (e.g., https://example.com)"

  /** The characters `String.prototype.trim` removes: white space and line
      terminators as ECMAScript defines them. */
  predicate IsTrimmable(c: char) {
    || ('\U{9}' <= c <= '\U{D}') || c == ' ' || c == '\U{A0}' || c == '\U{1680}'
    || ('\U{2000}' <= c <= '\U{200A}')
    || c == '\U{2028}' || c == '\U{2029}' || c == '\U{202F}' || c == '\U{205F}'
    || c == '\U{3000}' || c == '\U{FEFF}'
  }

  function TrimStart(s: string): (r: string)
    ensures |r| <= |s| && r == s[|s| - |r|..]
    ensures |r| > 0 ==> !IsTrimmable(r[0])
    ensures forall i :: 0 <= i < |s| - |r| ==> IsTrimmable(s[i])
  {
    if |s| > 0 && IsTrimmable(s[0]) then TrimStart(s[1..]) else s
  }

  function TrimEnd(s: string): (r: string)
    ensures |r| <= |s| && r == s[..|r|]
    ensures |r| > 0 ==> !IsTrimmable(r[|r| - 1])
    ensures forall i :: |r| <= i < |s| ==> IsTrimmable(s[i])
  {
    if |s| > 0 && IsTrimmable(s[|s| - 1]) then TrimEnd(s[..|s| - 1]) else s
  }

  /** `s.trim()`. */
  function Trim(s: string): string {
    TrimEnd(TrimStart(s))
  }

  /** A blank string consists of trimmable characters only. */
  ghost predicate IsBlank(s: string) {
    forall i :: 0 <= i < |s| ==> IsTrimmable(s[i])
  }

  /** `!s.trim()` holds exactly for blank strings. */
  lemma TrimEmptyIffBlank(s: string)
    ensures Trim(s) == "" <==> IsBlank(s)
  {
  }

  /** The outcome of `validateForm()`: its return value and the errors it stores. */
  datatype Validation = Validation(ok: bool, errors: Errors)

  /** `validateForm()`, with `new URL(url)` succeeding exactly when
      `parsesAsUrl(url)`: a blank name is an error; a blank url is "URL is
      required", and only a non-blank url that does not parse gets the
      valid-URL error; the form is valid exactly when no error is recorded. */
  function Validate(v: Values, parsesAsUrl: string -> bool): (r: Validation)
    ensures r.errors.name.Some? <==> IsBlank(v.name)
    ensures r.errors.name.Some? ==> r.errors.name.value == NameRequired
    ensures r.errors.url == Some(UrlRequired) <==> IsBlank(v.url)
    ensures r.errors.url == Some(UrlInvalid) <==> !IsBlank(v.url) && !parsesAsUrl(v.url)
    ensures r.errors.url.Some? ==> r.errors.url.value in {UrlRequired, UrlInvalid}
    ensures r.ok <==> r.errors == NoErrors
  {
    TrimEmptyIffBlank(v.name);
    TrimEmptyIffBlank(v.url);
    var nameError := if Trim(v.name) == "" then Some(NameRequired) else None;
    var urlError :=
      if Trim(v.url) == "" then Some(UrlRequired)
      else if !parsesAsUrl(v.url) then Some(UrlInvalid)
      else None;
    Validation(nameError.None? && urlError.None?, Errors(nameError, urlError))
  }

  /** The form's own state. */
  datatype Form = Form(values: Values, errors: Errors)

  /** `handleSubmit`: the stored errors become those of validation, and
      `onSubmit` receives the current values exactly when validation passes. */
  function HandleSubmit(f: Form, parsesAsUrl: string -> bool): (r: (Option<Values>, Form))
    ensures r.1.values == f.values
    ensures r.1.errors == Validate(f.values, parsesAsUrl).errors
    ensures r.0.Some? <==> !IsBlank(f.values.name) && !IsBlank(f.values.url) && parsesAsUrl(f.values.url)
    ensures r.0.Some? ==> r.0.value == f.values
  {
    var v := Validate(f.values, parsesAsUrl);
    (if v.ok then Some(f.values) else None, Form(f.values, v.errors))
  }

  /** A change event from one of the form's inputs: the two text fields
      report `value`, the monitoring switch is the one checkbox and reports
      `checked`. */
  datatype TextField = NameField | UrlField
  datatype InputEvent = TextInput(field: TextField, value: string) | SwitchInput(checked: bool)

  /** `handleInputChange`: only the named field takes the new value, and only
      that field's error is cleared. */
  function HandleInputChange(f: Form, e: InputEvent): (r: Form)
    ensures r.values.checkIntervalMinutes == f.values.checkIntervalMinutes
    ensures e.TextInput? && e.field == NameField ==>
              r.values == f.values.(name := e.value) && r.errors == f.errors.(name := None)
    ensures e.TextInput? && e.field == UrlField ==>
              r.values == f.values.(url := e.value) && r.errors == f.errors.(url := None)
    ensures e.SwitchInput? ==> r.values == f.values.(isActive := e.checked) && r.errors == f.errors
  {
    match e
    case TextInput(NameField, value) => Form(f.values.(name := value), f.errors.(name := None))
    case TextInput(UrlField, value) => Form(f.values.(url := value), f.errors.(url := None))
    case SwitchInput(checked) => f.(values := f.values.(isActive := checked))
  }

  /** `handleSliderChange`: only the interval changes. */
  function HandleSliderChange(f: Form, minutes: int): (r: Form)
    ensures r.values.checkIntervalMinutes == minutes
    ensures r.values.(checkIntervalMinutes := f.values.checkIntervalMinutes) == f.values
    ensures r.errors == f.errors
  {
    f.(values := f.values.(checkIntervalMinutes := minutes))
  }

  /** The fields of the `website` prop, each possibly missing. */
  datatype Loaded = Loaded(
    name: Option<string>,
    url: Option<string>,
    checkIntervalMinutes: Option<int>,
    isActive: Option<bool>)

  /** The effect that fills the form from a `website` prop: without one the
      values stay; a missing name or url becomes '', a missing or zero
      interval becomes 5, and a missing `is_active` becomes true. */
  function Initialize(current: Values, website: Option<Loaded>): (v: Values)
    ensures website.None? ==> v == current
    ensures website.Some? ==>
              && v.name == website.value.name.GetOr("")
              && v.url == website.value.url.GetOr("")
              && (v.checkIntervalMinutes == 5 <==>
                    website.value.checkIntervalMinutes.None?
                    || website.value.checkIntervalMinutes.value in {0, 5})
              && (v.checkIntervalMinutes != 5 ==> Some(v.checkIntervalMinutes) == website.value.checkIntervalMinutes)
              && (v.isActive <==> website.value.isActive != Some(false))
  {
    match website
    case None => current
    case Some(w) =>
      Values(w.name.GetOr(""), w.url.GetOr(""),
             if w.checkIntervalMinutes.None? || w.checkIntervalMinutes.value == 0 then 5
             else w.checkIntervalMinutes.value,
             w.isActive.GetOr(true))
  }
}
