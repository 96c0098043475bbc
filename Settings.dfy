/**
 * The site settings record behind `/admin/settings`: its default value, the
 * admin read, and the overlay `POST /admin/settings` applies to the stored
 * record before writing it back.
 */
module Settings {
  import opened Wrappers
  import opened Strings
  import opened Http
  import opened Upload
  import opened Auth
  import opened DataFiles

  /** A JSON value, as far as the settings record needs one (numbers are integers here). */
  datatype Json =
    | JNull
    | JBool(b: bool)
    | JNumber(n: int)
    | JString(s: string)
    | JArray(items: seq<Json>)
    | JObject(members: seq<(string, Json)>)

  /**
   * The settings file: the five keys the site reads, and whatever other keys
   * the file holds, which every route passes through untouched.
   */
  datatype SiteSettings = SiteSettings(
    status: string,
    availableFor: Json,
    statusMessage: string,
    logoUrl: Option<string>,
    heroTagline: string,
    others: seq<(string, Json)>)

  /** The three kinds of work the default record declares the owner open to. */
  const DEFAULT_AVAILABILITY: Json :=
    JObject([("freelance", JBool(true)), ("collaboration", JBool(true)), ("mentorship", JBool(true))])

  /** The record used when there is no readable settings file. */
  const DEFAULT_SETTINGS: SiteSettings := SiteSettings(
    "available",
    DEFAULT_AVAILABILITY,
    "Open for projects & conversations.",
    None,
    "IoT Builder \U{B7} Founder \U{B7} Designer",
    [])

  /**
   * The body fields of a settings update; `None` is a field the request
   * left out. `availableFor` is a JSON value: a form post sends it as a
   * string holding JSON, a JSON post as the value itself.
   */
  datatype SettingsForm = SettingsForm(
    status: Option<string>,
    statusMessage: Option<string>,
    heroTagline: Option<string>,
    availableFor: Option<Json>)

  /**
   * The availability after an update: a string is parsed as JSON and a
   * parse failure keeps the current value; any other value is taken as it is.
   */
  function NewAvailability(current: Json, sent: Json, parse: string -> Option<Json>): (a: Json)
    ensures sent.JString? && parse(sent.s).None? ==> a == current
    ensures sent.JString? && parse(sent.s).Some? ==> a == parse(sent.s).value
    ensures !sent.JString? ==> a == sent
  {
    if sent.JString? then parse(sent.s).GetOr(current) else sent
  }

  /**
   * The overlay of `POST /admin/settings`: status changes only to a
   * non-empty value; status message and tagline change whenever they are
   * sent, even to the empty string; availability changes only when sent
   * and readable; the logo URL changes only when a logo was uploaded; no
   * other key changes.
   */
  function Merged(current: SiteSettings, form: SettingsForm, logo: Option<StoredFile>,
                  parse: string -> Option<Json>): (s: SiteSettings)
    ensures s.others == current.others
    ensures s.status != current.status ==> Truthy(form.status) && s.status == form.status.value
    ensures s.statusMessage != current.statusMessage ==> form.statusMessage == Some(s.statusMessage)
    ensures s.heroTagline != current.heroTagline ==> form.heroTagline == Some(s.heroTagline)
    ensures s.availableFor != current.availableFor ==> form.availableFor.Some?
    ensures s.logoUrl != current.logoUrl ==> logo.Some?
    ensures Truthy(form.status) ==> s.status == form.status.value
    ensures form.statusMessage.Some? ==> s.statusMessage == form.statusMessage.value
    ensures form.heroTagline.Some? ==> s.heroTagline == form.heroTagline.value
    ensures form.availableFor.Some? ==>
      s.availableFor == NewAvailability(current.availableFor, form.availableFor.value, parse)
    ensures logo.Some? ==> s.logoUrl == Some("/uploads/" + logo.value.filename)
  {
    current.(
      status := Or(form.status, current.status),
      statusMessage := form.statusMessage.GetOr(current.statusMessage),
      heroTagline := form.heroTagline.GetOr(current.heroTagline),
      availableFor := if form.availableFor.Some?
                      then NewAvailability(current.availableFor, form.availableFor.value, parse)
                      else current.availableFor,
      logoUrl := if logo.Some? then Some(UploadUrl(logo.value)) else current.logoUrl)
  }

  /** The logo an update replaces and schedules for deletion. */
  function ReplacedLogo(current: SiteSettings, logo: Option<StoredFile>): (paths: seq<string>)
    ensures |paths| <= 1
    ensures paths != [] <==> logo.Some? && Truthy(current.logoUrl)
    ensures paths != [] ==> paths[0] == current.logoUrl.value
  {
    if logo.Some? && Truthy(current.logoUrl) then [current.logoUrl.value] else []
  }

  /** An update that sends nothing and uploads nothing leaves the settings as they were. */
  lemma MergeNothing(current: SiteSettings, parse: string -> Option<Json>)
    ensures Merged(current, SettingsForm(None, None, None, None), None, parse) == current
  {
  }

  /** Sending the same update twice gives the same settings as sending it once. */
  lemma MergeIdempotent(current: SiteSettings, form: SettingsForm, logo: Option<StoredFile>,
                        parse: string -> Option<Json>)
    ensures var once := Merged(current, form, logo, parse);
      Merged(once, form, logo, parse) == once
  {
  }

  /** An empty status is ignored, while an empty status message clears the message. */
  lemma EmptyStatusIgnoredEmptyMessageApplied(current: SiteSettings, parse: string -> Option<Json>)
    ensures var s := Merged(current, SettingsForm(Some(""), Some(""), None, None), None, parse);
      s.status == current.status && s.statusMessage == ""
  {
  }

  /** Availability sent as unreadable text leaves the current availability in place. */
  lemma UnreadableAvailabilityKept(current: SiteSettings, text: string, parse: string -> Option<Json>)
    requires parse(text).None?
    ensures Merged(current, SettingsForm(None, None, None, Some(JString(text))), None, parse) == current
  {
  }

  /**
   * The body of the update handler after the gate: start from the settings
   * file as initialized (a missing file now holds the default record), or
   * from the default when it cannot be read, and overwrite its keys one at
   * a time; collect the replaced logo for deletion.
   */
  method ApplySettings(file: DataFile<SiteSettings>, form: SettingsForm, logo: Option<StoredFile>,
                       parse: string -> Option<Json>) returns (settings: SiteSettings, stale: seq<string>)
    ensures settings == Merged(ContentsOr(file, DEFAULT_SETTINGS), form, logo, parse)
    ensures stale == ReplacedLogo(ContentsOr(file, DEFAULT_SETTINGS), logo)
  {
    var read := Initialized(file, DEFAULT_SETTINGS);
    settings := if read.Parsed? then read.contents else DEFAULT_SETTINGS;
    FallbackAfterInit(file, DEFAULT_SETTINGS);
    assert settings == ContentsOr(file, DEFAULT_SETTINGS);
    stale := [];
    if Truthy(form.status) {
      settings := settings.(status := form.status.value);
    }
    if form.statusMessage.Some? {
      settings := settings.(statusMessage := form.statusMessage.value);
    }
    if form.heroTagline.Some? {
      settings := settings.(heroTagline := form.heroTagline.value);
    }
    if form.availableFor.Some? {
      var sent := form.availableFor.value;
      if sent.JString? {
        var parsed := parse(sent.s);
        if parsed.Some? {
          settings := settings.(availableFor := parsed.value);
        }
      } else {
        settings := settings.(availableFor := sent);
      }
    }
    if logo.Some? {
      if Truthy(settings.logoUrl) {
        stale := [settings.logoUrl.value];
      }
      settings := settings.(logoUrl := Some(UploadUrl(logo.value)));
    }
  }

  /**
   * `POST /admin/settings`: the gate first (401 without a session, 500 for
   * a refused logo), then the overlay; the reply carries the record that is
   * written back, and the replaced logo is returned for deletion.
   */
  method PostSettings(session: Option<Session>, file: DataFile<SiteSettings>, form: SettingsForm,
                      logo: Option<StoredFile>, parse: string -> Option<Json>)
    returns (reply: Reply<SiteSettings>, stale: seq<string>)
    ensures var files := if logo.Some? then [logo.value.file] else [];
      && (Admit(session, files).Some? ==> reply == Error(Admit(session, files).value) && stale == [])
      && (Admit(session, files).None? ==>
            && reply == Ok(Merged(ContentsOr(file, DEFAULT_SETTINGS), form, logo, parse))
            && stale == ReplacedLogo(ContentsOr(file, DEFAULT_SETTINGS), logo))
    ensures reply.Error? ==> reply.status == Unauthorized || reply.status == ServerError
  {
    var files := if logo.Some? then [logo.value.file] else [];
    var denied := Admit(session, files);
    if denied.Some? {
      return Error(denied.value), [];
    }
    var settings;
    settings, stale := ApplySettings(file, form, logo, parse);
    reply := Ok(settings);
  }

  /**
   * `GET /admin/settings`: 401 without an authenticated session. The
   * handler then creates a missing settings file holding the default
   * record, so it answers 500 only for a file that exists but cannot be
   * read or parsed.
   */
  function AdminGetSettings(session: Option<Session>, file: DataFile<SiteSettings>): (r: Reply<SiteSettings>)
    ensures RequireAuth(session).Some? ==> r == Error(Unauthorized)
    ensures RequireAuth(session).None? ==> (r.Error? <==> file.Unreadable?)
    ensures RequireAuth(session).None? && file.Unreadable? ==> r == Error(ServerError)
    ensures r.Ok? ==> r.value == ContentsOr(file, DEFAULT_SETTINGS)
  {
    if RequireAuth(session).Some? then Error(Unauthorized)
    else
      match Initialized(file, DEFAULT_SETTINGS)
      case Parsed(settings) => Ok(settings)
      case _ => Error(ServerError)
  }
}
