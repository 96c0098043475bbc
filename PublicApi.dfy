/**
 * The public routes under `/api`: the settings and works reads, which fall
 * back to fixed values instead of failing, and the contact form check.
 */
module PublicApi {
  import opened Wrappers
  import opened Strings
  import opened Http
  import opened Auth
  import opened Works
  import opened Settings
  import opened DataFiles

  /**
   * `getSettings`: the parsed settings file, or the default record when the
   * file is missing or cannot be read or parsed. Unlike the admin routes it
   * does not create a missing file.
   */
  function GetSettings(file: DataFile<SiteSettings>): (s: SiteSettings)
    ensures file.Parsed? ==> s == file.contents
    ensures !file.Parsed? ==> s.status == "available" && s.logoUrl.None?
    ensures !file.Parsed? ==> s.statusMessage == "Open for projects & conversations."
    ensures !file.Parsed? ==> s.heroTagline == "IoT Builder \U{B7} Founder \U{B7} Designer"
    ensures !file.Parsed? ==>
      s.availableFor == JObject([("freelance", JBool(true)), ("collaboration", JBool(true)), ("mentorship", JBool(true))])
    ensures !file.Parsed? ==> s.others == []
  {
    ContentsOr(file, DEFAULT_SETTINGS)
  }

  /** `GET /api/settings` never fails: it answers with `getSettings`. */
  function PublicSettings(file: DataFile<SiteSettings>): (r: Reply<SiteSettings>)
    ensures r.Ok?
    ensures file.Parsed? ==> r.value == file.contents
    ensures !file.Parsed? ==> r.value == DEFAULT_SETTINGS
  {
    Ok(GetSettings(file))
  }

  /**
   * `GET /api/works` never fails: the parsed works file, or no works when
   * the file is missing or cannot be read or parsed.
   */
  function PublicWorks(file: DataFile<seq<Work>>): (r: Reply<seq<Work>>)
    ensures r.Ok?
    ensures file.Parsed? ==> r.value == file.contents
    ensures !file.Parsed? ==> r.value == []
  {
    Ok(ContentsOr(file, []))
  }

  /**
   * The admin and public works lists agree, also on a missing file, which
   * both show as no works; they differ only on a file that exists but
   * cannot be read, where the admin list gives 500 and the public list is
   * empty.
   */
  lemma ListsAgreeUnlessUnreadable(file: DataFile<seq<Work>>)
    ensures file.Unreadable? ==> AdminList(file) == Error(ServerError) && PublicWorks(file) == Ok([])
    ensures !file.Unreadable? ==> AdminList(file) == PublicWorks(file)
  {
  }

  /**
   * The public settings read equals the admin one whenever the latter
   * succeeds, which for an authenticated session is whenever the file is
   * missing or readable.
   */
  lemma SettingsReadsAgree(session: Option<Session>, file: DataFile<SiteSettings>)
    ensures AdminGetSettings(session, file).Ok? ==> PublicSettings(file) == AdminGetSettings(session, file)
    ensures RequireAuth(session).None? && !file.Unreadable? ==> AdminGetSettings(session, file).Ok?
  {
  }

  /** The fields of a contact submission; `None` is a field the sender left out. */
  datatype ContactForm = ContactForm(
    name: Option<string>,
    firstName: Option<string>,
    lastName: Option<string>,
    email: Option<string>,
    phone: Option<string>,
    intent: Option<string>,
    message: Option<string>)

  /** What an accepted submission hands on. */
  datatype ContactPayload = ContactPayload(name: string, email: string, message: string, phone: string, intent: string)

  /** `fields.filter(Boolean)`: the values of the fields that are present and not empty, in order. */
  function PresentFields(fields: seq<Option<string>>): (r: seq<string>)
    ensures |r| <= |fields|
    ensures forall k :: 0 <= k < |r| ==> r[k] != ""
    ensures r == [] <==> forall k :: 0 <= k < |fields| ==> !Truthy(fields[k])
    ensures forall k :: 0 <= k < |r| ==> exists j :: 0 <= j < |fields| && fields[j] == Some(r[k])
  {
    if fields == [] then []
    else if Truthy(fields[0]) then [fields[0].value] + PresentFields(fields[1..])
    else PresentFields(fields[1..])
  }

  /** A single field is kept exactly when it is present and not empty. */
  lemma PresentOne(f: Option<string>)
    ensures PresentFields([f]) == if Truthy(f) then [f.value] else []
  {
    assert [f][1..] == [];
  }

  /**
   * Filtering distributes over concatenation. With `PresentOne` this pins
   * the filter down completely: each field contributes its value when it
   * is present and not empty, and nothing otherwise, in the fields' order.
   */
  lemma {:induction false} PresentAppend(a: seq<Option<string>>, b: seq<Option<string>>)
    ensures PresentFields(a + b) == PresentFields(a) + PresentFields(b)
    decreases |a|
  {
    if a != [] {
      assert (a + b)[1..] == a[1..] + b;
      PresentAppend(a[1..], b);
    } else {
      assert a + b == b;
    }
  }

  /** Filtering two fields keeps those of them that are present and not empty. */
  lemma PresentPair(a: Option<string>, b: Option<string>)
    ensures PresentFields([a, b]) ==
      (if Truthy(a) then [a.value] else []) + (if Truthy(b) then [b.value] else [])
  {
    assert [a, b] == [a] + [b];
    PresentAppend([a], [b]);
    PresentOne(a);
    PresentOne(b);
  }

  /**
   * `name || [firstName, lastName].filter(Boolean).join(' ')`: the name the
   * sender gave, or else the non-empty parts of first and last name with
   * one space between them when there are two.
   */
  function FullName(form: ContactForm): (full: string)
    ensures Truthy(form.name) ==> full == form.name.value
    ensures !Truthy(form.name) && Truthy(form.firstName) && Truthy(form.lastName) ==>
      full == form.firstName.value + " " + form.lastName.value
    ensures !Truthy(form.name) && Truthy(form.firstName) && !Truthy(form.lastName) ==> full == form.firstName.value
    ensures !Truthy(form.name) && !Truthy(form.firstName) && Truthy(form.lastName) ==> full == form.lastName.value
    ensures full == "" <==> !Truthy(form.name) && !Truthy(form.firstName) && !Truthy(form.lastName)
  {
    if Truthy(form.name) then form.name.value
    else
      var parts := PresentFields([form.firstName, form.lastName]);
      PresentPair(form.firstName, form.lastName);
      assert |parts| == 2 ==> parts[1..] == [parts[1]] && Join(parts, ' ') == parts[0] + " " + parts[1];
      Join(parts, ' ')
  }

  /**
   * `POST /api/contact`: 400 unless a name can be formed and an email and a
   * message are given; otherwise the payload, with phone and intent
   * defaulting to the empty string.
   */
  function Contact(form: ContactForm): (r: Reply<ContactPayload>)
    ensures r.Error? <==>
      (!Truthy(form.name) && !Truthy(form.firstName) && !Truthy(form.lastName))
      || !Truthy(form.email) || !Truthy(form.message)
    ensures r.Error? ==> r.status == BadRequest
    ensures r.Ok? ==> r.value.name == FullName(form) && r.value.name != ""
    ensures r.Ok? ==> r.value.email == form.email.value && r.value.message == form.message.value
    ensures r.Ok? ==> r.value.phone == (if Truthy(form.phone) then form.phone.value else "")
    ensures r.Ok? ==> r.value.intent == (if Truthy(form.intent) then form.intent.value else "")
  {
    var fullName := FullName(form);
    if fullName == "" || !Truthy(form.email) || !Truthy(form.message) then Error(BadRequest)
    else Ok(ContactPayload(fullName, form.email.value, form.message.value, Or(form.phone, ""), Or(form.intent, "")))
  }

  /** A sender who gives only a last name is addressed by it alone, without a leading space. */
  lemma LastNameOnly(last: string, email: string, message: string)
    requires last != "" && email != "" && message != ""
    ensures Contact(ContactForm(None, Some(""), Some(last), Some(email), None, None, Some(message)))
      == Ok(ContactPayload(last, email, message, "", ""))
  {
  }
}
