/**
 * The works collection behind `/admin/works`: the ordered list of
 * portfolio items held in the works file, newest first, and the create,
 * update and delete steps the admin routes perform on it between reading
 * the file and writing it back.
 */
module Works {
  import opened Wrappers
  import opened Strings
  import opened Sequences
  import opened Http
  import opened Upload
  import opened Auth
  import opened DataFiles

  /** A portfolio item as stored in the works file. */
  datatype Work = Work(
    id: string,
    title: string,
    description: string,
    category: string,
    tags: seq<string>,
    link: string,
    image: Option<string>,
    video: Option<string>,
    createdAt: string,
    updatedAt: string)

  /** The text fields of a create or update request; `None` is a field the request left out. */
  datatype WorkForm = WorkForm(
    title: Option<string>,
    description: Option<string>,
    category: Option<string>,
    tags: Option<string>,
    link: Option<string>)

  /** The files the request uploaded under the `image` and `video` fields. */
  datatype Media = Media(image: Option<StoredFile>, video: Option<StoredFile>)

  /** The category of a work created without one. */
  const DEFAULT_CATEGORY := "General"

  /** The uploaded file parts, for the upload check. */
  function Files(media: Media): seq<IncomingFile> {
    (if media.image.Some? then [media.image.value.file] else [])
    + (if media.video.Some? then [media.video.value.file] else [])
  }

  /** The stored URL of an uploaded file, or null when none was uploaded. */
  function MediaUrl(upload: Option<StoredFile>): Option<string> {
    if upload.Some? then Some(UploadUrl(upload.value)) else None
  }

  /** A URL the upload step hands out. */
  predicate IsUploadUrl(url: string) {
    |url| >= 9 && url[..9] == "/uploads/"
  }

  /**
   * The shape every work the routes build keeps: a title, a description and
   * a category that are not empty, and media that are uploaded files.
   */
  predicate WellFormed(w: Work) {
    && w.title != "" && w.description != "" && w.category != ""
    && (w.image.Some? ==> IsUploadUrl(w.image.value))
    && (w.video.Some? ==> IsUploadUrl(w.video.value))
  }

  /** No two works share an id. */
  predicate DistinctIds(works: seq<Work>) {
    forall i, j :: 0 <= i < j < |works| ==> works[i].id != works[j].id
  }

  /** `works.findIndex(w => w.id === id)`. */
  function IndexOfId(works: seq<Work>, id: string): (i: int)
    ensures -1 <= i < |works|
    ensures 0 <= i ==> works[i].id == id && forall j :: 0 <= j < i ==> works[j].id != id
    ensures i == -1 <==> forall j :: 0 <= j < |works| ==> works[j].id != id
  {
    FindIndex(works, (w: Work) => w.id == id)
  }

  // ---------------------------------------------------------------- tags

  /**
   * `tags.split(',').map(t => t.trim())`: one tag per comma-separated piece,
   * empty pieces kept, each without surrounding white space or commas.
   */
  function ParseTags(raw: string): (tags: seq<string>)
    ensures |tags| == |Split(raw, ',')| == Occurrences(raw, ',') + 1
    ensures forall k :: 0 <= k < |tags| ==> tags[k] == Trim(Split(raw, ',')[k])
    ensures forall k :: 0 <= k < |tags| ==> ',' !in tags[k]
  {
    var pieces := Split(raw, ',');
    var tags := seq(|pieces|, k requires 0 <= k < |pieces| => Trim(pieces[k]));
    assert forall k :: 0 <= k < |tags| ==> ',' !in tags[k] by {
      forall k | 0 <= k < |tags| ensures ',' !in tags[k] {
        var p := pieces[k];
        var lead := LeadingSpace(p);
        assert tags[k] == p[lead..lead + |tags[k]|];
        forall c | c in tags[k] ensures c != ',' {
          var j :| 0 <= j < |tags[k]| && tags[k][j] == c;
          assert c == p[lead + j];
        }
      }
    }
    tags
  }

  /**
   * Tags that neither start nor end with white space and contain no commas
   * come back unchanged from `join(',')` followed by parsing.
   */
  lemma {:induction false} TagsRoundTrip(tags: seq<string>)
    requires |tags| > 0
    requires forall k :: 0 <= k < |tags| ==> ',' !in tags[k]
    requires forall k :: 0 <= k < |tags| ==> tags[k] == [] || (!IsWhitespace(tags[k][0]) && !IsWhitespace(tags[k][|tags[k]| - 1]))
    ensures ParseTags(Join(tags, ',')) == tags
  {
    SplitJoin(tags, ',');
    forall k | 0 <= k < |tags| ensures Trim(tags[k]) == tags[k] {
      TrimOfTrimmed(tags[k]);
    }
  }

  /** The comma list `a, b , c` splits into `a`, ` b ` and ` c`. */
  lemma SplitExample()
    ensures Split("a, b , c", ',') == ["a", " b ", " c"]
  {
    SplitNoSeparator(" c", ',');
    assert " b , c" == " b " + [','] + " c";
    SplitAfterPiece(" b ", " c", ',');
    assert "a, b , c" == "a" + [','] + " b , c";
    SplitAfterPiece("a", " b , c", ',');
  }

  /** ` b ` trims to `b`. */
  lemma TrimBothEnds()
    ensures Trim(" b ") == "b"
  {
    assert LeadingSpace("b ") == 0;
    assert LeadingSpace(" b ") == 1;
    assert " b "[1..] == "b ";
    assert TrailingSpace("b") == 0;
    assert TrailingSpace("b ") == 1;
  }

  /** ` c` trims to `c`. */
  lemma TrimFront()
    ensures Trim(" c") == "c"
  {
    assert LeadingSpace("c") == 0;
    assert LeadingSpace(" c") == 1;
    assert " c"[1..] == "c";
    assert TrailingSpace("c") == 0;
  }

  /** A list that splits into three pieces has the three trimmed pieces as its tags. */
  lemma ParseThreePieces(raw: string, p0: string, p1: string, p2: string, t0: string, t1: string, t2: string)
    requires Split(raw, ',') == [p0, p1, p2]
    requires Trim(p0) == t0 && Trim(p1) == t1 && Trim(p2) == t2
    ensures ParseTags(raw) == [t0, t1, t2]
  {
    var pieces := Split(raw, ',');
    var tags := ParseTags(raw);
    assert |tags| == |pieces| == 3;
    assert tags[0] == Trim(pieces[0]) && tags[1] == Trim(pieces[1]) && tags[2] == Trim(pieces[2]);
  }

  /** The comma list `a, b , c` gives the tags a, b and c. */
  lemma ParseTagsExample()
    ensures ParseTags("a, b , c") == ["a", "b", "c"]
  {
    SplitExample();
    TrimOfTrimmed("a");
    TrimBothEnds();
    TrimFront();
    ParseThreePieces("a, b , c", "a", " b ", " c", "a", "b", "c");
  }

  /** `a,,b` splits into `a`, an empty piece and `b`. */
  lemma SplitEmptyPieceExample()
    ensures Split("a,,b", ',') == ["a", "", "b"]
  {
    SplitNoSeparator("b", ',');
    assert ",b" == "" + [','] + "b";
    SplitAfterPiece("", "b", ',');
    assert "a,,b" == "a" + [','] + ",b";
    SplitAfterPiece("a", ",b", ',');
  }

  /** Empty pieces are kept: `a,,b` gives three tags, the middle one empty. */
  lemma ParseTagsKeepsEmptyPieces()
    ensures ParseTags("a,,b") == ["a", "", "b"]
  {
    SplitEmptyPieceExample();
    TrimOfTrimmed("a");
    TrimOfTrimmed("b");
    TrimOfTrimmed("");
    ParseThreePieces("a,,b", "a", "", "b", "a", "", "b");
  }

  // ---------------------------------------------------------------- create

  /**
   * The record `POST /admin/works` builds from a request whose title and
   * description are present: category defaults to "General", tags to none
   * and link to the empty string; image and video point at the uploaded
   * files, or are null; both timestamps are the creation time.
   */
  function NewWork(form: WorkForm, media: Media, id: string, now: string): (w: Work)
    requires Truthy(form.title) && Truthy(form.description)
    ensures w.id == id && w.createdAt == now && w.updatedAt == now
    ensures w.title == form.title.value && w.description == form.description.value
    ensures w.category == (if Truthy(form.category) then form.category.value else DEFAULT_CATEGORY)
    ensures w.tags == (if Truthy(form.tags) then ParseTags(form.tags.value) else [])
    ensures w.link == (if Truthy(form.link) then form.link.value else "")
    ensures w.image.Some? <==> media.image.Some?
    ensures w.video.Some? <==> media.video.Some?
    ensures media.image.Some? ==> w.image.value == "/uploads/" + media.image.value.filename
    ensures media.video.Some? ==> w.video.value == "/uploads/" + media.video.value.filename
    ensures WellFormed(w)
  {
    Work(
      id,
      form.title.value,
      form.description.value,
      Or(form.category, DEFAULT_CATEGORY),
      if Truthy(form.tags) then ParseTags(form.tags.value) else [],
      Or(form.link, ""),
      MediaUrl(media.image),
      MediaUrl(media.video),
      now,
      now)
  }

  /** A work created with an id no stored work has keeps the ids distinct. */
  lemma CreateKeepsIdsDistinct(works: seq<Work>, form: WorkForm, media: Media, id: string, now: string)
    requires Truthy(form.title) && Truthy(form.description)
    requires DistinctIds(works) && IndexOfId(works, id) == -1
    ensures DistinctIds([NewWork(form, media, id, now)] + works)
  {
    var ws := [NewWork(form, media, id, now)] + works;
    forall i, j | 0 <= i < j < |ws| ensures ws[i].id != ws[j].id {
      assert ws[j] == works[j - 1];
      if i > 0 {
        assert ws[i] == works[i - 1];
      }
    }
  }

  // ---------------------------------------------------------------- update

  /**
   * The work after `PUT /admin/works/:id` applied `form` and `media` to it:
   * title, description, category and tags change only to a non-empty
   * value; link changes whenever it is sent, even to the empty string;
   * image and video change only when a new file was uploaded; id and
   * creation time stay; the update time becomes `now`.
   */
  function Revised(w: Work, form: WorkForm, media: Media, now: string): (r: Work)
    ensures r.id == w.id && r.createdAt == w.createdAt && r.updatedAt == now
    ensures r.title == (if Truthy(form.title) then form.title.value else w.title)
    ensures r.description == (if Truthy(form.description) then form.description.value else w.description)
    ensures r.category == (if Truthy(form.category) then form.category.value else w.category)
    ensures r.tags == (if Truthy(form.tags) then ParseTags(form.tags.value) else w.tags)
    ensures r.link == (if form.link.Some? then form.link.value else w.link)
    ensures r.image == (if media.image.Some? then MediaUrl(media.image) else w.image)
    ensures r.video == (if media.video.Some? then MediaUrl(media.video) else w.video)
    ensures WellFormed(w) ==> WellFormed(r)
  {
    w.(
      title := Or(form.title, w.title),
      description := Or(form.description, w.description),
      category := Or(form.category, w.category),
      tags := if Truthy(form.tags) then ParseTags(form.tags.value) else w.tags,
      link := form.link.GetOr(w.link),
      image := if media.image.Some? then MediaUrl(media.image) else w.image,
      video := if media.video.Some? then MediaUrl(media.video) else w.video,
      updatedAt := now)
  }

  /**
   * The media files an update replaces and schedules for deletion: the old
   * image when a new image was uploaded and there was one, then likewise
   * the old video, and nothing else.
   */
  function ReplacedMedia(w: Work, media: Media): (paths: seq<string>)
    ensures |paths| == (if media.image.Some? && Truthy(w.image) then 1 else 0)
                     + (if media.video.Some? && Truthy(w.video) then 1 else 0)
    ensures media.image.Some? && Truthy(w.image) ==> |paths| > 0 && paths[0] == w.image.value
    ensures media.video.Some? && Truthy(w.video) ==> |paths| > 0 && w.video.value == paths[|paths| - 1]
    ensures forall p :: p in paths <==>
      (media.image.Some? && Truthy(w.image) && p == w.image.value)
      || (media.video.Some? && Truthy(w.video) && p == w.video.value)
  {
    (if media.image.Some? && Truthy(w.image) then [w.image.value] else [])
    + (if media.video.Some? && Truthy(w.video) then [w.video.value] else [])
  }

  /** Applying the same update twice is the same as applying it once. */
  lemma ReviseIdempotent(w: Work, form: WorkForm, media: Media, now: string)
    ensures Revised(Revised(w, form, media, now), form, media, now) == Revised(w, form, media, now)
  {
  }

  /** An update that sends nothing and uploads nothing only moves the update time. */
  lemma ReviseWithNothing(w: Work, now: string)
    ensures Revised(w, WorkForm(None, None, None, None, None), Media(None, None), now) == w.(updatedAt := now)
  {
  }

  /** Sending only an empty link clears the link and leaves title and description as they were. */
  lemma ReviseClearsLink(w: Work, now: string)
    ensures var r := Revised(w, WorkForm(None, None, None, None, Some("")), Media(None, None), now);
      r.link == "" && r.title == w.title && r.description == w.description
  {
  }

  /** Empty strings count as absent for title, description, category and tags. */
  lemma ReviseIgnoresEmptyFields(w: Work, link: Option<string>, media: Media, now: string)
    ensures var r := Revised(w, WorkForm(Some(""), Some(""), Some(""), Some(""), link), media, now);
      r.title == w.title && r.description == w.description && r.category == w.category && r.tags == w.tags
  {
  }

  /**
   * Revising the work at `i` keeps every id where it was, so every id is
   * found at the same index as before.
   */
  lemma ReviseKeepsIndexOfIds(works: seq<Work>, i: nat, form: WorkForm, media: Media, now: string, x: string)
    requires i < |works|
    ensures IndexOfId(works[i := Revised(works[i], form, media, now)], x) == IndexOfId(works, x)
  {
    var ws := works[i := Revised(works[i], form, media, now)];
    assert forall j :: 0 <= j < |ws| ==> ws[j].id == works[j].id;
    FindIndexSameKeys(ws, works, x);
  }

  /** Two lists with the same ids at the same places find every id at the same index. */
  lemma {:induction false} FindIndexSameKeys(a: seq<Work>, b: seq<Work>, x: string)
    requires |a| == |b|
    requires forall j :: 0 <= j < |a| ==> a[j].id == b[j].id
    ensures IndexOfId(a, x) == IndexOfId(b, x)
    decreases |a|
  {
    if a != [] && a[0].id != x {
      FindIndexSameKeys(a[1..], b[1..], x);
      assert IndexOfId(a, x) == (if IndexOfId(a[1..], x) == -1 then -1 else IndexOfId(a[1..], x) + 1);
      assert IndexOfId(b, x) == (if IndexOfId(b[1..], x) == -1 then -1 else IndexOfId(b[1..], x) + 1);
    }
  }

  /**
   * The body of the update handler: overwrite the fields of `w` one at a
   * time as the request asks, collecting the media it replaces. The result
   * is the revision `Revised` describes and the paths are those of
   * `ReplacedMedia`.
   */
  method ApplyForm(w: Work, form: WorkForm, media: Media, now: string) returns (work: Work, stale: seq<string>)
    ensures work == Revised(w, form, media, now)
    ensures stale == ReplacedMedia(w, media)
  {
    work := ApplyFields(w, form);
    work, stale := ApplyMedia(work, media);
    work := work.(updatedAt := now);
  }

  /** The text-field half of the update handler: each field is overwritten only when the rule for it applies. */
  method ApplyFields(w: Work, form: WorkForm) returns (work: Work)
    ensures work == w.(title := Or(form.title, w.title), description := Or(form.description, w.description),
                       category := Or(form.category, w.category),
                       tags := if Truthy(form.tags) then ParseTags(form.tags.value) else w.tags,
                       link := form.link.GetOr(w.link))
  {
    work := w;
    if Truthy(form.title) { work := work.(title := form.title.value); }
    if Truthy(form.description) { work := work.(description := form.description.value); }
    if Truthy(form.category) { work := work.(category := form.category.value); }
    if Truthy(form.tags) { work := work.(tags := ParseTags(form.tags.value)); }
    if form.link.Some? { work := work.(link := form.link.value); }
  }

  /**
   * The media half of the update handler: a new upload replaces the stored
   * URL, and the URL it replaces, when there was one, is collected for deletion.
   */
  method ApplyMedia(w: Work, media: Media) returns (work: Work, stale: seq<string>)
    ensures work == w.(image := if media.image.Some? then MediaUrl(media.image) else w.image,
                       video := if media.video.Some? then MediaUrl(media.video) else w.video)
    ensures stale == ReplacedMedia(w, media)
  {
    work := w;
    stale := [];
    if media.image.Some? {
      if Truthy(work.image) { stale := stale + [work.image.value]; }
      work := work.(image := Some(UploadUrl(media.image.value)));
    }
    if media.video.Some? {
      if Truthy(work.video) { stale := stale + [work.video.value]; }
      work := work.(video := Some(UploadUrl(media.video.value)));
    }
  }

  /**
   * Revising one work of a list keeps its length, every id in place,
   * well-formedness of the list and distinctness of its ids.
   */
  lemma ReviseKeepsShape(works: seq<Work>, i: nat, form: WorkForm, media: Media, now: string)
    requires i < |works|
    ensures var ws := works[i := Revised(works[i], form, media, now)];
      && |ws| == |works|
      && (forall k :: 0 <= k < |ws| ==> ws[k].id == works[k].id)
      && (AllWellFormed(works) ==> AllWellFormed(ws))
      && (DistinctIds(works) ==> DistinctIds(ws))
  {
  }

  // ---------------------------------------------------------------- delete

  /**
   * The media files a deleted work leaves behind, scheduled for deletion:
   * its image and its video when they are set, image first, and nothing else.
   */
  function MediaOf(w: Work): (paths: seq<string>)
    ensures |paths| == (if Truthy(w.image) then 1 else 0) + (if Truthy(w.video) then 1 else 0)
    ensures Truthy(w.image) ==> |paths| > 0 && paths[0] == w.image.value
    ensures Truthy(w.video) ==> |paths| > 0 && w.video.value == paths[|paths| - 1]
    ensures forall p :: p in paths <==>
      (Truthy(w.image) && p == w.image.value) || (Truthy(w.video) && p == w.video.value)
  {
    (if Truthy(w.image) then [w.image.value] else [])
    + (if Truthy(w.video) then [w.video.value] else [])
  }

  /**
   * With distinct ids, deleting the work found for `id` leaves no work with
   * that id and keeps the remaining ids distinct.
   */
  lemma DeleteErasesId(works: seq<Work>, id: string)
    requires DistinctIds(works) && IndexOfId(works, id) >= 0
    ensures var rest := RemoveAt(works, IndexOfId(works, id));
      DistinctIds(rest) && IndexOfId(rest, id) == -1
  {
    var i := IndexOfId(works, id);
    var rest := RemoveAt(works, i);
    forall k | 0 <= k < |rest| ensures rest[k].id != id {
      if k < i {
        assert rest[k] == works[k];
      } else {
        assert rest[k] == works[k + 1];
      }
    }
    forall a, b | 0 <= a < b < |rest| ensures rest[a].id != rest[b].id {
      var a' := if a < i then a else a + 1;
      var b' := if b < i then b else b + 1;
      assert rest[a] == works[a'] && rest[b] == works[b'];
    }
  }

  // ---------------------------------------------------------------- the store

  /** Every work in the list has the shape the routes build. */
  predicate AllWellFormed(works: seq<Work>) {
    forall k :: 0 <= k < |works| ==> WellFormed(works[k])
  }

  /**
   * The works file: the list each admin request reads, changes in place
   * and writes back whole.
   */
  class WorkStore {
    var works: seq<Work>

    constructor (stored: seq<Work>)
      ensures works == stored
    {
      works := stored;
    }

    /**
     * `POST /admin/works`: after the gate, a request without a title or a
     * description is refused with 400 and the list is left as it was;
     * otherwise the new work is put in front of the others.
     */
    method Create(session: Option<Session>, form: WorkForm, media: Media, id: string, now: string)
      returns (reply: Reply<Work>)
      modifies this
      ensures Admit(session, Files(media)).Some? ==>
        reply == Error(Admit(session, Files(media)).value) && works == old(works)
      ensures Admit(session, Files(media)).None? && !(Truthy(form.title) && Truthy(form.description)) ==>
        reply == Error(BadRequest) && works == old(works)
      ensures Admit(session, Files(media)).None? && Truthy(form.title) && Truthy(form.description) ==>
        reply == Ok(NewWork(form, media, id, now)) && works == [reply.value] + old(works)
      ensures |works| == |old(works)| + (if reply.Ok? then 1 else 0)
      ensures AllWellFormed(old(works)) ==> AllWellFormed(works)
      ensures DistinctIds(old(works)) && IndexOfId(old(works), id) == -1 ==> DistinctIds(works)
    {
      var denied := Admit(session, Files(media));
      if denied.Some? {
        return Error(denied.value);
      }
      if !Truthy(form.title) || !Truthy(form.description) {
        return Error(BadRequest);
      }
      var work := NewWork(form, media, id, now);
      if DistinctIds(works) && IndexOfId(works, id) == -1 {
        CreateKeepsIdsDistinct(works, form, media, id, now);
      }
      works := [work] + works;
      reply := Ok(work);
    }

    /**
     * `PUT /admin/works/:id`: after the gate, an id no work has is answered
     * 404 with the list unchanged; otherwise the fields of the first work
     * with that id are overwritten one by one, every other work and the
     * order stay as they were, and the media it replaces are returned for
     * deletion.
     */
    method Update(session: Option<Session>, id: string, form: WorkForm, media: Media, now: string)
      returns (reply: Reply<Work>, stale: seq<string>)
      modifies this
      ensures Admit(session, Files(media)).Some? ==>
        reply == Error(Admit(session, Files(media)).value) && works == old(works) && stale == []
      ensures Admit(session, Files(media)).None? && IndexOfId(old(works), id) == -1 ==>
        reply == Error(NotFound) && works == old(works) && stale == []
      ensures Admit(session, Files(media)).None? && IndexOfId(old(works), id) >= 0 ==>
        var i := IndexOfId(old(works), id);
        && reply == Ok(Revised(old(works)[i], form, media, now))
        && works == old(works)[i := reply.value]
        && stale == ReplacedMedia(old(works)[i], media)
      ensures |works| == |old(works)|
      ensures forall k :: 0 <= k < |works| ==> works[k].id == old(works)[k].id
      ensures AllWellFormed(old(works)) ==> AllWellFormed(works)
      ensures DistinctIds(old(works)) ==> DistinctIds(works)
    {
      stale := [];
      var denied := Admit(session, Files(media));
      if denied.Some? {
        reply := Error(denied.value);
        return;
      }
      var i := IndexOfId(works, id);
      if i == -1 {
        reply := Error(NotFound);
        return;
      }
      var work;
      work, stale := ApplyForm(works[i], form, media, now);
      ReviseKeepsShape(works, i, form, media, now);
      works := works[i := work];
      reply := Ok(work);
    }

    /**
     * `DELETE /admin/works/:id`: after authentication, an id no work has is
     * answered 404 with the list unchanged; otherwise the first work with
     * that id is taken out, the others keep their order, and its media are
     * returned for deletion.
     */
    method Delete(session: Option<Session>, id: string) returns (reply: Reply<()>, stale: seq<string>)
      modifies this
      ensures RequireAuth(session).Some? ==> reply == Error(Unauthorized) && works == old(works) && stale == []
      ensures RequireAuth(session).None? && IndexOfId(old(works), id) == -1 ==>
        reply == Error(NotFound) && works == old(works) && stale == []
      ensures RequireAuth(session).None? && IndexOfId(old(works), id) >= 0 ==>
        var i := IndexOfId(old(works), id);
        && reply == Ok(())
        && works == RemoveAt(old(works), i)
        && stale == MediaOf(old(works)[i])
      ensures AllWellFormed(old(works)) ==> AllWellFormed(works)
      ensures DistinctIds(old(works)) && reply.Ok? ==> DistinctIds(works) && IndexOfId(works, id) == -1
    {
      stale := [];
      if RequireAuth(session).Some? {
        reply := Error(Unauthorized);
        return;
      }
      var i := IndexOfId(works, id);
      if i == -1 {
        reply := Error(NotFound);
        return;
      }
      stale := MediaOf(works[i]);
      if DistinctIds(works) {
        DeleteErasesId(works, id);
      }
      works := RemoveAt(works, i);
      reply := Ok(());
    }
  }

  /**
   * `GET /admin/works`, which needs no session. The handler first creates a
   * missing works file holding no works, so it answers 500 only for a file
   * that exists but cannot be read or parsed.
   */
  function AdminList(file: DataFile<seq<Work>>): (r: Reply<seq<Work>>)
    ensures r.Error? <==> file.Unreadable?
    ensures r.Error? ==> r.status == ServerError
    ensures file.Parsed? ==> r == Ok(file.contents)
    ensures file.Missing? ==> r == Ok([])
  {
    match Initialized(file, [])
    case Parsed(works) => Ok(works)
    case _ => Error(ServerError)
  }
}
