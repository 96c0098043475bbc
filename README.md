# Portfolio site backend: admin and public routes

This project models the logic of a small Express portfolio server. Each admin
request reads a JSON data file, changes it in memory and writes it back; this
model keeps that middle step. The parts covered are:

- the works collection: create, update, delete and list;
- the site settings record: the default, the admin read and the overlay an
  update applies;
- the upload check: the extension and MIME allow-list and the 50 MiB ceiling;
- the session gate and the login handler;
- the public reads, which fall back to fixed values instead of failing;
- the contact form check.

Modules, in dependency order:

- `Wrappers` holds `Option`. `Http` holds the status codes the handlers answer with, and `Reply`.
- `DataFiles` holds what reading one JSON data file yields, and the `initDataFiles` step.
- `Strings` holds the JavaScript string operations the handlers rely on:
  - truthiness and `||` defaulting;
  - `split`/`join`, with the round trips between them;
  - `trim`, `includes` and ASCII lower-casing.
- `Sequences` holds `findIndex`, `find` and `splice(i, 1)`.
- `Upload` holds the multer `fileFilter` and `limits`, including a faithful `path.extname`.
- `Auth` holds `requireAuth`, the middleware chain of the multipart routes and the login handler.
- `Works` holds the works records, the spec functions `NewWork` and `Revised`, and the class
  `WorkStore`. Its methods change the stored list in place, as `unshift` and `splice` do.
- `Settings` holds the settings record and its merge. The merge is written both as the
  specification function `Merged` and as the field-by-field method the handler performs.
- `PublicApi` holds the `/api` routes.

Request body fields are `Option<string>`, where `None` is a field the request
left out. The words "present and not empty" mean JavaScript truthiness.

A file read is a `DataFile` input, with three cases:

- `Missing`: the file does not exist;
- `Unreadable`: it exists but cannot be read or parsed;
- `Parsed`: it holds the given contents.

Every admin handler first awaits `initDataFiles` (routes/admin.js:55-89). That
step writes a missing file with its initial contents: an empty works list, or
the default settings record. `DataFiles.Initialized` models it. The public
routes read the files without that step. Writes are the new state, or the
record a method returns.

Timestamps, generated ids and the disk names of uploaded files are parameters.
The password check is a `verify` parameter, and so is `JSON.parse` of the
availability text. The media paths a handler would unlink are returned as a
`stale` list.

Some behaviour the code has and the proofs make explicit:

- Multer refuses a file by passing an error to the server's generic error
  handler (`server.js:46-49`). A refused upload is therefore answered with
  500, not 400, and the model follows the code here.
- The allow-list is an unanchored regular expression, so it is a substring test.
  - A file named `x.pngx` and declared `text/png-notes` is accepted.
  - A file declared `video/quicktime` is refused even when its name ends in
    `.mov`, because that MIME string holds none of the tokens. Browsers send
    that type for QuickTime files.
  - A dot-file named `.png` has no extension, so it is refused.
- Tags keep empty pieces: `a,,b` gives three tags, the middle one empty.
- An update treats an empty title, description, category or tags as absent.
  An empty link, status message or tagline is applied.
- A missing works file shows no works on both lists: the admin list creates
  it empty first. The admin list fails with 500 only when the file exists but
  cannot be read or parsed. The public list shows no works in that case too.
- Likewise the admin settings read creates a missing settings file holding the
  default record. It answers 500 only for a file that exists but cannot be read.

## Model

| member | source | states |
|---|---|---|
| Http.Status.Code | routes/admin.js:117-142 | a bad request is 400 (line 118), a refused login or session 401 (lines 96, 127), an unknown work 404 (lines 227, 343) and a server failure 500 (line 142, and server.js:48) |
| Strings.Split | routes/admin.js:191 | `split(',')` yields one piece more than there are commas, and no piece contains a comma |
| Strings.JoinSplit | routes/admin.js:191 | joining the pieces of a split gives back the original string |
| Strings.SplitJoin | routes/admin.js:191 | splitting a join of comma-free pieces gives back the pieces |
| Strings.LeadingSpace | routes/admin.js:191 | the counted prefix is all white space and the next character is not |
| Strings.TrailingSpace | routes/admin.js:191 | the counted suffix is all white space and the character before it is not |
| Strings.Trim | routes/admin.js:191 | `trim()` is a slice of its input that starts after the leading white space, neither starts nor ends with white space, and has only white space after it |
| Strings.TrimOfTrimmed | routes/admin.js:191 | a string without white space at either end is its own trim |
| Strings.TrimIdempotent | routes/admin.js:191 | trimming twice is trimming once |
| Strings.Contains | routes/admin.js:28-29 | `includes` holds exactly when the needle occurs at some index |
| Strings.FirstCharAbsent | routes/admin.js:28-29 | a needle whose first character is missing from every possible start position does not occur |
| Strings.ToLower | routes/admin.js:28 | lower-casing keeps the length and every non-capital, and maps each capital to its small letter |
| Sequences.FindIndex | routes/admin.js:224 | `findIndex` is the first index satisfying the predicate, or -1 exactly when none does |
| Sequences.Find | routes/admin.js:124 | `find` returns the first element satisfying the predicate, or nothing exactly when none does |
| Sequences.RemoveAt | routes/admin.js:367 | `splice(i, 1)` shortens the list by one, keeps the elements before and after `i` in order, and loses exactly the element at `i` |
| Upload.UploadUrl | routes/admin.js:193 | the media URL is `/uploads/` followed by the stored file name |
| Upload.DropTrailingSlashes | routes/admin.js:28 | trailing slashes are dropped and only those |
| Upload.LastIndexOf | routes/admin.js:28 | the last occurrence of a character, or none exactly when it does not occur |
| Upload.BaseName | routes/admin.js:28 | the last path component is the end of the path with trailing slashes dropped, contains no slash, and is preceded by a slash whenever it is not the whole path |
| Upload.ComponentExtMeaning | routes/admin.js:28 | the extension of a slash-free component is empty or a dot followed by no other dot, ends the component, and is empty exactly when the component has no dot, is `..`, or has its only dot in front |
| Upload.ExtNameMeaning | routes/admin.js:28 | `extname` is empty or a dot followed by no other dot and no slash; it ends the last path component; it is empty exactly when that component has no dot, is `..`, or is a dot-file with its only dot in front |
| Upload.LastIndexOfAt | routes/admin.js:28 | an occurrence with none after it is the last occurrence |
| Upload.BaseNameOfPlainName | routes/admin.js:28 | a name without slashes is its own last component |
| Upload.ExtNameOf | routes/admin.js:19 | a stem without dot-file prefix or slash, followed by `.ext`, has extension `.ext` |
| Upload.AnyOccurs | routes/admin.js:27 | the alternation matches exactly when one of its alternatives occurs somewhere |
| Upload.FileFilterMeaning | routes/admin.js:26-35 | a file passes the filter exactly when its lower-cased extension and its MIME type each contain an allowed token |
| Upload.Check | routes/admin.js:25-35 | a file is accepted exactly when it passes the filter and is at most 50 MiB; it is refused for its type exactly when it fails the filter |
| Upload.CheckAll | routes/admin.js:170-173 | a request is let through exactly when every file is accepted; otherwise the first failing file decides |
| Upload.TokenStarts | routes/admin.js:27 | every allowed token starts with j, g, p, m or w |
| Upload.TestFailsWithoutTokenStart | routes/admin.js:27 | text containing none of those letters fails the type test |
| Upload.TypeTestExamples | routes/admin.js:27-29 | `.jpg`, `image/jpeg`, `.mp4`, `video/mp4`, `.pngx` and `text/png-notes` pass the type test; `.exe` and the empty string fail it |
| Upload.LowerCaseExamples | routes/admin.js:28 | lower-casing `.JPG` gives `.jpg` and leaves lower-case extensions alone |
| Upload.CheckByExtension | routes/admin.js:26-35 | rewriting step for the examples: with the extension known, the verdict is the filter on that extension and the declared type, then the size limit |
| Upload.AcceptsUpperCaseJpeg | routes/admin.js:28 | a name ending in upper-case `.JPG` declared `image/jpeg` is accepted |
| Upload.RejectsExecutable | routes/admin.js:31-35 | a `.exe` file is refused whatever type it declares |
| Upload.QuickTimeWindow3 | routes/admin.js:29 | none of j, g, p, m, w occurs where a three-letter token could start in `video/quicktime` |
| Upload.QuickTimeWindow4 | routes/admin.js:29 | none of j, g, p, m, w occurs where a four-letter token could start in `video/quicktime` |
| Upload.QuickTimeLacks | routes/admin.js:29 | no three- or four-letter token starting with j, g, p, m or w occurs in `video/quicktime` |
| Upload.QuickTimeTypeFailsTest | routes/admin.js:29 | `video/quicktime` fails the type test |
| Upload.RejectsQuickTimeType | routes/admin.js:29-35 | a file declared `video/quicktime` is refused whatever its name |
| Upload.RejectsOversizedVideo | routes/admin.js:25 | an allowed `.mp4` file over 50 MiB is refused for its size |
| Upload.AcceptsTokenInsideLongerWords | routes/admin.js:27-31 | the test is unanchored: `.pngx` with `text/png-notes` is accepted |
| Upload.RejectsBareDotFile | routes/admin.js:28 | a dot-file named `.png` has no extension and is refused |
| Auth.RequireAuth | routes/admin.js:92-98 | a request passes exactly when its session is marked authenticated; otherwise it is answered 401 |
| Auth.Admit | routes/admin.js:170-173 | a multipart admin request passes exactly when it is authenticated and every file is accepted; the session is checked first (401), then a refused file gives 500 |
| Auth.FindUser | routes/admin.js:124 | `users.find` by name: the first user with exactly that name, or nothing exactly when no user has it |
| Auth.Login | routes/admin.js:111-143 | a missing or empty name or password gives 400; with both given, an unreadable users file gives 500; success is exactly a known name with a verified password, and marks the session authenticated with that name; other failures with the users file readable give 401 |
| Auth.LoginOpensGate | routes/admin.js:136 | after a successful login the same session passes `requireAuth` |
| Auth.UnknownUserLooksLikeWrongPassword | routes/admin.js:126-134 | an unknown name and a wrong password get the same 401 |
| Works.IndexOfId | routes/admin.js:224 | the first work with that id, or -1 exactly when no work has it |
| Works.ParseTags | routes/admin.js:191 | one tag per comma-separated piece, empty pieces kept, each the trimmed piece, none containing a comma |
| Works.TagsRoundTrip | routes/admin.js:191 | comma-free tags without white space at either end come back unchanged from `join(',')` and parsing |
| Works.SplitExample | routes/admin.js:191 | `a, b , c` splits into `a`, ` b ` and ` c` |
| Works.TrimBothEnds | routes/admin.js:191 | ` b ` trims to `b` |
| Works.TrimFront | routes/admin.js:191 | ` c` trims to `c` |
| Works.ParseThreePieces | routes/admin.js:191 | a list that splits into three pieces has the three trimmed pieces as its tags |
| Works.ParseTagsExample | routes/admin.js:191 | `a, b , c` gives the tags `a`, `b`, `c` |
| Works.SplitEmptyPieceExample | routes/admin.js:191 | `a,,b` splits into three pieces, the middle one empty |
| Works.ParseTagsKeepsEmptyPieces | routes/admin.js:191 | `a,,b` gives the tags `a`, empty, `b` |
| Works.NewWork | routes/admin.js:186-197 | a new work gets the given id and both timestamps; its category defaults to "General", its tags to none and its link to ""; its media are the uploaded files' URLs or null; it is well formed |
| Works.CreateKeepsIdsDistinct | routes/admin.js:187-199 | prepending a work whose id no stored work has keeps the ids distinct |
| Works.Revised | routes/admin.js:230-266 | an update keeps the id and creation time and sets the update time; title, description, category and tags change only to a non-empty value; link changes whenever sent; media change only with a new upload; well-formedness is kept |
| Works.ReplacedMedia | routes/admin.js:240-264 | each replaced path is scheduled once and nothing else is: a path is scheduled exactly when it is the work's non-empty image URL and a new image came, or its non-empty video URL and a new video came; the image comes first |
| Works.ReviseIdempotent | routes/admin.js:233-266 | applying an update twice equals applying it once |
| Works.ReviseWithNothing | routes/admin.js:233-266 | an update with no fields and no files changes only the update time |
| Works.ReviseClearsLink | routes/admin.js:237 | an empty link clears the link and leaves title and description alone |
| Works.ReviseIgnoresEmptyFields | routes/admin.js:233-236 | empty title, description, category and tags are ignored |
| Works.ReviseKeepsIndexOfIds | routes/admin.js:224-266 | after an update every id is found at the same index as before |
| Works.FindIndexSameKeys | routes/admin.js:224 | lists with the same ids in the same places find every id at the same index |
| Works.ApplyForm | routes/admin.js:233-266 | the handler's field-by-field update yields exactly `Revised` and schedules exactly the replaced media |
| Works.ApplyFields | routes/admin.js:233-237 | each text field is overwritten only when its rule applies |
| Works.ApplyMedia | routes/admin.js:240-264 | a new upload replaces the media URL, and a non-empty replaced URL is scheduled for deletion |
| Works.ReviseKeepsShape | routes/admin.js:230-266 | revising one work keeps the length, every id in place, well-formedness and distinct ids |
| Works.MediaOf | routes/admin.js:349-365 | a path is scheduled for deletion exactly when it is the deleted work's non-empty image or video URL, each once, the image first |
| Works.DeleteErasesId | routes/admin.js:340-367 | with distinct ids, removing the found work leaves no work with that id and keeps the ids distinct |
| Works.WorkStore.constructor | routes/admin.js:183-184 | the store holds the list read from the works file |
| Works.WorkStore.Create | routes/admin.js:170-203 | gate first; then a missing title or description gives 400 with the list unchanged; otherwise the new work is put in front and the list grows by one; well-formedness and, for a fresh id, distinct ids are kept |
| Works.WorkStore.Update | routes/admin.js:211-270 | gate first; an unknown id gives 404 with the list unchanged; otherwise only the first matching work is replaced by its revision, and length, ids, well-formedness and distinct ids are kept |
| Works.WorkStore.Delete | routes/admin.js:331-371 | 401 without a session; an unknown id gives 404 with the list unchanged; otherwise exactly the first matching work is removed, the rest keep their order, and its media are scheduled for deletion; with distinct ids the id is gone afterwards |
| Works.AdminList | routes/admin.js:157-167 | the admin list needs no session; after `initDataFiles` a missing file gives no works, a parsed file its works, and 500 comes exactly when the file exists but cannot be read |
| Settings.NewAvailability | routes/admin.js:310-314 | text that parses becomes the parsed value, unreadable text keeps the current value, and any other value is taken as sent |
| Settings.Merged | routes/admin.js:307-321 | status changes only to a non-empty value; message and tagline change whenever sent; availability only when sent and readable; the logo URL only on upload; no other key changes |
| Settings.ReplacedLogo | routes/admin.js:316-319 | the old logo is scheduled for deletion exactly when a logo was uploaded and one was set |
| Settings.MergeNothing | routes/admin.js:307-321 | an update with no fields and no logo leaves the settings unchanged |
| Settings.MergeIdempotent | routes/admin.js:307-321 | applying the same update twice equals applying it once |
| Settings.EmptyStatusIgnoredEmptyMessageApplied | routes/admin.js:307-308 | an empty status is ignored while an empty status message is applied |
| Settings.UnreadableAvailabilityKept | routes/admin.js:310-314 | unreadable availability text leaves the settings unchanged |
| Settings.ApplySettings | routes/admin.js:293-321 | the handler's field-by-field overlay on the initialized file's record, or on the default when it cannot be read, yields exactly `Merged` and schedules exactly the replaced logo |
| Settings.PostSettings | routes/admin.js:291-323 | gate first (401, then 500 for a refused logo); otherwise the reply is the merged record and the replaced logo is scheduled for deletion |
| Settings.AdminGetSettings | routes/admin.js:278-288 | 401 without a session; after `initDataFiles` a missing file gives the default record, a parsed file its record, and 500 comes exactly when the file exists but cannot be read |
| DataFiles.Initialized | routes/admin.js:55-89 | after `initDataFiles` no data file is missing: a missing one holds its initial contents, any other is as it was |
| DataFiles.ContentsOr | routes/api.js:8-21 | a parsed file gives its contents; a missing or unreadable one gives the fallback |
| DataFiles.FallbackAfterInit | routes/admin.js:293-306 | falling back to the initial contents reads the same with or without `initDataFiles` first |
| PublicApi.GetSettings | routes/api.js:8-21 | the stored record, or when the file is missing or unreadable exactly the default: status "available", the three availability flags true, the fixed message and tagline, no logo and no other keys |
| PublicApi.PublicSettings | routes/api.js:24-32 | the public settings read never fails |
| PublicApi.PublicWorks | routes/api.js:44-57 | the public works read never fails; it is the stored list, or no works when the file is missing or unreadable |
| PublicApi.ListsAgreeUnlessUnreadable | routes/api.js:50-56 | the admin and public lists agree on a missing or parsed file; on a file that exists but cannot be read the admin list gives 500 and the public list is empty |
| PublicApi.SettingsReadsAgree | routes/api.js:8-11 | the public settings equal the admin ones whenever the admin read succeeds, and for an authenticated session it succeeds whenever the file is missing or parsed |
| PublicApi.PresentFields | routes/api.js:67 | `filter(Boolean)` keeps only non-empty strings, each the value of some field, and keeps none exactly when every field is absent or empty |
| PublicApi.PresentOne | routes/api.js:67 | a single field is kept exactly when it is present and not empty |
| PublicApi.PresentAppend | routes/api.js:67 | filtering distributes over concatenation, so fields are kept in their order |
| PublicApi.PresentPair | routes/api.js:67 | filtering two fields keeps those that are present and non-empty, in order |
| PublicApi.FullName | routes/api.js:67 | the given name, else first and last joined by one space, else whichever one is present, with no stray space; empty exactly when all three are absent or empty |
| PublicApi.Contact | routes/api.js:65-75 | 400 exactly when no name can be formed or email or message is missing; otherwise the payload carries the full name, email and message, with phone and intent defaulting to "" |
| PublicApi.LastNameOnly | routes/api.js:67-75 | a sender with only a last name is addressed by it alone |

## Left out

- File I/O is not modelled: reading, writing and unlinking files, and creating directories.
  - Reads are `DataFile` inputs. `initDataFiles` is modelled by its effect on the file it initializes, and only where a handler reads that file afterwards.
  - A failing `initDataFiles` (a directory or file that cannot be created) is not modelled. Every admin handler answers it with 500.
  - Writes are the new list or the returned record.
  - Unlinks are the `stale` path lists. Their errors are swallowed in the code, so nothing more is observable.
  - A read or write failure inside the create, update and delete handlers gives 500 in the code, and these methods do not model it.
- The default users file and its fixed account (routes/admin.js:65-75) are not modelled. Account creation is I/O plus a bcrypt hash. `Auth.Login` takes the users list as read after that step.
- Auth.Login: does not model the 500 for a throwing `initDataFiles` (routes/admin.js:113) or a throwing `bcrypt.compare` (routes/admin.js:130), which the handler's catch turns into 500 (routes/admin.js:140-142). Both are I/O or foreign-call failures.
- Settings.PostSettings: does not model the 500 for a failing `writeFile` of the settings (routes/admin.js:322, caught at 324-327). Writes are the returned record here.
- The multer disk storage is not modelled: the destination directory and the name `Date.now()-random` + extension. The stored name is a parameter of `StoredFile`.
- The `maxCount: 1` limits per field are not modelled. A request carries at most one image and one video here.
- Password checking uses bcrypt, a foreign call. It is the `verify` parameter of `Auth.Login`.
- Sessions come from express-session, including logout (`req.session.destroy`). The session is a value; logout and cookies are not modelled.
- Works.NewWork: one `now` stamps both `createdAt` and `updatedAt`. The code reads the clock twice (routes/admin.js:195-196), so there the two may differ by a millisecond.
- `new Date().toISOString()` and `Date.now().toString()` are parameters `now` and `id`. Nothing here guarantees fresh ids, so id distinctness is proved under the hypothesis that the new id is unused.
- `JSON.parse` of whole files is not modelled; each file is given as parsed records.
  - The availability text is parsed by the `parse` parameter.
  - JSON numbers are integers here.
- Request body values that are not strings (JSON bodies may carry numbers, arrays or objects) are not modelled, except `availableFor`. Every other field is a string or absent.
- Strings.ToLower: lower-cases ASCII letters only. The other characters that lower-case into ASCII are U+212A (to `k`) and U+0130 (to `i` and U+0307). Neither can complete an allowed token, so the verdict of the filter is the same.
- Strings are sequences of Unicode scalar values, not UTF-16 code units.
- The page routes (`sendFile`) and the health endpoint, which reads the clock, are not modelled.
- server.js wiring is not modelled, apart from the generic error handler's 500.
- Concurrent requests that interleave read-modify-write cycles are not modelled.
