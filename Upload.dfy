/**
 * The upload check every multipart admin route runs before its handler:
 * the `fileFilter` allow-list test on the file's extension and declared
 * type, and the 50 MiB `fileSize` limit.
 */
module Upload {
  import opened Wrappers
  import opened Strings
  import opened Sequences

  /** The alternatives of the filter's regular expression `/jpeg|jpg|png|gif|mp4|webm|mov/`. */
  const ALLOWED_TYPES: seq<string> := ["jpeg", "jpg", "png", "gif", "mp4", "webm", "mov"]

  /** The `limits.fileSize` ceiling, in bytes. */
  const MAX_FILE_SIZE: nat := 50 * 1024 * 1024

  /** A file part of a multipart request, as the client declared it. */
  datatype IncomingFile = IncomingFile(originalName: string, mimeType: string, size: nat)

  /** An accepted file together with the name the disk storage gave it. */
  datatype StoredFile = StoredFile(file: IncomingFile, filename: string)

  /** The public URL a stored file is served under. */
  function UploadUrl(f: StoredFile): (url: string)
    ensures |url| == 9 + |f.filename|
    ensures url[..9] == "/uploads/" && url[9..] == f.filename
  {
    "/uploads/" + f.filename
  }

  /** What the upload middleware makes of one file. */
  datatype Verdict = Accepted | UnsupportedType | TooLarge

  // ---------------------------------------------------------------- path.extname

  /** `p` without the slashes at its end. */
  function DropTrailingSlashes(p: string): (r: string)
    ensures |r| <= |p| && r == p[..|r|]
    ensures r == [] || r[|r| - 1] != '/'
    ensures forall k :: |r| <= k < |p| ==> p[k] == '/'
  {
    if p != [] && p[|p| - 1] == '/' then DropTrailingSlashes(p[..|p| - 1]) else p
  }

  /** Index of the last `c` in `s`, if any. */
  function LastIndexOf(s: string, c: char): (r: Option<nat>)
    ensures r.None? <==> c !in s
    ensures r.Some? ==> r.value < |s| && s[r.value] == c && c !in s[r.value + 1..]
  {
    if s == [] then None
    else if s[|s| - 1] == c then Some(|s| - 1)
    else
      var r := LastIndexOf(s[..|s| - 1], c);
      assert s == s[..|s| - 1] + [s[|s| - 1]];
      r
  }

  /** The last component of a path, trailing slashes ignored. */
  function BaseName(p: string): (b: string)
    ensures var q := DropTrailingSlashes(p);
      && |b| <= |q| && b == q[|q| - |b|..]
      && (|b| < |q| ==> q[|q| - |b| - 1] == '/')
    ensures '/' !in b
  {
    var q := DropTrailingSlashes(p);
    match LastIndexOf(q, '/')
    case None => q
    case Some(i) => q[i + 1..]
  }

  /**
   * The extension of a last path component: from its last dot to its end;
   * empty when it has no dot, starts with its only dot (a dot-file such as
   * `.png`), or is `..`.
   */
  function ComponentExt(base: string): string
  {
    match LastIndexOf(base, '.')
    case None => ""
    case Some(d) => if d == 0 || base == ".." then "" else base[d..]
  }

  /** `path.extname(name)`: the extension of the last component of `name`, as `ExtNameMeaning` states. */
  function ExtName(name: string): string
  {
    ComponentExt(BaseName(name))
  }

  /**
   * The extension of a component without slashes is empty or a dot followed
   * by no other dot, it ends the component, and it is empty exactly when the
   * component has no dot, is `..`, or has its only dot in front.
   */
  lemma ComponentExtMeaning(base: string)
    requires '/' !in base
    ensures var ext := ComponentExt(base);
      ext == [] || (ext[0] == '.' && '.' !in ext[1..] && '/' !in ext)
    ensures var ext := ComponentExt(base);
      |ext| <= |base| && ext == base[|base| - |ext|..]
    ensures ComponentExt(base) == [] <==> '.' !in base || base == ".." || (base[0] == '.' && '.' !in base[1..])
  {
    match LastIndexOf(base, '.')
    case None =>
    case Some(d) =>
      if d != 0 && base != ".." {
        assert base[1..][d - 1] == '.';
        assert base[d..][1..] == base[d + 1..];
        assert forall k :: 0 <= k < |base| - d ==> base[d..][k] == base[d + k];
      }
  }

  /** The same facts for `path.extname` on a whole path, about its last component. */
  lemma ExtNameMeaning(name: string)
    ensures var ext := ExtName(name);
      ext == [] || (ext[0] == '.' && '.' !in ext[1..] && '/' !in ext)
    ensures var ext, base := ExtName(name), BaseName(name);
      |ext| <= |base| && ext == base[|base| - |ext|..]
    ensures var base := BaseName(name);
      ExtName(name) == [] <==> '.' !in base || base == ".." || (base[0] == '.' && '.' !in base[1..])
  {
    ComponentExtMeaning(BaseName(name));
  }

  /** `LastIndexOf` finds the occurrence after which `c` no longer appears. */
  lemma LastIndexOfAt(s: string, c: char, i: nat)
    requires i < |s| && s[i] == c && c !in s[i + 1..]
    ensures LastIndexOf(s, c) == Some(i)
  {
    assert s[i] in s;
  }

  /** A name without slashes is its own last component. */
  lemma BaseNameOfPlainName(name: string)
    requires '/' !in name
    ensures BaseName(name) == name
  {
    if name != [] {
      assert name[|name| - 1] in name;
    }
  }

  /**
   * A name `stem` + `ext` without slashes, whose stem does not start with a
   * dot and whose `ext` is a dot followed by no other dot, has extension `ext`.
   */
  lemma ExtNameOf(stem: string, ext: string)
    requires stem != [] && stem[0] != '.' && '/' !in stem
    requires ext != [] && ext[0] == '.' && '.' !in ext[1..] && '/' !in ext
    ensures ExtName(stem + ext) == ext
  {
    var name := stem + ext;
    assert name[|stem|..] == ext;
    assert name[|stem| + 1..] == ext[1..];
    assert '/' !in name by {
      forall k | 0 <= k < |name| ensures name[k] != '/' {
        if k < |stem| { assert name[k] == stem[k]; }
        else { assert name[k] == ext[k - |stem|]; }
      }
    }
    BaseNameOfPlainName(name);
    LastIndexOfAt(name, '.', |stem|);
    assert name != ".." by {
      assert name[0] == stem[0];
    }
  }

  // ---------------------------------------------------------------- fileFilter

  /** Some alternative in `tokens` occurs somewhere in `s`; tried in order, as a regex alternation is. */
  function AnyOccurs(s: string, tokens: seq<string>): (b: bool)
    ensures b <==> exists k :: 0 <= k < |tokens| && Contains(s, tokens[k])
    decreases |tokens|
  {
    if tokens == [] then false
    else if Contains(s, tokens[0]) then true
    else
      var b := AnyOccurs(s, tokens[1..]);
      assert forall k :: 1 <= k < |tokens| ==> tokens[k] == tokens[1..][k - 1];
      b
  }

  /** `/jpeg|jpg|png|gif|mp4|webm|mov/.test(s)`. */
  predicate AllowedTypesTest(s: string) {
    AnyOccurs(s, ALLOWED_TYPES)
  }

  /**
   * The file filter: both the lower-cased extension and the declared MIME
   * type must pass the type test. The MIME type is tested as sent, without
   * lower-casing.
   */
  predicate FileFilter(f: IncomingFile) {
    AllowedTypesTest(ToLower(ExtName(f.originalName))) && AllowedTypesTest(f.mimeType)
  }

  /**
   * The regular expression is unanchored, so the filter accepts exactly the
   * files whose extension and declared type each contain an allowed token
   * somewhere.
   */
  lemma FileFilterMeaning(f: IncomingFile)
    ensures FileFilter(f) <==>
      (exists t :: t in ALLOWED_TYPES && Contains(ToLower(ExtName(f.originalName)), t))
      && (exists t :: t in ALLOWED_TYPES && Contains(f.mimeType, t))
  {
    forall s: string ensures AllowedTypesTest(s) <==> exists t :: t in ALLOWED_TYPES && Contains(s, t) {
      if exists t :: t in ALLOWED_TYPES && Contains(s, t) {
        var t :| t in ALLOWED_TYPES && Contains(s, t);
        var k :| 0 <= k < |ALLOWED_TYPES| && ALLOWED_TYPES[k] == t;
      }
    }
  }

  /** The middleware's verdict on one file: the filter runs first, the size limit while the file streams in. */
  function Check(f: IncomingFile): (v: Verdict)
    ensures v == Accepted <==> FileFilter(f) && f.size <= MAX_FILE_SIZE
    ensures v == UnsupportedType <==> !FileFilter(f)
  {
    if !FileFilter(f) then UnsupportedType
    else if f.size > MAX_FILE_SIZE then TooLarge
    else Accepted
  }

  /**
   * The verdict on all files of one request: the first file that fails
   * aborts the request with its verdict.
   */
  function CheckAll(files: seq<IncomingFile>): (v: Verdict)
    ensures v == Accepted <==> forall k :: 0 <= k < |files| ==> Check(files[k]) == Accepted
    ensures v != Accepted ==>
      exists k :: 0 <= k < |files| && Check(files[k]) == v && forall j :: 0 <= j < k ==> Check(files[j]) == Accepted
  {
    var i := FindIndex(files, f => Check(f) != Accepted);
    if i == -1 then Accepted else Check(files[i])
  }

  // ---------------------------------------------------------------- examples

  /** Every allowed token starts with one of the letters j, g, p, m, w. */
  lemma TokenStarts()
    ensures forall k :: 0 <= k < |ALLOWED_TYPES| ==> |ALLOWED_TYPES[k]| > 0 && ALLOWED_TYPES[k][0] in "jgpmw"
  {
    forall k | 0 <= k < |ALLOWED_TYPES|
      ensures |ALLOWED_TYPES[k]| > 0 && ALLOWED_TYPES[k][0] in "jgpmw"
    {
      assert k == 0 || k == 1 || k == 2 || k == 3 || k == 4 || k == 5 || k == 6;
    }
  }

  /** A string none of whose characters can start an allowed token fails the type test. */
  lemma TestFailsWithoutTokenStart(s: string)
    requires forall c :: c in s ==> c !in "jgpmw"
    ensures !AllowedTypesTest(s)
  {
    TokenStarts();
    forall k | 0 <= k < |ALLOWED_TYPES| ensures !Contains(s, ALLOWED_TYPES[k]) {
      var t := ALLOWED_TYPES[k];
      assert forall i :: OccursAt(s, t, i) ==> s[i] == t[0];
    }
  }

  /** The type test on the literal strings the examples below use. */
  lemma TypeTestExamples()
    ensures AllowedTypesTest(".jpg") && AllowedTypesTest("image/jpeg")
    ensures AllowedTypesTest(".mp4") && AllowedTypesTest("video/mp4")
    ensures AllowedTypesTest(".pngx") && AllowedTypesTest("text/png-notes")
    ensures !AllowedTypesTest(".exe") && !AllowedTypesTest("")
  {
    assert OccursAt(".jpg", "jpg", 1);
    assert OccursAt("image/jpeg", "jpeg", 6);
    assert OccursAt(".mp4", "mp4", 1);
    assert OccursAt("video/mp4", "mp4", 6);
    assert OccursAt(".pngx", "png", 1);
    assert OccursAt("text/png-notes", "png", 5);
    TestFailsWithoutTokenStart(".exe");
    TestFailsWithoutTokenStart("");
  }

  /** Lower-casing the literal extensions the examples below use. */
  lemma LowerCaseExamples()
    ensures ToLower(".JPG") == ".jpg" && ToLower(".exe") == ".exe" && ToLower(".mp4") == ".mp4"
    ensures ToLower(".pngx") == ".pngx" && ToLower("") == ""
  {
  }

  /**
   * A rewriting step for the examples below: `Check` unfolded with the
   * extension given by name, so that a proof about a concrete extension
   * need not unfold `ExtName` again.
   */
  lemma CheckByExtension(f: IncomingFile, ext: string)
    requires ExtName(f.originalName) == ext
    ensures Check(f) ==
      if !(AllowedTypesTest(ToLower(ext)) && AllowedTypesTest(f.mimeType)) then UnsupportedType
      else if f.size > MAX_FILE_SIZE then TooLarge
      else Accepted
  {
  }

  /** A photo whose name ends in upper-case `.JPG` and that is declared `image/jpeg` passes. */
  lemma AcceptsUpperCaseJpeg(stem: string, size: nat)
    requires stem != [] && stem[0] != '.' && '/' !in stem
    requires size <= MAX_FILE_SIZE
    ensures Check(IncomingFile(stem + ".JPG", "image/jpeg", size)) == Accepted
  {
    ExtNameOf(stem, ".JPG");
    LowerCaseExamples();
    TypeTestExamples();
    CheckByExtension(IncomingFile(stem + ".JPG", "image/jpeg", size), ".JPG");
  }

  /** An `.exe` file is refused whatever type it declares. */
  lemma RejectsExecutable(stem: string, mimeType: string, size: nat)
    requires stem != [] && stem[0] != '.' && '/' !in stem
    ensures Check(IncomingFile(stem + ".exe", mimeType, size)) == UnsupportedType
  {
    ExtNameOf(stem, ".exe");
    LowerCaseExamples();
    TypeTestExamples();
    CheckByExtension(IncomingFile(stem + ".exe", mimeType, size), ".exe");
  }

  /** Where a three-letter token could start in `video/quicktime`: none of j, g, p, m, w is there. */
  lemma QuickTimeWindow3()
    ensures "video/quicktime"[..13] == "video/quickti"
    ensures forall c :: c in "jgpmw" ==> c !in "video/quickti"
  {
  }

  /** Where a four-letter token could start in `video/quicktime`: none of j, g, p, m, w is there. */
  lemma QuickTimeWindow4()
    ensures "video/quicktime"[..12] == "video/quickt"
    ensures forall c :: c in "jgpmw" ==> c !in "video/quickt"
  {
  }

  /** No token of three or four characters starting with j, g, p, m or w occurs in `video/quicktime`. */
  lemma QuickTimeLacks(t: string)
    requires 3 <= |t| <= 4 && t[0] in "jgpmw"
    ensures !Contains("video/quicktime", t)
  {
    if |t| == 3 {
      QuickTimeWindow3();
    } else {
      QuickTimeWindow4();
    }
    FirstCharAbsent("video/quicktime", t);
  }

  /** The declared type `video/quicktime`, which QuickTime `.mov` files carry, contains none of the tokens. */
  lemma QuickTimeTypeFailsTest()
    ensures !AllowedTypesTest("video/quicktime")
  {
    TokenStarts();
    forall k | 0 <= k < |ALLOWED_TYPES| ensures !Contains("video/quicktime", ALLOWED_TYPES[k]) {
      assert 3 <= |ALLOWED_TYPES[k]| <= 4 by {
        assert k == 0 || k == 1 || k == 2 || k == 3 || k == 4 || k == 5 || k == 6;
      }
      QuickTimeLacks(ALLOWED_TYPES[k]);
    }
  }

  /** So a file declared `video/quicktime` is refused, even when its name ends in `.mov`. */
  lemma RejectsQuickTimeType(name: string, size: nat)
    ensures Check(IncomingFile(name, "video/quicktime", size)) == UnsupportedType
  {
    QuickTimeTypeFailsTest();
  }

  /** A file over the ceiling is refused even when its name and type are allowed. */
  lemma RejectsOversizedVideo(stem: string, size: nat)
    requires stem != [] && stem[0] != '.' && '/' !in stem
    requires size > MAX_FILE_SIZE
    ensures Check(IncomingFile(stem + ".mp4", "video/mp4", size)) == TooLarge
  {
    ExtNameOf(stem, ".mp4");
    LowerCaseExamples();
    TypeTestExamples();
    CheckByExtension(IncomingFile(stem + ".mp4", "video/mp4", size), ".mp4");
  }

  /** The test is unanchored: a name ending `.pngx` declared `text/png-notes` still passes. */
  lemma AcceptsTokenInsideLongerWords(stem: string)
    requires stem != [] && stem[0] != '.' && '/' !in stem
    ensures Check(IncomingFile(stem + ".pngx", "text/png-notes", 10)) == Accepted
  {
    ExtNameOf(stem, ".pngx");
    LowerCaseExamples();
    TypeTestExamples();
    CheckByExtension(IncomingFile(stem + ".pngx", "text/png-notes", 10), ".pngx");
  }

  /** A dot-file named just `.png` has no extension, so it is refused. */
  lemma RejectsBareDotFile(mimeType: string, size: nat)
    ensures Check(IncomingFile(".png", mimeType, size)) == UnsupportedType
  {
    assert ExtName(".png") == "" by {
      BaseNameOfPlainName(".png");
      LastIndexOfAt(".png", '.', 0);
    }
    LowerCaseExamples();
    TypeTestExamples();
    CheckByExtension(IncomingFile(".png", mimeType, size), "");
  }
}
