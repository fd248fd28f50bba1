/** The message router: the document upload middleware (stored-name choice,
    MIME allow-list, size limit) and the order in which routes are matched. */
module UploadRoute {
  import opened Types

  // ---------------------------------------------------------------------
  // File names: extension and stem, as Node's path.extname/path.basename
  // treat a name without directory separators.
  // ---------------------------------------------------------------------

  /** Index of the last '.' in `s`, if any. */
  function LastDot(s: string): (r: Option<nat>)
    ensures r.Some? ==> r.value < |s| && s[r.value] == '.'
    ensures r.Some? ==> forall j :: r.value < j < |s| ==> s[j] != '.'
    ensures r.None? ==> forall j :: 0 <= j < |s| ==> s[j] != '.'
  {
    if s == [] then None
    else if s[|s| - 1] == '.' then Some(|s| - 1)
    else LastDot(s[..|s| - 1])
  }

  /** The extension: from the last dot to the end, or empty when there is no
      dot, when the only candidate dot starts the name (".bashrc") or when
      the name is "..". */
  function ExtName(name: string): (ext: string)
    ensures |ext| <= |name| && name[|name| - |ext|..] == ext
    ensures ext == [] <==> LastDot(name).None? || LastDot(name).value == 0 || name == ".."
    ensures ext != [] ==> ext[0] == '.' && |ext| < |name|
    ensures ext != [] ==> forall j :: 1 <= j < |ext| ==> ext[j] != '.'
  {
    match LastDot(name)
    case None => ""
    case Some(i) => if i == 0 || name == ".." then "" else name[i..]
  }

  /** The name without its extension (`path.basename(name, ext)`). */
  function Stem(name: string): (stem: string)
    ensures stem + ExtName(name) == name
    ensures ExtName(name) != [] ==> stem != []
  {
    name[..|name| - |ExtName(name)|]
  }

  /** The decimal digit for `d`. */
  function DigitChar(d: nat): char
    requires d < 10
  {
    (48 + d) as char
  }

  /** Decimal rendering of a counter, as a template literal renders a number. */
  function NatToString(n: nat): (r: string)
    ensures |r| >= 1
    ensures n >= 10 ==> |r| >= 2
    decreases n
  {
    if n < 10 then [DigitChar(n)] else NatToString(n / 10) + [DigitChar(n % 10)]
  }

  /** Different counters render differently. */
  lemma {:induction false} NatToStringInjective(a: nat, b: nat)
    requires NatToString(a) == NatToString(b)
    ensures a == b
    decreases a
  {
    if a >= 10 && b >= 10 {
      var sa, sb := NatToString(a), NatToString(b);
      assert sa[|sa| - 1] == DigitChar(a % 10);
      assert sb[|sb| - 1] == DigitChar(b % 10);
      assert NatToString(a / 10) == sa[..|sa| - 1];
      assert NatToString(b / 10) == sb[..|sb| - 1];
      NatToStringInjective(a / 10, b / 10);
    }
  }

  /** The k-th alternative name: `${stem}_${k}${ext}`, always built from the
      original name. */
  function Candidate(original: string, k: nat): string {
    Stem(original) + "_" + NatToString(k) + ExtName(original)
  }

  /** An alternative name is never the original name. */
  lemma CandidateLonger(original: string, k: nat)
    ensures |Candidate(original, k)| > |original|
    ensures Candidate(original, k) != original
  {
    assert |Candidate(original, k)| == |Stem(original)| + 1 + |NatToString(k)| + |ExtName(original)|;
  }

  /** Different counters give different alternative names. */
  lemma CandidateInjective(original: string, j: nat, k: nat)
    requires Candidate(original, j) == Candidate(original, k)
    ensures j == k
  {
    var p, e := Stem(original) + "_", ExtName(original);
    var sj, sk := NatToString(j), NatToString(k);
    var c := Candidate(original, j);
    assert c == p + sj + e && c == p + sk + e;
    assert |sj| == |sk|;
    assert sj == c[|p|..|p| + |sj|];
    assert sk == c[|p|..|p| + |sk|];
    NatToStringInjective(j, k);
  }

  /** The storage's filename callback: keep the original name when it is free,
      otherwise try `stem_1.ext`, `stem_2.ext`, ... until one is free.
      `existing` is the set of names already in the upload directory. */
  method ChooseFilename(originalName: string, existing: set<string>) returns (filename: string)
    ensures filename !in existing
    ensures originalName !in existing ==> filename == originalName
    ensures originalName in existing ==>
      exists k: nat :: k >= 1 && filename == Candidate(originalName, k) &&
        forall j: nat :: 1 <= j < k ==> Candidate(originalName, j) in existing
  {
    filename := originalName;
    var counter: nat := 1;
    ghost var tried: set<string> := {};
    while filename in existing
      invariant counter >= 1
      invariant tried <= existing
      invariant filename !in tried
      invariant forall j: nat :: j >= counter ==> Candidate(originalName, j) !in tried
      invariant filename == if counter == 1 then originalName else Candidate(originalName, counter - 1)
      invariant counter > 1 ==> originalName in existing
      invariant forall j: nat :: 1 <= j < counter - 1 ==> Candidate(originalName, j) in existing
      decreases |existing - tried|
    {
      var ext := ExtName(originalName);
      var nameWithoutExt := Stem(originalName);
      forall j: nat | j >= counter
        ensures Candidate(originalName, j) != filename
      {
        if counter == 1 {
          CandidateLonger(originalName, j);
        } else if Candidate(originalName, j) == filename {
          CandidateInjective(originalName, j, counter - 1);
        }
      }
      assert existing - (tried + {filename}) < existing - tried;
      tried := tried + {filename};
      filename := nameWithoutExt + "_" + NatToString(counter) + ext;
      assert filename == Candidate(originalName, counter);
      counter := counter + 1;
    }
  }

  // ---------------------------------------------------------------------
  // File filter and size limit.
  // ---------------------------------------------------------------------

  /** The eight document types: PDF, Word (legacy and OOXML), plain text,
      Excel (legacy and OOXML), PowerPoint (legacy and OOXML). The message
      controller and the browser store check the same eight strings. */
  const AllowedMimeTypes: seq<string> := [
    "application/pdf",
    "application/msword",
    "application/vnd.openxmlformats-officedocument.wordprocessingml.document",
    "text/plain",
    "application/vnd.ms-excel",
    "application/vnd.openxmlformats-officedocument.spreadsheetml.sheet",
    "application/vnd.ms-powerpoint",
    "application/vnd.openxmlformats-officedocument.presentationml.presentation"
  ]

  /** The upload size ceiling: 50 MiB. */
  const MaxFileSize: nat := 50 * 1024 * 1024

  lemma MaxFileSizeValue()
    ensures MaxFileSize == 52428800
  {
  }

  datatype FilterVerdict = Accept | Reject(message: string)

  /** The upload middleware's file filter. */
  function FileFilter(mimeType: string): (v: FilterVerdict)
    ensures v.Accept? <==> mimeType in AllowedMimeTypes
    ensures v.Reject? ==> v.message == "Only PDF, Word, TXT, Excel, and PowerPoint files are allowed"
  {
    if mimeType in AllowedMimeTypes then Accept
    else Reject("Only PDF, Word, TXT, Excel, and PowerPoint files are allowed")
  }

  /** The text after the last character of `seps` in `s`; all of `s` when
      it holds none of them. */
  function AfterLastOf(s: string, seps: set<char>): (r: string)
    ensures |r| <= |s| && r == s[|s| - |r|..]
    ensures forall i :: 0 <= i < |r| ==> r[i] !in seps
    ensures |r| < |s| ==> s[|s| - |r| - 1] in seps
    decreases |s|
  {
    if s == [] || s[|s| - 1] in seps then [] else AfterLastOf(s[..|s| - 1], seps) + [s[|s| - 1]]
  }

  /** The file name the multipart parser reports for a part: the name with
      any directory part, up to the last '/' or '\', removed; "." and ".."
      are reported as no name at all. */
  function PartFileName(name: string): (r: string)
    ensures forall i :: 0 <= i < |r| ==> r[i] != '/' && r[i] != '\\'
    ensures r != "." && r != ".."
    ensures |r| <= |name| && (r != [] ==> r == name[|name| - |r|..])
  {
    var t := AfterLastOf(name, {'/', '\\'});
    if t == "." || t == ".." then "" else t
  }

  /** A plain name, one with no separator that is not "." or "..", is
      reported unchanged; one that ends in a separator is reported as no
      name. */
  lemma PartFileNameOfPlainName(name: string)
    ensures (forall i :: 0 <= i < |name| ==> name[i] != '/' && name[i] != '\\') && name != "." && name != ".." ==>
      PartFileName(name) == name
    ensures |name| > 0 && name[|name| - 1] in {'/', '\\'} ==> PartFileName(name) == ""
  {
  }

  /** Whether the upload carries a file part with a name; the upload
      middleware skips a part whose reported name is empty. */
  predicate Named(part: Option<File>) {
    part.Some? && PartFileName(part.value.name) != ""
  }

  /** What the middleware hands to the controller as `req.file`. */
  datatype UploadedDocument = UploadedDocument(originalname: string, filename: string, mimetype: string, size: nat)

  /** Outcome of the single-file upload middleware: no file part, or one
      without a name (the controller then sees no `req.file`), a rejection
      by the filter, a file over the size limit, or a stored file. */
  datatype UploadOutcome = NoFilePart | FilterRejected(message: string) | FileTooLarge | Stored(file: UploadedDocument)

  /** The upload middleware run on an optional file part: filter first, then
      the stored-name choice, then the size limit while the bytes are
      written. */
  method Upload(part: Option<File>, existing: set<string>) returns (out: UploadOutcome)
    ensures !Named(part) <==> out.NoFilePart?
    ensures Named(part) && part.value.mimeType !in AllowedMimeTypes ==> out == FilterRejected(FileFilter(part.value.mimeType).message)
    ensures Named(part) && part.value.mimeType in AllowedMimeTypes ==>
      (out.FileTooLarge? <==> part.value.size > MaxFileSize)
    ensures Named(part) && part.value.mimeType in AllowedMimeTypes && part.value.size <= MaxFileSize ==> out.Stored?
    ensures out.Stored? ==>
      && Named(part)
      && out.file.originalname == PartFileName(part.value.name)
      && out.file.mimetype == part.value.mimeType
      && out.file.size == part.value.size
      && out.file.mimetype in AllowedMimeTypes
      && out.file.size <= MaxFileSize
      && out.file.filename !in existing
      && (PartFileName(part.value.name) !in existing ==> out.file.filename == PartFileName(part.value.name))
  {
    if part.None? {
      return NoFilePart;
    }
    var name := PartFileName(part.value.name);
    if name == "" {
      return NoFilePart;
    }
    var f := part.value;
    var verdict := FileFilter(f.mimeType);
    if verdict.Reject? {
      return FilterRejected(verdict.message);
    }
    var filename := ChooseFilename(name, existing);
    if f.size > MaxFileSize {
      return FileTooLarge;
    }
    out := Stored(UploadedDocument(name, filename, f.mimeType, f.size));
  }

  // ---------------------------------------------------------------------
  // Lower case, used by the router and by the download handler.
  // ---------------------------------------------------------------------

  /** Lower case of one character; only ASCII letters change. */
  function LowerChar(c: char): char {
    if 'A' <= c <= 'Z' then (c as int + 32) as char else c
  }

  /** Lower case of a string, character by character. */
  function Lower(s: string): (r: string)
    ensures |r| == |s|
    ensures forall i :: 0 <= i < |s| ==> r[i] == LowerChar(s[i])
  {
    seq(|s|, i requires 0 <= i < |s| => LowerChar(s[i]))
  }

  lemma LowerIdempotent(s: string)
    ensures Lower(Lower(s)) == Lower(s)
  {
  }

  // ---------------------------------------------------------------------
  // Route table, matched in registration order.
  // ---------------------------------------------------------------------

  datatype Verb = Get | Post
  datatype Segment = Lit(text: string) | Param
  datatype Middleware = ProtectRoute | DocumentUpload
  datatype Handler = GetUsersForSidebar | GetMessages | SendMessage | MarkMessagesAsSeen | SendMessageWithDocument
  datatype Route = Route(verb: Verb, pattern: seq<Segment>, middleware: seq<Middleware>, handler: Handler)

  /** The message routes in the order they are registered. */
  const Routes: seq<Route> := [
    Route(Get, [Lit("users")], [ProtectRoute], GetUsersForSidebar),
    Route(Get, [Param], [ProtectRoute], GetMessages),
    Route(Post, [Lit("send"), Param], [ProtectRoute], SendMessage),
    Route(Post, [Lit("mark-seen")], [ProtectRoute], MarkMessagesAsSeen),
    Route(Post, [Lit("send-document"), Param], [ProtectRoute, DocumentUpload], SendMessageWithDocument)
  ]

  /** A path segment matches a literal ignoring case, as a router built with
      no options does, and a parameter when it is non-empty. The literals
      are all lower case. */
  predicate SegmentMatches(p: Segment, s: string) {
    match p
    case Lit(t) => Lower(s) == t
    case Param => s != ""
  }

  /** The path without the one trailing slash a non-strict router
      tolerates; a trailing slash shows as a last, empty segment. */
  function StripTrailingSlash(path: seq<string>): (r: seq<string>)
    ensures |path| > 0 && path[|path| - 1] == "" ==> r == path[..|path| - 1]
    ensures |path| == 0 || path[|path| - 1] != "" ==> r == path
  {
    if |path| > 0 && path[|path| - 1] == "" then path[..|path| - 1] else path
  }

  predicate RouteMatches(r: Route, verb: Verb, path: seq<string>) {
    var p := StripTrailingSlash(path);
    && r.verb == verb
    && |r.pattern| == |p|
    && forall i :: 0 <= i < |p| ==> SegmentMatches(r.pattern[i], p[i])
  }

  /** The first route of `routes` matching the request, if any. */
  function FirstMatch(routes: seq<Route>, verb: Verb, path: seq<string>): (r: Option<nat>)
    ensures r.Some? ==> r.value < |routes| && RouteMatches(routes[r.value], verb, path)
    ensures r.Some? ==> forall i :: 0 <= i < r.value ==> !RouteMatches(routes[i], verb, path)
    ensures r.None? ==> forall i :: 0 <= i < |routes| ==> !RouteMatches(routes[i], verb, path)
  {
    if routes == [] then None
    else if RouteMatches(routes[0], verb, path) then Some(0)
    else match FirstMatch(routes[1..], verb, path)
      case None => None
      case Some(k) => Some(k + 1)
  }

  /** `GET /users` reaches the sidebar handler: it is registered before the
      parameterised `GET /:id`, which would match it too. Any spelling of
      `users` in upper or lower case, with or without a trailing slash, is
      the same request. */
  lemma UsersRouteShadowsIdRoute(seg: string)
    requires Lower(seg) == "users"
    ensures RouteMatches(Routes[1], Get, [seg])
    ensures FirstMatch(Routes, Get, [seg]) == Some(0)
    ensures FirstMatch(Routes, Get, [seg, ""]) == Some(0)
    ensures Routes[0].handler == GetUsersForSidebar
  {
    assert RouteMatches(Routes[0], Get, [seg]);
    assert StripTrailingSlash([seg, ""]) == [seg];
    assert RouteMatches(Routes[0], Get, [seg, ""]);
  }

  /** Any other single-segment GET reaches the conversation handler, with
      or without a trailing slash. */
  lemma IdRouteForOtherIds(id: string)
    requires id != "" && Lower(id) != "users"
    ensures FirstMatch(Routes, Get, [id]) == Some(1)
    ensures FirstMatch(Routes, Get, [id, ""]) == Some(1)
    ensures Routes[1].handler == GetMessages
  {
    assert StripTrailingSlash([id, ""]) == [id];
    assert !RouteMatches(Routes[0], Get, [id]) by {
      assert Routes[0].pattern[0] == Lit("users");
    }
    assert !RouteMatches(Routes[0], Get, [id, ""]) by {
      assert Routes[0].pattern[0] == Lit("users");
    }
    assert RouteMatches(Routes[1], Get, [id]);
    assert RouteMatches(Routes[1], Get, [id, ""]);
  }

  /** The send route takes the literal in any case: `POST /SEND/x` reaches
      the text send handler. */
  lemma SendRouteIgnoresCase(seg: string, id: string)
    requires Lower(seg) == "send" && id != ""
    ensures FirstMatch(Routes, Post, [seg, id]) == Some(2)
    ensures Routes[2].handler == SendMessage
  {
    assert StripTrailingSlash([seg, id]) == [seg, id];
    assert !RouteMatches(Routes[0], Post, [seg, id]);
    assert !RouteMatches(Routes[1], Post, [seg, id]);
    assert RouteMatches(Routes[2], Post, [seg, id]);
  }

  /** Every route authenticates first, and only the document route runs the
      upload middleware, after authentication. */
  lemma EveryRouteProtected()
    ensures forall i :: 0 <= i < |Routes| ==> |Routes[i].middleware| >= 1 && Routes[i].middleware[0] == ProtectRoute
    ensures forall i :: 0 <= i < |Routes| ==> (DocumentUpload in Routes[i].middleware <==> Routes[i].handler == SendMessageWithDocument)
  {
  }
}
