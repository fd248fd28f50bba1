/** The document download endpoint: a 404 for a name that leads nowhere,
    otherwise a content type chosen from the name's lower-cased extension,
    an attachment disposition and a read of the place the name leads to. */
module Download {
  import opened Types
  import opened UploadRoute

  /** The extension-to-type table of the download handler. */
  const ContentTypes: map<string, string> := map[
    ".pdf" := "application/pdf",
    ".doc" := "application/msword",
    ".docx" := "application/vnd.openxmlformats-officedocument.wordprocessingml.document",
    ".txt" := "text/plain",
    ".xlsx" := "application/vnd.openxmlformats-officedocument.spreadsheetml.sheet",
    ".xls" := "application/vnd.ms-excel",
    ".ppt" := "application/vnd.ms-powerpoint",
    ".pptx" := "application/vnd.openxmlformats-officedocument.presentationml.presentation"
  ]

  const FallbackContentType: string := "application/octet-stream"

  /** The content type for an (already lower-cased) extension. */
  function ContentTypeFor(ext: string): (t: string)
    ensures ext in ContentTypes ==> t == ContentTypes[ext]
    ensures ext !in ContentTypes ==> t == FallbackContentType
  {
    if ext in ContentTypes then ContentTypes[ext] else FallbackContentType
  }

  // ---------------------------------------------------------------------
  // The disk as the handler sees it, and where a requested name leads.
  // ---------------------------------------------------------------------

  /** A place on disk relative to the server's working directory: `up`
      levels above it, then down through the directories of `path`. */
  datatype Loc = Loc(up: nat, path: seq<string>)

  /** The regular files and the directories present on disk. */
  datatype Disk = Disk(files: set<Loc>, dirs: set<Loc>)

  /** The download directory, `uploads` under the working directory. */
  const UploadsDir: Loc := Loc(0, ["uploads"])

  /** The segments of `s` split at every '/', `cur` holding the segment
      read so far. */
  function SplitFrom(s: string, cur: string): (r: seq<string>)
    ensures |r| >= 1
    decreases |s|
  {
    if s == [] then [cur]
    else if s[0] == '/' then [cur] + SplitFrom(s[1..], "")
    else SplitFrom(s[1..], cur + [s[0]])
  }

  function Segments(s: string): seq<string> {
    SplitFrom(s, "")
  }

  /** A name without '/' is one segment. */
  lemma {:induction false} SplitFromNoSlash(s: string, cur: string)
    requires forall i :: 0 <= i < |s| ==> s[i] != '/'
    ensures SplitFrom(s, cur) == [cur + s]
    decreases |s|
  {
    if s == [] {
      assert cur + s == cur;
    } else {
      assert s[0] != '/';
      assert forall i :: 0 <= i < |s[1..]| ==> s[1..][i] == s[i + 1];
      SplitFromNoSlash(s[1..], cur + [s[0]]);
      assert cur + [s[0]] + s[1..] == cur + s;
    }
  }

  /** One segment of a joined path, as path normalisation reads it: an
      empty segment or "." stays, ".." goes up one level, anything else goes
      down into it. */
  function Step(l: Loc, seg: string): (r: Loc)
    ensures seg == "" || seg == "." ==> r == l
    ensures seg == ".." && l.path != [] ==> r == Loc(l.up, l.path[..|l.path| - 1])
    ensures seg == ".." && l.path == [] ==> r == Loc(l.up + 1, [])
    ensures seg != "" && seg != "." && seg != ".." ==> r == Loc(l.up, l.path + [seg])
  {
    if seg == "" || seg == "." then l
    else if seg == ".." then (if l.path == [] then Loc(l.up + 1, []) else Loc(l.up, l.path[..|l.path| - 1]))
    else Loc(l.up, l.path + [seg])
  }

  function Walk(l: Loc, segs: seq<string>): Loc
    decreases |segs|
  {
    if segs == [] then l else Walk(Step(l, segs[0]), segs[1..])
  }

  /** Where `path.join(cwd, "uploads", filename)` leads. */
  function Target(filename: string): Loc {
    Walk(UploadsDir, Segments(filename))
  }

  /** A name that stays in the upload directory: no '/', and not "", "."
      or "..". */
  predicate IsPlainName(n: string) {
    n != "" && n != "." && n != ".." && forall i :: 0 <= i < |n| ==> n[i] != '/'
  }

  /** A plain name leads to the entry of that name in the upload
      directory. */
  lemma PlainNameTarget(n: string)
    requires IsPlainName(n)
    ensures Target(n) == Loc(0, ["uploads", n])
  {
    SplitFromNoSlash(n, "");
    assert "" + n == n;
    assert Segments(n) == [n];
    assert Step(UploadsDir, n) == Loc(0, ["uploads", n]);
    assert Walk(UploadsDir, [n]) == Walk(Loc(0, ["uploads", n]), []);
  }

  /** Whether `fs.existsSync` holds for the joined path: a directory always
      exists; a regular file only when the name does not end in '/'. */
  predicate ExistsAt(disk: Disk, filename: string) {
    var l := Target(filename);
    l in disk.dirs || (l in disk.files && !(|filename| > 0 && filename[|filename| - 1] == '/'))
  }

  // ---------------------------------------------------------------------
  // Content type and the handler.
  // ---------------------------------------------------------------------

  /** The name without its trailing slashes. */
  function TrimSlashes(s: string): (r: string)
    ensures |r| <= |s| && r == s[..|r|]
    ensures r == [] || r[|r| - 1] != '/'
    ensures (forall i :: 0 <= i < |s| ==> s[i] != '/') ==> r == s
    decreases |s|
  {
    if s != [] && s[|s| - 1] == '/' then TrimSlashes(s[..|s| - 1]) else s
  }

  /** Where the last segment of `s` starts: just after its last '/', or
      0. */
  function SegmentStart(s: string): (k: nat)
    ensures k <= |s|
    ensures forall i :: k <= i < |s| ==> s[i] != '/'
    ensures k > 0 ==> s[k - 1] == '/'
    decreases |s|
  {
    if s == [] then 0
    else if s[|s| - 1] == '/' then |s|
    else SegmentStart(s[..|s| - 1])
  }

  /** The last segment of a name once trailing slashes are dropped: the
      part whose extension `path.extname` takes. */
  function BaseSegment(s: string): (r: string)
    ensures forall i :: 0 <= i < |r| ==> r[i] != '/'
    ensures (forall i :: 0 <= i < |s| ==> s[i] != '/') ==> r == s
  {
    var t := TrimSlashes(s);
    t[SegmentStart(t)..]
  }

  /** The content type the handler sends for a requested name. */
  function ContentTypeOf(filename: string): string {
    ContentTypeFor(Lower(ExtName(BaseSegment(filename))))
  }

  datatype DownloadResponse =
    | NotFound(body: string)
    | Served(contentType: string, disposition: string, source: Loc)
      /** The name leads to a directory: the headers are set and the read
          then fails with an error nothing listens for, which stops the
          server process. */
    | ReadFailed(contentType: string, disposition: string)

  function Disposition(filename: string): string {
    "attachment; filename=\"" + filename + "\""
  }

  /** The download handler as written: the decoded `filename` is joined to
      the upload directory with no check, so any place the name leads to is
      looked up. */
  function HandleDownload(filename: string, disk: Disk): (r: DownloadResponse)
    ensures r.NotFound? <==> !ExistsAt(disk, filename)
    ensures r.NotFound? ==> r.body == "Document not found"
    ensures r.ReadFailed? <==> Target(filename) in disk.dirs
    ensures !r.NotFound? ==> r.contentType == ContentTypeOf(filename) && r.disposition == Disposition(filename)
    ensures r.Served? ==> r.source == Target(filename) && r.source in disk.files
  {
    if !ExistsAt(disk, filename) then NotFound("Document not found")
    else if Target(filename) in disk.dirs then ReadFailed(ContentTypeOf(filename), Disposition(filename))
    else Served(ContentTypeOf(filename), Disposition(filename), Target(filename))
  }

  /** A request for `..%2F.env`, decoded to "../.env", is served the
      `.env` file of the working directory, outside the upload directory,
      as an opaque byte stream. */
  lemma TraversalServesOutsideUploads(disk: Disk)
    requires Loc(0, [".env"]) in disk.files && Loc(0, [".env"]) !in disk.dirs
    ensures HandleDownload("../.env", disk) == Served(FallbackContentType, Disposition("../.env"), Loc(0, [".env"]))
    ensures Loc(0, [".env"]) != Loc(0, ["uploads", "../.env"])
  {
    TraversalTarget();
    TraversalContentType();
  }

  lemma TraversalTarget()
    ensures Target("../.env") == Loc(0, [".env"])
  {
    TraversalSegments();
    assert Step(UploadsDir, "..") == Loc(0, []);
    assert Step(Loc(0, []), ".env") == Loc(0, [".env"]);
    assert Walk(UploadsDir, ["..", ".env"]) == Walk(Loc(0, []), [".env"]);
    assert Walk(Loc(0, []), [".env"]) == Walk(Loc(0, [".env"]), []);
  }

  lemma TraversalSegments()
    ensures Segments("../.env") == ["..", ".env"]
  {
    var s := "../.env";
    assert s[1..] == "./.env" && s[2..] == "/.env" && s[3..] == ".env";
    assert "" + [s[0]] == "." && "." + [s[1]] == "..";
    assert SplitFrom(s, "") == SplitFrom("/.env", "..");
    SplitFromNoSlash(".env", "");
    assert "" + ".env" == ".env";
  }

  lemma TraversalContentType()
    ensures ContentTypeOf("../.env") == FallbackContentType
  {
    var s := "../.env";
    assert s[|s| - 1] != '/';
    assert TrimSlashes(s) == s;
    assert s[2] == '/';
    var k := SegmentStart(s);
    assert k == 3;
    assert BaseSegment(s) == ".env";
    var e := ".env";
    assert e[0] == '.' && e[1] == 'e' && e[2] == 'n' && e[3] == 'v';
    assert LastDot(e) == Some(0);
    assert ExtName(".env") == "";
    assert Lower("") == "";
  }

  /** The names "." and ".." lead to the upload directory and its parent:
      both exist, and the read of a directory fails. */
  lemma DotNamesFailTheRead(disk: Disk)
    requires UploadsDir in disk.dirs && Loc(0, []) in disk.dirs
    ensures HandleDownload(".", disk).ReadFailed?
    ensures HandleDownload("..", disk).ReadFailed?
  {
    SplitFromNoSlash(".", "");
    SplitFromNoSlash("..", "");
    assert "" + "." == "." && "" + ".." == "..";
    assert Segments(".") == ["."];
    assert Segments("..") == [".."];
    assert Walk(UploadsDir, ["."]) == Walk(UploadsDir, []);
    assert Walk(UploadsDir, [".."]) == Walk(Loc(0, []), []);
  }

  /** The handler with the evident intent: only a regular file directly in
      the upload directory is served; every other name is not found. */
  function HandleDownloadConfined(filename: string, disk: Disk): (r: DownloadResponse)
    ensures !r.ReadFailed?
    ensures r.Served? ==> IsPlainName(filename) && r.source == Loc(0, ["uploads", filename]) && r.source in disk.files
    ensures r.NotFound? ==> r.body == "Document not found"
    ensures r.Served? <==>
      IsPlainName(filename) && Loc(0, ["uploads", filename]) in disk.files && Loc(0, ["uploads", filename]) !in disk.dirs
    ensures r.Served? ==> r == HandleDownload(filename, disk)
  {
    if IsPlainName(filename) && Loc(0, ["uploads", filename]) in disk.files && Loc(0, ["uploads", filename]) !in disk.dirs then
      PlainNameTarget(filename);
      HandleDownload(filename, disk)
    else NotFound("Document not found")
  }

  /** The confined handler does not serve the traversal the handler as
      written serves. */
  lemma ConfinedRefusesTraversal(disk: Disk)
    ensures HandleDownloadConfined("../.env", disk) == NotFound("Document not found")
  {
    assert "../.env"[2] == '/';
  }

  /** Lower-casing moves no dot. */
  lemma {:induction false} LastDotLower(s: string)
    ensures LastDot(Lower(s)) == LastDot(s)
    decreases |s|
  {
    if s != [] {
      assert Lower(s)[..|s| - 1] == Lower(s[..|s| - 1]);
      LastDotLower(s[..|s| - 1]);
    }
  }

  /** The extension of the lower-cased name is the lower-cased extension. */
  lemma ExtNameLower(s: string)
    ensures ExtName(Lower(s)) == Lower(ExtName(s))
  {
    LastDotLower(s);
    if s == ".." {
      assert Lower(s) == "..";
    }
  }

  /** Lower-casing keeps every '/' in place, so it commutes with dropping
      the trailing slashes and moves no segment start. */
  lemma {:induction false} TrimSlashesLower(s: string)
    ensures TrimSlashes(Lower(s)) == Lower(TrimSlashes(s))
    decreases |s|
  {
    if s != [] {
      assert Lower(s)[..|s| - 1] == Lower(s[..|s| - 1]);
      if s[|s| - 1] == '/' {
        TrimSlashesLower(s[..|s| - 1]);
      }
    }
  }

  lemma {:induction false} SegmentStartLower(s: string)
    ensures SegmentStart(Lower(s)) == SegmentStart(s)
    decreases |s|
  {
    if s != [] {
      assert Lower(s)[..|s| - 1] == Lower(s[..|s| - 1]);
      SegmentStartLower(s[..|s| - 1]);
    }
  }

  lemma BaseSegmentLower(s: string)
    ensures BaseSegment(Lower(s)) == Lower(BaseSegment(s))
  {
    var t := TrimSlashes(s);
    TrimSlashesLower(s);
    SegmentStartLower(t);
    LowerSuffix(t, SegmentStart(t));
  }

  /** Lower-casing commutes with taking a suffix. */
  lemma LowerSuffix(t: string, k: nat)
    requires k <= |t|
    ensures Lower(t)[k..] == Lower(t[k..])
  {
  }

  /** Names that differ only in letter case are served with the same type:
      `.PDF` and `.pdf` map alike. */
  lemma ContentTypeIgnoresCase(a: string, b: string)
    requires Lower(a) == Lower(b)
    ensures ContentTypeOf(a) == ContentTypeOf(b)
  {
    var x, y := BaseSegment(a), BaseSegment(b);
    BaseSegmentLower(a);
    BaseSegmentLower(b);
    ExtNameLower(x);
    ExtNameLower(y);
    LowerIdempotent(ExtName(x));
    LowerIdempotent(ExtName(y));
    assert Lower(ExtName(x)) == ExtName(Lower(x)) == ExtName(Lower(y)) == Lower(ExtName(y));
  }

  /** Every type the download table can name is one the upload filter
      accepts, and every accepted type has an extension in the table. */
  lemma DownloadTypesMatchUploadTypes()
    ensures forall ext :: ext in ContentTypes ==> ContentTypes[ext] in AllowedMimeTypes
    ensures forall t :: t in AllowedMimeTypes ==> t in ContentTypes.Values
  {
    assert ContentTypes[".pdf"] == AllowedMimeTypes[0];
    assert ContentTypes[".doc"] == AllowedMimeTypes[1];
    assert ContentTypes[".docx"] == AllowedMimeTypes[2];
    assert ContentTypes[".txt"] == AllowedMimeTypes[3];
    assert ContentTypes[".xls"] == AllowedMimeTypes[4];
    assert ContentTypes[".xlsx"] == AllowedMimeTypes[5];
    assert ContentTypes[".ppt"] == AllowedMimeTypes[6];
    assert ContentTypes[".pptx"] == AllowedMimeTypes[7];
  }

  /** A stored file whose extension is none of the eight is served as an
      opaque byte stream. */
  lemma UnknownExtensionFallsBack(filename: string, disk: Disk)
    requires IsPlainName(filename)
    requires Loc(0, ["uploads", filename]) in disk.files && Loc(0, ["uploads", filename]) !in disk.dirs
    requires Lower(ExtName(filename)) !in ContentTypes
    ensures HandleDownload(filename, disk).Served?
    ensures HandleDownload(filename, disk).contentType == "application/octet-stream"
  {
    PlainNameTarget(filename);
  }
}
