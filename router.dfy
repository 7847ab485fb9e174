/**
  The handler `listDir` builds for `/files/` (main.go:148-201): sanitise the URL
  path, stat the result, and answer with a 404, the file's content, a redirect
  to the same URL with a trailing `/`, or the directory listing page.

  The filesystem is an input: the outcomes of `os.Stat`, `os.ReadDir` and
  `os.Open` for each path. The response records which answer was chosen and
  with what, not the bytes written.
 */
module RequestRouter {

  import opened Results
  import opened Strings
  import opened Paths
  import opened PathResolver
  import opened EntryClassifier
  import opened DirectoryLister
  import opened Escaping

  /** The outcome of `os.Stat`. */
  datatype StatResult =
    | Missing                       // an error for which `errors.Is(err, os.ErrNotExist)` holds
    | NonDirectory(modTime: int)    // exists, `IsDir()` false
    | Directory                     // exists, `IsDir()` true
    | OtherError(error: string)     // any other error: `stat` is nil

  /** The outcome of `os.Open`. */
  datatype OpenResult = Opened | OpenFailed(error: string)

  /** What the handler asks of the filesystem, per path. */
  datatype FileSystem = FileSystem(
    stat: string -> StatResult,
    readDir: string -> Result<seq<DirEntry>>,
    open: string -> OpenResult)

  /** The one response a request gets. */
  datatype Response =
    | NotFound(message: string)           // `http.Error` with status 404
    | ServeFile(path: string, modTime: int)  // `http.ServeContent` on the opened file
    | Redirect(target: string)            // status 307
    | Page(entries: seq<FileRecord>, payload: string)  // the listing page, with its inlined payload
    | Internal(message: string)           // `http.Error` with status 500
    | Crash                               // `stat.IsDir()` on a nil `stat` panics

  /** The URL path of the served root itself. */
  const FilesPrefix: string := "/files/"

  /** The synthetic entry that leads one level up. */
  const ParentEntry: FileRecord := FileRecord("..", "..", "", "", FolderBack)

  /** The listing shown: the parent entry first, unless the raw URL path is exactly `/files/`. */
  function WithParent(rawPath: string, records: seq<FileRecord>): seq<FileRecord>
  {
    if rawPath != FilesPrefix then [ParentEntry] + records else records
  }

  /** The number of records of type `kind`. */
  function CountKind(records: seq<FileRecord>, kind: FileType): nat
    decreases |records|
  {
    if records == [] then 0
    else (if records[0].kind == kind then 1 else 0) + CountKind(records[1..], kind)
  }

  /** The decision the handler makes for one request. */
  function Handle(root: string, fmt: Formatters, fs: FileSystem, rawPath: string): Response
    requires Slash in rawPath
  {
    var path := Sanitized(root, rawPath);
    match fs.stat(path)
    case Missing => NotFound(path + " not found")
    case OtherError(_) => Crash
    case NonDirectory(modTime) =>
      (match fs.open(path)
       case OpenFailed(e) => Internal(e)
       case Opened => ServeFile(path, modTime))
    case Directory =>
      if !HasSuffix(rawPath, "/") then Redirect(rawPath + "/")
      else
        match Listing(fmt, fs.readDir(path))
        case Err(e) => Internal(e)
        case Ok(records) =>
          var entries := WithParent(rawPath, records);
          match fmt.marshal(entries)
          case Err(e) => Internal(e)
          case Ok(data) => Page(entries, EscapeQuotes(data))
  }

  /** The handler, step by step with its early returns. */
  method ListDir(root: string, fmt: Formatters, fs: FileSystem, rawPath: string) returns (resp: Response)
    requires Slash in rawPath
    ensures resp == Handle(root, fmt, fs, rawPath)
  {
    var path := SanitizePath(root, rawPath);
    var stat := fs.stat(path);
    if stat.Missing? {
      return NotFound(path + " not found");
    }
    if stat.OtherError? {
      return Crash;
    }
    if stat.NonDirectory? {
      var f := fs.open(path);
      if f.OpenFailed? {
        return Internal(f.error);
      }
      return ServeFile(path, stat.modTime);
    }
    if !HasSuffix(rawPath, "/") {
      return Redirect(rawPath + "/");
    }
    var listed := ListDirContents(fmt, fs.readDir(path));
    if listed.Err? {
      return Internal(listed.error);
    }
    var entries := listed.value;
    if rawPath != FilesPrefix {
      entries := [ParentEntry] + entries;
    }
    var data := fmt.marshal(entries);
    if data.Err? {
      return Internal(data.error);
    }
    return Page(entries, EscapeQuotes(data.value));
  }

  /**
    The order of the decisions: a missing path is a 404 naming the sanitised
    path; other stat failures crash; a non-directory is served whatever the URL
    ends with, and a failure to open it is a 500; a directory is redirected
    exactly when the raw URL path lacks a trailing `/`; only otherwise is it
    listed, and a failure to list or to serialise it is a 500.
   */
  lemma DispatchOrder(root: string, fmt: Formatters, fs: FileSystem, rawPath: string)
    requires Slash in rawPath
    ensures var path, r := Sanitized(root, rawPath), Handle(root, fmt, fs, rawPath);
      && (r.NotFound? <==> fs.stat(path).Missing?)
      && (r.NotFound? ==> r.message == path + " not found")
      && (r.Crash? <==> fs.stat(path).OtherError?)
      && (r.ServeFile? <==> fs.stat(path).NonDirectory? && fs.open(path).Opened?)
      && (r.ServeFile? ==> r.path == path && r.modTime == fs.stat(path).modTime)
      && (r.Redirect? <==> fs.stat(path).Directory? && !HasSuffix(rawPath, "/"))
      && (r.Redirect? ==> r.target == rawPath + "/")
      && (r.Page? <==> fs.stat(path).Directory? && HasSuffix(rawPath, "/")
                       && Listing(fmt, fs.readDir(path)).Ok?
                       && fmt.marshal(WithParent(rawPath, Listing(fmt, fs.readDir(path)).value)).Ok?)
      && (r.Internal? <==> (fs.stat(path).NonDirectory? && fs.open(path).OpenFailed?)
                           || (fs.stat(path).Directory? && HasSuffix(rawPath, "/")
                               && (Listing(fmt, fs.readDir(path)).Err?
                                   || fmt.marshal(WithParent(rawPath, Listing(fmt, fs.readDir(path)).value)).Err?)))
  {
  }

  /**
    The filesystem is only ever consulted at the sanitised path, and that path
    is the cleaned root followed by child names: two filesystems that agree
    there get the same response, whatever they hold elsewhere.
   */
  lemma OnlySanitizedPathTouched(root: string, fmt: Formatters, fs1: FileSystem, fs2: FileSystem, rawPath: string)
    requires Slash in rawPath
    requires root != ""
    requires var path := Sanitized(root, rawPath);
      fs1.stat(path) == fs2.stat(path) && fs1.readDir(path) == fs2.readDir(path) && fs1.open(path) == fs2.open(path)
    ensures Handle(root, fmt, fs1, rawPath) == Handle(root, fmt, fs2, rawPath)
    ensures Sanitized(root, rawPath) == Descend(Clean(root), Names(Tail(rawPath)))
  {
    SanitizedIsConfined(root, rawPath);
  }

  /** A served file lies at or below the root: never above it. */
  lemma ServedFileIsConfined(root: string, fmt: Formatters, fs: FileSystem, rawPath: string)
    requires Slash in rawPath
    requires root != ""
    requires Handle(root, fmt, fs, rawPath).ServeFile?
    ensures var names := Names(Tail(rawPath));
      && Handle(root, fmt, fs, rawPath).path == Descend(Clean(root), names)
      && forall i :: 0 <= i < |names| ==> ChildName(names[i])
  {
    DispatchOrder(root, fmt, fs, rawPath);
    assert Handle(root, fmt, fs, rawPath).path == Sanitized(root, rawPath);
    SanitizedIsConfined(root, rawPath);
  }

  /** A file asked for with a trailing `/` is answered exactly as without it. */
  lemma FileIgnoresTrailingSlash(root: string, fmt: Formatters, fs: FileSystem, rawPath: string)
    requires Slash in rawPath
    requires fs.stat(Sanitized(root, rawPath)).NonDirectory?
    ensures Slash in rawPath + "/"
    ensures Handle(root, fmt, fs, rawPath + "/") == Handle(root, fmt, fs, rawPath)
  {
    TrailingSlashIgnored(root, rawPath);
  }

  /**
    A redirect leads to the same directory with a trailing `/`, and following it
    does not redirect again: the directory is then listed, or the listing fails.
   */
  lemma RedirectIsFollowedByListing(root: string, fmt: Formatters, fs: FileSystem, rawPath: string)
    requires Slash in rawPath
    requires Handle(root, fmt, fs, rawPath).Redirect?
    ensures var target := Handle(root, fmt, fs, rawPath).target;
      && target == rawPath + "/"
      && Slash in target
      && Sanitized(root, target) == Sanitized(root, rawPath)
      && (Handle(root, fmt, fs, target).Page? || Handle(root, fmt, fs, target).Internal?)
  {
    TrailingSlashIgnored(root, rawPath);
    assert HasSuffix(rawPath + "/", "/") by {
      var t := rawPath + "/";
      assert t[|t| - 1..] == "/";
    }
  }

  /** The number of records of a type adds up over a concatenation. */
  lemma {:induction false} CountKindConcat(a: seq<FileRecord>, b: seq<FileRecord>, kind: FileType)
    ensures CountKind(a + b, kind) == CountKind(a, kind) + CountKind(b, kind)
    decreases |a|
  {
    if a == [] {
      assert a + b == b;
    } else {
      assert (a + b)[1..] == a[1..] + b;
      CountKindConcat(a[1..], b, kind);
    }
  }

  /** Records of which none has the type count zero of it. */
  lemma {:induction false} CountKindNone(records: seq<FileRecord>, kind: FileType)
    requires forall i :: 0 <= i < |records| ==> records[i].kind != kind
    ensures CountKind(records, kind) == 0
    decreases |records|
  {
    if records != [] {
      assert forall i :: 0 <= i < |records[1..]| ==> records[1..][i].kind != kind by {
        forall i | 0 <= i < |records[1..]| ensures records[1..][i].kind != kind {
          assert records[1..][i] == records[i + 1];
        }
      }
      CountKindNone(records[1..], kind);
    }
  }

  /**
    Exactly one parent entry, placed first, unless the raw URL path is exactly
    `/files/`, in which case there is none; the directory's own records follow,
    unchanged and in their order.
   */
  lemma ParentEntryPlacement(rawPath: string, records: seq<FileRecord>)
    requires forall i :: 0 <= i < |records| ==> records[i].kind != FolderBack
    ensures CountKind(WithParent(rawPath, records), FolderBack) == if rawPath != FilesPrefix then 1 else 0
    ensures rawPath != FilesPrefix ==> WithParent(rawPath, records)[0] == ParentEntry
    ensures rawPath != FilesPrefix ==> WithParent(rawPath, records)[1..] == records
    ensures rawPath == FilesPrefix ==> WithParent(rawPath, records) == records
  {
    CountKindNone(records, FolderBack);
    CountKindConcat([ParentEntry], records, FolderBack);
  }

  /**
    A listing page shows the directory's records after at most one parent
    entry, and its payload is the escaped serialisation of exactly those
    entries: every quote follows a backslash, it is longer by the number of
    quotes, and unescaping gives the serialisation back.
   */
  lemma PageContents(root: string, fmt: Formatters, fs: FileSystem, rawPath: string)
    requires Slash in rawPath
    requires Handle(root, fmt, fs, rawPath).Page?
    ensures var path, r := Sanitized(root, rawPath), Handle(root, fmt, fs, rawPath);
      && Listing(fmt, fs.readDir(path)).Ok?
      && r.entries == WithParent(rawPath, Listing(fmt, fs.readDir(path)).value)
      && CountKind(r.entries, FolderBack) == (if rawPath != FilesPrefix then 1 else 0)
      && fmt.marshal(r.entries).Ok?
      && UnescapeQuotes(r.payload) == fmt.marshal(r.entries).value
      && QuotesEscaped(r.payload)
      && |r.payload| == |fmt.marshal(r.entries).value| + Quotes(fmt.marshal(r.entries).value)
  {
    var path := Sanitized(root, rawPath);
    ListingHasNoParentEntry(fmt, fs.readDir(path));
    ParentEntryPlacement(rawPath, Listing(fmt, fs.readDir(path)).value);
    UnescapeEscape(fmt.marshal(Handle(root, fmt, fs, rawPath).entries).value);
  }

  /** Under the `/files/` mount the sanitizer works on the segments after the prefix. */
  lemma TailOfFiles(rest: string)
    ensures Slash in FilesPrefix + rest
    ensures Tail(FilesPrefix + rest) == Split(rest)
  {
    SplitFiles(rest);
    assert (FilesPrefix + rest)[0] == Slash;
  }

  /** The URL `/files/<rest>` splits into the empty segment, `files`, and the pieces of `rest`. */
  lemma SplitFiles(rest: string)
    ensures Split(FilesPrefix + rest) == ["", "files"] + Split(rest)
  {
    var x := "files" + [Slash] + rest;
    FilesPrefixSpelled(rest);
    SplitLeadingSlash(x);
    SplitFilesName(rest);
  }

  lemma FilesPrefixSpelled(rest: string)
    ensures FilesPrefix + rest == [Slash] + ("files" + [Slash] + rest)
  {
  }

  lemma SplitFilesName(rest: string)
    ensures Split("files" + [Slash] + rest) == ["files"] + Split(rest)
  {
    SplitConcat("files", rest);
    SplitPlain("files");
  }

  /** The child names among two `..` segments followed by two child names are those two names. */
  lemma NamesAfterTwoParents(a: string, b: string)
    requires !Skipped(a) && !Skipped(b)
    ensures Names(["..", "..", a, b]) == [a, b]
  {
    var segs := ["..", "..", a, b];
    assert [".."][..0] == [];
    assert Names([".."]) == [];
    assert ["..", ".."][..1] == [".."];
    assert Names(["..", ".."]) == [];
    assert ["..", "..", a][..2] == ["..", ".."];
    assert Names(["..", "..", a]) == [a];
    assert segs[..3] == ["..", "..", a];
  }

  /**
    A traversal attempt such as `/files/../../etc/passwd` stays below the root:
    the `..` segments are dropped and the names after them are looked up under
    the root.
   */
  lemma TraversalScenario(root: string, a: string, b: string)
    requires root != ""
    requires ChildName(a) && ChildName(b)
    ensures Slash in FilesPrefix + "../../" + a + "/" + b
    ensures Sanitized(root, FilesPrefix + "../../" + a + "/" + b) == Descend(Clean(root), [a, b])
  {
    var rest := "../../" + a + "/" + b;
    var segs := ["..", "..", a, b];
    assert JoinWith(segs) == rest by {
      assert JoinWith([b]) == b;
      assert JoinWith([a, b]) == a + "/" + b;
      assert JoinWith(["..", a, b]) == ".." + "/" + (a + "/" + b);
    }
    SplitJoin(segs);
    TailOfFiles(rest);
    assert FilesPrefix + rest == FilesPrefix + "../../" + a + "/" + b;
    SanitizedIsConfined(root, FilesPrefix + rest);
    NamesAfterTwoParents(a, b);
  }

  /** `/files/` lists the root itself, without a parent entry. */
  lemma RootScenario(root: string)
    requires root != ""
    ensures Sanitized(root, "/files/") == Clean(root)
    ensures forall records :: WithParent("/files/", records) == records
  {
    TailOfFiles("");
    assert FilesPrefix + "" == "/files/";
    SanitizedIsConfined(root, "/files/");
    assert Names([""]) == [] by {
      assert [""][..0] == [];
    }
  }

  /** `/files//` lists the root as well, but the raw path is not `/files/`, so with a parent entry. */
  lemma DoubleSlashScenario(root: string)
    requires root != ""
    ensures Sanitized(root, "/files//") == Clean(root)
    ensures forall records :: WithParent("/files//", records) == [ParentEntry] + records
  {
    DoubleSlashTail();
    SanitizedIsConfined(root, "/files//");
    TwoEmptyNames();
    assert "/files//" != FilesPrefix by {
      assert |"/files//"| != |FilesPrefix|;
    }
  }

  lemma DoubleSlashTail()
    ensures Slash in "/files//"
    ensures Tail("/files//") == ["", ""]
  {
    TailOfFiles("/");
    assert FilesPrefix + "/" == "/files//";
    SplitLeadingSlash("");
  }

  lemma TwoEmptyNames()
    ensures Names(["", ""]) == []
  {
    assert ["", ""][..1] == [""];
    assert [""][..0] == [];
  }

  /** `/files/<name>` for a single child name is that name under the root. */
  lemma SanitizeOneName(root: string, name: string)
    requires root != ""
    requires ChildName(name)
    ensures Slash in FilesPrefix + name
    ensures Sanitized(root, FilesPrefix + name) == Descend(Clean(root), [name])
  {
    TailOfFiles(name);
    SplitPlain(name);
    SanitizedIsConfined(root, FilesPrefix + name);
    assert Names([name]) == [name] by {
      assert [name][..0] == [];
    }
  }

  /** A directory such as `/files/docs`, asked for without the trailing `/`, is redirected to the URL with it. */
  lemma RedirectScenario(root: string, fmt: Formatters, fs: FileSystem, name: string)
    requires root != ""
    requires ChildName(name)
    requires fs.stat(Descend(Clean(root), [name])).Directory?
    ensures Slash in FilesPrefix + name
    ensures Handle(root, fmt, fs, FilesPrefix + name) == Redirect(FilesPrefix + name + "/")
  {
    SanitizeOneName(root, name);
    var url := FilesPrefix + name;
    assert !HasSuffix(url, "/") by {
      assert url[|url| - 1] == name[|name| - 1];
      assert name[|name| - 1] in name;
    }
    DispatchOrder(root, fmt, fs, url);
  }

  /** A path such as `/files/missing-path` that does not exist gets a 404 naming the path under the root. */
  lemma NotFoundScenario(root: string, fmt: Formatters, fs: FileSystem, name: string)
    requires root != ""
    requires ChildName(name)
    requires fs.stat(Descend(Clean(root), [name])).Missing?
    ensures Slash in FilesPrefix + name
    ensures Handle(root, fmt, fs, FilesPrefix + name) == NotFound(Descend(Clean(root), [name]) + " not found")
  {
    SanitizeOneName(root, name);
  }

  /** With the root `/srv`, a child name `n` is looked up at `/srv/n`. */
  lemma UnderSrv(name: string)
    requires ChildName(name)
    ensures Descend(Clean("/srv"), [name]) == "/srv/" + name
  {
    SplitJoin(["", "srv"]);
    assert JoinWith(["", "srv"]) == "/srv";
    assert Clean("/srv") == "/srv";
  }
}
