# A verified model of the `/files/` directory browser

The server answers every request under `/files/` with one of four things:

- the contents of a file;
- a redirect that adds a trailing `/`;
- a page listing a directory;
- an error.

This project models, in Dafny, how it reaches that answer. The whole program is `main.go`. Four functions do the work:

- `sanitizePath` turns the URL path into a filesystem path. It splits on `/`, drops the first two segments, drops every `..` and joins the rest onto the root with `filepath.Join`.
- `isMediaFile` and `toFileList` turn one directory entry into a listing record. The record is a folder (its name and URL end in `/`), a media file (`.mp4`, `.mkv`, `.avi`) or a plain file.
- `listDirContents` classifies a whole directory. It fails as soon as a read fails.
- The handler that `listDir` returns dispatches on the `os.Stat` result. It prepends the `..` entry and escapes the serialised listing before putting it in the page.

Modules, in dependency order:

- `Results`: the result datatype.
- `Strings`: `HasSuffix` (`strings.HasSuffix`), and `Split` and `JoinWith` (`strings.Split` and `strings.Join` on `/`).
- `Paths`: `Clean` and `Join` (`filepath.Clean` and `filepath.Join`) with their Unix lexical rules. `Clean` is a scan with a stack of segments. `..` pops a segment, or vanishes at a rooted start, or is kept at a relative start. The result is never empty.
- `PathResolver`: `sanitizePath`, written as the loop `SanitizePath`. `Tail` gives the segments after the first two, and `Sanitized` gives the path the loop computes.
- `EntryClassifier`: the record type, the media test (a loop) and the classifier.
- `DirectoryLister`: `listDirContents`, the loop `ListDirContents` with an early return. `ClassifyAll` and `Listing` give what it returns.
- `Escaping`: the `"` to `\"` replacement and its inverse.
- `RequestRouter`: the handler, both as the function `Handle` (main.go:148-201) and as the method `ListDir` with its early returns. `WithParent` is the parent-entry prepend (main.go:180-186).

Outside inputs become values:

- The filesystem is a `FileSystem` value. It gives the results of `os.Stat`, `os.ReadDir` and `os.Open` for each path.
- `url.PathEscape`, `humanize.Time`, `humanize.BigBytes` and `json.Marshal` are uninterpreted functions in a `Formatters` value.
- The server's root directory (`-dir`) is any string.

The main results:

- **Confinement.** Take a non-empty root and any URL path that contains a `/`. Its path is `Clean(root)` followed by the child names among the segments after the first two (`Names(Tail(url))`). The first two segments are the empty one and `files`, so `files` is dropped even though it is a child name. A child name is not empty, not `.`, not `..` and has no `/`. So no URL reaches above the cleaned root. The filesystem is consulted at that path only.
- **Dispatch.** The order of the decisions is proved: 404, crash, file, redirect, listing. A file is served whether or not the URL ends in `/`.
- **Classification.** A record's type and name follow from the entry: a directory is checked before the extension, and the media test is a case-sensitive suffix test.
- **All-or-nothing listing.** A listing is all records in order. Otherwise it is the error of the first entry that failed, and no partial list is returned.
- **Parent entry.** The `..` entry appears exactly once, first, unless the raw URL path is `/files/`.
- **Escaping.** The payload can be read back exactly by undoing the escaping, and every `"` in it follows a `\`.

In three places the model follows the code where a plain reading of the program's purpose suggests otherwise:

- **Stat errors.** An `os.Stat` error other than "does not exist" (a permission error, or a path through a regular file) leaves `stat` nil. `stat.IsDir()` then panics. The model answers `Crash` here, not a 500.
- **When the parent entry appears.** The handler compares the raw URL path with `/files/`, not the resolved path with the root. So if `/files//`, `/files/./` or `/files/../` reaches the handler, it lists the root with a `..` entry (`DoubleSlashScenario`). `net/http`'s mux normally cleans such paths and redirects them first (see "## Left out").
- **An empty root.** With `-dir ""`, a URL resolves to the empty string when every segment after the first two is empty or `..`. Otherwise it resolves to the relative path of its child names, or to `.` when it has none (as for `/files/.`).

## Model

| member | source | states |
|---|---|---|
| Strings.Split | main.go:72 | `strings.Split` on `/` always yields at least one piece |
| Strings.SplitPieces | main.go:72 | no piece of a split holds a `/` |
| Strings.SplitHasTwo | main.go:72 | a path holding a `/` splits into at least two pieces, so dropping the first two cannot fail |
| Strings.SplitJoin | main.go:72 | splitting a `/`-join of slash-free pieces gives those pieces back |
| Strings.JoinSplit | main.go:72 | joining the pieces of a split with `/` gives the string back |
| Strings.SplitPlain | main.go:72 | a string without `/` is a single piece |
| Strings.SplitConcat | main.go:72 | the pieces of `a + "/" + b` are the pieces of `a` followed by those of `b` |
| Strings.JoinWithConcat | main.go:80 | joining two non-empty piece lists puts exactly one `/` between their joins |
| Paths.Names | main.go:80 | the child names Join keeps: none is empty, `.` or `..`, and a segment is kept exactly when it is one |
| Paths.ResolveAppend | main.go:80 | cleaning segments `a + b` is cleaning `b` from the state left by `a` |
| Paths.ResolveWithoutParents | main.go:80 | without `..`, cleaning only drops the empty and `.` segments and keeps the others in order |
| Paths.ResolveIsClean | main.go:80 | cleaning yields only segments that are non-empty, not `.` and free of `/` |
| Paths.CleanedSegments | main.go:80 | the segments of any cleaned path are clean |
| Paths.JoinCleanSegments | main.go:80 | clean segments never join to the empty string, `.` or `/` |
| Paths.RenderDescend | main.go:80 | rendering a cleaned stack with further names appended is descending from the rendered stack into those names |
| Paths.JoinBelow | main.go:80 | joining a non-empty base with elements free of `..` and `/` is the cleaned base followed by the elements' child names |
| Paths.JoinRelative | main.go:80 | with no base, Join of such elements starting with a non-empty one is the relative path of their child names |
| Paths.JoinBelowEmpty | main.go:80 | with an empty base, Join is the empty string or the relative path of the child names |
| Paths.CleanEmpty | main.go:80 | cleaning the empty path gives `.` |
| Paths.NamesConcat | main.go:80 | the child names of a concatenation are those of each part in order |
| Paths.JoinTrailingEmpty | main.go:80 | a trailing empty element does not change Join |
| PathResolver.DropParents | main.go:72-78 | dropping `..` never lengthens, leaves no `..`, and keeps exactly the segments other than `..` |
| PathResolver.SanitizePath | main.go:70-81 | the loop computes the Join of the root and the kept segments, which for a non-empty root is the cleaned root followed by the child names among the segments after the first two |
| PathResolver.DropParentsConcat | main.go:72-78 | dropping `..` distributes over concatenation |
| PathResolver.DropParentsIdentity | main.go:72-78 | segments without `..` are kept as they are |
| PathResolver.NamesOfDropParents | main.go:72-80 | dropping `..` before the join loses no child name |
| PathResolver.SanitizedIsConfined | main.go:70-81 | the resolved path is the cleaned root followed by child names only, taken from the segments after the first two; for an empty root it is the empty string or that same path; it never climbs above the root |
| PathResolver.TrailingSlashIgnored | main.go:70-81 | a trailing `/` on the URL path does not change the resolved path |
| EntryClassifier.IsMediaFile | main.go:83-91 | the loop answers true exactly when the name ends in `.mp4`, `.mkv` or `.avi` |
| EntryClassifier.IsMediaIffSuffix | main.go:83-91 | a name is media exactly when it has one of the three suffixes |
| EntryClassifier.MediaExamples | main.go:84-86 | the test is case-sensitive and on the suffix only: `.mkv` and `movie.mp4` are media, `movie.MKV` and `clip.mp4.txt` are not |
| EntryClassifier.Classify | main.go:93-127 | a metadata failure is the result; otherwise a directory becomes a folder whose name and URL are its name plus `/`, and any other entry keeps its name, gets the escaped name as URL, and is media exactly when the media test holds; both carry the formatted time and size, and no record is `folder-back` |
| EntryClassifier.ClassifyKeepsName | main.go:94-101 | the entry's name can be recovered from its record |
| EntryClassifier.FolderIffTrailingSlash | main.go:100-126 | for a base name, a record is a folder exactly when its displayed name ends in `/` |
| EntryClassifier.KindDependsOnDirAndSuffix | main.go:100-126 | the type depends on the directory flag and the media test alone |
| EntryClassifier.TagsDistinct | main.go:27-34 | the four type tags are pairwise distinct strings |
| EntryClassifier.DirectoryBeforeExtension | main.go:100-110 | a directory named `clip.mp4` is a folder `clip.mp4/`, not media |
| DirectoryLister.ClassifyAll | main.go:134-145 | success exactly when every entry's metadata is readable, with one record per entry in order; otherwise the error of the first failing entry |
| DirectoryLister.ListDirContents | main.go:129-146 | the loop returns the read error, or the classification of all entries, never a partial list |
| DirectoryLister.ClassifyAllAbortsAtFirstError | main.go:136-140 | once a prefix of the entries fails, the whole listing fails with that same error |
| DirectoryLister.ListingHasNoParentEntry | main.go:129-146 | no record of a real entry is of type `folder-back` |
| DirectoryLister.ClassifyAllConcat | main.go:136-143 | the listing of a concatenation is the concatenation of the listings |
| Escaping.EscapeQuotes | main.go:195 | escaping adds one character per `"`, leaves every `"` preceded by `\`, and never starts with `"` |
| Escaping.UnescapeEscape | main.go:195 | the escaped payload is read back exactly by the inverse replacement |
| Escaping.EscapeWithoutQuotes | main.go:195 | text without `"` is unchanged |
| RequestRouter.ListDir | main.go:148-201 | the handler with its early returns gives exactly the response the dispatch function decides |
| RequestRouter.DispatchOrder | main.go:150-192 | 404 naming the path exactly when it is missing; crash exactly on another stat error; a file served exactly when it is a non-directory that opens; a redirect to the path plus `/` exactly for a directory without trailing `/`; a page exactly for a directory with it whose listing and serialisation succeed; a 500 exactly when the open, the listing or the serialisation fails |
| RequestRouter.OnlySanitizedPathTouched | main.go:150-178 | two filesystems that agree at the resolved path give the same response, and that path is the cleaned root followed by child names |
| RequestRouter.ServedFileIsConfined | main.go:150-166 | a served file's path is the cleaned root followed by child names only |
| RequestRouter.FileIgnoresTrailingSlash | main.go:157-167 | a file is answered the same with or without a trailing `/` |
| RequestRouter.RedirectIsFollowedByListing | main.go:169-178 | the redirect target resolves to the same directory and is answered with a page or a 500, never another redirect |
| RequestRouter.CountKindConcat | main.go:180-186 | counts of a type add up over a concatenation |
| RequestRouter.ParentEntryPlacement | main.go:180-186 | the `..` entry appears exactly once and first unless the raw path is `/files/`, followed by the listing unchanged |
| RequestRouter.PageContents | main.go:174-195 | a page holds the listing with the parent rule applied, and its payload is the escaped serialisation, which unescapes to it exactly |
| RequestRouter.TailOfFiles | main.go:72 | under the `/files/` mount the kept segments are the pieces of the rest of the URL |
| RequestRouter.NamesAfterTwoParents | main.go:72-80 | two `..` before two names leave just the two names |
| RequestRouter.TraversalScenario | main.go:70-81 | `/files/../../a/b` resolves to `a/b` under the cleaned root |
| RequestRouter.RootScenario | main.go:150-186 | `/files/` resolves to the cleaned root, and any listing shown for it is unchanged, with no parent entry |
| RequestRouter.DoubleSlashScenario | main.go:150-186 | `/files//` resolves to the cleaned root too, but any listing shown for it gets the parent entry in front |
| RequestRouter.SanitizeOneName | main.go:70-81 | `/files/<name>` resolves to the name under the cleaned root |
| RequestRouter.RedirectScenario | main.go:169-172 | a directory asked for without a trailing `/` is redirected to the URL with one |
| RequestRouter.NotFoundScenario | main.go:151-155 | a missing path gets a 404 naming the resolved path |
| RequestRouter.UnderSrv | main.go:80 | under the root `/srv`, a name is looked up at `/srv/<name>` |

## Left out

- The server set-up (`main.go:44-68`) is not modelled: flag parsing, template parsing, the route registrations, the `/` to `/files/` redirect, the static asset server and `ListenAndServe`. These are configuration and I/O.
- The embedded template and assets (`main.go:21-25`) and template execution (`main.go:194-199`) are not modelled. The model stops at the escaped payload handed to the template, so a template execution failure (the last 500) is not modelled.
- What `http.ServeContent` writes is not modelled: content sniffing, ranges and conditional requests. Neither is the deferred `Close`. `ServeFile` records only the path and modification time it is given.
- Response bodies are not modelled byte for byte. Status codes appear only as the response kind, and the trailing newline `http.Error` adds is left out.
- `url.PathEscape`, `humanize.Time`, `humanize.BigBytes` and `json.Marshal` are uninterpreted. Their output formats are library behaviour, and `humanize.Time` reads the clock.
- Real `os.Stat`, `os.ReadDir` and `os.Open` calls are inputs. So are whether a stat error satisfies `errors.Is(err, os.ErrNotExist)`, the order `os.ReadDir` returns, symbolic links and races between the stat and the open.
- The cleaning that `net/http`'s mux applies to request paths before the handler runs is not modelled. The model takes the handler's `r.URL.Path` as given. The mux normally redirects unclean paths such as `/files//`, `/files/./` and `/files/../`, so the parent-entry behaviour stated for them holds only if such a raw path reaches the handler.
- `http.Redirect` runs `path.Clean` on its target before writing `Location`, keeping a trailing `/`. This is not modelled. `Redirect(rawPath + "/")` records the target the handler passes, so on an unclean raw path it is not what the client receives: `/files/a/..` is sent to `/files/`. `RedirectIsFollowedByListing` is about the target as passed.
- Tail, Sanitized, SanitizePath and Handle require a `/` in the URL path. They stand in for the panic of `strings.Split(path, "/")[2:]` (main.go:72) on a path with fewer than two pieces. The `/files/` route guarantees a `/` at the only call site.
- Windows path rules (volumes, `\` separators) are not modelled, only Unix `filepath` semantics.
- Concurrent requests are not modelled. The handler shares no mutable state.
- PathResolver.SanitizePath: its second postcondition covers a non-empty root only. For an empty root, `SanitizedIsConfined` states the weaker "empty or the relative path of the names".
