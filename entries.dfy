/**
  The display record of one directory entry (`file`, main.go:36-42), its four
  type tags (main.go:27-34), the media test `isMediaFile` (main.go:83-91) and
  the classifier `toFileList` (main.go:93-127).
 */
module EntryClassifier {

  import opened Results
  import opened Strings

  /** `FileType`: the `type` field of a listing entry. */
  datatype FileType = Folder | FolderBack | Media | File
  {
    /** The string the listing payload carries for this type. */
    function Tag(): string
    {
      match this
      case Folder => "folder"
      case FolderBack => "folder-back"
      case Media => "media"
      case File => "file"
    }
  }

  /** `file`: one row of a listing, as handed to the page. */
  datatype FileRecord = FileRecord(
    name: string,
    url: string,
    lastModified: string,
    size: string,
    kind: FileType)

  /** What `DirEntry.Info()` reports: the modification instant and the byte length. */
  datatype FileInfo = FileInfo(modTime: int, size: int)

  /** One `os.DirEntry`: its base name, whether it is a directory, and the outcome of `Info()`. */
  datatype DirEntry = DirEntry(name: string, isDir: bool, info: Result<FileInfo>)

  /**
    The library formatting the server calls but does not define, kept
    uninterpreted: `url.PathEscape`, `humanize.Time` (relative to the current
    clock), `humanize.BigBytes`, and `json.Marshal` of a listing.
   */
  datatype Formatters = Formatters(
    pathEscape: string -> string,
    humanTime: int -> string,
    bigBytes: int -> string,
    marshal: seq<FileRecord> -> Result<string>)

  /** The extensions `isMediaFile` recognises, in the order it tries them. */
  const MediaExtensions: seq<string> := [".mp4", ".mkv", ".avi"]

  /** A name is a media name when it ends with one of the extensions. */
  predicate IsMedia(name: string)
  {
    exists i :: 0 <= i < |MediaExtensions| && HasSuffix(name, MediaExtensions[i])
  }

  /** `isMediaFile`: tries the extensions in turn and stops at the first that matches. */
  method IsMediaFile(name: string) returns (media: bool)
    ensures media == IsMedia(name)
    ensures media <==> HasSuffix(name, ".mp4") || HasSuffix(name, ".mkv") || HasSuffix(name, ".avi")
  {
    IsMediaIffSuffix(name);
    for i := 0 to |MediaExtensions|
      invariant forall j :: 0 <= j < i ==> !HasSuffix(name, MediaExtensions[j])
    {
      if HasSuffix(name, MediaExtensions[i]) {
        return true;
      }
    }
    return false;
  }

  /** The media test is exactly a suffix test against the three extensions. */
  lemma IsMediaIffSuffix(name: string)
    ensures IsMedia(name) <==> HasSuffix(name, ".mp4") || HasSuffix(name, ".mkv") || HasSuffix(name, ".avi")
  {
    if HasSuffix(name, ".mp4") {
      assert HasSuffix(name, MediaExtensions[0]);
    } else if HasSuffix(name, ".mkv") {
      assert HasSuffix(name, MediaExtensions[1]);
    } else if HasSuffix(name, ".avi") {
      assert HasSuffix(name, MediaExtensions[2]);
    }
  }

  /**
    `toFileList`: `Info()` is asked first and its failure is the result; then a
    directory becomes a folder whose name and URL both carry a trailing `/`,
    before any look at the extension; any other entry keeps its name, gets its
    escaped name as URL, and is media or a plain file by its extension.
   */
  function Classify(fmt: Formatters, entry: DirEntry): (r: Result<FileRecord>)
    ensures r.Err? <==> entry.info.Err?
    ensures r.Err? ==> r.error == entry.info.error
    ensures r.Ok? ==> r.value.kind != FolderBack
    ensures r.Ok? ==> (r.value.kind == Folder <==> entry.isDir)
    ensures r.Ok? ==> (r.value.kind == Media <==> !entry.isDir && IsMedia(entry.name))
    ensures r.Ok? && entry.isDir ==> r.value.name == entry.name + "/" && r.value.url == r.value.name
    ensures r.Ok? && !entry.isDir ==> r.value.name == entry.name && r.value.url == fmt.pathEscape(entry.name)
    ensures r.Ok? ==> r.value.lastModified == fmt.humanTime(entry.info.value.modTime)
    ensures r.Ok? ==> r.value.size == fmt.bigBytes(entry.info.value.size)
  {
    match entry.info
    case Err(e) => Err(e)
    case Ok(info) =>
      var modified, size := fmt.humanTime(info.modTime), fmt.bigBytes(info.size);
      if entry.isDir then
        var name := entry.name + "/";
        Ok(FileRecord(name, name, modified, size, Folder))
      else if IsMedia(entry.name) then
        Ok(FileRecord(entry.name, fmt.pathEscape(entry.name), modified, size, Media))
      else
        Ok(FileRecord(entry.name, fmt.pathEscape(entry.name), modified, size, File))
  }

  /** The entry name a record was made from: a folder's name less its trailing `/`. */
  function EntryName(rec: FileRecord): string
  {
    if rec.kind == Folder && |rec.name| > 0 then rec.name[..|rec.name| - 1] else rec.name
  }

  /** Classification loses no name: the entry's name can be read back from its record. */
  lemma ClassifyKeepsName(fmt: Formatters, entry: DirEntry)
    requires entry.info.Ok?
    ensures EntryName(Classify(fmt, entry).value) == entry.name
  {
    var rec := Classify(fmt, entry).value;
    if entry.isDir {
      assert rec.name[..|rec.name| - 1] == entry.name;
    }
  }

  /**
    For a base name, which never holds a separator, the record is a folder exactly
    when its displayed name ends in `/`.
   */
  lemma FolderIffTrailingSlash(fmt: Formatters, entry: DirEntry)
    requires entry.info.Ok?
    requires Slash !in entry.name
    ensures Classify(fmt, entry).value.kind == Folder <==> HasSuffix(Classify(fmt, entry).value.name, "/")
  {
    var rec := Classify(fmt, entry).value;
    if !entry.isDir && |rec.name| > 0 {
      assert rec.name[|rec.name| - 1] in entry.name;
    }
  }

  /**
    The type is decided by whether the entry is a directory and by its media
    suffix alone: neither the metadata nor the rest of the name matters.
   */
  lemma KindDependsOnDirAndSuffix(fmt: Formatters, a: DirEntry, b: DirEntry)
    requires a.info.Ok? && b.info.Ok?
    requires a.isDir == b.isDir
    requires IsMedia(a.name) == IsMedia(b.name)
    ensures Classify(fmt, a).value.kind == Classify(fmt, b).value.kind
  {
  }

  /** The four tags are distinct, so the payload's `type` field tells the types apart. */
  lemma TagsDistinct(a: FileType, b: FileType)
    requires a.Tag() == b.Tag()
    ensures a == b
  {
  }

  /** The match is case-sensitive and on the suffix only: a name that is only an extension counts. */
  lemma MediaExamples()
    ensures IsMedia(".mkv")
    ensures IsMedia("movie.mp4")
    ensures !IsMedia("movie.MKV")
    ensures !IsMedia("clip.mp4.txt")
  {
    IsMediaIffSuffix(".mkv");
    IsMediaIffSuffix("movie.mp4");
    IsMediaIffSuffix("movie.MKV");
    IsMediaIffSuffix("clip.mp4.txt");
  }

  /** A directory called `clip.mp4` is a folder: the directory test comes first. */
  lemma DirectoryBeforeExtension(fmt: Formatters, info: FileInfo)
    ensures Classify(fmt, DirEntry("clip.mp4", true, Ok(info))).value.kind == Folder
    ensures Classify(fmt, DirEntry("clip.mp4", true, Ok(info))).value.name == "clip.mp4/"
  {
  }
}
