/**
  `listDirContents` (main.go:129-146): reads a directory and classifies its
  entries one by one, in the order `os.ReadDir` yields them; the first failure,
  of the read or of any entry's metadata, is the result and no partial list is
  returned.
 */
module DirectoryLister {

  import opened Results
  import opened EntryClassifier

  /**
    The classification of a whole directory: every record in entry order, or
    else the error of the first entry whose metadata could not be read.
   */
  function ClassifyAll(fmt: Formatters, entries: seq<DirEntry>): (r: Result<seq<FileRecord>>)
    ensures r.Ok? <==> forall i :: 0 <= i < |entries| ==> entries[i].info.Ok?
    ensures r.Ok? ==> |r.value| == |entries|
    ensures r.Ok? ==> forall i :: 0 <= i < |entries| ==> r.value[i] == Classify(fmt, entries[i]).value
    ensures r.Err? ==> exists k :: 0 <= k < |entries| && entries[k].info.Err? && r.error == entries[k].info.error
                                   && forall j :: 0 <= j < k ==> entries[j].info.Ok?
    decreases |entries|
  {
    if entries == [] then Ok([])
    else
      var init, last := entries[..|entries| - 1], entries[|entries| - 1];
      match ClassifyAll(fmt, init)
      case Err(e) => Err(e)
      case Ok(records) =>
        match Classify(fmt, last)
        case Err(e) => Err(e)
        case Ok(rec) => Ok(records + [rec])
  }

  /** What `listDirContents` returns for the outcome of `os.ReadDir`. */
  function Listing(fmt: Formatters, read: Result<seq<DirEntry>>): Result<seq<FileRecord>>
  {
    match read
    case Err(e) => Err(e)
    case Ok(entries) => ClassifyAll(fmt, entries)
  }

  /** `listDirContents`: the loop with its early return on the first error. */
  method ListDirContents(fmt: Formatters, read: Result<seq<DirEntry>>) returns (r: Result<seq<FileRecord>>)
    ensures r == Listing(fmt, read)
    ensures read.Err? ==> r == Err(read.error)
    ensures r.Ok? ==> read.Ok? && |r.value| == |read.value|
  {
    if read.Err? {
      return Err(read.error);
    }
    var entries := read.value;
    var files: seq<FileRecord> := [];
    for i := 0 to |entries|
      invariant ClassifyAll(fmt, entries[..i]) == Ok(files)
    {
      assert entries[..i + 1][..i] == entries[..i];
      var f := Classify(fmt, entries[i]);
      if f.Err? {
        assert ClassifyAll(fmt, entries[..i + 1]) == Err(f.error);
        ClassifyAllAbortsAtFirstError(fmt, entries, i + 1);
        return Err(f.error);
      }
      files := files + [f.value];
    }
    assert entries[..|entries|] == entries;
    return Ok(files);
  }

  /** Once a prefix of the entries has failed, the whole directory fails with the same error. */
  lemma {:induction false} ClassifyAllAbortsAtFirstError(fmt: Formatters, entries: seq<DirEntry>, n: nat)
    requires n <= |entries|
    requires ClassifyAll(fmt, entries[..n]).Err?
    ensures ClassifyAll(fmt, entries) == ClassifyAll(fmt, entries[..n])
    decreases |entries| - n
  {
    if n < |entries| {
      assert entries[..n + 1][..n] == entries[..n];
      ClassifyAllAbortsAtFirstError(fmt, entries, n + 1);
    } else {
      assert entries[..n] == entries;
    }
  }

  /** No record of a real entry is the synthetic parent entry's type. */
  lemma ListingHasNoParentEntry(fmt: Formatters, read: Result<seq<DirEntry>>)
    requires Listing(fmt, read).Ok?
    ensures forall i :: 0 <= i < |Listing(fmt, read).value| ==> Listing(fmt, read).value[i].kind != FolderBack
  {
  }

  /** A directory listing is the concatenation of the listings of any split of its entries. */
  lemma {:induction false} ClassifyAllConcat(fmt: Formatters, a: seq<DirEntry>, b: seq<DirEntry>)
    requires ClassifyAll(fmt, a + b).Ok?
    ensures ClassifyAll(fmt, a).Ok? && ClassifyAll(fmt, b).Ok?
    ensures ClassifyAll(fmt, a + b).value == ClassifyAll(fmt, a).value + ClassifyAll(fmt, b).value
  {
    var ab := a + b;
    assert forall i :: 0 <= i < |a| ==> a[i] == ab[i];
    assert forall i :: 0 <= i < |b| ==> b[i] == ab[|a| + i];
    var l, la, lb := ClassifyAll(fmt, ab).value, ClassifyAll(fmt, a).value, ClassifyAll(fmt, b).value;
    assert forall i :: 0 <= i < |ab| ==> l[i] == (la + lb)[i] by {
      forall i | 0 <= i < |ab| ensures l[i] == (la + lb)[i] {
        if i < |a| {
          assert l[i] == la[i];
        } else {
          assert ab[i] == b[i - |a|];
          assert l[i] == lb[i - |a|];
        }
      }
    }
  }
}
