/**
  `sanitizePath` (main.go:70-81): maps the URL path of a `/files/...` request to
  a filesystem path under the served root, by dropping the first two URL
  segments (the empty one before the leading `/` and the `files` prefix),
  discarding every segment that is exactly `..`, and joining the rest onto the
  root with `filepath.Join`.
 */
module PathResolver {

  import opened Strings
  import opened Paths

  /** The segments of `segs` that are not exactly `..`, in their order. */
  function DropParents(segs: seq<string>): (r: seq<string>)
    ensures |r| <= |segs|
    ensures ".." !in r
    ensures forall x :: x in r <==> x in segs && x != ".."
    decreases |segs|
  {
    if segs == [] then []
    else
      var last := segs[|segs| - 1];
      DropParents(segs[..|segs| - 1]) + (if last == ".." then [] else [last])
  }

  /** The URL segments the sanitizer works on: all but the first two. */
  function Tail(url: string): seq<string>
    requires Slash in url
  {
    SplitHasTwo(url);
    Split(url)[2..]
  }

  /** What `sanitizePath(root, url)` returns. */
  function Sanitized(root: string, url: string): string
    requires Slash in url
  {
    Join([root] + DropParents(Tail(url)))
  }

  /** The loop of `sanitizePath`: skip `..`, append everything else. */
  method SanitizePath(root: string, url: string) returns (path: string)
    requires Slash in url
    ensures path == Sanitized(root, url)
    ensures root != "" ==> path == Descend(Clean(root), Names(Tail(url)))
  {
    var segs := Split(url);
    SplitHasTwo(url);
    var parts: seq<string> := [];
    for i := 2 to |segs|
      invariant parts == DropParents(segs[2..i])
    {
      var p := segs[i];
      assert segs[2..i + 1][..i - 2] == segs[2..i];
      if p == ".." {
        continue;
      }
      parts := parts + [p];
    }
    assert segs[2..|segs|] == Tail(url);
    path := Join([root] + parts);
    SanitizedIsConfined(root, url);
  }

  /** Only segments exactly equal to `..` go: the others stay, in their order. */
  lemma {:induction false} DropParentsConcat(a: seq<string>, b: seq<string>)
    ensures DropParents(a + b) == DropParents(a) + DropParents(b)
    decreases |b|
  {
    if b == [] {
      assert a + b == a;
    } else {
      var init := b[..|b| - 1];
      assert (a + b)[..|a + b| - 1] == a + init;
      assert (a + b)[|a + b| - 1] == b[|b| - 1];
      DropParentsConcat(a, init);
    }
  }

  /** A single segment survives exactly when it is not `..`: `...` and `a..b` are kept. */
  lemma DropParentsOne(seg: string)
    ensures DropParents([seg]) == if seg == ".." then [] else [seg]
  {
    assert [seg][..0] == [];
  }

  /** Without any `..` nothing changes. */
  lemma {:induction false} DropParentsIdentity(segs: seq<string>)
    requires ".." !in segs
    ensures DropParents(segs) == segs
    decreases |segs|
  {
    if segs != [] {
      var init := segs[..|segs| - 1];
      assert ".." !in init by {
        forall k | 0 <= k < |init| ensures init[k] != ".." {
          assert init[k] == segs[k];
        }
      }
      DropParentsIdentity(init);
      assert segs == init + [segs[|segs| - 1]];
    }
  }

  /** Dropping `..` first does not change which child names remain. */
  lemma {:induction false} NamesOfDropParents(segs: seq<string>)
    ensures Names(DropParents(segs)) == Names(segs)
    decreases |segs|
  {
    if segs != [] {
      var init, last := segs[..|segs| - 1], segs[|segs| - 1];
      NamesOfDropParents(init);
      NamesConcat(DropParents(init), if last == ".." then [] else [last]);
      if last != ".." {
        assert [last][..0] == [];
      } else {
        assert DropParents(init) + [] == DropParents(init);
      }
    }
  }

  /**
    Confinement: the sanitised path is the cleaned root followed by child names
    taken from the URL, in their order, each one level down, none of them `..`,
    `.`, empty or holding a separator. Whatever the URL, the result never climbs
    above the root. (With an empty root and no names at all, `filepath.Join`
    returns the empty string.)
   */
  lemma SanitizedIsConfined(root: string, url: string)
    requires Slash in url
    ensures root != "" ==> Sanitized(root, url) == Descend(Clean(root), Names(Tail(url)))
    ensures root == "" ==> Sanitized(root, url) in {"", Descend(Clean(root), Names(Tail(url)))}
    ensures forall i :: 0 <= i < |Names(Tail(url))| ==> ChildName(Names(Tail(url))[i])
  {
    var parts := DropParents(Tail(url));
    var segs := Split(url);
    SplitHasTwo(url);
    SplitPieces(url);
    assert forall i :: 0 <= i < |Tail(url)| ==> Slash !in Tail(url)[i] by {
      forall i | 0 <= i < |Tail(url)| ensures Slash !in Tail(url)[i] {
        assert Tail(url)[i] == segs[i + 2];
      }
    }
    assert forall i :: 0 <= i < |parts| ==> Slash !in parts[i] by {
      forall i | 0 <= i < |parts| ensures Slash !in parts[i] {
        assert parts[i] in Tail(url);
      }
    }
    NamesOfDropParents(Tail(url));
    if root != "" {
      JoinBelow(root, parts);
    } else {
      assert Join([root] + parts) == Join(parts) by {
        assert ([root] + parts)[1..] == parts;
      }
      JoinBelowEmpty(parts);
    }
    forall i | 0 <= i < |Names(Tail(url))| ensures ChildName(Names(Tail(url))[i]) {
      assert Names(Tail(url))[i] in Tail(url);
    }
  }

  /**
    A trailing separator on the URL does not change the sanitised path: it only
    adds an empty segment, which `filepath.Join` drops.
   */
  lemma TrailingSlashIgnored(root: string, url: string)
    requires Slash in url
    ensures Slash in url + [Slash]
    ensures Sanitized(root, url + [Slash]) == Sanitized(root, url)
  {
    TailAppendSlash(url);
    DropParentsConcat(Tail(url), [""]);
    DropParentsOne("");
    var parts := DropParents(Tail(url));
    JoinTrailingEmpty([root] + parts);
    assert [root] + (parts + [""]) == [root] + parts + [""];
  }

  /** A trailing separator adds one empty segment to the URL's tail. */
  lemma TailAppendSlash(url: string)
    requires Slash in url
    ensures Slash in url + [Slash]
    ensures Tail(url + [Slash]) == Tail(url) + [""]
  {
    var url' := url + [Slash];
    assert url'[|url|] == Slash;
    assert url' == url + [Slash] + "";
    SplitConcat(url, "");
    SplitHasTwo(url);
    assert Split(url') == Split(url) + [""];
  }
}
