/**
  Lexical path handling of Go's `path/filepath` on a POSIX system, where `/` is
  the only separator: `Clean` and `Join`. Nothing here looks at a filesystem,
  so symbolic links are not resolved, exactly as in Go.
 */
module Paths {

  import opened Strings

  /** A rooted (absolute) path starts with the separator. */
  predicate IsAbs(p: string)
  {
    |p| > 0 && p[0] == Slash
  }

  /** The segments a clean path never holds: empty ones, `.`, and `..`. */
  predicate Skipped(seg: string)
  {
    seg == "" || seg == "." || seg == ".."
  }

  /** A segment that may survive cleaning: anything but an empty one or `.`. */
  predicate CleanSegment(seg: string)
  {
    seg != "" && seg != "." && Slash !in seg
  }

  /** A child name: one directory level strictly downwards. */
  predicate ChildName(seg: string)
  {
    !Skipped(seg) && Slash !in seg
  }

  /**
    One step of `filepath.Clean`'s left-to-right scan over the segments, with
    the segments kept so far as a stack: empty segments and `.` vanish, `..`
    removes the segment before it unless that is itself `..`, a `..` at the
    start of a rooted path vanishes, and one at the start of a relative path
    is kept.
   */
  function Step(rooted: bool, stack: seq<string>, seg: string): seq<string>
  {
    if seg == "" || seg == "." then stack
    else if seg == ".." then
      if |stack| > 0 && stack[|stack| - 1] != ".." then stack[..|stack| - 1]
      else if rooted then stack
      else stack + [".."]
    else stack + [seg]
  }

  /** The whole scan. */
  function Resolve(rooted: bool, stack: seq<string>, segs: seq<string>): seq<string>
    decreases |segs|
  {
    if segs == [] then stack else Resolve(rooted, Step(rooted, stack, segs[0]), segs[1..])
  }

  /** Writes cleaned segments back as a path: `/` for the empty rooted path, `.` for the empty relative one. */
  function Render(rooted: bool, segs: seq<string>): string
  {
    if rooted then [Slash] + JoinWith(segs)
    else if segs == [] then "."
    else JoinWith(segs)
  }

  /** `filepath.Clean`: the shortest lexically equivalent path. */
  function Clean(p: string): string
  {
    Render(IsAbs(p), Resolve(IsAbs(p), [], Split(p)))
  }

  /**
    `filepath.Join`: empty elements before the first non-empty one are skipped,
    the rest are joined with the separator and the result is cleaned; when every
    element is empty the result is the empty string.
   */
  function Join(elems: seq<string>): string
    decreases |elems|
  {
    if elems == [] then ""
    else if elems[0] == "" then Join(elems[1..])
    else Clean(JoinWith(elems))
  }

  /** The child names among `segs`, in their order: empty segments, `.` and `..` dropped. */
  function Names(segs: seq<string>): (r: seq<string>)
    ensures forall i :: 0 <= i < |r| ==> !Skipped(r[i])
    ensures forall x :: x in r <==> x in segs && !Skipped(x)
    decreases |segs|
  {
    if segs == [] then []
    else
      var last := segs[|segs| - 1];
      Names(segs[..|segs| - 1]) + (if Skipped(last) then [] else [last])
  }

  /**
    A cleaned `base` followed by `names`, one level per name: how a path below
    `base` reads. `base` itself is the case of no names.
   */
  function Descend(base: string, names: seq<string>): string
  {
    if names == [] then base
    else if base == "." then JoinWith(names)
    else if base == [Slash] then [Slash] + JoinWith(names)
    else base + [Slash] + JoinWith(names)
  }

  /** Scanning a concatenation is scanning its second part from where the first part left off. */
  lemma {:induction false} ResolveAppend(rooted: bool, stack: seq<string>, a: seq<string>, b: seq<string>)
    ensures Resolve(rooted, stack, a + b) == Resolve(rooted, Resolve(rooted, stack, a), b)
    decreases |a|
  {
    if a != [] {
      assert (a + b)[0] == a[0];
      assert (a + b)[1..] == a[1..] + b;
      ResolveAppend(rooted, Step(rooted, stack, a[0]), a[1..], b);
    } else {
      assert a + b == b;
    }
  }

  /** Without any `..`, the scan simply appends the child names. */
  lemma {:induction false} ResolveWithoutParents(rooted: bool, stack: seq<string>, segs: seq<string>)
    requires ".." !in segs
    ensures Resolve(rooted, stack, segs) == stack + Names(segs)
    decreases |segs|
  {
    if segs != [] {
      var init, last := segs[..|segs| - 1], segs[|segs| - 1];
      assert segs == init + [last];
      assert ".." !in init by {
        forall k | 0 <= k < |init| ensures init[k] != ".." {
          assert init[k] == segs[k];
        }
      }
      ResolveWithoutParents(rooted, stack, init);
      ResolveAppend(rooted, stack, init, [last]);
      assert Resolve(rooted, stack + Names(init), [last])
          == Step(rooted, stack + Names(init), last);
    }
  }

  /** The scan only ever keeps clean segments. */
  lemma {:induction false} ResolveIsClean(rooted: bool, stack: seq<string>, segs: seq<string>)
    requires forall i :: 0 <= i < |stack| ==> CleanSegment(stack[i])
    requires forall i :: 0 <= i < |segs| ==> Slash !in segs[i]
    ensures forall i :: 0 <= i < |Resolve(rooted, stack, segs)| ==> CleanSegment(Resolve(rooted, stack, segs)[i])
    decreases |segs|
  {
    if segs != [] {
      var next := Step(rooted, stack, segs[0]);
      assert forall i :: 0 <= i < |next| ==> CleanSegment(next[i]);
      assert forall i :: 0 <= i < |segs[1..]| ==> Slash !in segs[1..][i] by {
        forall i | 0 <= i < |segs[1..]| ensures Slash !in segs[1..][i] {
          assert segs[1..][i] == segs[i + 1];
        }
      }
      ResolveIsClean(rooted, next, segs[1..]);
    }
  }

  /** Joining clean segments never yields the empty string, `.` or `/`. */
  lemma JoinCleanSegments(segs: seq<string>)
    requires segs != []
    requires forall i :: 0 <= i < |segs| ==> CleanSegment(segs[i])
    ensures JoinWith(segs) != "" && JoinWith(segs) != "." && JoinWith(segs) != [Slash]
  {
    if |segs| > 1 {
      var j := JoinWith(segs);
      assert j == segs[0] + [Slash] + JoinWith(segs[1..]);
      assert |j| >= 2;
    }
  }

  /** Rendering clean segments followed by child names is descending from the rendered segments. */
  lemma RenderDescend(rooted: bool, segs: seq<string>, names: seq<string>)
    requires forall i :: 0 <= i < |segs| ==> CleanSegment(segs[i])
    ensures Render(rooted, segs + names) == Descend(Render(rooted, segs), names)
  {
    if names == [] {
      assert segs + names == segs;
    } else if segs == [] {
      assert segs + names == names;
    } else {
      RenderDescendBoth(rooted, segs, names);
    }
  }

  /** `RenderDescend` when both parts are non-empty. */
  lemma RenderDescendBoth(rooted: bool, segs: seq<string>, names: seq<string>)
    requires segs != [] && names != []
    requires forall i :: 0 <= i < |segs| ==> CleanSegment(segs[i])
    ensures Render(rooted, segs + names) == Descend(Render(rooted, segs), names)
  {
    var js, jn := JoinWith(segs), JoinWith(names);
    JoinWithConcat(segs, names);
    JoinCleanSegments(segs);
    var base := Render(rooted, segs);
    if rooted {
      assert base == [Slash] + js;
      assert |base| >= 2;
      assert base != "." && base != [Slash];
      assert Render(rooted, segs + names) == [Slash] + (js + [Slash] + jn);
      assert Descend(base, names) == base + [Slash] + jn;
    } else {
      assert base == js;
      assert Render(rooted, segs + names) == js + [Slash] + jn;
    }
  }

  /** The cleaned segments of a path are clean. */
  lemma CleanedSegments(p: string)
    ensures forall i :: 0 <= i < |Resolve(IsAbs(p), [], Split(p))| ==> CleanSegment(Resolve(IsAbs(p), [], Split(p))[i])
  {
    SplitPieces(p);
    ResolveIsClean(IsAbs(p), [], Split(p));
  }

  /**
    Joining any path `base` with elements that hold no `..` and no separator
    lands on the cleaned `base` followed by the child names among the elements,
    in order: lexically at or below `base`.
   */
  lemma {:induction false} JoinBelow(base: string, elems: seq<string>)
    requires base != ""
    requires forall i :: 0 <= i < |elems| ==> Slash !in elems[i]
    requires ".." !in elems
    ensures Join([base] + elems) == Descend(Clean(base), Names(elems))
  {
    var rooted := IsAbs(base);
    var joined := JoinWith([base] + elems);
    if elems == [] {
      assert joined == base;
      ResolveAppend(rooted, [], Split(base), []);
      assert Split(base) + [] == Split(base);
    } else {
      assert ([base] + elems)[1..] == elems;
      assert joined == base + [Slash] + JoinWith(elems);
      SplitConcat(base, JoinWith(elems));
      SplitJoin(elems);
      assert Split(joined) == Split(base) + elems;
      assert joined[0] == base[0];
      assert IsAbs(joined) == rooted;
      ResolveAppend(rooted, [], Split(base), elems);
    }
    var top := Resolve(rooted, [], Split(base));
    ResolveWithoutParents(rooted, top, elems);
    CleanedSegments(base);
    RenderDescend(rooted, top, Names(elems));
  }

  /** `filepath.Clean("")` is `.`. */
  lemma CleanEmpty()
    ensures Clean("") == "."
  {
    assert Split("") == [""];
    assert Resolve(false, [], [""]) == Resolve(false, [], []);
  }

  /** A leading empty element contributes no child name. */
  lemma NamesDropEmpty(elems: seq<string>)
    requires elems != [] && elems[0] == ""
    ensures Names(elems) == Names(elems[1..])
  {
    assert elems == [""] + elems[1..];
    NamesConcat([""], elems[1..]);
    assert Names([""]) == [] by {
      assert [""][..0] == [];
    }
  }

  /** Joining elements that start with a non-empty one cleans to the child names below `.`. */
  lemma JoinRelative(elems: seq<string>)
    requires elems != [] && elems[0] != ""
    requires forall i :: 0 <= i < |elems| ==> Slash !in elems[i]
    requires ".." !in elems
    ensures Join(elems) == Descend(".", Names(elems))
  {
    SplitJoin(elems);
    ResolveWithoutParents(false, [], elems);
    assert !IsAbs(JoinWith(elems)) by {
      if |elems| > 1 {
        assert JoinWith(elems) == elems[0] + [Slash] + JoinWith(elems[1..]);
      }
    }
    RenderDescend(false, [], Names(elems));
    assert [] + Names(elems) == Names(elems);
  }

  /** With an empty `base`, `Join` gives either the empty string or the child names below `.`. */
  lemma {:induction false} JoinBelowEmpty(elems: seq<string>)
    requires forall i :: 0 <= i < |elems| ==> Slash !in elems[i]
    requires ".." !in elems
    ensures Join(elems) == "" || Join(elems) == Descend(Clean(""), Names(elems))
    decreases |elems|
  {
    CleanEmpty();
    if elems == [] {
    } else if elems[0] == "" {
      NamesDropEmpty(elems);
      assert forall i :: 0 <= i < |elems[1..]| ==> Slash !in elems[1..][i] by {
        forall i | 0 <= i < |elems[1..]| ensures Slash !in elems[1..][i] {
          assert elems[1..][i] == elems[i + 1];
        }
      }
      JoinBelowEmpty(elems[1..]);
    } else {
      JoinRelative(elems);
    }
  }

  /** The child names of a concatenation are the child names of each part, in order. */
  lemma {:induction false} NamesConcat(a: seq<string>, b: seq<string>)
    ensures Names(a + b) == Names(a) + Names(b)
    decreases |b|
  {
    if b == [] {
      assert a + b == a;
    } else {
      var init := b[..|b| - 1];
      assert (a + b)[..|a + b| - 1] == a + init;
      assert (a + b)[|a + b| - 1] == b[|b| - 1];
      NamesConcat(a, init);
    }
  }

  /** A trailing empty element does not change `filepath.Join`. */
  lemma {:induction false} JoinTrailingEmpty(elems: seq<string>)
    ensures Join(elems + [""]) == Join(elems)
    decreases |elems|
  {
    if elems == [] {
      assert [] + [""] == [""];
      assert Join([""]) == Join([]);
    } else if elems[0] == "" {
      assert (elems + [""])[1..] == elems[1..] + [""];
      JoinTrailingEmpty(elems[1..]);
    } else {
      var j := JoinWith(elems);
      JoinWithConcat(elems, [""]);
      assert JoinWith(elems + [""]) == j + [Slash] + "";
      SplitConcat(j, "");
      assert Split(j + [Slash]) == Split(j) + [""] by {
        assert j + [Slash] == j + [Slash] + "";
      }
      assert IsAbs(j + [Slash]) == IsAbs(j) by {
        if |j| == 0 {
        } else {
          assert (j + [Slash])[0] == j[0];
        }
      }
      ResolveAppend(IsAbs(j), [], Split(j), [""]);
    }
  }
}
