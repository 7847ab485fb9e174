/**
  The pieces of Go's `strings` package the server relies on, over `seq<char>`:
  `HasSuffix`, `Split` on the separator `/` and its inverse `Join`.
 */
module Strings {

  const Slash: char := '/'

  /** `strings.HasSuffix(s, suffix)`: a case-sensitive suffix test. */
  predicate HasSuffix(s: string, suffix: string)
  {
    |suffix| <= |s| && s[|s| - |suffix|..] == suffix
  }

  /**
    `strings.Split(s, "/")`: the pieces between the separators, so there is one
    more piece than there are separators, and the empty string gives `[""]`.
   */
  function Split(s: string): (r: seq<string>)
    ensures |r| >= 1
    decreases |s|
  {
    if s == [] then [""]
    else if s[0] == Slash then [""] + Split(s[1..])
    else
      var rest := Split(s[1..]);
      [[s[0]] + rest[0]] + rest[1..]
  }

  /** No piece holds a separator. */
  lemma {:induction false} SplitPieces(s: string)
    ensures forall i :: 0 <= i < |Split(s)| ==> Slash !in Split(s)[i]
    decreases |s|
  {
    if s != [] {
      SplitPieces(s[1..]);
      var rest := Split(s[1..]);
      if s[0] != Slash {
        assert Slash !in [s[0]] + rest[0];
      }
    }
  }

  /** `strings.Join(segs, "/")`. */
  function JoinWith(segs: seq<string>): string
    decreases |segs|
  {
    if segs == [] then ""
    else if |segs| == 1 then segs[0]
    else segs[0] + [Slash] + JoinWith(segs[1..])
  }

  /** Splitting undoes joining, as long as no piece contains a separator. */
  lemma {:induction false} SplitJoin(segs: seq<string>)
    requires |segs| >= 1
    requires forall i :: 0 <= i < |segs| ==> Slash !in segs[i]
    ensures Split(JoinWith(segs)) == segs
    decreases |segs|
  {
    if |segs| == 1 {
      SplitPlain(segs[0]);
    } else {
      SplitJoin(segs[1..]);
      SplitConcat(segs[0], JoinWith(segs[1..]));
      SplitPlain(segs[0]);
      assert segs == [segs[0]] + segs[1..];
    }
  }

  /** Joining undoes splitting. */
  lemma {:induction false} JoinSplit(s: string)
    ensures JoinWith(Split(s)) == s
    decreases |s|
  {
    if s != [] {
      JoinSplit(s[1..]);
      assert s == [s[0]] + s[1..];
      if s[0] == Slash {
        JoinSplitSlash(s[1..]);
      } else {
        JoinSplitChar(s[0], s[1..]);
      }
    }
  }

  /** `JoinSplit` across a leading separator. */
  lemma JoinSplitSlash(t: string)
    requires JoinWith(Split(t)) == t
    ensures JoinWith(Split([Slash] + t)) == [Slash] + t
  {
    SplitLeadingSlash(t);
    var pieces := Split(t);
    assert ([""] + pieces)[1..] == pieces;
  }

  /** `JoinSplit` across a leading ordinary character. */
  lemma JoinSplitChar(c: char, t: string)
    requires c != Slash
    requires JoinWith(Split(t)) == t
    ensures JoinWith(Split([c] + t)) == [c] + t
  {
    SplitLeadingChar(c, t);
    JoinGrowFirst(c, Split(t));
  }

  /** Growing the first piece puts the character in front of the joined string. */
  lemma JoinGrowFirst(c: char, pieces: seq<string>)
    requires |pieces| >= 1
    ensures JoinWith([[c] + pieces[0]] + pieces[1..]) == [c] + JoinWith(pieces)
  {
    var grown := [[c] + pieces[0]] + pieces[1..];
    if |pieces| > 1 {
      assert grown[1..] == pieces[1..];
    }
  }

  /** A string without a separator is a single piece. */
  lemma {:induction false} SplitPlain(s: string)
    requires Slash !in s
    ensures Split(s) == [s]
    decreases |s|
  {
    if s != [] {
      assert Slash !in s[1..] by {
        forall k | 0 <= k < |s[1..]| ensures s[1..][k] != Slash {
          assert s[1..][k] == s[k + 1];
        }
      }
      SplitPlain(s[1..]);
      assert s == [s[0]] + s[1..];
    }
  }

  /** A leading separator puts an empty piece first. */
  lemma SplitLeadingSlash(s: string)
    ensures Split([Slash] + s) == [""] + Split(s)
  {
    assert ([Slash] + s)[1..] == s;
  }

  /** A leading ordinary character joins the first piece. */
  lemma SplitLeadingChar(c: char, s: string)
    requires c != Slash
    ensures Split([c] + s) == [[c] + Split(s)[0]] + Split(s)[1..]
  {
    assert ([c] + s)[1..] == s;
  }

  /** Splitting distributes over a separator: the pieces of both sides, in order. */
  lemma {:induction false} SplitConcat(a: string, b: string)
    ensures Split(a + [Slash] + b) == Split(a) + Split(b)
    decreases |a|
  {
    if a == [] {
      assert a + [Slash] + b == [Slash] + b;
      SplitLeadingSlash(b);
    } else {
      var c, a' := a[0], a[1..];
      assert a == [c] + a';
      assert a + [Slash] + b == [c] + (a' + [Slash] + b);
      SplitConcat(a', b);
      SplitConsStep(c, a', a' + [Slash] + b, Split(b));
    }
  }

  /**
    One step of `SplitConcat`: when the pieces of `t` are those of `s` followed
    by `tail`, the same holds after putting one character in front of both.
   */
  lemma SplitConsStep(c: char, s: string, t: string, tail: seq<string>)
    requires Split(t) == Split(s) + tail
    ensures Split([c] + t) == Split([c] + s) + tail
  {
    if c == Slash {
      SplitConsSlash(s, t, tail);
    } else {
      SplitConsChar(c, s, t, tail);
    }
  }

  /** `SplitConsStep` for a separator, which adds an empty first piece. */
  lemma SplitConsSlash(s: string, t: string, tail: seq<string>)
    requires Split(t) == Split(s) + tail
    ensures Split([Slash] + t) == Split([Slash] + s) + tail
  {
    SplitLeadingSlash(s);
    SplitLeadingSlash(t);
  }

  /** `SplitConsStep` for an ordinary character, which grows the first piece. */
  lemma SplitConsChar(c: char, s: string, t: string, tail: seq<string>)
    requires c != Slash
    requires Split(t) == Split(s) + tail
    ensures Split([c] + t) == Split([c] + s) + tail
  {
    SplitLeadingChar(c, s);
    SplitLeadingChar(c, t);
    ExtendFirstPiece(c, Split(s), tail);
  }

  /** Growing the first piece commutes with appending further pieces. */
  lemma ExtendFirstPiece(c: char, pieces: seq<string>, tail: seq<string>)
    requires |pieces| >= 1
    ensures [[c] + (pieces + tail)[0]] + (pieces + tail)[1..] == [[c] + pieces[0]] + pieces[1..] + tail
  {
    assert (pieces + tail)[1..] == pieces[1..] + tail;
  }

  /** A string with a separator splits into at least two pieces. */
  lemma {:induction false} SplitHasTwo(s: string)
    requires Slash in s
    ensures |Split(s)| >= 2
    decreases |s|
  {
    if s[0] != Slash {
      assert Slash in s[1..] by {
        var k :| 0 <= k < |s| && s[k] == Slash;
        assert s[1..][k - 1] == Slash;
      }
      SplitHasTwo(s[1..]);
    }
  }

  /** Joining two non-empty lists of pieces puts one separator between them. */
  lemma {:induction false} JoinWithConcat(a: seq<string>, b: seq<string>)
    requires a != [] && b != []
    ensures JoinWith(a + b) == JoinWith(a) + [Slash] + JoinWith(b)
    decreases |a|
  {
    if |a| == 1 {
      assert (a + b)[1..] == b;
    } else {
      assert (a + b)[1..] == a[1..] + b;
      JoinWithConcat(a[1..], b);
    }
  }
}
