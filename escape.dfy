/**
  The escaping of the serialised listing before it is inlined into the page
  (main.go:195): `strings.ReplaceAll(data, "\"", "\\\"")`, every double quote
  preceded by a backslash.
 */
module Escaping {

  const Quote: char := '"'
  const Backslash: char := '\\'

  /** The number of double quotes in `s`. */
  function Quotes(s: string): nat
    decreases |s|
  {
    if s == [] then 0 else (if s[0] == Quote then 1 else 0) + Quotes(s[1..])
  }

  /** Every double quote of `s` comes right after a backslash. */
  predicate QuotesEscaped(s: string)
  {
    forall i :: 0 <= i < |s| && s[i] == Quote ==> 0 < i && s[i - 1] == Backslash
  }

  /** `strings.ReplaceAll(s, "\"", "\\\"")`, scanning left to right. */
  function EscapeQuotes(s: string): (r: string)
    ensures |r| == |s| + Quotes(s)
    ensures QuotesEscaped(r)
    ensures r == [] || r[0] != Quote
    decreases |s|
  {
    if s == [] then []
    else if s[0] == Quote then [Backslash, Quote] + EscapeQuotes(s[1..])
    else [s[0]] + EscapeQuotes(s[1..])
  }

  /** The inverse replacement: each `\"` becomes `"`, scanning left to right. */
  function UnescapeQuotes(s: string): string
    decreases |s|
  {
    if s == [] then []
    else if |s| >= 2 && s[0] == Backslash && s[1] == Quote then [Quote] + UnescapeQuotes(s[2..])
    else [s[0]] + UnescapeQuotes(s[1..])
  }

  /** Escaping loses nothing: the payload can be read back exactly, backslashes included. */
  lemma {:induction false} UnescapeEscape(s: string)
    ensures UnescapeQuotes(EscapeQuotes(s)) == s
    decreases |s|
  {
    if s != [] {
      var rest := EscapeQuotes(s[1..]);
      UnescapeEscape(s[1..]);
      if s[0] == Quote {
        assert ([Backslash, Quote] + rest)[2..] == rest;
      } else {
        var e := [s[0]] + rest;
        assert e[1..] == rest;
        assert !(|e| >= 2 && e[0] == Backslash && e[1] == Quote);
      }
      assert s == [s[0]] + s[1..];
    }
  }

  /** Text without double quotes is left as it is. */
  lemma {:induction false} EscapeWithoutQuotes(s: string)
    requires Quote !in s
    ensures EscapeQuotes(s) == s
    decreases |s|
  {
    if s != [] {
      assert Quote !in s[1..] by {
        forall k | 0 <= k < |s[1..]| ensures s[1..][k] != Quote {
          assert s[1..][k] == s[k + 1];
        }
      }
      EscapeWithoutQuotes(s[1..]);
      assert s == [s[0]] + s[1..];
    }
  }
}
