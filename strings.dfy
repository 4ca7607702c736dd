/** Kotlin's `String.trim()`: the characters it strips and what is left of
    a text once they are stripped from both ends. */
module Strings {
  /** The characters `trim()` strips: Unicode white space and the ASCII
      separators U+001C..U+001F. */
  const Whitespace: set<char> :=
    {'\U{9}', '\U{A}', '\U{B}', '\U{C}', '\U{D}', '\U{1C}', '\U{1D}', '\U{1E}', '\U{1F}', ' ',
     '\U{A0}', '\U{1680}', '\U{2000}', '\U{2001}', '\U{2002}', '\U{2003}', '\U{2004}', '\U{2005}',
     '\U{2006}', '\U{2007}', '\U{2008}', '\U{2009}', '\U{200A}', '\U{2028}', '\U{2029}', '\U{202F}',
     '\U{205F}', '\U{3000}'}

  /** `t` is what is left of `s` once its leading characters in `ws` are
      dropped: a suffix, everything before it in `ws`, not starting with a
      character of `ws`. */
  predicate FrontTrimmed(s: string, t: string, ws: set<char>) {
    |t| <= |s| && t == s[|s| - |t|..] && (forall i :: 0 <= i < |s| - |t| ==> s[i] in ws)
    && (|t| > 0 ==> t[0] !in ws)
  }

  /** `r` is what is left of `t` once its trailing characters in `ws` are
      dropped. */
  predicate BackTrimmed(t: string, r: string, ws: set<char>) {
    |r| <= |t| && r == t[..|r|] && (forall i :: |r| <= i < |t| ==> t[i] in ws)
    && (|r| > 0 ==> r[|r| - 1] !in ws)
  }

  /** Drops the leading characters that are in `ws`. */
  function TrimStart(s: string, ws: set<char>): (r: string)
    ensures FrontTrimmed(s, r, ws)
  {
    if |s| > 0 && s[0] in ws then TrimStart(s[1..], ws) else s
  }

  /** Drops the trailing characters that are in `ws`. */
  function TrimEnd(s: string, ws: set<char>): (r: string)
    ensures BackTrimmed(s, r, ws)
  {
    if |s| > 0 && s[|s| - 1] in ws then TrimEnd(s[..|s| - 1], ws) else s
  }

  /** `trim()`: the slice of the text after its leading white space,
      without white space at either end, empty exactly when the text is all
      white space. */
  function Trim(s: string): (r: string)
    ensures TrimmedSliceAt(r, s, |s| - |TrimStart(s, Whitespace)|, Whitespace)
  {
    var t := TrimStart(s, Whitespace);
    var r := TrimEnd(t, Whitespace);
    TrimBothEnds(s, t, r, Whitespace);
    r
  }

  /** `r` is the slice of `s` at offset `k`, it neither starts nor ends with
      a character of `ws`, everything cut off around it is in `ws`, and it
      is empty exactly when all of `s` is. */
  predicate TrimmedSliceAt(r: string, s: string, k: int, ws: set<char>) {
    0 <= k && k + |r| <= |s| && r == s[k..k + |r|]
    && (forall i :: 0 <= i < k ==> s[i] in ws) && (forall i :: k + |r| <= i < |s| ==> s[i] in ws)
    && (|r| > 0 ==> r[0] !in ws && r[|r| - 1] !in ws)
    && (|r| == 0 <==> forall i :: 0 <= i < |s| ==> s[i] in ws)
  }

  /** Trimming the front and then the back of the rest trims both ends. */
  lemma TrimBothEnds(s: string, t: string, r: string, ws: set<char>)
    requires FrontTrimmed(s, t, ws) && BackTrimmed(t, r, ws)
    ensures TrimmedSliceAt(r, s, |s| - |t|, ws)
  {
    var k := |s| - |t|;
    assert r == s[k..k + |r|];
    forall i | k + |r| <= i < |s|
      ensures s[i] in ws
    {
      assert s[i] == t[i - k];
    }
    if |r| > 0 {
      assert r[0] == t[0];
    }
  }
}
