/**
 * The two string tests the validator relies on: blankness (Strings.isBlank of the
 * web framework) and String.trim of the JDK. They use different notions of
 * "space": blankness is Character.isWhitespace, trimming strips every character
 * up to U+0020, control characters included.
 */
module JavaText {
  import opened Optional

  /** Character.isWhitespace as of Java 9 (Unicode 6.3 and later): the ASCII
      separators and the Unicode space, line and paragraph separators other than
      the no-break spaces. Java 8 also counts U+180E, which Unicode 6.3 moved out
      of the space separators. */
  predicate IsWhitespace(c: char)
  {
    || ('\t' <= c <= '\r')
    || ('\U{1C}' <= c <= ' ')
    || c == '\U{1680}'
    || ('\U{2000}' <= c <= '\U{2006}')
    || ('\U{2008}' <= c <= '\U{200A}')
    || c == '\U{2028}' || c == '\U{2029}' || c == '\U{205F}' || c == '\U{3000}'
  }

  /** Strings.isBlank: null, empty, or whitespace only. */
  predicate IsBlank(s: Option<string>)
  {
    s.None? || forall i :: 0 <= i < |s.value| ==> IsWhitespace(s.value[i])
  }

  /** What String.trim strips from either end. */
  predicate IsTrimmable(c: char)
  {
    c <= ' '
  }

  /** Neither end can be trimmed any further. */
  predicate IsTrimmed(s: string)
  {
    s == [] || (!IsTrimmable(s[0]) && !IsTrimmable(s[|s| - 1]))
  }

  /** A cut of `s` whose ends hold no trimmable character and outside which
      everything is trimmable. */
  ghost predicate IsCut(s: string, i: int, j: int)
  {
    && 0 <= i <= j <= |s|
    && IsTrimmed(s[i..j])
    && (forall k :: 0 <= k < i ==> IsTrimmable(s[k]))
    && (forall k :: j <= k < |s| ==> IsTrimmable(s[k]))
  }

  /** `r` is `s` with trimmable characters cut from its two ends, and nothing
      trimmable is left at either end of `r`: the meaning of String.trim. */
  ghost predicate IsTrimOf(r: string, s: string)
  {
    exists i, j :: IsCut(s, i, j) && r == s[i..j]
  }

  /** Drops the trimmable characters at the front. */
  function TrimStart(s: string): (r: string)
    ensures |r| <= |s| && r == s[|s| - |r|..]
    ensures forall k :: 0 <= k < |s| - |r| ==> IsTrimmable(s[k])
    ensures r == [] || !IsTrimmable(r[0])
  {
    if s != [] && IsTrimmable(s[0]) then TrimStart(s[1..]) else s
  }

  /** Drops the trimmable characters at the back. */
  function TrimEnd(s: string): (r: string)
    ensures |r| <= |s| && r == s[..|r|]
    ensures forall k :: |r| <= k < |s| ==> IsTrimmable(s[k])
    ensures r == [] || !IsTrimmable(r[|r| - 1])
  {
    if s != [] && IsTrimmable(s[|s| - 1]) then TrimEnd(s[..|s| - 1]) else s
  }

  /** String.trim. */
  function Trim(s: string): (r: string)
    ensures |r| <= |s| && IsTrimmed(r)
  {
    TrimEnd(TrimStart(s))
  }

  /** For ASCII text the two notions of space agree one way: a blank string
      trims to the empty string. */
  lemma AsciiBlankTrimsToEmpty(s: string)
    requires forall k :: 0 <= k < |s| ==> s[k] <= '\U{7F}'
    requires IsBlank(Some(s))
    ensures Trim(s) == []
  {
  }

  /** String.trim meets its characterisation. */
  lemma TrimIsTrimOf(s: string)
    ensures IsTrimOf(Trim(s), s)
  {
    var t := TrimStart(s);
    var r := TrimEnd(t);
    var i := |s| - |t|;
    assert r == s[i..i + |r|] && IsCut(s, i, i + |r|);
  }

  /** Two non-empty cuts of the same string start and end at the same places. */
  lemma NonEmptyCutsAgree(s: string, i: int, j: int, i': int, j': int)
    requires IsCut(s, i, j) && IsCut(s, i', j') && i < j && i' < j'
    ensures i == i' && j == j'
  {
    assert s[i..j][0] == s[i] && s[i'..j'][0] == s[i'];
    assert s[i..j][j - i - 1] == s[j - 1] && s[i'..j'][j' - i' - 1] == s[j' - 1];
    assert !(i < i') && !(i' < i);
    assert !(j < j') && !(j' < j);
  }

  /** A string has no non-empty cut once it has an empty one. */
  lemma EmptyCutExcludesOthers(s: string, i: int, j: int, i': int, j': int)
    requires IsCut(s, i, j) && IsCut(s, i', j') && i == j
    ensures i' == j'
  {
  }

  /** The characterisation has one solution only. */
  lemma TrimOfIsUnique(r: string, r': string, s: string)
    requires IsTrimOf(r, s) && IsTrimOf(r', s)
    ensures r == r'
  {
    var i, j :| IsCut(s, i, j) && r == s[i..j];
    var i', j' :| IsCut(s, i', j') && r' == s[i'..j'];
    if i == j {
      EmptyCutExcludesOthers(s, i, j, i', j');
    } else if i' == j' {
      EmptyCutExcludesOthers(s, i', j', i, j);
    } else {
      NonEmptyCutsAgree(s, i, j, i', j');
    }
  }

  /** String.trim is exactly the characterisation above, in both directions. */
  lemma TrimCharacterised(r: string, s: string)
    ensures IsTrimOf(r, s) <==> r == Trim(s)
  {
    TrimIsTrimOf(s);
    if IsTrimOf(r, s) {
      TrimOfIsUnique(r, Trim(s), s);
    }
  }

  /** A string with nothing to trim is left as it is. */
  lemma TrimKeepsTrimmed(s: string)
    requires IsTrimmed(s)
    ensures Trim(s) == s
  {
    assert TrimStart(s) == s;
  }

  /** Trimming twice is trimming once. */
  lemma TrimIdempotent(s: string)
    ensures Trim(Trim(s)) == Trim(s)
  {
    TrimKeepsTrimmed(Trim(s));
  }

  /** A leading space in front of a trimmed string is all that trimming removes. */
  lemma TrimPadded(n: string)
    requires IsTrimmed(n)
    ensures Trim(" " + n) == n
  {
    var name := " " + n;
    assert name[1..] == n;
    assert TrimStart(name) == TrimStart(n) == n;
    assert TrimEnd(n) == n;
  }

  /** A space in front does not make a non-blank string blank. */
  lemma PaddedNotBlank(n: string)
    requires !IsBlank(Some(n))
    ensures !IsBlank(Some(" " + n))
  {
    var i :| 0 <= i < |n| && !IsWhitespace(n[i]);
    assert (" " + n)[i + 1] == n[i];
  }
}
