/** What the text operations the programs lean on do, on the text: stripping, and the
    splitting into lines. */
module TextMeaning {
  import opened Strings
  import opened TextLines

  /** Python's spaces, and the characters its `splitlines` ends a line at. */
  const SPACES: set<char> :=
    {'\t', '\n', '\U{0B}', '\U{0C}', '\r', '\U{1C}', '\U{1D}', '\U{1E}', '\U{1F}', ' ', '\U{85}', '\U{A0}', '\U{1680}',
     '\U{2000}', '\U{2001}', '\U{2002}', '\U{2003}', '\U{2004}', '\U{2005}', '\U{2006}', '\U{2007}', '\U{2008}', '\U{2009}',
     '\U{200A}', '\U{2028}', '\U{2029}', '\U{202F}', '\U{205F}', '\U{3000}'}

  const BREAKS: set<char> :=
    {'\n', '\U{0B}', '\U{0C}', '\r', '\U{1C}', '\U{1D}', '\U{1E}', '\U{85}', '\U{2028}', '\U{2029}'}

  lemma SpaceIs(c: char)
    ensures Space(c) <==> c in SPACES
  {
  }

  lemma BreakIs(c: char)
    ensures Break(c, true) <==> c in BREAKS
    ensures Break(c, false) <==> c == '\n' || c == '\r'
  {
  }

  /** Stripping takes the spaces at both ends and nothing else. */
  lemma {:induction false} StripTakesSpaces(s: string) returns (i: nat, j: nat)
    ensures i <= j <= |s| && Strip(s) == s[i..j] && Trimmed(Strip(s))
    ensures forall k :: 0 <= k < i || j <= k < |s| ==> Space(s[k])
    decreases |s|
  {
    i, j := 0, |s|;
    if s != "" && Space(s[0]) {
      var a, b := StripTakesSpaces(s[1..]);
      OneIn(s, a, b);
      i, j := a + 1, b + 1;
    } else if s != "" && Space(s[|s| - 1]) {
      i, j := StripTakesSpaces(s[..|s| - 1]);
      assert s[..|s| - 1][i..j] == s[i..j];
    }
  }

  lemma OneIn(s: string, a: nat, b: nat)
    requires s != "" && a <= b < |s| && Space(s[0]) && forall k :: 0 <= k < a || b <= k < |s| - 1 ==> Space(s[1..][k])
    ensures s[1..][a..b] == s[a + 1..b + 1] && forall k :: 0 <= k < a + 1 || b + 1 <= k < |s| ==> Space(s[k])
  {
    assert forall k :: 0 < k < |s| ==> s[k] == s[1..][k - 1];
  }

  /** One break: a character of the set, or a return and the newline behind it. */
  predicate IsBreak(s: string, wide: bool) {
    s == "\r\n" || (|s| == 1 && Break(s[0], wide))
  }

  /** A text is its lines with a break behind each, save perhaps the last; no line holds one,
      and no return is parted from a newline behind it. */
  ghost predicate AreLines(s: string, lines: seq<string>, wide: bool)
    decreases |lines|
  {
    if lines == [] then s == ""
    else if s == lines[0] then s != "" && Single(s, wide) && lines == [s]
    else exists end: string, rest: string :: LineBreak(s, lines[0], end, rest, wide) && AreLines(rest, lines[1..], wide)
  }

  ghost predicate LineBreak(s: string, line: string, end: string, rest: string, wide: bool) {
    s == line + end + rest && Single(line, wide) && IsBreak(end, wide) && (end == "\r" ==> rest == "" || rest[0] != '\n')
  }

  lemma {:induction false} LinesAre(s: string, wide: bool)
    ensures AreLines(s, Lines(s, wide), wide)
    decreases |s|
  {
    var n := LineEnd(s, wide);
    if s != "" && n < |s| {
      var rest := s[Past(s, n)..];
      LinesAre(rest, wide);
      FirstBreak(s, n, wide);
      assert Lines(s, wide) == [s[..n]] + Lines(rest, wide);
    } else if s != "" {
      assert s[..n] == s;
    }
  }

  lemma FirstBreak(s: string, n: nat, wide: bool)
    requires n == LineEnd(s, wide) && n < |s|
    ensures LineBreak(s, s[..n], s[n..Past(s, n)], s[Past(s, n)..], wide)
  {
    var m := Past(s, n);
    assert s == s[..n] + s[n..m] + s[m..];
  }
}
