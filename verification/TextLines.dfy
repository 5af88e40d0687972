/** Python's `str.splitlines`, and the lines a text file's iterator gives. */
module TextLines {
  import opened Strings

  /** Where `str.splitlines` ends a line; a text file's iterator knows the first two only. */
  predicate Break(c: char, wide: bool) {
    || c == '\n' || c == '\r'
    || (wide && (c == '\U{0B}' || c == '\U{0C}' || '\U{1C}' <= c <= '\U{1E}' || c == '\U{85}' || c == '\U{2028}' || c == '\U{2029}'))
  }

  predicate Single(s: string, wide: bool) {
    forall i :: 0 <= i < |s| ==> !Break(s[i], wide)
  }

  /** The length of the first line. */
  function LineEnd(s: string, wide: bool): (n: nat)
    ensures n <= |s| && Single(s[..n], wide) && (n < |s| ==> Break(s[n], wide))
  {
    if s == "" || Break(s[0], wide) then 0 else 1 + LineEnd(s[1..], wide)
  }

  /** Past the break at `n`; a carriage return and its newline are one. */
  function Past(s: string, n: nat): (m: nat)
    requires n < |s|
    ensures n < m <= |s|
  {
    if s[n] == '\r' && n + 1 < |s| && s[n + 1] == '\n' then n + 2 else n + 1
  }

  function Lines(s: string, wide: bool): seq<string>
    decreases |s|
  {
    var n := LineEnd(s, wide);
    if s == "" then [] else if n == |s| then [s] else [s[..n]] + Lines(s[Past(s, n)..], wide)
  }

  /** The first line, and the lines past its break. */
  lemma LinesCut(s: string, n: nat)
    requires n == LineEnd(s, true) && n < |s|
    ensures Lines(s, true) == [s[..n]] + Lines(s[Past(s, n)..], true)
  {
  }

  // --- lines of a printed text --------------------------------------------------------------

  lemma {:induction false} FirstLine(s: string, rest: string, wide: bool)
    requires Single(s, wide)
    ensures LineEnd(s + "\n" + rest, wide) == |s|
  {
    var all := s + "\n" + rest;
    if s != "" {
      FirstLine(s[1..], rest, wide);
      assert all[1..] == s[1..] + "\n" + rest;
    }
  }

  lemma LinesMore(s: string, rest: string, wide: bool)
    requires Single(s, wide)
    ensures Lines(s + "\n" + rest, wide) == [s] + Lines(rest, wide)
  {
    var all := s + "\n" + rest;
    FirstLine(s, rest, wide);
    assert all[..|s|] == s;
    assert Past(all, |s|) == |s| + 1 && all[|s| + 1..] == rest;
  }

  ghost predicate AllSingle(lines: seq<string>) {
    forall i :: 0 <= i < |lines| ==> Single(lines[i], true)
  }

  lemma {:induction false} LinesJoined(lines: seq<string>)
    requires lines != [] && AllSingle(lines)
    ensures Lines(Join(lines, '\n') + "\n", true) == lines
  {
    if |lines| == 1 {
      LinesMore(lines[0], "", true);
      assert lines[0] + "\n" + "" == Join(lines, '\n') + "\n";
      assert lines == [lines[0]];
    } else {
      var rest := lines[1..];
      LinesJoined(rest);
      LinesMore(lines[0], Join(rest, '\n') + "\n", true);
      JoinMore(lines);
      assert lines == [lines[0]] + rest;
    }
  }

  lemma JoinMore(lines: seq<string>)
    requires |lines| > 1
    ensures Join(lines, '\n') + "\n" == lines[0] + "\n" + (Join(lines[1..], '\n') + "\n")
  {
  }

  lemma {:induction false} LinesAreSingle(s: string)
    ensures AllSingle(Lines(s, true))
    decreases |s|
  {
    var n := LineEnd(s, true);
    if n < |s| {
      LinesAreSingle(s[Past(s, n)..]);
    } else {
      assert s[..n] == s;
    }
  }

  lemma {:induction false} LineEndAt(s: string, n: nat)
    requires n < |s| && Single(s[..n], true) && Break(s[n], true)
    ensures LineEnd(s, true) == n
  {
    if n > 0 {
      assert s[..n][0] == s[0] && s[1..][..n - 1] == s[..n][1..];
      LineEndAt(s[1..], n - 1);
    }
  }

  // --- words ----------------------------------------------------------------------------------

  /** How far a word reaches. */
  function WordEnd(s: string): (n: nat)
    ensures n <= |s| && (s != "" && !Space(s[0]) ==> n > 0)
  {
    if s == "" || Space(s[0]) then 0 else 1 + WordEnd(s[1..])
  }

  /** `s.split()`. */
  function Fields(s: string): seq<string>
    decreases |s|
  {
    if s == "" then []
    else if Space(s[0]) then Fields(s[1..])
    else [s[..WordEnd(s)]] + Fields(s[WordEnd(s)..])
  }

  lemma {:induction false} WordEndAt(a: string, rest: string)
    requires forall i :: 0 <= i < |a| ==> !Space(a[i])
    requires rest == "" || Space(rest[0])
    ensures WordEnd(a + rest) == |a|
  {
    if a == "" {
      assert a + rest == rest;
    } else {
      assert (a + rest)[1..] == a[1..] + rest;
      WordEndAt(a[1..], rest);
    }
  }

  predicate Word(s: string) {
    s != "" && forall i :: 0 <= i < |s| ==> !Space(s[i])
  }

  lemma FieldsOne(a: string)
    requires Word(a)
    ensures Fields(a) == [a]
  {
    WordEndAt(a, "");
    assert a + "" == a && a[..|a|] == a && a[|a|..] == "";
  }

  lemma FieldsMore(a: string, rest: string)
    requires Word(a)
    ensures Fields(a + " " + rest) == [a] + Fields(rest)
  {
    var s := a + " " + rest;
    assert s == a + (" " + rest);
    WordEndAt(a, " " + rest);
    assert s[..|a|] == a && s[|a|..] == " " + rest && (" " + rest)[1..] == rest;
  }
}
