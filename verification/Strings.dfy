/** Text operations the modelled programs share: splitting and joining on a
    separator, and decimal numerals. */
module Strings {

  datatype Option<+T> = None | Some(value: T)

  /** Python's `s.split(sep)`: always at least one part. */
  function Split(s: string, sep: char): (parts: seq<string>)
    ensures |parts| >= 1
  {
    if s == "" then [""]
    else
      var rest := Split(s[1..], sep);
      if s[0] == sep then [""] + rest else [[s[0]] + rest[0]] + rest[1..]
  }

  /** Python's `sep.join(parts)`. */
  function Join(parts: seq<string>, sep: char): string {
    if parts == [] then ""
    else if |parts| == 1 then parts[0]
    else parts[0] + [sep] + Join(parts[1..], sep)
  }

  lemma {:induction false} SplitHead(p: string, rest: string, sep: char)
    requires sep !in p
    ensures Split(p, sep) == [p]
    ensures Split(p + [sep] + rest, sep) == [p] + Split(rest, sep)
  {
    if p == "" {
      assert p + [sep] + rest == [sep] + rest;
    } else {
      SplitHead(p[1..], rest, sep);
      assert (p + [sep] + rest)[1..] == p[1..] + [sep] + rest;
      assert [p[0]] + p[1..] == p;
    }
  }

  /** Splitting what was joined gives the parts back. */
  lemma {:induction false} SplitJoin(parts: seq<string>, sep: char)
    requires parts != []
    requires forall p :: p in parts ==> sep !in p
    ensures Split(Join(parts, sep), sep) == parts
  {
    if |parts| == 1 {
      SplitHead(parts[0], "", sep);
    } else {
      SplitJoin(parts[1..], sep);
      SplitHead(parts[0], Join(parts[1..], sep), sep);
      assert [parts[0]] + parts[1..] == parts;
    }
  }

  /** Joining what was split gives the text back, and no part holds the separator. */
  lemma {:induction false} JoinSplit(s: string, sep: char)
    ensures Join(Split(s, sep), sep) == s
    ensures forall p :: p in Split(s, sep) ==> sep !in p
  {
    if s != "" {
      JoinSplit(s[1..], sep);
      var rest := Split(s[1..], sep);
      if s[0] == sep {
        assert Split(s, sep)[1..] == rest;
        assert s == [sep] + s[1..];
      } else {
        assert Split(s, sep)[1..] == rest[1..];
        assert s == [s[0]] + s[1..];
      }
    }
  }

  function DigitChar(n: nat): char
    requires n < 10
  {
    '0' + n as char
  }

  function DigitValue(c: char): int {
    c as int - '0' as int
  }

  /** The decimal numeral of n, without leading zeros. */
  function Numeral(n: nat): (s: string)
    ensures s != "" && forall c :: c in s ==> '0' <= c <= '9'
  {
    if n < 10 then [DigitChar(n)] else Numeral(n / 10) + [DigitChar(n % 10)]
  }

  /** Python's int() on a decimal numeral. */
  function ParseInt(s: string): int {
    if s == "" then 0 else ParseInt(s[..|s| - 1]) * 10 + DigitValue(s[|s| - 1])
  }

  lemma {:induction false} ParseNumeral(n: nat)
    ensures ParseInt(Numeral(n)) == n
  {
    if n < 10 {
      assert Numeral(n)[..0] == "";
    } else {
      ParseNumeral(n / 10);
      assert Numeral(n)[..|Numeral(n)| - 1] == Numeral(n / 10);
    }
  }

  // --- order -------------------------------------------------------------------

  /** Python's order on strings. */
  predicate Leq(a: string, b: string) {
    a == "" || (b != "" && (a[0] < b[0] || (a[0] == b[0] && Leq(a[1..], b[1..]))))
  }

  lemma {:induction false} LeqOrder(a: string, b: string)
    ensures Leq(a, b) || Leq(b, a)
    ensures Leq(a, b) && Leq(b, a) ==> a == b
    ensures Leq(a, a)
  {
    if a != "" && b != "" {
      LeqOrder(a[1..], b[1..]);
      assert a == [a[0]] + a[1..] && b == [b[0]] + b[1..];
    }
    if a != "" { LeqOrder(a[1..], ""); }
  }

  lemma {:induction false} LeqTransitive(a: string, b: string, c: string)
    requires Leq(a, b) && Leq(b, c)
    ensures Leq(a, c)
  {
    if a != "" && a[0] == b[0] == c[0] { LeqTransitive(a[1..], b[1..], c[1..]); }
  }

  lemma {:induction false} LeastExists(s: set<string>)
    requires s != {}
    ensures exists x :: x in s && forall y :: y in s ==> Leq(x, y)
  {
    var a :| a in s;
    if s == {a} {
      LeqOrder(a, a);
    } else {
      LeastExists(s - {a});
      var x :| x in s - {a} && forall y :: y in s - {a} ==> Leq(x, y);
      var least := if Leq(x, a) then x else a;
      forall y | y in s
        ensures Leq(least, y)
      {
        LeqOrder(x, a);
        LeqOrder(a, a);
        if y != a && least == a { LeqTransitive(a, x, y); }
      }
      assert least in s;
    }
  }

  /** The first of a set of names in sorted order. */
  function Least(s: set<string>): (x: string)
    requires s != {}
    ensures x in s && forall y :: y in s ==> Leq(x, y)
  {
    LeastExists(s);
    assert forall x, y :: x in s && y in s && (forall z :: z in s ==> Leq(x, z)) && (forall z :: z in s ==> Leq(y, z)) ==> x == y by {
      forall x, y | x in s && y in s && Leq(x, y) && Leq(y, x) ensures x == y { LeqOrder(x, y); }
    }
    var x :| x in s && forall y :: y in s ==> Leq(x, y);
    x
  }

  // --- whitespace ------------------------------------------------------------------------

  /** Python's `str.isspace`. */
  predicate Space(c: char) {
    || c == ' ' || '\t' <= c <= '\r' || '\U{1C}' <= c <= '\U{1F}' || c == '\U{85}' || c == '\U{A0}'
    || c == '\U{1680}' || '\U{2000}' <= c <= '\U{200A}' || c == '\U{2028}' || c == '\U{2029}'
    || c == '\U{202F}' || c == '\U{205F}' || c == '\U{3000}'
  }

  /** Python's `s.strip()`. */
  function Strip(s: string): string {
    if s == "" then ""
    else if Space(s[0]) then Strip(s[1..])
    else if Space(s[|s| - 1]) then Strip(s[..|s| - 1])
    else s
  }

  predicate Trimmed(s: string) {
    s == "" || (!Space(s[0]) && !Space(s[|s| - 1]))
  }

  lemma {:induction false} StripTrims(s: string)
    ensures Trimmed(Strip(s)) && |Strip(s)| <= |s|
    ensures Strip(s) == s <==> Trimmed(s)
    ensures forall c :: c in Strip(s) ==> c in s
  {
    if s != "" {
      if Space(s[0]) {
        StripTrims(s[1..]);
        assert forall c :: c in s[1..] ==> c in s;
      } else if Space(s[|s| - 1]) {
        StripTrims(s[..|s| - 1]);
        assert forall c :: c in s[..|s| - 1] ==> c in s;
      }
    }
  }

  lemma {:induction false} StripEnd(s: string)
    requires s != "" && Space(s[|s| - 1])
    ensures Strip(s) == Strip(s[..|s| - 1])
    decreases |s|
  {
    if Space(s[0]) && |s| > 1 {
      StripEnd(s[1..]);
      assert s[1..][..|s| - 2] == s[..|s| - 1][1..];
    }
  }

  /** Behind a text that starts with no space, only the end is stripped. */
  lemma {:induction false} StripBehind(front: string, s: string) returns (w: string)
    requires front != "" && Trimmed(front)
    ensures Strip(front + s) == front + w && Strip(w) == Strip(s) && |w| <= |s|
    decreases |s|
  {
    w := s;
    if s == "" {
      assert front + s == front;
    } else if Space(s[|s| - 1]) {
      w := StripBehind(front, s[..|s| - 1]);
      assert (front + s)[..|front + s| - 1] == front + s[..|s| - 1];
      StripEnd(front + s);
      StripEnd(s);
    } else {
      StripTrims(front + s);
    }
  }

  lemma {:induction false} StripFirst(s: string)
    requires s != "" && !Space(s[0])
    ensures Strip(s) != "" && Strip(s)[0] == s[0]
    decreases |s|
  {
    if Space(s[|s| - 1]) { StripFirst(s[..|s| - 1]); }
  }

  lemma {:induction false} StripShorter(s: string)
    requires !Trimmed(s)
    ensures |Strip(s)| < |s|
  {
    if Space(s[0]) { StripTrims(s[1..]); } else { StripTrims(s[..|s| - 1]); }
  }

  predicate Spaces(s: string) {
    forall i :: 0 <= i < |s| ==> Space(s[i])
  }

  /** What stands between spaces is what stripping leaves. */
  lemma {:induction false} StripAround(a: string, m: string, b: string)
    requires Spaces(a) && Spaces(b) && Trimmed(m)
    ensures Strip(a + m + b) == m
    decreases |a| + |b|
  {
    var s := a + m + b;
    if a != "" {
      assert s[0] == a[0] && s[1..] == a[1..] + m + b;
      StripAround(a[1..], m, b);
    } else if b != "" {
      StripEnd(s);
      assert s[|s| - 1] == b[|b| - 1] && s[..|s| - 1] == a + m + b[..|b| - 1];
      StripAround(a, m, b[..|b| - 1]);
    } else {
      assert s == m;
      StripTrims(m);
    }
  }

  /** `s.strip(c)`. */
  function StripOf(s: string, c: char): string {
    if s != "" && s[0] == c then StripOf(s[1..], c)
    else if s != "" && s[|s| - 1] == c then StripOf(s[..|s| - 1], c)
    else s
  }

  // --- partition --------------------------------------------------------------------------

  /** `s.partition(c)`, without the separator. */
  function Before(s: string, c: char): string {
    if s == "" || s[0] == c then "" else [s[0]] + Before(s[1..], c)
  }

  function Behind(s: string, c: char): string {
    if s == "" then "" else if s[0] == c then s[1..] else Behind(s[1..], c)
  }

  lemma {:induction false} BeforeBehind(s: string, c: char)
    ensures c !in Before(s, c)
    ensures c in s ==> s == Before(s, c) + [c] + Behind(s, c)
    ensures c !in s ==> Before(s, c) == s && Behind(s, c) == ""
  {
    if s != "" && s[0] != c {
      var rest := s[1..];
      BeforeBehind(rest, c);
      assert s == [s[0]] + rest;
      assert c in s <==> c in rest;
      if c in s { assert [s[0]] + (Before(rest, c) + [c] + Behind(rest, c)) == ([s[0]] + Before(rest, c)) + [c] + Behind(rest, c); }
    }
  }

  lemma {:induction false} BeforeAt(a: string, c: char, b: string)
    requires c !in a
    ensures Before(a + [c] + b, c) == a && Behind(a + [c] + b, c) == b
  {
    var s := a + [c] + b;
    if a != "" {
      assert s[1..] == a[1..] + [c] + b && c !in a[1..];
      BeforeAt(a[1..], c, b);
    }
  }
}
