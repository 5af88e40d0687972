/** The tags `image_pin.py` compares, printed from their numbers and ordered back. */
module Versions {
  import opened Strings
  import opened Images

  predicate AllDigits(s: string) {
    forall i :: 0 <= i < |s| ==> Digit(s[i])
  }

  lemma {:induction false} WholeNumeral(n: nat)
    ensures AllDigits(Numeral(n)) && Whole(Numeral(n)) == n
  {
    var s := Numeral(n);
    forall i | 0 <= i < |s| ensures Digit(s[i]) { assert s[i] in s; }
    if n < 10 {
      assert s[..0] == "";
    } else {
      WholeNumeral(n / 10);
      assert s[..|s| - 1] == Numeral(n / 10);
    }
  }

  lemma {:induction false} LeadAt(a: string, b: string)
    requires AllDigits(a) && (b == "" || !Digit(b[0]))
    ensures Lead(a + b) == |a|
  {
    if a == "" {
      assert a + b == b;
    } else {
      LeadAt(a[1..], b);
      assert (a + b)[1..] == a[1..] + b;
    }
  }

  /** The numbers with dots between. */
  function Dots(numbers: seq<nat>): string {
    if numbers == [] then ""
    else if |numbers| == 1 then Numeral(numbers[0])
    else Numeral(numbers[0]) + "." + Dots(numbers[1..])
  }

  /** What can follow the last number without being read as part of it. */
  predicate Stops(rest: string) {
    rest == "" || (!Digit(rest[0]) && rest[0] != '.')
  }

  lemma LastNumber(first: string, rest: string, most: nat)
    requires first != "" && AllDigits(first) && most > 0 && Stops(rest)
    ensures Numbers(first + rest, most) == Dotted([Whole(first)], rest)
  {
    var s := first + rest;
    LeadAt(first, rest);
    assert s[..|first|] == first && s[|first|..] == rest;
  }

  lemma NextNumber(first: string, more: string, most: nat)
    requires first != "" && AllDigits(first) && most > 1 && more != "" && Digit(more[0])
    ensures Numbers(first + "." + more, most) == Dotted([Whole(first)] + Numbers(more, most - 1).numbers, Numbers(more, most - 1).rest)
  {
    var s := first + "." + more;
    assert s == first + ("." + more);
    LeadAt(first, "." + more);
    assert s[..|first|] == first && s[|first|] == '.' && s[|first| + 1] == more[0] && s[|first| + 1..] == more;
  }

  lemma {:induction false} DotsStart(numbers: seq<nat>)
    requires numbers != []
    ensures Dots(numbers) != "" && Digit(Dots(numbers)[0])
  {
    WholeNumeral(numbers[0]);
    assert Digit(Numeral(numbers[0])[0]);
  }

  lemma DotsMore(numbers: seq<nat>, rest: string)
    requires |numbers| > 1
    ensures Dots(numbers) + rest == Numeral(numbers[0]) + "." + (Dots(numbers[1..]) + rest)
  {
  }

  lemma OneMore(first: string, more: string, most: nat, numbers: seq<nat>, rest: string)
    requires first != "" && AllDigits(first) && most > 1 && more != "" && Digit(more[0]) && numbers != []
    requires Whole(first) == numbers[0] && Numbers(more, most - 1) == Dotted(numbers[1..], rest)
    ensures Numbers(first + "." + more, most) == Dotted(numbers, rest)
  {
    NextNumber(first, more, most);
    assert numbers == [numbers[0]] + numbers[1..];
  }

  lemma {:induction false} NumbersRead(numbers: seq<nat>, rest: string, most: nat)
    requires numbers != [] && |numbers| <= most && Stops(rest)
    ensures Numbers(Dots(numbers) + rest, most) == Dotted(numbers, rest)
    decreases |numbers|
  {
    var first := Numeral(numbers[0]);
    WholeNumeral(numbers[0]);
    if |numbers| == 1 {
      LastNumber(first, rest, most);
      assert numbers == [numbers[0]];
    } else {
      var more := Dots(numbers[1..]) + rest;
      NumbersRead(numbers[1..], rest, most - 1);
      MoreStarts(numbers, rest);
      OneMore(first, more, most, numbers, rest);
    }
  }

  lemma MoreStarts(numbers: seq<nat>, rest: string)
    requires |numbers| > 1
    ensures var more := Dots(numbers[1..]) + rest;
            more != "" && Digit(more[0]) && Dots(numbers) + rest == Numeral(numbers[0]) + "." + more
  {
    DotsStart(numbers[1..]);
    DotsMore(numbers, rest);
  }

  /** A tag's text: an optional prefix, its numbers, what follows. */
  function Tag(prefixed: bool, numbers: seq<nat>, rest: string): string {
    (if prefixed then "v" else "") + Dots(numbers) + rest
  }

  lemma TagParts(prefixed: bool, numbers: seq<nat>, rest: string, most: nat)
    requires numbers != [] && |numbers| <= most && Stops(rest)
    ensures Numbers(Unprefixed(Tag(prefixed, numbers, rest)), most) == Dotted(numbers, rest)
    ensures Numbers(Tag(prefixed, numbers, rest), most) == if prefixed then Dotted([], Tag(prefixed, numbers, rest)) else Dotted(numbers, rest)
  {
    NumbersRead(numbers, rest, most);
    DotsStart(numbers);
    TagIs(prefixed, numbers, rest);
    PrefixParts(Dots(numbers) + rest, most);
  }

  lemma TagIs(prefixed: bool, numbers: seq<nat>, rest: string)
    ensures Tag(prefixed, numbers, rest) == if prefixed then "v" + (Dots(numbers) + rest) else Dots(numbers) + rest
  {
    assert "" + Dots(numbers) == Dots(numbers);
  }

  lemma PrefixParts(plain: string, most: nat)
    requires plain != "" && Digit(plain[0])
    ensures Unprefixed("v" + plain) == plain && Unprefixed(plain) == plain
    ensures Numbers("v" + plain, most) == Dotted([], "v" + plain)
  {
    assert ("v" + plain)[1..] == plain;
  }

  lemma {:induction false} DotsEnd(numbers: seq<nat>)
    requires numbers != []
    ensures Dots(numbers) != "" && Digit(Dots(numbers)[|Dots(numbers)| - 1])
  {
    var first := Numeral(numbers[0]);
    WholeNumeral(numbers[0]);
    if |numbers| == 1 {
      assert Digit(first[|first| - 1]);
    } else {
      DotsEnd(numbers[1..]);
      var more := Dots(numbers[1..]);
      assert (first + "." + more)[|first + "." + more| - 1] == more[|more| - 1];
    }
  }

  /** A tag is on one line; a newline behind it is not read. */
  lemma OneLine(prefixed: bool, numbers: seq<nat>, rest: string)
    requires numbers != [] && (rest != "" ==> rest[|rest| - 1] != '\n')
    ensures var tag := Tag(prefixed, numbers, rest); Chomp(tag) == tag && Chomp(tag + "\n") == tag
  {
    var dots, tag := Dots(numbers), Tag(prefixed, numbers, rest);
    DotsEnd(numbers);
    TagIs(prefixed, numbers, rest);
    assert tag[|tag| - 1] == if rest == "" then dots[|dots| - 1] else rest[|rest| - 1];
    assert (tag + "\n")[..|tag|] == tag;
  }

  lemma TagOrder(prefixed: bool, numbers: seq<nat>, rest: string)
    requires numbers != [] && |numbers| <= PARTS && Stops(rest) && (rest != "" ==> rest[|rest| - 1] != '\n')
    ensures var tag := Tag(prefixed, numbers, rest);
            && Order(tag) == Ordered(if prefixed then Dotted([], tag) else Dotted(numbers, rest), Dotted(numbers, rest))
            && Order(tag + "\n") == Order(tag)
  {
    OneLine(prefixed, numbers, rest);
    TagParts(prefixed, numbers, rest, PARTS);
  }

  /** The version of three or four numbers and what follows them. */
  function Full(numbers: seq<nat>, rest: string): Version
    requires 3 <= |numbers|
  {
    Version(Semver, Key(numbers[0], numbers[1], numbers[2], Build(numbers), if rest == "" then 1 else 0, if rest == "" then "" else rest[1..]))
  }

  function Build(numbers: seq<nat>): nat {
    if |numbers| > 3 then numbers[3] else 0
  }

  /** A full semantic version, its fourth number and suffix optional, with or without the
      prefix; a newline at its end changes nothing. */
  lemma FullVersionIsRead(prefixed: bool, numbers: seq<nat>, rest: string)
    requires 3 <= |numbers| <= PARTS && IsTail(rest)
    ensures Order(Tag(prefixed, numbers, rest)) == Some(Full(numbers, rest))
    ensures Order(Tag(prefixed, numbers, rest) + "\n") == Order(Tag(prefixed, numbers, rest))
  {
    if rest != "" { assert rest[|rest| - 1] == rest[1..][|rest| - 2]; }
    TagOrder(prefixed, numbers, rest);
  }

  /** Two numbers alone are the release with patch 0. */
  lemma ShortVersionIsRead(prefixed: bool, major: nat, minor: nat)
    ensures Order(Tag(prefixed, [major, minor], "")) == Some(Version(Semver, Key(major, minor, 0, 0, 1, "")))
    ensures Order(Tag(prefixed, [major, minor], "")) == Order(Tag(prefixed, [major, minor, 0], ""))
  {
    TagOrder(prefixed, [major, minor], "");
    FullVersionIsRead(prefixed, [major, minor, 0], "");
  }

  /** Two numbers and a word compare within the major and the word alone, and a prefix
      makes the tag incomparable. */
  lemma WordVersionIsRead(prefixed: bool, major: nat, minor: nat, word: string)
    requires IsWord(word)
    ensures Order(Tag(prefixed, [major, minor], "-" + word)) ==
            if prefixed then None else Some(Version(TwoPart(major, word), Key(minor, 0, 0, 0, 0, "")))
  {
    var rest := "-" + word;
    assert rest[1..] == word && rest[|rest| - 1] == word[|word| - 1];
    TagOrder(prefixed, [major, minor], rest);
  }

  /** So of two full versions the one with the greater numbers is the newer, a missing
      fourth number being 0. */
  lemma NewerByNumbers(a: seq<nat>, b: seq<nat>, p: bool, q: bool)
    requires 3 <= |a| <= PARTS && 3 <= |b| <= PARTS
    ensures Order(Tag(p, a, "")).Some? && Order(Tag(q, b, "")).Some?
    ensures var x, y := Order(Tag(p, a, "")).value, Order(Tag(q, b, "")).value;
            && x.family == y.family
            && (Less(x.key, y.key) <==>
                  a[0] < b[0] || (a[0] == b[0] && (a[1] < b[1] || (a[1] == b[1] &&
                    (a[2] < b[2] || (a[2] == b[2] && Build(a) < Build(b)))))))
  {
    FullVersionIsRead(p, a, "");
    FullVersionIsRead(q, b, "");
  }

  /** A suffix makes a version older than the same numbers alone, and newer than the
      releases they are newer than. */
  lemma PreReleaseIsBelow(a: seq<nat>, b: seq<nat>, rest: string, p: bool, q: bool)
    requires 3 <= |a| <= PARTS && 3 <= |b| <= PARTS && IsTail(rest) && rest != ""
    ensures Order(Tag(p, a, rest)).Some? && Order(Tag(p, a, "")).Some? && Order(Tag(q, b, "")).Some?
    ensures var x, release, y := Order(Tag(p, a, rest)).value, Order(Tag(p, a, "")).value, Order(Tag(q, b, "")).value;
            Less(x.key, release.key) && (Less(y.key, x.key) <==> Less(y.key, release.key))
  {
    FullVersionIsRead(p, a, rest);
    FullVersionIsRead(p, a, "");
    FullVersionIsRead(q, b, "");
    BelowItsRelease(Full(a, rest).key, Full(b, "").key);
    assert Full(a, "").key == Full(a, rest).key.(plain := 1, suffix := "");
  }

  lemma BelowItsRelease(x: Key, y: Key)
    requires x.plain == 0 && y.plain == 1 && y.suffix == ""
    ensures var release := x.(plain := 1, suffix := ""); Less(x, release) && (Less(y, x) <==> Less(y, release))
  {
  }
}
