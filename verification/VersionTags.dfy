/** Exactly which tags `image_pin.py` compares, and as what. */
module VersionTags {
  import opened Strings
  import opened Images
  import opened Versions

  /** A run of digits, leading zeros and all. */
  predicate Run(s: string) { s != "" && forall i :: 0 <= i < |s| ==> '0' <= s[i] <= '9' }

  predicate Runs(ds: seq<string>) { ds != [] && forall i :: 0 <= i < |ds| ==> Run(ds[i]) }

  function Values(ds: seq<string>): (r: seq<nat>)
    requires forall i :: 0 <= i < |ds| ==> Run(ds[i])
    ensures |r| == |ds|
  {
    if ds == [] then [] else [ValueOf(ds[0])] + Values(ds[1..])
  }

  function ValueOf(d: string): nat
    requires Run(d)
  {
    Whole(d)
  }

  lemma ValuesMore(d: string, ds: seq<string>)
    requires Run(d) && forall i :: 0 <= i < |ds| ==> Run(ds[i])
    ensures Runs([d] + ds) && Values([d] + ds) == [Whole(d)] + Values(ds)
  {
    var all := [d] + ds;
    assert forall i :: 0 < i < |all| ==> all[i] == ds[i - 1];
    assert all[1..] == ds;
  }

  lemma {:induction false} ValuesAre(ds: seq<string>)
    requires forall i :: 0 <= i < |ds| ==> Run(ds[i])
    ensures |Values(ds)| == |ds| && forall i :: 0 <= i < |ds| ==> Values(ds)[i] == ValueOf(ds[i])
  {
    if ds != [] { ValuesAre(ds[1..]); }
  }

  lemma {:induction false} ZerosCountNothing(d: string)
    requires Run(d)
    ensures Run("0" + d) && ValueOf("0" + d) == ValueOf(d)
  {
    var z := "0" + d;
    assert forall i :: 0 < i < |z| ==> z[i] == d[i - 1];
    assert z[..|z| - 1] == "0" + d[..|d| - 1] && z[|z| - 1] == d[|d| - 1];
    if |d| > 1 {
      ZerosCountNothing(d[..|d| - 1]);
    } else {
      assert d[..0] == "" && z[..1] == "0" && "0"[..0] == "";
      assert Whole("0") == 0 && Whole("") == 0;
      assert ValueOf(z) == Whole("0") * 10 + (d[0] - '0') as nat;
    }
  }

  /** An optional "v", runs of digits with dots between, and what follows. */
  function Spelt(prefixed: bool, ds: seq<string>, rest: string): string {
    (if prefixed then "v" else "") + (Join(ds, '.') + rest)
  }

  /** A pre-release or build suffix. */
  predicate Suffix(rest: string) { |rest| > 1 && (rest[0] == '-' || rest[0] == '+') && '\n' !in rest }

  lemma SuffixIs(rest: string)
    ensures IsTail(rest) <==> rest == "" || Suffix(rest)
  {
    if rest != "" { assert rest == [rest[0]] + rest[1..]; }
  }

  // --- reading ---------------------------------------------------------------------------------

  lemma JoinMore(ds: seq<string>, rest: string)
    requires |ds| > 1
    ensures Join(ds, '.') + rest == ds[0] + "." + (Join(ds[1..], '.') + rest)
  {
    assert ds[0] + ['.'] + Join(ds[1..], '.') + rest == ds[0] + "." + (Join(ds[1..], '.') + rest);
  }

  lemma JoinStarts(ds: seq<string>, rest: string)
    requires Runs(ds)
    ensures Join(ds, '.') + rest != "" && '0' <= (Join(ds, '.') + rest)[0] <= '9'
  {
    assert Run(ds[0]);
  }

  lemma {:induction false} RunsAreRead(ds: seq<string>, rest: string, most: nat)
    requires Runs(ds) && |ds| <= most && Stops(rest)
    ensures Numbers(Join(ds, '.') + rest, most) == Dotted(Values(ds), rest)
    decreases |ds|
  {
    var first, most1 := ds[0], most - 1;
    assert Run(first) && ds == [first] + ds[1..];
    ValuesMore(first, ds[1..]);
    if |ds| == 1 {
      LastNumber(first, rest, most);
      assert Values(ds) == [Whole(first)];
    } else {
      var more := Join(ds[1..], '.') + rest;
      RunsAreRead(ds[1..], rest, most1);
      JoinMore(ds, rest);
      JoinStarts(ds[1..], rest);
      OneMore(first, more, most, Values(ds), rest);
    }
  }

  /** ... and what is read is spelt so. */
  lemma {:induction false} ReadIsRuns(s: string, most: nat) returns (ds: seq<string>)
    ensures var d := Numbers(s, most);
            if d.numbers == [] then ds == [] && d.rest == s
            else Runs(ds) && Values(ds) == d.numbers && s == Join(ds, '.') + d.rest
    decreases |s|
  {
    var n := Lead(s);
    ds := [];
    if most > 0 && n > 0 {
      var first, behind := s[..n], s[n..];
      assert Run(first) && s == first + behind;
      if n + 1 < |s| && s[n] == '.' && Digit(s[n + 1]) && most > 1 {
        var tail := s[n + 1..];
        var more := ReadIsRuns(tail, most - 1);
        HasNumber(tail, most - 1);
        ValuesMore(first, more);
        ds := [first] + more;
        SpeltOn(s, n, first, more, Numbers(tail, most - 1).rest);
      } else {
        ds := [first];
        ValuesMore(first, []);
        assert [first] + [] == ds && Values([]) == [];
      }
    }
  }

  lemma SpeltOn(s: string, n: nat, first: string, more: seq<string>, rest: string)
    requires n + 1 < |s| && first == s[..n] && s[n] == '.' && more != [] && s[n + 1..] == Join(more, '.') + rest
    ensures s == Join([first] + more, '.') + rest
  {
    var all := [first] + more;
    assert all[1..] == more && all[0] == first;
    JoinMore(all, rest);
    assert s == s[..n] + "." + s[n + 1..];
  }

  lemma HasNumber(s: string, most: nat)
    requires most > 0 && s != "" && Digit(s[0])
    ensures Numbers(s, most).numbers != []
  {
  }

  lemma SpeltParts(prefixed: bool, ds: seq<string>, rest: string)
    requires Runs(ds) && |ds| <= PARTS && Stops(rest)
    ensures var tag := Spelt(prefixed, ds, rest);
            && Numbers(Unprefixed(tag), PARTS) == Dotted(Values(ds), rest)
            && Numbers(tag, PARTS) == if prefixed then Dotted([], tag) else Dotted(Values(ds), rest)
  {
    RunsAreRead(ds, rest, PARTS);
    JoinStarts(ds, rest);
    PrefixParts(Join(ds, '.') + rest, PARTS);
    assert "" + (Join(ds, '.') + rest) == Join(ds, '.') + rest;
  }

  // --- the three kinds -----------------------------------------------------------------------------

  /** A letter of the alphabet, then letters and digits. */
  predicate Alphanumeric(word: string) {
    && word != "" && ('a' <= word[0] <= 'z' || 'A' <= word[0] <= 'Z')
    && forall i :: 0 <= i < |word| ==> 'a' <= word[i] <= 'z' || 'A' <= word[i] <= 'Z' || '0' <= word[i] <= '9'
  }

  lemma WordIs(word: string)
    ensures IsWord(word) <==> Alphanumeric(word)
  {
  }

  /** Three or four runs, and a suffix or none; two runs alone; two runs and a word. */
  ghost predicate IsFull(t: string) {
    exists prefixed: bool, ds: seq<string>, rest: string ::
      Runs(ds) && 3 <= |ds| <= 4 && (rest == "" || Suffix(rest)) && t == Spelt(prefixed, ds, rest)
  }

  ghost predicate IsShort(t: string) {
    exists prefixed: bool, ds: seq<string> :: Runs(ds) && |ds| == 2 && t == Spelt(prefixed, ds, "")
  }

  ghost predicate IsWordy(t: string) {
    exists ds: seq<string>, word: string :: Runs(ds) && |ds| == 2 && Alphanumeric(word) && t == Spelt(false, ds, "-" + word)
  }

  /** ... each compares by its numbers, leading zeros counting nothing. */
  lemma FullIsOrdered(tag: string, prefixed: bool, ds: seq<string>, rest: string)
    requires Runs(ds) && 3 <= |ds| <= 4 && (rest == "" || Suffix(rest)) && Chomp(tag) == Spelt(prefixed, ds, rest)
    ensures Order(tag) == Some(Full(Values(ds), rest))
  {
    SuffixIs(rest);
    SpeltParts(prefixed, ds, rest);
    FullOf(Numbers(Chomp(tag), PARTS), Values(ds), rest);
  }

  lemma FullOf(bare: Dotted, numbers: seq<nat>, rest: string)
    requires |bare.numbers| != 2 && 3 <= |numbers| <= 4 && IsTail(rest)
    ensures Ordered(bare, Dotted(numbers, rest)) == Some(Full(numbers, rest))
  {
  }

  lemma ShortIsOrdered(tag: string, prefixed: bool, ds: seq<string>)
    requires Runs(ds) && |ds| == 2 && Chomp(tag) == Spelt(prefixed, ds, "")
    ensures Order(tag) == Some(Version(Semver, Key(Whole(ds[0]), Whole(ds[1]), 0, 0, 1, "")))
  {
    ValuesAre(ds);
    SpeltParts(prefixed, ds, "");
  }

  lemma WordyIsOrdered(tag: string, ds: seq<string>, word: string)
    requires Runs(ds) && |ds| == 2 && Alphanumeric(word) && Chomp(tag) == Spelt(false, ds, "-" + word)
    ensures Order(tag) == Some(Version(TwoPart(Whole(ds[0]), word), Key(Whole(ds[1]), 0, 0, 0, 0, "")))
  {
    var rest := "-" + word;
    WordIs(word);
    ValuesAre(ds);
    SpeltParts(false, ds, rest);
    assert rest[1..] == word;
  }

  lemma UnprefixedIs(t: string)
    ensures t == (if t != "" && t[0] == 'v' then "v" else "") + Unprefixed(t)
  {
  }

  lemma BareIsWordy(t: string)
    requires var d := Numbers(t, PARTS); |d.numbers| == 2 && d.rest != "" && d.rest[0] == '-' && IsWord(d.rest[1..])
    ensures IsWordy(t)
  {
    var d := Numbers(t, PARTS);
    var ds := ReadIsRuns(t, PARTS);
    var word := d.rest[1..];
    WordIs(word);
    assert d.rest == "-" + word;
    assert t == Spelt(false, ds, "-" + word);
  }

  lemma NumbersAreKind(t: string)
    requires var d := Numbers(Unprefixed(t), PARTS); (|d.numbers| == 2 && d.rest == "") || (|d.numbers| >= 3 && IsTail(d.rest))
    ensures IsFull(t) || IsShort(t)
  {
    var d := Numbers(Unprefixed(t), PARTS);
    var ds := ReadIsRuns(Unprefixed(t), PARTS);
    var prefixed := t != "" && t[0] == 'v';
    UnprefixedIs(t);
    SuffixIs(d.rest);
    AtMostFour(Unprefixed(t), PARTS);
    assert t == Spelt(prefixed, ds, d.rest);
  }

  lemma OrderedIsKind(t: string)
    requires Ordered(Numbers(t, PARTS), Numbers(Unprefixed(t), PARTS)).Some?
    ensures IsFull(t) || IsShort(t) || IsWordy(t)
  {
    var bare := Numbers(t, PARTS);
    if |bare.numbers| == 2 && bare.rest != "" && bare.rest[0] == '-' && IsWord(bare.rest[1..]) {
      BareIsWordy(t);
    } else {
      NumbersAreKind(t);
    }
  }

  lemma {:induction false} AtMostFour(s: string, most: nat)
    ensures |Numbers(s, most).numbers| <= most
    decreases most
  {
    var n := Lead(s);
    if most > 1 && n > 0 && n + 1 < |s| && s[n] == '.' { AtMostFour(s[n + 1..], most - 1); }
  }

  /** A tag compares exactly when, less a newline at its end, it is of one of the three kinds. */
  lemma TagsThatCompare(tag: string)
    ensures Order(tag).Some? <==> IsFull(Chomp(tag)) || IsShort(Chomp(tag)) || IsWordy(Chomp(tag))
  {
    var t := Chomp(tag);
    if Order(tag).Some? { OrderedIsKind(t); }
    if IsFull(t) {
      var prefixed, ds, rest :| Runs(ds) && 3 <= |ds| <= 4 && (rest == "" || Suffix(rest)) && t == Spelt(prefixed, ds, rest);
      FullIsOrdered(tag, prefixed, ds, rest);
    }
    if IsShort(t) {
      var prefixed, ds :| Runs(ds) && |ds| == 2 && t == Spelt(prefixed, ds, "");
      ShortIsOrdered(tag, prefixed, ds);
    }
    if IsWordy(t) {
      var ds, word :| Runs(ds) && |ds| == 2 && Alphanumeric(word) && t == Spelt(false, ds, "-" + word);
      WordyIsOrdered(tag, ds, word);
    }
  }
}
