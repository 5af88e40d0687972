/** The `.env` round trip, and what a re-run of the printer does to the file. */
module DotEnvAgain {
  import opened Strings
  import opened TextLines
  import opened DotEnv
  import opened DotEnvTrip

  ghost predicate Singles(pairs: seq<Pair>) {
    forall i :: 0 <= i < |pairs| ==> Single(pairs[i].value, true)
  }

  ghost predicate AllReadable(pairs: seq<Pair>) {
    forall i :: 0 <= i < |pairs| ==> Readable(pairs[i].value)
  }

  /** A file's pairs as a dictionary. */
  ghost predicate IsDict(d: seq<Pair>) {
    && Sane(d) && Singles(d)
    && forall i, j :: 0 <= i < j < |d| ==> d[i].key != d[j].key
  }

  // --- what reading gives is a dictionary --------------------------------------------------

  lemma {:induction false} PairsAreSane(lines: seq<string>)
    requires AllSingle(lines)
    ensures Sane(Pairs(lines)) && Singles(Pairs(lines))
  {
    if lines != [] {
      PairsAreSane(lines[1..]);
      if PairOf(lines[0]).Some? { PairOfIsKey(lines[0]); }
    }
  }

  lemma ParseIsSane(text: string)
    ensures Sane(Parse(text)) && Singles(Parse(text))
  {
    LinesAreSingle(text);
    PairsAreSane(Lines(text, true));
  }

  lemma {:induction false} PutKeeps(d: seq<Pair>, p: Pair)
    requires IsDict(d) && IsKey(p.key) && Single(p.value, true)
    ensures IsDict(Put(d, p))
    ensures forall i :: 0 <= i < |Put(d, p)| ==> Put(d, p)[i] == p || Put(d, p)[i] in d
  {
    if d != [] && d[0].key != p.key {
      PutKeeps(d[1..], p);
      forall i | 0 <= i < |Put(d[1..], p)|
        ensures Put(d[1..], p)[i].key != d[0].key && (Put(d[1..], p)[i] == p || Put(d[1..], p)[i] in d)
      {
        if Put(d[1..], p)[i] != p {
          var j :| 0 <= j < |d[1..]| && d[1..][j] == Put(d[1..], p)[i];
          assert d[j + 1] == Put(d[1..], p)[i];
        }
      }
    }
  }

  lemma {:induction false} DictIsDict(pairs: seq<Pair>)
    requires Sane(pairs) && Singles(pairs)
    ensures IsDict(Dict(pairs))
    decreases |pairs|
  {
    if pairs != [] {
      DictIsDict(pairs[..|pairs| - 1]);
      PutKeeps(Dict(pairs[..|pairs| - 1]), pairs[|pairs| - 1]);
    }
  }

  // --- looking up ----------------------------------------------------------------------------

  lemma {:induction false} LookupPut(d: seq<Pair>, p: Pair, k: string)
    ensures Lookup(Put(d, p), k) == if k == p.key then Some(p.value) else Lookup(d, k)
  {
    if d != [] && d[0].key != p.key {
      LookupPut(d[1..], p, k);
    }
  }

  /** Where every pair of a key has the one value, that is what the dictionary has. */
  lemma {:induction false} LookupDict(pairs: seq<Pair>, k: string, v: string)
    requires forall i :: 0 <= i < |pairs| && pairs[i].key == k ==> pairs[i].value == v
    ensures (exists i :: 0 <= i < |pairs| && pairs[i].key == k) ==> Lookup(Dict(pairs), k) == Some(v)
    ensures (forall i :: 0 <= i < |pairs| ==> pairs[i].key != k) ==> Lookup(Dict(pairs), k) == None
    decreases |pairs|
  {
    if pairs != [] {
      var less, last := pairs[..|pairs| - 1], pairs[|pairs| - 1];
      LookupDict(less, k, v);
      LookupPut(Dict(less), last, k);
      if (exists i :: 0 <= i < |pairs| && pairs[i].key == k) && last.key != k {
        var i :| 0 <= i < |pairs| && pairs[i].key == k;
        assert less[i].key == k;
      }
    }
  }

  lemma {:induction false} ExtraPut(d: seq<Pair>, p: Pair, keys: seq<string>)
    ensures p.key in keys ==> Extra(Put(d, p), keys) == Extra(d, keys)
    ensures p.key !in keys && Lookup(d, p.key) == None ==> Extra(Put(d, p), keys) == Extra(d, keys) + [p]
  {
    if d != [] {
      ExtraPut(d[1..], p, keys);
    }
  }

  lemma {:induction false} NoExtra(front: seq<Pair>, keys: seq<string>)
    requires forall i :: 0 <= i < |front| ==> front[i].key in keys
    ensures Extra(Dict(front), keys) == []
    decreases |front|
  {
    if front != [] {
      NoExtra(front[..|front| - 1], keys);
      ExtraPut(Dict(front[..|front| - 1]), front[|front| - 1], keys);
    }
  }

  /** Pairs of the given keys first, each other key once after them: the others are the extra ones. */
  lemma {:induction false} ExtraDict(front: seq<Pair>, more: seq<Pair>, keys: seq<string>)
    requires forall i :: 0 <= i < |front| ==> front[i].key in keys
    requires forall i :: 0 <= i < |more| ==> more[i].key !in keys
    requires forall i, j :: 0 <= i < j < |more| ==> more[i].key != more[j].key
    ensures Extra(Dict(front + more), keys) == more
    decreases |more|
  {
    if more == [] {
      assert front + more == front;
      NoExtra(front, keys);
    } else {
      var less, last := more[..|more| - 1], more[|more| - 1];
      assert (front + more)[..|front + more| - 1] == front + less;
      ExtraDict(front, less, keys);
      NotYet(front, less, last.key, keys);
      ExtraPut(Dict(front + less), last, keys);
      assert more == less + [last];
    }
  }

  lemma NotYet(front: seq<Pair>, less: seq<Pair>, k: string, keys: seq<string>)
    requires (forall i :: 0 <= i < |front| ==> front[i].key in keys) && k !in keys
    requires forall i :: 0 <= i < |less| ==> less[i].key != k
    ensures Lookup(Dict(front + less), k) == None
  {
    LookupDict(front + less, k, "");
  }

  // --- the round trip --------------------------------------------------------------------------

  lemma {:induction false} FilledSingle(lines: seq<string>, kept: seq<Pair>, values: map<string, string>)
    requires AllSingle(lines) && Singles(Given(lines, kept, values))
    ensures AllSingle(Filled(lines, kept, values))
  {
    if lines != [] {
      var given, rest := Given(lines, kept, values), Given(lines[1..], kept, values);
      match PairOf(lines[0]) {
        case None =>
          assert given == rest;
        case Some(p) =>
          assert given[0].value == Chosen(kept, values, p.key);
          assert forall i :: 0 <= i < |rest| ==> given[i + 1] == rest[i];
          PairOfIsKey(lines[0]);
          LineSingle(p.key, Chosen(kept, values, p.key));
      }
      FilledSingle(lines[1..], kept, values);
    }
  }

  lemma {:induction false} PrintedSingle(pairs: seq<Pair>)
    requires Sane(pairs) && Singles(pairs)
    ensures AllSingle(Printed(pairs))
  {
    if pairs != [] {
      LineSingle(pairs[0].key, pairs[0].value);
      PrintedSingle(pairs[1..]);
    }
  }

  lemma EmitLinesSingle(template: string, values: map<string, string>, disk: seq<Pair>, keep: bool)
    requires Sane(disk) && Singles(Intended(template, values, disk, keep))
    ensures AllSingle(EmitLines(template, values, disk, keep))
  {
    var lines := Lines(template, true);
    var kept := if keep then disk else [];
    var given, extra := Given(lines, kept, values), Extra(disk, Keys(lines));
    var all := Intended(template, values, disk, keep);
    LinesAreSingle(template);
    assert all[..|given|] == given && all[|given|..] == extra;
    FilledSingle(lines, kept, values);
    ExtraSane(disk, Keys(lines));
    PrintedSingle(extra);
    NoteIsSingle();
  }

  /** Reading what was printed: each key with what its value reads as. */
  lemma EmitReads(template: string, values: map<string, string>, disk: seq<Pair>, keep: bool)
    requires Sane(disk) && Singles(Intended(template, values, disk, keep))
    ensures Parse(Emit(template, values, disk, keep)) == BackAll(Intended(template, values, disk, keep))
  {
    var out := EmitLines(template, values, disk, keep);
    EmitLinesSingle(template, values, disk, keep);
    EmitLinesRead(template, values, disk, keep);
    if out == [] {
      LinesMore("", "", true);
      assert "" + "\n" + "" == Emit(template, values, disk, keep);
      CommentIsNoPair("");
      PairsCons("", []);
    } else {
      LinesJoined(out);
    }
  }

  /** The round trip holds exactly when every value is one a line can carry. */
  lemma RoundTrip(template: string, values: map<string, string>, disk: seq<Pair>, keep: bool)
    requires Sane(disk)
    ensures var all := Intended(template, values, disk, keep);
            Parse(Emit(template, values, disk, keep)) == all <==> AllReadable(all)
  {
    var all := Intended(template, values, disk, keep);
    if Singles(all) {
      EmitReads(template, values, disk, keep);
      forall i | 0 <= i < |all| ensures Readable(all[i].value) <==> BackAll(all)[i] == all[i] {
        BackIsSame(all[i].value);
      }
      if AllReadable(all) {
        assert BackAll(all) == all;
      }
    } else {
      ParseIsSane(Emit(template, values, disk, keep));
    }
  }

  // --- a re-run ---------------------------------------------------------------------------------

  lemma {:induction false} GivenKeys(lines: seq<string>, kept: seq<Pair>, values: map<string, string>)
    ensures var given := Given(lines, kept, values);
            |given| == |Keys(lines)| &&
            forall i :: 0 <= i < |given| ==> given[i] == Pair(Keys(lines)[i], Chosen(kept, values, Keys(lines)[i]))
  {
    if lines != [] {
      var given, rest := Given(lines, kept, values), Given(lines[1..], kept, values);
      GivenKeys(lines[1..], kept, values);
      match PairOf(lines[0]) {
        case None =>
          assert given == rest && Keys(lines) == Keys(lines[1..]);
        case Some(p) =>
          var first := Pair(p.key, Chosen(kept, values, p.key));
          assert given == [first] + rest;
          assert Keys(lines) == [p.key] + Keys(lines[1..]);
          forall i | 0 <= i < |given|
            ensures given[i] == Pair(Keys(lines)[i], Chosen(kept, values, Keys(lines)[i]))
          {
            assert i > 0 ==> given[i] == rest[i - 1] && Keys(lines)[i] == Keys(lines[1..])[i - 1];
          }
      }
    }
  }

  /** Every template key reads back as `Back` of its value. */
  ghost predicate ReadsBack(d: seq<Pair>, kept: seq<Pair>, values: map<string, string>, keys: seq<string>) {
    forall i :: 0 <= i < |keys| ==> Lookup(d, keys[i]) == Some(Back(Chosen(kept, values, keys[i])))
  }

  ghost predicate Steady(keys: seq<string>, kept: seq<Pair>, values: map<string, string>) {
    forall i :: 0 <= i < |keys| ==> Back(Chosen(kept, values, keys[i])) == Chosen(kept, values, keys[i])
  }

  lemma SteadyCons(k: string, rest: seq<string>, kept: seq<Pair>, values: map<string, string>)
    ensures Steady([k] + rest, kept, values) <==> Back(Chosen(kept, values, k)) == Chosen(kept, values, k) && Steady(rest, kept, values)
  {
    var keys := [k] + rest;
    assert keys[0] == k;
    assert forall i :: 0 <= i < |rest| ==> keys[i + 1] == rest[i];
  }

  lemma ReadsBackCons(d: seq<Pair>, kept: seq<Pair>, values: map<string, string>, k: string, rest: seq<string>)
    requires ReadsBack(d, kept, values, [k] + rest)
    ensures Lookup(d, k) == Some(Back(Chosen(kept, values, k))) && ReadsBack(d, kept, values, rest)
  {
    var keys := [k] + rest;
    assert keys[0] == k;
    assert forall i :: 0 <= i < |rest| ==> keys[i + 1] == rest[i];
  }

  lemma {:induction false} FilledAgain(lines: seq<string>, kept: seq<Pair>, values: map<string, string>, d: seq<Pair>, other: map<string, string>)
    requires ReadsBack(d, kept, values, Keys(lines))
    ensures |Filled(lines, d, other)| == |Filled(lines, kept, values)|
    ensures Filled(lines, d, other) == Filled(lines, kept, values) <==> Steady(Keys(lines), kept, values)
  {
    if lines != [] {
      var rest := Keys(lines[1..]);
      FilledHeads(lines, kept, values, d, other);
      match PairOf(lines[0]) {
        case None =>
          assert Keys(lines) == rest;
        case Some(p) =>
          assert Keys(lines) == [p.key] + rest;
          ReadsBackCons(d, kept, values, p.key, rest);
          SteadyCons(p.key, rest, kept, values);
          LineBack(p.key, Chosen(kept, values, p.key));
      }
      FilledAgain(lines[1..], kept, values, d, other);
    }
  }

  lemma {:induction false} FilledLength(lines: seq<string>, kept: seq<Pair>, values: map<string, string>)
    ensures |Filled(lines, kept, values)| == |lines|
  {
    if lines != [] { FilledLength(lines[1..], kept, values); }
  }

  lemma FilledHeads(lines: seq<string>, kept: seq<Pair>, values: map<string, string>, d: seq<Pair>, other: map<string, string>)
    requires lines != []
    ensures |Filled(lines, d, other)| == |lines| == |Filled(lines, kept, values)|
    ensures Filled(lines, d, other) == Filled(lines, kept, values) <==>
            (PairOf(lines[0]).Some? ==> Line(PairOf(lines[0]).value.key, Chosen(d, other, PairOf(lines[0]).value.key))
                                        == Line(PairOf(lines[0]).value.key, Chosen(kept, values, PairOf(lines[0]).value.key)))
            && Filled(lines[1..], d, other) == Filled(lines[1..], kept, values)
  {
    FilledLength(lines, d, other);
    FilledLength(lines, kept, values);
    var a, b := Filled(lines, d, other), Filled(lines, kept, values);
    assert a == [a[0]] + Filled(lines[1..], d, other) && b == [b[0]] + Filled(lines[1..], kept, values);
    assert a == b ==> a[1..] == b[1..];
  }

  /** Each of these values prints as it reads. */
  ghost predicate Unmoved(pairs: seq<Pair>) {
    forall i :: 0 <= i < |pairs| ==> Back(pairs[i].value) == pairs[i].value
  }

  lemma UnmovedCons(p: Pair, rest: seq<Pair>)
    ensures Unmoved([p] + rest) <==> Back(p.value) == p.value && Unmoved(rest)
  {
    var all := [p] + rest;
    assert all[0] == p;
    assert forall i :: 0 <= i < |rest| ==> all[i + 1] == rest[i];
  }

  lemma {:induction false} PrintedAgain(pairs: seq<Pair>)
    ensures |Printed(BackAll(pairs))| == |Printed(pairs)|
    ensures Printed(BackAll(pairs)) == Printed(pairs) <==> Unmoved(pairs)
  {
    if pairs != [] {
      var p, rest := pairs[0], pairs[1..];
      assert pairs == [p] + rest;
      PrintedAgain(rest);
      UnmovedCons(p, rest);
      LineBack(p.key, p.value);
      HeadAndTail(Line(p.key, Back(p.value)), Printed(BackAll(rest)), Line(p.key, p.value), Printed(rest));
    }
  }

  lemma HeadAndTail(x: string, xs: seq<string>, y: string, ys: seq<string>)
    ensures [x] + xs == [y] + ys <==> x == y && xs == ys
  {
    var a, b := [x] + xs, [y] + ys;
    assert a[0] == x && b[0] == y && a[1..] == xs && b[1..] == ys;
  }

  /** What the file reads as, as the dictionary the next run starts from. */
  lemma NextDisk(template: string, values: map<string, string>, disk: seq<Pair>, keep: bool)
    requires IsDict(disk) && Singles(Intended(template, values, disk, keep))
    ensures var lines, kept := Lines(template, true), if keep then disk else [];
            var d := Dict(Parse(Emit(template, values, disk, keep)));
            ReadsBack(d, kept, values, Keys(lines)) && Extra(d, Keys(lines)) == BackAll(Extra(disk, Keys(lines))) && IsDict(d)
  {
    var lines, kept := Lines(template, true), if keep then disk else [];
    var given, extra := Given(lines, kept, values), Extra(disk, Keys(lines));
    var text := Emit(template, values, disk, keep);
    EmitReads(template, values, disk, keep);
    BackJoin(given, extra);
    GivenKeys(lines, kept, values);
    ExtraSane(disk, Keys(lines));
    ExtraApart(disk, Keys(lines));
    ExtraDict(BackAll(given), BackAll(extra), Keys(lines));
    ParseIsSane(text);
    DictIsDict(Parse(text));
    forall i | 0 <= i < |Keys(lines)|
      ensures Lookup(Dict(Parse(text)), Keys(lines)[i]) == Some(Back(Chosen(kept, values, Keys(lines)[i])))
    {
      GivenFound(lines, kept, values, extra, i);
    }
  }

  lemma GivenFound(lines: seq<string>, kept: seq<Pair>, values: map<string, string>, extra: seq<Pair>, i: nat)
    requires i < |Keys(lines)| && forall j :: 0 <= j < |extra| ==> extra[j].key !in Keys(lines)
    ensures Lookup(Dict(BackAll(Given(lines, kept, values)) + BackAll(extra)), Keys(lines)[i])
            == Some(Back(Chosen(kept, values, Keys(lines)[i])))
  {
    var k := Keys(lines)[i];
    GivenKeys(lines, kept, values);
    var all := BackAll(Given(lines, kept, values)) + BackAll(extra);
    assert all[i].key == k;
    LookupDict(all, k, Back(Chosen(kept, values, k)));
  }

  lemma {:induction false} ExtraApart(d: seq<Pair>, keys: seq<string>)
    requires IsDict(d)
    ensures forall i, j :: 0 <= i < j < |Extra(d, keys)| ==> Extra(d, keys)[i].key != Extra(d, keys)[j].key
  {
    if d != [] {
      ExtraApart(d[1..], keys);
      ExtraSane(d[1..], keys);
      var rest := Extra(d[1..], keys);
      forall i | 0 <= i < |rest| ensures rest[i].key != d[0].key {
        var j :| 0 <= j < |d[1..]| && d[1..][j] == rest[i];
        assert d[j + 1] == rest[i];
      }
    }
  }

  lemma AssembledAgain(lines: seq<string>, kept: seq<Pair>, values: map<string, string>, extra: seq<Pair>,
                       d: seq<Pair>, other: map<string, string>)
    requires ReadsBack(d, kept, values, Keys(lines))
    ensures var a, b := Assembled(Filled(lines, d, other), Printed(BackAll(extra))), Assembled(Filled(lines, kept, values), Printed(extra));
            |a| == |b| && (a == b <==> Unmoved(Given(lines, kept, values) + extra))
  {
    FilledAgain(lines, kept, values, d, other);
    PrintedAgain(extra);
    SteadyParts(lines, kept, values, extra);
    SameParts(Filled(lines, d, other), Filled(lines, kept, values), Printed(BackAll(extra)), Printed(extra));
  }

  lemma SteadyParts(lines: seq<string>, kept: seq<Pair>, values: map<string, string>, extra: seq<Pair>)
    ensures var all := Given(lines, kept, values) + extra;
            Unmoved(all) <==> Steady(Keys(lines), kept, values) && Unmoved(extra)
  {
    GivenKeys(lines, kept, values);
    UnmovedParts(Given(lines, kept, values), extra);
  }

  lemma UnmovedParts(a: seq<Pair>, b: seq<Pair>)
    ensures Unmoved(a + b) <==> Unmoved(a) && Unmoved(b)
  {
    var all := a + b;
    if Unmoved(all) {
      forall i | 0 <= i < |b| ensures Back(b[i].value) == b[i].value { assert all[|a| + i] == b[i]; }
      forall i | 0 <= i < |a| ensures Back(a[i].value) == a[i].value { assert all[i] == a[i]; }
    }
  }

  lemma SameParts(a: seq<string>, b: seq<string>, c: seq<string>, d: seq<string>)
    requires |a| == |b| && |c| == |d|
    ensures |Assembled(a, c)| == |Assembled(b, d)|
    ensures Assembled(a, c) == Assembled(b, d) <==> a == b && c == d
  {
    if c != [] {
      var x, y := Assembled(a, c), Assembled(b, d);
      assert x[..|a|] == a && y[..|a|] == b && x[|a| + 2..] == c && y[|a| + 2..] == d;
    }
  }

  lemma SameText(a: seq<string>, b: seq<string>)
    requires |a| == |b| && AllSingle(a) && AllSingle(b)
    ensures Join(a, '\n') + "\n" == Join(b, '\n') + "\n" <==> a == b
  {
    if a != [] {
      LinesJoined(a);
      LinesJoined(b);
    }
  }

  lemma NextSingles(template: string, values: map<string, string>, disk: seq<Pair>, keep: bool, other: map<string, string>, d: seq<Pair>)
    requires Singles(Intended(template, values, disk, keep))
    requires var lines, kept := Lines(template, true), if keep then disk else [];
             ReadsBack(d, kept, values, Keys(lines)) && Extra(d, Keys(lines)) == BackAll(Extra(disk, Keys(lines)))
    ensures Singles(Intended(template, other, d, true))
  {
    var lines, kept := Lines(template, true), if keep then disk else [];
    var was, now := Intended(template, values, disk, keep), Intended(template, other, d, true);
    GivenKeys(lines, kept, values);
    GivenKeys(lines, d, other);
    forall i | 0 <= i < |now| ensures Single(now[i].value, true) {
      BackIsSame(was[i].value);
      assert now[i].value == Back(was[i].value);
    }
  }

  /** A re-run that keeps what is in the file, whatever it is given, leaves the file as it
      is exactly when every value in it is one a line can carry. */
  lemma RerunIsQuiet(template: string, values: map<string, string>, disk: seq<Pair>, keep: bool, other: map<string, string>)
    requires IsDict(disk) && Singles(Intended(template, values, disk, keep))
    ensures var text := Emit(template, values, disk, keep);
            Emit(template, other, Dict(Parse(text)), true) == text <==> AllReadable(Intended(template, values, disk, keep))
  {
    var d := Dict(Parse(Emit(template, values, disk, keep)));
    var all := Intended(template, values, disk, keep);
    NextDisk(template, values, disk, keep);
    AssembledAgain(Lines(template, true), if keep then disk else [], values, Extra(disk, Keys(Lines(template, true))), d, other);
    NextSingles(template, values, disk, keep, other, d);
    EmitLinesSingle(template, values, disk, keep);
    EmitLinesSingle(template, other, d, true);
    SameText(EmitLines(template, other, d, true), EmitLines(template, values, disk, keep));
    forall i | 0 <= i < |all| ensures Readable(all[i].value) <==> Back(all[i].value) == all[i].value {
      BackIsSame(all[i].value);
    }
  }

  /** What a run that keeps the file's values found there is there afterwards. */
  lemma NothingKeptIsLost(template: string, values: map<string, string>, disk: seq<Pair>, k: string)
    requires IsDict(disk) && AllReadable(Intended(template, values, disk, true))
    ensures Lookup(disk, k).Some? ==> Lookup(Dict(Parse(Emit(template, values, disk, true))), k) == Lookup(disk, k)
  {
    var keys := Keys(Lines(template, true));
    var d := Dict(Parse(Emit(template, values, disk, true)));
    var all := Intended(template, values, disk, true);
    NextDisk(template, values, disk, true);
    RoundTrip(template, values, disk, true);
    if Lookup(disk, k).Some? {
      if k in keys {
        GivenKeys(Lines(template, true), disk, values);
        var i :| 0 <= i < |keys| && keys[i] == k;
        assert all[i] == Pair(k, Lookup(disk, k).value);
        BackIsSame(Lookup(disk, k).value);
      } else {
        ExtraStands(Lines(template, true), values, disk, k);
      }
    }
  }

  lemma ExtraStands(lines: seq<string>, values: map<string, string>, disk: seq<Pair>, k: string)
    requires IsDict(disk) && Lookup(disk, k).Some? && k !in Keys(lines)
    ensures Lookup(Dict(Given(lines, disk, values) + Extra(disk, Keys(lines))), k) == Lookup(disk, k)
  {
    var v, keys := Lookup(disk, k).value, Keys(lines);
    var given, extra := Given(lines, disk, values), Extra(disk, keys);
    GivenKeys(lines, disk, values);
    LookupIn(disk, k);
    ExtraFinds(disk, keys, Pair(k, v));
    OnlyOne(disk, keys, k, v);
    var i :| 0 <= i < |extra| && extra[i] == Pair(k, v);
    assert (given + extra)[|given| + i] == Pair(k, v);
    LookupDict(given + extra, k, v);
  }

  lemma {:induction false} LookupIn(d: seq<Pair>, k: string)
    requires Lookup(d, k).Some?
    ensures Pair(k, Lookup(d, k).value) in d
  {
    if d[0].key != k {
      LookupIn(d[1..], k);
      var i :| 0 <= i < |d[1..]| && d[1..][i] == Pair(k, Lookup(d, k).value);
      assert d[i + 1] == Pair(k, Lookup(d, k).value);
    }
  }

  lemma {:induction false} ExtraFinds(d: seq<Pair>, keys: seq<string>, p: Pair)
    requires p in d && p.key !in keys
    ensures p in Extra(d, keys)
  {
    if d[0] != p {
      var i :| 0 <= i < |d| && d[i] == p;
      assert d[1..][i - 1] == p;
      ExtraFinds(d[1..], keys, p);
    }
  }

  lemma OnlyOne(d: seq<Pair>, keys: seq<string>, k: string, v: string)
    requires IsDict(d) && Pair(k, v) in d
    ensures forall i :: 0 <= i < |Extra(d, keys)| && Extra(d, keys)[i].key == k ==> Extra(d, keys)[i].value == v
  {
    ExtraSane(d, keys);
  }

  // --- the other reader --------------------------------------------------------------------------

  lemma {:induction false} SameEnds(s: string)
    requires forall i :: 0 <= i < |s| && Break(s[i], true) ==> Break(s[i], false)
    ensures LineEnd(s, true) == LineEnd(s, false)
  {
    if s != "" && !Break(s[0], true) { SameEnds(s[1..]); }
  }

  lemma {:induction false} SameLines(s: string)
    requires forall i :: 0 <= i < |s| && Break(s[i], true) ==> Break(s[i], false)
    ensures Lines(s, true) == Lines(s, false)
    decreases |s|
  {
    SameEnds(s);
    var n := LineEnd(s, true);
    if n < |s| { SameLines(s[Past(s, n)..]); }
  }

  lemma {:induction false} TableIsDict(pairs: seq<Pair>, k: string)
    ensures (if k in Table(pairs) then Some(Table(pairs)[k]) else None) == Lookup(Dict(pairs), k)
    decreases |pairs|
  {
    if pairs != [] {
      TableIsDict(pairs[..|pairs| - 1], k);
      LookupPut(Dict(pairs[..|pairs| - 1]), pairs[|pairs| - 1], k);
    }
  }

  /** On text whose lines end in newlines and carriage returns alone, the two readers
      know the same keys and give each the same value. */
  lemma ReadersAgree(text: string, k: string)
    requires forall i :: 0 <= i < |text| && Break(text[i], true) ==> Break(text[i], false)
    ensures var env := Table(Pairs(Lines(text, false)));
            (if k in env then Some(env[k]) else None) == Lookup(Dict(Parse(text)), k)
  {
    SameLines(text);
    TableIsDict(Parse(text), k);
  }

  /** A vertical tab ends a line for one reader and not for the other. */
  lemma ReadersDiffer()
    ensures var text := "A=1" + "\U{0B}" + "B=2";
            Lookup(Dict(Parse(text)), "B") == Some("2") && "B" !in Table(Pairs(Lines(text, false)))
  {
    var text := "A=1" + "\U{0B}" + "B=2";
    assert text == "A" + "=" + "1" + ['\U{0B}'] + ("B" + "=" + "2");
    TabEndsLine(text, "A" + "=" + "1", "B" + "=" + "2");
    TabIsText(text);
  }

  lemma BreakEndsLine(a: string, c: char, b: string)
    requires Single(a, true) && Single(b, true) && b != "" && Break(c, true) && c != '\r'
    ensures Lines(a + [c] + b, true) == [a, b]
  {
    var text := a + [c] + b;
    assert text[..|a|] == a && text[|a|] == c && text[|a| + 1..] == b;
    LineEndAt(text, |a|);
    SingleLine(b);
  }

  lemma {:induction false} SingleLine(s: string)
    requires Single(s, true)
    ensures LineEnd(s, true) == |s| && Lines(s, true) == if s == "" then [] else [s]
  {
    if s != "" { SingleLine(s[1..]); }
  }

  lemma TabEndsLine(text: string, a: string, b: string)
    requires a == "A" + "=" + "1" && b == "B" + "=" + "2" && text == a + ['\U{0B}'] + b
    ensures Lookup(Dict(Parse(text)), "B") == Some("2")
  {
    DigitLine("A", "1");
    DigitLine("B", "2");
    BreakEndsLine(a, '\U{0B}', b);
    TwoPairs(a, b, Pair("A", "1"), Pair("B", "2"));
  }

  lemma DigitLine(k: string, v: string)
    requires IsKey(k) && |v| == 1 && '0' <= v[0] <= '9'
    ensures PairOf(k + "=" + v) == Some(Pair(k, v)) && Single(k + "=" + v, true)
  {
    DigitIsPlain(v);
    PlainLine(k, v);
  }

  lemma DigitIsPlain(v: string)
    requires |v| == 1 && '0' <= v[0] <= '9'
    ensures !NeedsQuotes(v) && Readable(v)
  {
  }

  lemma PlainLine(k: string, v: string)
    requires IsKey(k) && !NeedsQuotes(v) && Readable(v)
    ensures PairOf(k + "=" + v) == Some(Pair(k, v)) && Single(k + "=" + v, true)
  {
    PairOfLine(k, v);
    BackIsSame(v);
    LineSingle(k, v);
  }

  lemma TwoPairs(a: string, b: string, p: Pair, q: Pair)
    requires PairOf(a) == Some(p) && PairOf(b) == Some(q) && p.key != q.key
    ensures Lookup(Dict(Pairs([a, b])), q.key) == Some(q.value)
  {
    PairsCons(a, [b]);
    PairsCons(b, []);
    var all := [p, q];
    assert [a] + [b] == [a, b] && [b] + [] == [b];
    assert Pairs([a, b]) == all;
    assert all[1].key == q.key;
    LookupDict(all, q.key, q.value);
  }

  lemma TabIsText(text: string)
    requires text == "A=1" + "\U{0B}" + "B=2"
    ensures "B" !in Table(Pairs(Lines(text, false)))
  {
    var w := "1" + "\U{0B}" + "B=2";
    assert text == "A" + "=" + w;
    OneLineOneKey(text, "A", w, "B");
  }

  /** A text that is one line to the plugin gives it one key. */
  lemma OneLineOneKey(text: string, k: string, w: string, other: string)
    requires IsKey(k) && text == k + "=" + w && Trimmed(text) && Single(text, false) && other != k
    ensures other !in Table(Pairs(Lines(text, false)))
  {
    LineEndWhole(text);
    StripTrims(text);
    PairOfKey(k, text, w);
    PairsCons(text, []);
    var all := [Pair(k, Unquoted(Strip(w)))];
    assert [text] + [] == [text];
    assert Pairs(Lines(text, false)) == all;
    TableIsDict(all, other);
    LookupDict(all, other, "");
  }

  lemma {:induction false} LineEndWhole(s: string)
    requires Single(s, false)
    ensures LineEnd(s, false) == |s| && Lines(s, false) == if s == "" then [] else [s]
  {
    if s != "" { LineEndWhole(s[1..]); }
  }
}
