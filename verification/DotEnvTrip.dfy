/** Reading an inventory's `.env` back: exactly which values come back as they went in. */
module DotEnvTrip {
  import opened Strings
  import opened TextLines
  import opened DotEnv

  // --- one line -------------------------------------------------------------------------------

  /** What a line can give as a key. */
  predicate IsKey(k: string) {
    Trimmed(k) && '=' !in k && (k == "" || k[0] != '#') && Single(k, true)
  }

  /** What a printed value reads as. */
  function Back(v: string): string {
    if NeedsQuotes(v) then Escaped(v) else Strip(v)
  }

  /** The values a line can carry: on one line, and with no quote or backslash where they
      are quoted, no outer space where they are not. */
  predicate Readable(v: string) {
    && Single(v, true)
    && if NeedsQuotes(v) then '"' !in v && '\\' !in v else Trimmed(v)
  }

  lemma {:induction false} EscapedGrows(v: string)
    ensures |Escaped(v)| >= |v|
    ensures Escaped(v) == v <==> '"' !in v && '\\' !in v
    ensures |Escaped(v)| == |v| <==> '"' !in v && '\\' !in v
    ensures Escaped(v) != v ==> '\\' in Escaped(v)
    ensures NeedsQuotes(v) ==> NeedsQuotes(Escaped(v))
    ensures Single(v, true) ==> Single(Escaped(v), true)
  {
    if v != "" {
      EscapedGrows(v[1..]);
      var head := if v[0] == '\\' || v[0] == '"' then ['\\', v[0]] else [v[0]];
      assert v == [v[0]] + v[1..] && Escaped(v) == head + Escaped(v[1..]);
      SpecialParts([v[0]], v[1..]);
      SpecialParts(head, Escaped(v[1..]));
      assert head[|head| - 1] == v[0];
      assert NeedsQuotes([v[0]]) ==> NeedsQuotes(head);
    }
  }

  lemma SpecialParts(a: string, b: string)
    ensures NeedsQuotes(a + b) <==> NeedsQuotes(a) || NeedsQuotes(b)
  {
    forall i | 0 <= i < |a| ensures (a + b)[i] == a[i] {}
    forall i | 0 <= i < |b| ensures (a + b)[|a| + i] == b[i] {}
  }

  lemma StripSpecial(v: string)
    requires !NeedsQuotes(v)
    ensures !NeedsQuotes(Strip(v)) && (Single(v, true) ==> Single(Strip(v), true))
  {
    StripTrims(v);
    var w := Strip(v);
    forall i | 0 <= i < |w| ensures !Special(w[i]) && (Single(v, true) ==> !Break(w[i], true)) {
      assert w[i] in w && w[i] in v;
      var j :| 0 <= j < |v| && v[j] == w[i];
    }
  }

  lemma BackIsSame(v: string)
    requires Single(v, true)
    ensures Readable(v) <==> Back(v) == v
    ensures Single(Back(v), true)
  {
    if NeedsQuotes(v) {
      EscapedGrows(v);
    } else {
      StripTrims(v);
      StripSpecial(v);
    }
  }

  lemma {:induction false} FindBehind(k: string, w: string)
    requires '=' !in k
    ensures '=' in k + "=" + w && Find(k + "=" + w, '=') == |k|
  {
    var s := k + "=" + w;
    assert s[|k|] == '=';
    if k != "" {
      assert k[0] in k && forall c :: c in k[1..] ==> c in k;
      FindBehind(k[1..], w);
      assert s[1..] == k[1..] + "=" + w;
    }
  }

  /** The key and the value of a line that starts with a key. */
  lemma PairOfKey(k: string, line: string, w: string)
    requires IsKey(k) && Strip(line) == k + "=" + w
    ensures PairOf(line) == Some(Pair(k, Unquoted(Strip(w))))
  {
    var s := Strip(line);
    var n := Find(s, '=');
    FindBehind(k, w);
    assert s[..n] == k && s[n + 1..] == w;
    StripTrims(k);
  }

  lemma TrimmedFront(k: string)
    requires IsKey(k)
    ensures k + "=" != "" && Trimmed(k + "=")
  {
  }

  lemma PairOfLine(k: string, v: string)
    requires IsKey(k)
    ensures PairOf(Line(k, v)) == Some(Pair(k, Back(v)))
  {
    if NeedsQuotes(v) {
      var w := "\"" + Escaped(v) + "\"";
      TrimmedFront(k);
      StripTrims(k + "=" + w);
      StripTrims(w);
      PairOfKey(k, Line(k, v), w);
      assert w[1..|w| - 1] == Escaped(v);
    } else {
      TrimmedFront(k);
      var w := StripBehind(k + "=", v);
      PairOfKey(k, Line(k, v), w);
      StripSpecial(v);
      var u := Strip(v);
      assert u != "" ==> !Special(u[0]);
      assert Unquoted(u) == u;
    }
  }

  lemma PairOfIsKey(raw: string)
    requires PairOf(raw).Some? && Single(raw, true)
    ensures IsKey(PairOf(raw).value.key) && Single(PairOf(raw).value.value, true)
  {
    var line := Strip(raw);
    StripSingle(raw);
    var n := Find(line, '=');
    var key := Strip(line[..n]);
    StripTrims(raw);
    StripTrims(line[..n]);
    StripSingle(line[..n]);
    StripSingle(line[n + 1..]);
    if key != "" && n > 0 {
      assert line[..n][0] == line[0] && !Space(line[0]);
      StripFirst(line[..n]);
    }
  }

  lemma StripSingle(s: string)
    requires Single(s, true)
    ensures Single(Strip(s), true)
  {
    StripTrims(s);
    var w := Strip(s);
    forall i | 0 <= i < |w| ensures !Break(w[i], true) {
      assert w[i] in w && w[i] in s;
      var j :| 0 <= j < |s| && s[j] == w[i];
    }
  }

  /** A value that reads as another one prints as another line. */
  lemma LineBack(k: string, v: string)
    ensures Line(k, Back(v)) == Line(k, v) <==> Back(v) == v
  {
    if NeedsQuotes(v) {
      var w := Escaped(v);
      EscapedGrows(v);
      EscapedGrows(w);
      assert |Line(k, w)| == |k| + 3 + |Escaped(w)| && |Line(k, v)| == |k| + 3 + |w|;
    } else {
      StripSpecial(v);
      StripTrims(v);
      assert |Line(k, v)| == |k| + 1 + |v| && |Line(k, Strip(v))| == |k| + 1 + |Strip(v)|;
      if !Trimmed(v) { StripShorter(v); }
    }
  }

  lemma LineSingle(k: string, v: string)
    requires Single(k, true) && Single(v, true)
    ensures Single(Line(k, v), true)
  {
    EscapedGrows(v);
  }

  // --- the whole file -------------------------------------------------------------------------

  ghost predicate Sane(pairs: seq<Pair>) {
    forall i :: 0 <= i < |pairs| ==> IsKey(pairs[i].key)
  }

  function BackAll(pairs: seq<Pair>): (r: seq<Pair>)
    ensures |r| == |pairs| && forall i :: 0 <= i < |r| ==> r[i] == Pair(pairs[i].key, Back(pairs[i].value))
  {
    if pairs == [] then [] else [Pair(pairs[0].key, Back(pairs[0].value))] + BackAll(pairs[1..])
  }

  /** The template's keys with their values. */
  function Given(lines: seq<string>, kept: seq<Pair>, values: map<string, string>): seq<Pair> {
    if lines == [] then []
    else
      (match PairOf(lines[0]) case None => [] case Some(p) => [Pair(p.key, Chosen(kept, values, p.key))])
      + Given(lines[1..], kept, values)
  }

  lemma PairsCons(head: string, tail: seq<string>)
    ensures Pairs([head] + tail) == One(head) + Pairs(tail)
  {
    assert ([head] + tail)[1..] == tail;
  }

  lemma {:induction false} PairsJoin(a: seq<string>, b: seq<string>)
    ensures Pairs(a + b) == Pairs(a) + Pairs(b)
  {
    if a == [] {
      assert a + b == b;
    } else {
      var head, tail := a[0], a[1..];
      assert a == [head] + tail && a + b == [head] + (tail + b);
      PairsJoin(tail, b);
      PairsCons(head, tail);
      PairsCons(head, tail + b);
      Associate(One(head), Pairs(tail), Pairs(b));
    }
  }

  lemma Associate(x: seq<Pair>, y: seq<Pair>, z: seq<Pair>)
    ensures x + (y + z) == x + y + z
  {
  }

  lemma {:induction false} FilledReads(lines: seq<string>, kept: seq<Pair>, values: map<string, string>)
    requires AllSingle(lines)
    ensures Pairs(Filled(lines, kept, values)) == BackAll(Given(lines, kept, values))
    ensures Sane(Given(lines, kept, values))
  {
    if lines != [] {
      FilledReads(lines[1..], kept, values);
      match PairOf(lines[0]) {
        case None =>
        case Some(p) =>
          PairOfIsKey(lines[0]);
          PairOfLine(p.key, Chosen(kept, values, p.key));
      }
    }
  }

  lemma {:induction false} PrintedReads(pairs: seq<Pair>)
    requires Sane(pairs)
    ensures Pairs(Printed(pairs)) == BackAll(pairs)
  {
    if pairs != [] {
      PairOfLine(pairs[0].key, pairs[0].value);
      PrintedReads(pairs[1..]);
    }
  }

  lemma CommentIsNoPair(s: string)
    requires s == "" || s[0] == '#'
    ensures One(s) == []
  {
    if s != "" { StripFirst(s); }
  }

  lemma NoteReads(note: string, rest: seq<string>)
    requires note != "" && note[0] == '#'
    ensures Pairs(["", note] + rest) == Pairs(rest)
  {
    CommentIsNoPair("");
    CommentIsNoPair(note);
    var all := ["", note] + rest;
    assert all[0] == "" && all[1..] == [note] + rest;
    assert ([note] + rest)[0] == note && ([note] + rest)[1..] == rest;
    assert [] + Pairs(rest) == Pairs(rest);
  }

  lemma NoteIsSingle()
    ensures NOTE[0] == '#' && Single(NOTE, true)
  {
    assert forall i :: 0 <= i < |NOTE| ==> ' ' <= NOTE[i] <= 'z';
  }

  /** What the file is meant to say. */
  function Intended(template: string, values: map<string, string>, disk: seq<Pair>, keep: bool): seq<Pair> {
    Given(Lines(template, true), if keep then disk else [], values) + Extra(disk, Keys(Lines(template, true)))
  }

  lemma {:induction false} BackJoin(a: seq<Pair>, b: seq<Pair>)
    ensures BackAll(a + b) == BackAll(a) + BackAll(b)
  {
  }

  lemma {:induction false} ExtraSane(d: seq<Pair>, keys: seq<string>)
    requires Sane(d)
    ensures Sane(Extra(d, keys))
    ensures forall i :: 0 <= i < |Extra(d, keys)| ==> Extra(d, keys)[i] in d && Extra(d, keys)[i].key !in keys
  {
    if d != [] { ExtraSane(d[1..], keys); }
  }

  lemma EmitLinesRead(template: string, values: map<string, string>, disk: seq<Pair>, keep: bool)
    requires Sane(disk)
    ensures Pairs(EmitLines(template, values, disk, keep)) == BackAll(Intended(template, values, disk, keep))
  {
    var lines := Lines(template, true);
    var kept := if keep then disk else [];
    var extra := Extra(disk, Keys(lines));
    LinesAreSingle(template);
    FilledReads(lines, kept, values);
    ExtraSane(disk, Keys(lines));
    PrintedReads(extra);
    BackJoin(Given(lines, kept, values), extra);
    AssembledReads(Filled(lines, kept, values), Printed(extra));
  }

  lemma AssembledReads(filled: seq<string>, extra: seq<string>)
    ensures Pairs(Assembled(filled, extra)) == Pairs(filled) + Pairs(extra)
  {
    if extra == [] {
      assert Pairs(filled) + [] == Pairs(filled);
    } else {
      NoteIsSingle();
      NoteReads(NOTE, extra);
      PairsJoin(filled, ["", NOTE] + extra);
    }
  }
}
