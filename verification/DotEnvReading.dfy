/** What a `.env` line says, on its text, and what the printer keeps of a template. */
module DotEnvReading {
  import opened Strings
  import opened TextLines
  import opened DotEnv
  import opened DotEnvTrip

  // --- one line ----------------------------------------------------------------------------

  /** A key as it can be written: no spaces around it, no "=", and no "#" before it. */
  predicate Name(k: string) {
    k != "" && Trimmed(k) && '=' !in k && k[0] != '#'
  }

  lemma NameLine(k: string, b: string, rest: string)
    requires Name(k) && Spaces(b)
    ensures var line := k + b + "=" + rest;
            '=' in line && line[0] != '#' && Find(line, '=') == |k + b| && line[..|k + b|] == k + b && line[|k + b| + 1..] == rest
  {
    var line := k + b + "=" + rest;
    forall i | 0 <= i < |b| ensures b[i] != '=' { assert Space(b[i]) && !Space('='); }
    assert '=' !in k + b;
    FindBehind(k + b, rest);
    assert line == (k + b) + "=" + rest;
  }

  /** The line without its outer spaces: the key, its "=", the value as it is written. */
  lemma LineStripped(a: string, k: string, b: string, c: string, w: string, d: string)
    requires Name(k) && Spaces(a) && Spaces(b) && Spaces(c) && Spaces(d) && Trimmed(w)
    ensures PairOf(a + (k + b + "=" + (c + w)) + d) == Some(Pair(k, Unquoted(w)))
  {
    var line, raw := k + b + "=" + (c + w), a + (k + b + "=" + (c + w)) + d;
    NameLine(k, b, c + w);
    assert "" + k + b == k + b && c + w + "" == c + w;
    StripAround("", k, b);
    StripAround(c, w, "");
    if w != "" {
      assert line[|line| - 1] == w[|w| - 1];
      StripAround(a, line, d);
    } else {
      var bare := k + b + "=";
      assert Trimmed(bare) && raw == a + bare + (c + d) && c + "" == c;
      StripAround(a, bare, c + d);
      NameLine(k, b, "");
      assert "" + "" + "" == "";
      StripTrims("");
    }
  }

  /** `KEY = "value"` gives the value between the quotes, whatever it is, double or single. */
  lemma QuotedIsRead(a: string, k: string, b: string, c: string, q: char, v: string, d: string)
    requires Name(k) && Spaces(a) && Spaces(b) && Spaces(c) && Spaces(d) && (q == '"' || q == '\'')
    ensures PairOf(a + (k + b + "=" + (c + ([q] + v + [q]))) + d) == Some(Pair(k, v))
  {
    var w := [q] + v + [q];
    assert w[0] == q && w[|w| - 1] == q && w[1..|w| - 1] == v;
    LineStripped(a, k, b, c, w, d);
  }

  /** Without matching quotes around it a value is what is written, less the outer spaces. */
  lemma BareIsRead(a: string, k: string, b: string, c: string, v: string, d: string)
    requires Name(k) && Spaces(a) && Spaces(b) && Spaces(c) && Spaces(d) && Trimmed(v)
    requires |v| < 2 || v[0] != v[|v| - 1] || (v[0] != '"' && v[0] != '\'')
    ensures PairOf(a + (k + b + "=" + (c + v)) + d) == Some(Pair(k, v))
  {
    LineStripped(a, k, b, c, v, d);
  }

  lemma {:induction false} StripKeepsSign(s: string)
    ensures '=' in Strip(s) <==> '=' in s
    decreases |s|
  {
    if s != "" && Space(s[0]) {
      StripKeepsSign(s[1..]);
      assert s == [s[0]] + s[1..] && !Space('=');
    } else if s != "" && Space(s[|s| - 1]) {
      StripKeepsSign(s[..|s| - 1]);
      assert s == s[..|s| - 1] + [s[|s| - 1]] && !Space('=');
    }
  }

  lemma {:induction false} StripFront(s: string, i: nat)
    requires i <= |s| && Spaces(s[..i]) && (i < |s| ==> !Space(s[i]))
    ensures if i == |s| then Strip(s) == "" else Strip(s) != "" && Strip(s)[0] == s[i]
    decreases i
  {
    if i > 0 {
      assert s[..i][0] == s[0] && s[1..][..i - 1] == s[..i][1..];
      StripFront(s[1..], i - 1);
    } else if s != "" {
      StripFirst(s);
    }
  }

  /** A line gives no pair exactly when it is blank, its first character but spaces is "#",
      or it has no "=". */
  lemma NoPairIs(raw: string, i: nat)
    requires i <= |raw| && Spaces(raw[..i]) && (i < |raw| ==> !Space(raw[i]))
    ensures PairOf(raw) == None <==> i == |raw| || raw[i] == '#' || '=' !in raw
  {
    StripFront(raw, i);
    StripKeepsSign(raw);
  }

  // --- the template --------------------------------------------------------------------------

  /** Every line of the template is printed in its place: a key's with that key, any other
      as it is. */
  lemma {:induction false} TemplateIsKept(lines: seq<string>, kept: seq<Pair>, values: map<string, string>, i: nat)
    requires i < |lines|
    ensures |Filled(lines, kept, values)| == |lines|
    ensures PairOf(lines[i]) == None ==> Filled(lines, kept, values)[i] == lines[i]
    ensures PairOf(lines[i]).Some? ==>
      Filled(lines, kept, values)[i] == Line(PairOf(lines[i]).value.key, Chosen(kept, values, PairOf(lines[i]).value.key))
  {
    var rest := lines[1..];
    if rest == [] {
      assert Filled(rest, kept, values) == [];
    } else {
      TemplateIsKept(rest, kept, values, if i == 0 then 0 else i - 1);
      assert i > 0 ==> rest[i - 1] == lines[i];
    }
  }

  /** A key the file has keeps what it has, where the file is kept; any other key gets what
      is given for it, and "" where nothing is. */
  lemma ChosenIs(kept: seq<Pair>, values: map<string, string>, k: string)
    ensures (exists i :: 0 <= i < |kept| && kept[i].key == k && kept[i].value == Chosen(kept, values, k)
                         && forall j :: 0 <= j < i ==> kept[j].key != k)
         || ((forall i :: 0 <= i < |kept| ==> kept[i].key != k) && Chosen(kept, values, k) == if k in values then values[k] else "")
  {
    LookupIs(kept, k);
  }

  lemma {:induction false} LookupIs(d: seq<Pair>, k: string)
    ensures Lookup(d, k) == None ==> forall i :: 0 <= i < |d| ==> d[i].key != k
    ensures Lookup(d, k).Some? ==>
      exists i :: 0 <= i < |d| && d[i].key == k && d[i].value == Lookup(d, k).value && forall j :: 0 <= j < i ==> d[j].key != k
  {
    if d != [] && d[0].key != k {
      LookupIs(d[1..], k);
      assert forall i :: 0 < i < |d| ==> d[i] == d[1..][i - 1];
      if Lookup(d, k).Some? {
        var i :| 0 <= i < |d[1..]| && d[1..][i].key == k && d[1..][i].value == Lookup(d, k).value
                 && forall j :: 0 <= j < i ==> d[1..][j].key != k;
        assert d[i + 1].key == k;
      }
    }
  }

  /** The file starts with the template's lines; behind them, where there are any, a note and
      every pair of the file whose key the template does not carry. */
  lemma FileHasTheTemplate(template: string, values: map<string, string>, disk: seq<Pair>, keep: bool)
    ensures var lines, out := Lines(template, true), EmitLines(template, values, disk, keep);
            var kept := if keep then disk else [];
            && Filled(lines, kept, values) <= out
            && (|out| > |Filled(lines, kept, values)| ==> "# Not in the template, kept as found." in out)
            && forall i :: 0 <= i < |disk| && disk[i].key !in Keys(lines) ==> Line(disk[i].key, disk[i].value) in out
  {
    var lines, out := Lines(template, true), EmitLines(template, values, disk, keep);
    var extra := Extra(disk, Keys(lines));
    if extra != [] {
      var filled := Filled(lines, if keep then disk else [], values);
      assert out == filled + (["", NOTE] + Printed(extra));
      assert out[|filled| + 1] == NOTE;
    } else {
      assert Printed(extra) == [];
    }
    forall i | 0 <= i < |disk| && disk[i].key !in Keys(lines)
      ensures Line(disk[i].key, disk[i].value) in out
    {
      ExtraHas(disk, Keys(lines), i);
      PrintedHas(extra, disk[i]);
    }
  }

  lemma {:induction false} ExtraHas(d: seq<Pair>, keys: seq<string>, i: nat)
    requires i < |d| && d[i].key !in keys
    ensures d[i] in Extra(d, keys)
  {
    if i > 0 {
      assert d[1..][i - 1] == d[i];
      ExtraHas(d[1..], keys, i - 1);
    }
  }

  lemma {:induction false} PrintedHas(pairs: seq<Pair>, p: Pair)
    requires p in pairs
    ensures Line(p.key, p.value) in Printed(pairs)
  {
    if pairs[0] != p {
      assert pairs == [pairs[0]] + pairs[1..];
      PrintedHas(pairs[1..], p);
    }
  }

  // --- the escapes -----------------------------------------------------------------------------

  /** What a reader that knows the escapes makes of a quoted value. */
  function Unescaped(s: string): string {
    if s == "" then ""
    else if s[0] == '\\' && |s| > 1 && (s[1] == '\\' || s[1] == '"') then [s[1]] + Unescaped(s[2..])
    else [s[0]] + Unescaped(s[1..])
  }

  /** Escaped, a value has no quote but behind a backslash, and unescapes to itself. */
  lemma {:induction false} EscapesUndo(v: string)
    ensures Unescaped(Escaped(v)) == v
    ensures forall i :: 0 <= i < |Escaped(v)| && Escaped(v)[i] == '"' ==> i > 0 && Escaped(v)[i - 1] == '\\'
  {
    if v != "" {
      var e, rest := Escaped(v), Escaped(v[1..]);
      EscapesUndo(v[1..]);
      assert v == [v[0]] + v[1..];
      if v[0] == '\\' || v[0] == '"' {
        assert e == ['\\', v[0]] + rest && e[2..] == rest;
      } else {
        assert e == [v[0]] + rest && e[1..] == rest;
      }
    }
  }

  /** A value with a space, a tab, "#", a quote or "$" is printed quoted and escaped; any other as it is. */
  lemma LineIs(k: string, v: string)
    ensures (' ' in v || '\t' in v || '#' in v || '"' in v || '\'' in v || '$' in v) ==>
      exists w :: Line(k, v) == k + "=\"" + w + "\"" && Unescaped(w) == v
    ensures !(' ' in v || '\t' in v || '#' in v || '"' in v || '\'' in v || '$' in v) ==> Line(k, v) == k + "=" + v
  {
    EscapesUndo(v);
    if NeedsQuotes(v) {
      assert k + "=" + ("\"" + Escaped(v) + "\"") == k + "=\"" + Escaped(v) + "\"";
    }
    forall c: char | c in v ensures exists i :: 0 <= i < |v| && v[i] == c { }
  }
}
