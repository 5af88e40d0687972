/** No word of the prose in the registry is lost, added or moved on its way into the
    comments of the template. */
module DotEnvComments {
  import opened Strings
  import opened TextLines
  import opened DotEnv
  import opened DotEnvTrip
  import opened DotEnvTemplate

  // --- words of a text ----------------------------------------------------------------------

  lemma {:induction false} WordStops(s: string)
    ensures WordEnd(s) == |s| || Space(s[WordEnd(s)])
  {
    if s != "" && !Space(s[0]) { WordStops(s[1..]); }
  }

  lemma {:induction false} WordEndIn(a: string, rest: string)
    requires rest == "" || Space(rest[0])
    ensures WordEnd(a + rest) == WordEnd(a)
  {
    if a == "" {
      assert a + rest == rest;
    } else if !Space(a[0]) {
      assert (a + rest)[1..] == a[1..] + rest;
      WordEndIn(a[1..], rest);
    }
  }

  /** The words of a text behind which a space or nothing follows, and those after it. */
  lemma {:induction false} FieldsJoin(a: string, rest: string)
    requires rest == "" || Space(rest[0])
    ensures Fields(a + rest) == Fields(a) + Fields(rest)
    decreases |a|
  {
    var s := a + rest;
    if a == "" {
      assert s == rest;
    } else if Space(a[0]) {
      assert s[1..] == a[1..] + rest;
      FieldsJoin(a[1..], rest);
    } else {
      var n := WordEnd(a);
      WordEndIn(a, rest);
      assert s[..n] == a[..n] && s[n..] == a[n..] + rest;
      FieldsJoin(a[n..], rest);
    }
  }

  lemma {:induction false} FieldsOfSpaces(s: string)
    requires forall i :: 0 <= i < |s| ==> Space(s[i])
    ensures Fields(s) == []
  {
    if s != "" { FieldsOfSpaces(s[1..]); }
  }

  lemma FieldsLess(s: string)
    requires s != "" && Space(s[|s| - 1])
    ensures Fields(s) == Fields(s[..|s| - 1])
  {
    var last := [s[|s| - 1]];
    assert s == s[..|s| - 1] + last && last[1..] == "";
    FieldsJoin(s[..|s| - 1], last);
  }

  lemma {:induction false} FieldsOfStrip(s: string)
    ensures Fields(Strip(s)) == Fields(s)
    decreases |s|
  {
    if s != "" && Space(s[0]) {
      FieldsOfStrip(s[1..]);
    } else if s != "" && Space(s[|s| - 1]) {
      FieldsLess(s);
      FieldsOfStrip(s[..|s| - 1]);
    }
  }

  lemma {:induction false} FieldsOfRStrip(s: string)
    ensures Fields(RStrip(s)) == Fields(s)
  {
    if s != "" && Space(s[|s| - 1]) {
      FieldsLess(s);
      FieldsOfRStrip(s[..|s| - 1]);
    }
  }

  /** The words of several texts, in order. */
  function Words(texts: seq<string>): seq<string> {
    if texts == [] then [] else Fields(texts[0]) + Words(texts[1..])
  }

  lemma {:induction false} WordsJoin(a: seq<string>, b: seq<string>)
    ensures Words(a + b) == Words(a) + Words(b)
  {
    if a == [] {
      assert a + b == b;
    } else {
      assert (a + b)[0] == a[0] && (a + b)[1..] == a[1..] + b;
      WordsJoin(a[1..], b);
    }
  }

  lemma {:induction false} WordsOfJoin(parts: seq<string>)
    ensures Fields(Join(parts, ' ')) == Words(parts)
  {
    if |parts| == 1 {
      assert Words(parts) == Fields(parts[0]) + [];
    } else if |parts| > 1 {
      var rest := Join(parts[1..], ' ');
      WordsOfJoin(parts[1..]);
      assert Join(parts, ' ') == parts[0] + ([' '] + rest) && ([' '] + rest)[1..] == rest;
      FieldsJoin(parts[0], [' '] + rest);
    }
  }

  /** The words of a text are those of its lines. */
  lemma {:induction false} WordsOfLines(s: string)
    ensures Words(Lines(s, true)) == Fields(s)
    decreases |s|
  {
    var n := LineEnd(s, true);
    if s != "" && n < |s| {
      var m := Past(s, n);
      var line, rest := s[..n], s[m..];
      WordsOfLines(rest);
      BreakIsSpace(s[n]);
      assert Lines(s, true)[0] == line && Lines(s, true)[1..] == Lines(rest, true);
      assert s == line + s[n..];
      FieldsJoin(line, s[n..]);
      assert s[n..][1..] == s[n + 1..];
      if m == n + 2 { assert s[n + 1..][0] == '\n' && s[n + 1..][1..] == s[m..]; }
    } else if s != "" {
      assert Lines(s, true) == [s] && [s][1..] == [];
      assert Words([s]) == Fields(s) + [];
    }
  }

  lemma BreakIsSpace(c: char)
    requires Break(c, true)
    ensures Space(c)
  {
  }

  lemma {:induction false} WordsOfStripped(s: string)
    ensures Fields(StripOf(s, '\n')) == Fields(s)
    decreases |s|
  {
    if s != "" && s[0] == '\n' {
      WordsOfStripped(s[1..]);
    } else if s != "" && s[|s| - 1] == '\n' {
      FieldsLess(s);
      WordsOfStripped(s[..|s| - 1]);
    }
  }

  // --- what a comment says ----------------------------------------------------------------------

  /** The words of the comment lines among `lines`, less the "#". */
  function Says(lines: seq<string>): seq<string> {
    if lines == [] then []
    else (if lines[0] != "" && lines[0][0] == '#' then Fields(lines[0][1..]) else []) + Says(lines[1..])
  }

  lemma {:induction false} SaysJoin(a: seq<string>, b: seq<string>)
    ensures Says(a + b) == Says(a) + Says(b)
  {
    if a == [] {
      assert a + b == b;
    } else {
      assert (a + b)[0] == a[0] && (a + b)[1..] == a[1..] + b;
      SaysJoin(a[1..], b);
    }
  }

  /** Wrapping a paragraph loses none of its words. */
  ghost predicate KeepsWords(wrap: string -> seq<string>) {
    forall s: string :: Words(wrap(s)) == Fields(s)
  }

  lemma SaysOne(line: string)
    ensures Says([line]) == if line != "" && line[0] == '#' then Fields(line[1..]) else []
  {
    assert [line][1..] == [];
  }

  lemma FieldsBehindHash(chunk: string)
    ensures Fields(("# " + chunk)[1..]) == Fields(chunk)
  {
    assert ("# " + chunk)[1..] == [' '] + chunk && ([' '] + chunk)[1..] == chunk;
  }

  lemma {:induction false} HashedSays(chunks: seq<string>)
    ensures Says(Hashed(chunks)) == Words(chunks)
  {
    if chunks != [] {
      HashedSays(chunks[1..]);
      FieldsBehindHash(chunks[0]);
      assert Hashed(chunks)[1..] == Hashed(chunks[1..]) && ("# " + chunks[0])[0] == '#';
    }
  }

  lemma FlushedSays(wrap: string -> seq<string>, paragraph: seq<string>)
    requires KeepsWords(wrap)
    ensures Says(Flushed(wrap, paragraph)) == Words(paragraph)
  {
    if paragraph != [] {
      HashedSays(wrap(Join(paragraph, ' ')));
      WordsOfJoin(paragraph);
    }
  }

  lemma VerbatimSays(line: string)
    requires Strip(line) != ""
    ensures Says([RStrip("# " + line)]) == Fields(line)
  {
    var s := "# " + line;
    HashStays(s);
    SaysOne(RStrip(s));
    FieldsBehindHash(line);
    TailOfRStrip(s);
    FieldsOfRStrip(s[1..]);
  }

  lemma {:induction false} HashStays(s: string)
    requires s != "" && s[0] == '#'
    ensures RStrip(s) != "" && RStrip(s)[0] == '#'
  {
    if Space(s[|s| - 1]) { HashStays(s[..|s| - 1]); }
  }

  lemma {:induction false} TailOfRStrip(s: string)
    requires s != "" && s[0] == '#'
    ensures RStrip(s) != "" && RStrip(s)[1..] == RStrip(s[1..])
  {
    if Space(s[|s| - 1]) {
      TailOfRStrip(s[..|s| - 1]);
      assert s[..|s| - 1][1..] == s[1..][..|s| - 2];
    }
  }

  lemma {:induction false} CommentedSays(wrap: string -> seq<string>, lines: seq<string>, paragraph: seq<string>)
    requires KeepsWords(wrap)
    ensures Says(Commented(wrap, lines, paragraph)) == Words(paragraph) + Words(lines)
    decreases |lines|
  {
    FlushedSays(wrap, paragraph);
    if lines == [] {
      assert Words(paragraph) + [] == Words(paragraph);
    } else {
      var line, rest, flushed := lines[0], lines[1..], Flushed(wrap, paragraph);
      FieldsOfStrip(line);
      if Strip(line) == "" {
        CommentedSays(wrap, rest, []);
        SaysOne("#");
        Behind(flushed, "#", Commented(wrap, rest, []), Words(paragraph), Fields(line), Words(rest));
      } else if line[0] == ' ' || line[0] == '\t' {
        CommentedSays(wrap, rest, []);
        VerbatimSays(line);
        Behind(flushed, RStrip("# " + line), Commented(wrap, rest, []), Words(paragraph), Fields(line), Words(rest));
      } else {
        CommentedSays(wrap, rest, paragraph + [Strip(line)]);
        OneMoreWords(paragraph, line, Words(rest));
      }
    }
  }

  lemma SaysThree(a: seq<string>, b: seq<string>, c: seq<string>)
    ensures Says(a + b + c) == Says(a) + Says(b) + Says(c)
  {
    SaysJoin(a + b, c);
    SaysJoin(a, b);
  }

  lemma Behind(flushed: seq<string>, line: string, more: seq<string>, a: seq<string>, b: seq<string>, c: seq<string>)
    requires Says(flushed) == a && Says([line]) == b && Says(more) == [] + c
    ensures Says(flushed + [line] + more) == a + (b + c)
  {
    SaysThree(flushed, [line], more);
  }

  lemma OneMoreWords(paragraph: seq<string>, line: string, more: seq<string>)
    ensures Words(paragraph + [Strip(line)]) + more == Words(paragraph) + (Fields(line) + more)
  {
    WordsJoin(paragraph, [Strip(line)]);
    FieldsOfStrip(line);
    WordsOne(Strip(line));
    InThree(Words(paragraph), Fields(line), more);
  }

  lemma WordsOne(text: string)
    ensures Words([text]) == Fields(text)
  {
    assert [text][1..] == [];
    assert Fields(text) + [] == Fields(text);
  }

  lemma InThree(a: seq<string>, b: seq<string>, c: seq<string>)
    ensures a + b + c == a + (b + c)
  {
  }

  /** A comment says its text's words, in order, and no others. */
  lemma CommentSaysItsText(wrap: string -> seq<string>, text: string)
    requires KeepsWords(wrap)
    ensures Says(Comment(wrap, text)) == Fields(text)
  {
    var lines := Lines(StripOf(text, '\n'), true);
    CommentedSays(wrap, lines, []);
    WordsOfLines(StripOf(text, '\n'));
    WordsOfStripped(text);
    assert Words([]) + Words(lines) == Words(lines);
  }

  /** The comments before a key say its help, its options and its example. */
  lemma ProseSaysTheKnob(reg: Registry, k: Knob, h: Home)
    requires KeepsWords(reg.wrap)
    ensures Says(Prose(reg, k, h)) ==
            Fields(k.help)
            + (if h.options == [] then [] else Fields("One of: " + JoinComma(h.options) + "."))
            + (if h.example == "" then [] else Fields("For example: " + h.example))
  {
    var help := Comment(reg.wrap, k.help);
    var options, example := "One of: " + JoinComma(h.options) + ".", "For example: " + h.example;
    var first, second := if h.options == [] then [] else Comment(reg.wrap, options), if h.example == "" then [] else Comment(reg.wrap, example);
    CommentSaysItsText(reg.wrap, k.help);
    CommentSaysItsText(reg.wrap, options);
    CommentSaysItsText(reg.wrap, example);
    SaysOne("");
    SaysJoin([""], help);
    SaysThree([""] + help, first, second);
    assert Prose(reg, k, h) == [""] + help + first + second;
    assert [] + Fields(k.help) == Fields(k.help);
  }

  // --- the whole template ----------------------------------------------------------------------

  /** A heading is the title between dashes, filled up to column 78. */
  lemma HeadingIs(title: string)
    ensures var s, lead := Heading(title), "# --- " + title + " ";
            && lead <= s && |s| == (if |lead| < 78 then 78 else |lead|) && forall i :: |lead| <= i < |s| ==> s[i] == '-'
  {
  }

  /** A section's knobs are those that name it, in the registry's order. */
  lemma {:induction false} InSectionJoins(a: seq<Knob>, b: seq<Knob>, name: string)
    ensures InSection(a + b, name) == InSection(a, name) + InSection(b, name)
  {
    if a == [] {
      assert a + b == b;
    } else {
      assert (a + b)[0] == a[0] && (a + b)[1..] == a[1..] + b;
      InSectionJoins(a[1..], b, name);
    }
  }

  lemma InSectionOne(k: Knob, name: string)
    ensures InSection([k], name) == if k.env.Some? && k.env.value.section == name then [k] else []
  {
    assert [k][1..] == [];
  }

  /** What a knob's comments have to say, then its section's, then the whole registry's. */
  function KnobWords(k: Knob): seq<string>
    requires k.env.Some?
  {
    var h := k.env.value;
    Fields(k.help)
    + (if h.options == [] then [] else Fields("One of: " + JoinComma(h.options) + "."))
    + (if h.example == "" then [] else Fields("For example: " + h.example))
  }

  function KnobsWords(knobs: seq<Knob>): seq<string>
    requires forall i :: 0 <= i < |knobs| ==> knobs[i].env.Some?
  {
    if knobs == [] then [] else KnobWords(knobs[0]) + KnobsWords(knobs[1..])
  }

  function SectionWords(reg: Registry, s: Section): seq<string> {
    Fields(Heading(s.title)[1..]) + Fields(s.doc) + KnobsWords(InSection(reg.config, s.name))
  }

  function SectionsWords(reg: Registry, sections: seq<Section>): seq<string> {
    if sections == [] then [] else SectionWords(reg, sections[0]) + SectionsWords(reg, sections[1..])
  }

  ghost predicate Keyed(knobs: seq<Knob>) {
    forall i :: 0 <= i < |knobs| ==> knobs[i].env.Some? && IsKey(knobs[i].key)
  }

  lemma {:induction false} KnobsSay(reg: Registry, knobs: seq<Knob>)
    requires KeepsWords(reg.wrap) && Keyed(knobs)
    ensures Says(KnobsLines(reg, knobs)) == KnobsWords(knobs)
  {
    if knobs != [] {
      var k, h, rest := knobs[0], knobs[0].env.value, KnobsLines(reg, knobs[1..]);
      var line := k.key + "=" + h.value;
      KnobsSay(reg, knobs[1..]);
      ProseSaysTheKnob(reg, k, h);
      assert line[0] == if k.key == "" then '=' else k.key[0];
      SaysOne(line);
      SaysThree(Prose(reg, k, h), [line], rest);
      assert KnobWords(k) + [] == KnobWords(k);
    }
  }

  lemma LeadSays(reg: Registry, s: Section)
    requires KeepsWords(reg.wrap)
    ensures Says(Lead(reg, s)) == Fields(Heading(s.title)[1..]) + Fields(s.doc)
  {
    var head, doc := Heading(s.title), if s.doc == "" then [] else ["#"] + Comment(reg.wrap, s.doc);
    assert head[0] == '#';
    HeadSays(head);
    DocSays(reg, s.doc);
    SaysJoin(["", head], doc);
  }

  lemma HeadSays(head: string)
    requires head != "" && head[0] == '#'
    ensures Says(["", head]) == Fields(head[1..])
  {
    SaysOne(head);
    assert ["", head][1..] == [head];
    assert [] + Fields(head[1..]) == Fields(head[1..]);
  }

  lemma DocSays(reg: Registry, doc: string)
    requires KeepsWords(reg.wrap)
    ensures Says(if doc == "" then [] else ["#"] + Comment(reg.wrap, doc)) == Fields(doc)
  {
    var lines := Comment(reg.wrap, doc);
    CommentSaysItsText(reg.wrap, doc);
    SaysOne("#");
    SaysJoin(["#"], lines);
    assert Fields("#"[1..]) == [] && Fields("") == [];
    assert [] + Says(lines) == Says(lines);
  }

  lemma {:induction false} SectionsSay(reg: Registry, sections: seq<Section>)
    requires Declared(reg) && KeepsWords(reg.wrap)
    ensures Says(SectionsLines(reg, sections)) == SectionsWords(reg, sections)
  {
    if sections != [] {
      var s := sections[0];
      var knobs := InSection(reg.config, s.name);
      SectionsSay(reg, sections[1..]);
      LeadSays(reg, s);
      InSectionFits(reg, s.name);
      KnobsSay(reg, knobs);
      SaysThree(Lead(reg, s), KnobsLines(reg, knobs), SectionsLines(reg, sections[1..]));
    }
  }

  /** The template says what the registry does, in order, and no more: its header, then of
      each section the heading, the explanation and its knobs' prose. */
  lemma TemplateSaysTheRegistry(reg: Registry)
    requires Declared(reg) && KeepsWords(reg.wrap)
    ensures Says(RenderLines(reg)) == Fields(reg.header) + SectionsWords(reg, reg.sections)
  {
    CommentSaysItsText(reg.wrap, reg.header);
    SectionsSay(reg, reg.sections);
    SaysJoin(Comment(reg.wrap, reg.header), SectionsLines(reg, reg.sections));
  }
}
