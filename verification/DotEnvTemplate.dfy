/** The `.env` template that `render_knobs.py` prints, and what its readers get from it. */
module DotEnvTemplate {
  import opened Strings
  import opened TextLines
  import opened DotEnv
  import opened DotEnvTrip
  import opened DotEnvAgain

  datatype Home = Home(section: string, value: string, options: seq<string>, example: string)

  datatype Knob = Knob(key: string, help: string, env: Option<Home>)

  datatype Section = Section(name: string, title: string, doc: string)

  /** The registry, and how a paragraph is wrapped. */
  datatype Registry = Registry(header: string, sections: seq<Section>, config: seq<Knob>, wrap: string -> seq<string>)

  // --- comments ---------------------------------------------------------------------------

  function RStrip(s: string): string {
    if s != "" && Space(s[|s| - 1]) then RStrip(s[..|s| - 1]) else s
  }

  function Hashed(chunks: seq<string>): seq<string> {
    if chunks == [] then [] else ["# " + chunks[0]] + Hashed(chunks[1..])
  }

  function Flushed(wrap: string -> seq<string>, paragraph: seq<string>): seq<string> {
    if paragraph == [] then [] else Hashed(wrap(Join(paragraph, ' ')))
  }

  /** The lines of a comment from here on, with `paragraph` pending. */
  function Commented(wrap: string -> seq<string>, lines: seq<string>, paragraph: seq<string>): seq<string> {
    if lines == [] then Flushed(wrap, paragraph)
    else
      var line := lines[0];
      if Strip(line) == "" then Flushed(wrap, paragraph) + ["#"] + Commented(wrap, lines[1..], [])
      else if line[0] == ' ' || line[0] == '\t' then Flushed(wrap, paragraph) + [RStrip("# " + line)] + Commented(wrap, lines[1..], [])
      else Commented(wrap, lines[1..], paragraph + [Strip(line)])
  }

  function Comment(wrap: string -> seq<string>, text: string): seq<string> {
    Commented(wrap, Lines(StripOf(text, '\n'), true), [])
  }

  // --- the template -------------------------------------------------------------------------

  /** `"# --- <title> ".ljust(78, "-")`. */
  function Heading(title: string): string {
    var s := "# --- " + title + " ";
    s + seq(if |s| < 78 then 78 - |s| else 0, _ => '-')
  }

  /** The comments before a key. */
  function Prose(reg: Registry, k: Knob, h: Home): seq<string> {
    [""] + Comment(reg.wrap, k.help)
    + (if h.options == [] then [] else Comment(reg.wrap, "One of: " + JoinComma(h.options) + "."))
    + (if h.example == "" then [] else Comment(reg.wrap, "For example: " + h.example))
  }

  function KnobLines(reg: Registry, k: Knob, h: Home): seq<string> {
    Prose(reg, k, h) + [k.key + "=" + h.value]
  }

  /** `", ".join(options)`. */
  function JoinComma(parts: seq<string>): string {
    if parts == [] then "" else if |parts| == 1 then parts[0] else parts[0] + ", " + JoinComma(parts[1..])
  }

  /** The knobs of one section, in the registry's order. */
  function InSection(config: seq<Knob>, name: string): (r: seq<Knob>)
    ensures forall i :: 0 <= i < |r| ==> r[i].env.Some? && r[i] in config
  {
    if config == [] then []
    else (if config[0].env.Some? && config[0].env.value.section == name then [config[0]] else []) + InSection(config[1..], name)
  }

  function KnobsLines(reg: Registry, knobs: seq<Knob>): seq<string>
    requires forall i :: 0 <= i < |knobs| ==> knobs[i].env.Some?
  {
    if knobs == [] then [] else KnobLines(reg, knobs[0], knobs[0].env.value) + KnobsLines(reg, knobs[1..])
  }

  function Lead(reg: Registry, s: Section): seq<string> {
    ["", Heading(s.title)] + (if s.doc == "" then [] else ["#"] + Comment(reg.wrap, s.doc))
  }

  function SectionLines(reg: Registry, s: Section): seq<string> {
    Lead(reg, s) + KnobsLines(reg, InSection(reg.config, s.name))
  }

  function SectionsLines(reg: Registry, sections: seq<Section>): seq<string> {
    if sections == [] then [] else SectionLines(reg, sections[0]) + SectionsLines(reg, sections[1..])
  }

  function RenderLines(reg: Registry): seq<string> {
    Comment(reg.wrap, reg.header) + SectionsLines(reg, reg.sections)
  }

  function Render(reg: Registry): string {
    Join(RenderLines(reg), '\n') + "\n"
  }

  /** `env_knobs`: the knobs the file carries, in the order it prints them. */
  function EnvKnobs(reg: Registry, sections: seq<Section>): seq<Knob> {
    if sections == [] then [] else InSection(reg.config, sections[0].name) + EnvKnobs(reg, sections[1..])
  }

  lemma EnvKnobsHaveHomes(reg: Registry, sections: seq<Section>)
    ensures forall i :: 0 <= i < |EnvKnobs(reg, sections)| ==> EnvKnobs(reg, sections)[i].env.Some?
  {
  }

  function Defaults(knobs: seq<Knob>): seq<Pair>
    requires forall i :: 0 <= i < |knobs| ==> knobs[i].env.Some?
  {
    if knobs == [] then [] else [Pair(knobs[0].key, knobs[0].env.value.value)] + Defaults(knobs[1..])
  }

  /** What the registry's own checks and its format promise: a wrapped line has no break,
      titles are one line, keys are words, a default needs no quotes. */
  ghost predicate Declared(reg: Registry) {
    && (forall s: string :: Single(s, true) ==> AllSingle(reg.wrap(s)))
    && (forall i :: 0 <= i < |reg.sections| ==> Single(reg.sections[i].title, true))
    && (forall i :: 0 <= i < |reg.config| ==> IsKey(reg.config[i].key))
    && (forall i :: 0 <= i < |reg.config| && reg.config[i].env.Some? ==> !NeedsQuotes(reg.config[i].env.value.value))
  }

  // --- every comment line is one to the readers ------------------------------------------------

  ghost predicate Comments(lines: seq<string>) {
    forall i :: 0 <= i < |lines| ==> (lines[i] == "" || lines[i][0] == '#') && Single(lines[i], true)
  }

  lemma {:induction false} CommentsReadAsNothing(lines: seq<string>)
    requires Comments(lines)
    ensures Pairs(lines) == []
  {
    if lines != [] {
      CommentIsNoPair(lines[0]);
      CommentsReadAsNothing(lines[1..]);
    }
  }

  lemma {:induction false} HashedAreComments(chunks: seq<string>)
    requires AllSingle(chunks)
    ensures Comments(Hashed(chunks))
  {
    if chunks != [] { HashedAreComments(chunks[1..]); }
  }

  lemma {:induction false} JoinSingle(parts: seq<string>)
    requires AllSingle(parts)
    ensures Single(Join(parts, ' '), true)
  {
    if |parts| > 1 { JoinSingle(parts[1..]); }
  }

  lemma FlushedAreComments(reg: Registry, paragraph: seq<string>)
    requires Declared(reg) && AllSingle(paragraph)
    ensures Comments(Flushed(reg.wrap, paragraph))
  {
    if paragraph != [] {
      JoinSingle(paragraph);
      HashedAreComments(reg.wrap(Join(paragraph, ' ')));
    }
  }

  lemma {:induction false} RStripKeeps(s: string)
    requires s != "" && s[0] == '#' && Single(s, true)
    ensures RStrip(s) != "" && RStrip(s)[0] == '#' && Single(RStrip(s), true)
  {
    if Space(s[|s| - 1]) { RStripKeeps(s[..|s| - 1]); }
  }

  lemma {:induction false} CommentedAreComments(reg: Registry, lines: seq<string>, paragraph: seq<string>)
    requires Declared(reg) && AllSingle(lines) && AllSingle(paragraph)
    ensures Comments(Commented(reg.wrap, lines, paragraph))
    decreases |lines|
  {
    FlushedAreComments(reg, paragraph);
    if lines != [] {
      var line := lines[0];
      if Strip(line) == "" {
        CommentedAreComments(reg, lines[1..], []);
      } else if line[0] == ' ' || line[0] == '\t' {
        RStripKeeps("# " + line);
        CommentedAreComments(reg, lines[1..], []);
      } else {
        StripSingle(line);
        CommentedAreComments(reg, lines[1..], paragraph + [Strip(line)]);
      }
    }
  }

  lemma CommentIsComments(reg: Registry, text: string)
    requires Declared(reg)
    ensures Comments(Comment(reg.wrap, text))
  {
    LinesAreSingle(StripOf(text, '\n'));
    CommentedAreComments(reg, Lines(StripOf(text, '\n'), true), []);
  }

  lemma HeadingIsComment(title: string)
    requires Single(title, true)
    ensures Heading(title) != "" && Heading(title)[0] == '#' && Single(Heading(title), true)
  {
  }

  // --- what the template reads as ---------------------------------------------------------------

  /** Lines that carry these defaults and nothing else; all on one line if the defaults are. */
  ghost predicate Carries(lines: seq<string>, pairs: seq<Pair>) {
    Pairs(lines) == BackAll(pairs) && Sane(pairs) && (Singles(pairs) ==> AllSingle(lines))
  }

  lemma CarriesJoin(a: seq<string>, p: seq<Pair>, b: seq<string>, q: seq<Pair>)
    requires Carries(a, p) && Carries(b, q)
    ensures Carries(a + b, p + q)
  {
    PairsJoin(a, b);
    BackJoin(p, q);
    SinglesJoin(p, q);
    SaneJoin(p, q);
  }

  lemma SinglesJoin(p: seq<Pair>, q: seq<Pair>)
    ensures Singles(p + q) ==> Singles(p) && Singles(q)
  {
    assert forall i :: 0 <= i < |p| ==> (p + q)[i] == p[i];
    assert forall i :: 0 <= i < |q| ==> (p + q)[|p| + i] == q[i];
  }

  lemma SaneJoin(p: seq<Pair>, q: seq<Pair>)
    requires Sane(p) && Sane(q)
    ensures Sane(p + q)
  {
  }

  lemma CommentsCarry(lines: seq<string>)
    requires Comments(lines)
    ensures Carries(lines, [])
  {
    CommentsReadAsNothing(lines);
  }

  lemma KeyLineCarries(key: string, value: string)
    requires IsKey(key) && !NeedsQuotes(value)
    ensures Carries([key + "=" + value], [Pair(key, value)])
  {
    PairOfLine(key, value);
    PairsCons(key + "=" + value, []);
    if Single(value, true) { LineSingle(key, value); }
  }

  lemma ProseIsComments(reg: Registry, k: Knob, h: Home)
    requires Declared(reg)
    ensures Comments(Prose(reg, k, h))
  {
    CommentIsComments(reg, k.help);
    CommentIsComments(reg, "One of: " + JoinComma(h.options) + ".");
    CommentIsComments(reg, "For example: " + h.example);
  }

  lemma KnobLinesCarry(reg: Registry, k: Knob, h: Home)
    requires Declared(reg) && IsKey(k.key) && !NeedsQuotes(h.value)
    ensures Carries(KnobLines(reg, k, h), [Pair(k.key, h.value)])
  {
    ProseIsComments(reg, k, h);
    CommentsCarry(Prose(reg, k, h));
    KeyLineCarries(k.key, h.value);
    CarriesJoin(Prose(reg, k, h), [], [k.key + "=" + h.value], [Pair(k.key, h.value)]);
    assert [] + [Pair(k.key, h.value)] == [Pair(k.key, h.value)];
  }

  ghost predicate Fit(reg: Registry, knobs: seq<Knob>) {
    forall i :: 0 <= i < |knobs| ==> knobs[i].env.Some? && IsKey(knobs[i].key) && !NeedsQuotes(knobs[i].env.value.value)
  }

  lemma {:induction false} KnobsLinesCarry(reg: Registry, knobs: seq<Knob>)
    requires Declared(reg) && Fit(reg, knobs)
    ensures Carries(KnobsLines(reg, knobs), Defaults(knobs))
  {
    if knobs != [] {
      KnobLinesCarry(reg, knobs[0], knobs[0].env.value);
      KnobsLinesCarry(reg, knobs[1..]);
      CarriesJoin(KnobLines(reg, knobs[0], knobs[0].env.value), [Pair(knobs[0].key, knobs[0].env.value.value)],
                  KnobsLines(reg, knobs[1..]), Defaults(knobs[1..]));
    }
  }

  lemma InSectionFits(reg: Registry, name: string)
    requires Declared(reg)
    ensures Fit(reg, InSection(reg.config, name))
  {
    var knobs := InSection(reg.config, name);
    forall i | 0 <= i < |knobs|
      ensures knobs[i].env.Some? && IsKey(knobs[i].key) && !NeedsQuotes(knobs[i].env.value.value)
    {
      var j :| 0 <= j < |reg.config| && reg.config[j] == knobs[i];
    }
  }

  lemma SectionLinesCarry(reg: Registry, s: Section)
    requires Declared(reg) && Single(s.title, true)
    ensures Carries(SectionLines(reg, s), Defaults(InSection(reg.config, s.name)))
  {
    var knobs := InSection(reg.config, s.name);
    HeadingIsComment(s.title);
    CommentIsComments(reg, s.doc);
    CommentsCarry(Lead(reg, s));
    InSectionFits(reg, s.name);
    KnobsLinesCarry(reg, knobs);
    CarriesJoin(Lead(reg, s), [], KnobsLines(reg, knobs), Defaults(knobs));
    assert [] + Defaults(knobs) == Defaults(knobs);
  }

  lemma {:induction false} DefaultsJoin(a: seq<Knob>, b: seq<Knob>)
    requires forall i :: 0 <= i < |a| ==> a[i].env.Some?
    requires forall i :: 0 <= i < |b| ==> b[i].env.Some?
    ensures Defaults(a + b) == Defaults(a) + Defaults(b)
  {
    if a == [] {
      assert a + b == b;
    } else {
      assert (a + b)[0] == a[0] && (a + b)[1..] == a[1..] + b;
      DefaultsJoin(a[1..], b);
    }
  }

  lemma {:induction false} SectionsLinesCarry(reg: Registry, sections: seq<Section>)
    requires Declared(reg) && forall i :: 0 <= i < |sections| ==> Single(sections[i].title, true)
    ensures forall i :: 0 <= i < |EnvKnobs(reg, sections)| ==> EnvKnobs(reg, sections)[i].env.Some?
    ensures Carries(SectionsLines(reg, sections), Defaults(EnvKnobs(reg, sections)))
  {
    EnvKnobsHaveHomes(reg, sections);
    if sections != [] {
      EnvKnobsHaveHomes(reg, sections[1..]);
      SectionLinesCarry(reg, sections[0]);
      SectionsLinesCarry(reg, sections[1..]);
      DefaultsJoin(InSection(reg.config, sections[0].name), EnvKnobs(reg, sections[1..]));
      CarriesJoin(SectionLines(reg, sections[0]), Defaults(InSection(reg.config, sections[0].name)),
                  SectionsLines(reg, sections[1..]), Defaults(EnvKnobs(reg, sections[1..])));
    }
  }

  lemma RenderLinesCarry(reg: Registry)
    requires Declared(reg)
    ensures forall i :: 0 <= i < |EnvKnobs(reg, reg.sections)| ==> EnvKnobs(reg, reg.sections)[i].env.Some?
    ensures Carries(RenderLines(reg), Defaults(EnvKnobs(reg, reg.sections)))
  {
    CommentIsComments(reg, reg.header);
    CommentsCarry(Comment(reg.wrap, reg.header));
    SectionsLinesCarry(reg, reg.sections);
    var pairs := Defaults(EnvKnobs(reg, reg.sections));
    CarriesJoin(Comment(reg.wrap, reg.header), [], SectionsLines(reg, reg.sections), pairs);
    assert [] + pairs == pairs;
  }

  lemma RenderedLines(reg: Registry)
    requires Declared(reg)
    requires forall i :: 0 <= i < |EnvKnobs(reg, reg.sections)| ==> EnvKnobs(reg, reg.sections)[i].env.Some?
    requires Singles(Defaults(EnvKnobs(reg, reg.sections)))
    ensures Parse(Render(reg)) == BackAll(Defaults(EnvKnobs(reg, reg.sections)))
    ensures RenderLines(reg) != [] ==> Lines(Render(reg), true) == RenderLines(reg)
  {
    RenderLinesCarry(reg);
    var lines := RenderLines(reg);
    if lines == [] {
      LinesMore("", "", true);
      assert "" + "\n" + "" == Render(reg);
      CommentIsNoPair("");
      PairsCons("", []);
    } else {
      LinesJoined(lines);
    }
  }

  /** The template reads as the declared keys with their defaults, in the printed order,
      exactly when each default is one a line can carry. */
  lemma TemplateReads(reg: Registry)
    requires Declared(reg)
    ensures forall i :: 0 <= i < |EnvKnobs(reg, reg.sections)| ==> EnvKnobs(reg, reg.sections)[i].env.Some?
    ensures var pairs := Defaults(EnvKnobs(reg, reg.sections)); Parse(Render(reg)) == pairs <==> AllReadable(pairs)
  {
    RenderLinesCarry(reg);
    var pairs := Defaults(EnvKnobs(reg, reg.sections));
    if Singles(pairs) {
      RenderedLines(reg);
      forall i | 0 <= i < |pairs| ensures Readable(pairs[i].value) <==> BackAll(pairs)[i] == pairs[i] {
        BackIsSame(pairs[i].value);
      }
      if AllReadable(pairs) { assert BackAll(pairs) == pairs; }
    } else {
      ParseIsSane(Render(reg));
    }
  }

  // --- the installer's write ------------------------------------------------------------------

  function Answered(pairs: seq<Pair>, values: map<string, string>): seq<Pair> {
    if pairs == [] then []
    else [Pair(pairs[0].key, if pairs[0].key in values then values[pairs[0].key] else "")] + Answered(pairs[1..], values)
  }

  lemma {:induction false} GivenFromPairs(lines: seq<string>, values: map<string, string>)
    ensures Given(lines, [], values) == Answered(Pairs(lines), values)
  {
    if lines != [] {
      GivenFromPairs(lines[1..], values);
      match PairOf(lines[0]) {
        case None =>
          assert Pairs(lines) == Pairs(lines[1..]);
        case Some(p) =>
          assert Pairs(lines) == [p] + Pairs(lines[1..]);
      }
    }
  }

  /** What the installer saves over a file that holds `disk` reads back as every declared
      key with its value, then the file's other keys, exactly when lines can carry them all. */
  lemma SavedAnswersRead(reg: Registry, values: map<string, string>, disk: seq<Pair>)
    requires Declared(reg) && Sane(disk)
    requires forall i :: 0 <= i < |EnvKnobs(reg, reg.sections)| ==> EnvKnobs(reg, reg.sections)[i].env.Some?
    requires AllReadable(Defaults(EnvKnobs(reg, reg.sections)))
    ensures var all := Answered(Defaults(EnvKnobs(reg, reg.sections)), values) + Extra(disk, Keys(Lines(Render(reg), true)));
            Parse(Emit(Render(reg), values, disk, false)) == all <==> AllReadable(all)
  {
    TemplateReads(reg);
    GivenFromPairs(Lines(Render(reg), true), values);
    RoundTrip(Render(reg), values, disk, false);
  }

  // --- the loops --------------------------------------------------------------------------------

  method CommentLines(wrap: string -> seq<string>, text: string) returns (out: seq<string>)
    ensures out == Comment(wrap, text)
  {
    var lines := Lines(StripOf(text, '\n'), true);
    var paragraph: seq<string> := [];
    out := [];
    for n := 0 to |lines|
      invariant out + Commented(wrap, lines[n..], paragraph) == Commented(wrap, lines, [])
    {
      var line, rest := lines[n], lines[n + 1..];
      CommentedAt(out, wrap, lines, n, paragraph);
      if Strip(line) == "" {
        out := out + Flushed(wrap, paragraph) + ["#"];
        paragraph := [];
      } else if line[0] == ' ' || line[0] == '\t' {
        out := out + Flushed(wrap, paragraph) + [RStrip("# " + line)];
        paragraph := [];
      } else {
        paragraph := paragraph + [Strip(line)];
      }
    }
    out := out + Flushed(wrap, paragraph);
  }

  lemma CommentedAt(before: seq<string>, wrap: string -> seq<string>, lines: seq<string>, n: nat, paragraph: seq<string>)
    requires n < |lines|
    ensures var line, rest := lines[n], lines[n + 1..];
            before + Commented(wrap, lines[n..], paragraph) ==
            if Strip(line) == "" then before + Flushed(wrap, paragraph) + ["#"] + Commented(wrap, rest, [])
            else if line[0] == ' ' || line[0] == '\t' then before + Flushed(wrap, paragraph) + [RStrip("# " + line)] + Commented(wrap, rest, [])
            else before + Commented(wrap, rest, paragraph + [Strip(line)])
  {
    var here := lines[n..];
    assert here[0] == lines[n] && here[1..] == lines[n + 1..];
  }

  method RenderEnv(reg: Registry) returns (text: string)
    ensures text == Render(reg)
  {
    var lines := CommentLines(reg.wrap, reg.header);
    for n := 0 to |reg.sections|
      invariant lines + SectionsLines(reg, reg.sections[n..]) == RenderLines(reg)
    {
      NextSection(reg, lines, n);
      lines := AddLead(reg, reg.sections[n], lines);
      lines := AddKnobs(reg, lines, InSection(reg.config, reg.sections[n].name));
    }
    assert lines + [] == lines;
    text := Join(lines, '\n') + "\n";
  }

  lemma NextSection(reg: Registry, lines: seq<string>, n: nat)
    requires n < |reg.sections|
    ensures var s := reg.sections[n];
            lines + SectionsLines(reg, reg.sections[n..]) ==
            lines + Lead(reg, s) + KnobsLines(reg, InSection(reg.config, s.name)) + SectionsLines(reg, reg.sections[n + 1..])
  {
    var here, s := reg.sections[n..], reg.sections[n];
    assert here[0] == s && here[1..] == reg.sections[n + 1..];
    InTurn(lines, Lead(reg, s), KnobsLines(reg, InSection(reg.config, s.name)), SectionsLines(reg, here[1..]));
  }

  lemma InTurn(a: seq<string>, b: seq<string>, c: seq<string>, d: seq<string>)
    ensures a + (b + c + d) == a + b + c + d
  {
  }

  method AddLead(reg: Registry, section: Section, start: seq<string>) returns (lines: seq<string>)
    ensures lines == start + Lead(reg, section)
  {
    lines := start + ["", Heading(section.title)];
    if section.doc != "" {
      var doc := CommentLines(reg.wrap, section.doc);
      lines := lines + (["#"] + doc);
    }
  }

  method AddKnobs(reg: Registry, start: seq<string>, knobs: seq<Knob>) returns (lines: seq<string>)
    requires forall i :: 0 <= i < |knobs| ==> knobs[i].env.Some?
    ensures lines == start + KnobsLines(reg, knobs)
  {
    lines := start;
    for n := 0 to |knobs|
      invariant lines + KnobsLines(reg, knobs[n..]) == start + KnobsLines(reg, knobs)
    {
      NextKnob(reg, lines, knobs, n);
      lines := AddProse(reg, knobs[n], knobs[n].env.value, lines);
      lines := lines + [knobs[n].key + "=" + knobs[n].env.value.value];
    }
  }

  lemma NextKnob(reg: Registry, lines: seq<string>, knobs: seq<Knob>, n: nat)
    requires n < |knobs| && forall i :: 0 <= i < |knobs| ==> knobs[i].env.Some?
    ensures var k := knobs[n];
            lines + KnobsLines(reg, knobs[n..]) ==
            lines + Prose(reg, k, k.env.value) + [k.key + "=" + k.env.value.value] + KnobsLines(reg, knobs[n + 1..])
  {
    var here, k := knobs[n..], knobs[n];
    assert here[0] == k && here[1..] == knobs[n + 1..];
    InTurn(lines, Prose(reg, k, k.env.value), [k.key + "=" + k.env.value.value], KnobsLines(reg, here[1..]));
  }

  method AddProse(reg: Registry, k: Knob, h: Home, start: seq<string>) returns (lines: seq<string>)
    ensures lines == start + Prose(reg, k, h)
  {
    var help := CommentLines(reg.wrap, k.help);
    lines := start + [""] + help;
    if h.options != [] {
      var options := CommentLines(reg.wrap, "One of: " + JoinComma(h.options) + ".");
      lines := lines + options;
    }
    if h.example != "" {
      var example := CommentLines(reg.wrap, "For example: " + h.example);
      lines := lines + example;
    }
  }
}
