/** An inventory's `.env`: its two readers, its printer, and the loops they run. */
module DotEnv {
  import opened Strings
  import opened TextLines

  datatype Pair = Pair(key: string, value: string)

  // --- one line -------------------------------------------------------------------------

  /** Where `c` stands first, or the length. */
  function Find(s: string, c: char): (n: nat)
    ensures n <= |s| && (n < |s| <==> c in s) && (n < |s| ==> s[n] == c) && c !in s[..n]
  {
    if s == "" || s[0] == c then 0 else 1 + Find(s[1..], c)
  }

  /** Matching outer quotes removed. */
  function Unquoted(v: string): string {
    if |v| >= 2 && v[0] == v[|v| - 1] && (v[0] == '"' || v[0] == '\'') then v[1..|v| - 1] else v
  }

  /** The key and value of a line; None for a blank line, a comment, one without `=`. */
  function PairOf(raw: string): Option<Pair> {
    var line := Strip(raw);
    if line == "" || line[0] == '#' || '=' !in line then None
    else
      var n := Find(line, '=');
      Some(Pair(Strip(line[..n]), Unquoted(Strip(line[n + 1..]))))
  }

  function One(raw: string): seq<Pair> {
    match PairOf(raw) case None => [] case Some(p) => [p]
  }

  function Pairs(lines: seq<string>): seq<Pair> {
    if lines == [] then [] else One(lines[0]) + Pairs(lines[1..])
  }

  /** `parse_env_pairs`. */
  function Parse(text: string): seq<Pair> {
    Pairs(Lines(text, true))
  }

  // --- dictionaries that keep their order -------------------------------------------------

  function Lookup(d: seq<Pair>, k: string): Option<string> {
    if d == [] then None else if d[0].key == k then Some(d[0].value) else Lookup(d[1..], k)
  }

  /** `d[k] = v`: a key keeps its place. */
  function Put(d: seq<Pair>, p: Pair): seq<Pair> {
    if d == [] then [p] else if d[0].key == p.key then [p] + d[1..] else [d[0]] + Put(d[1..], p)
  }

  function Dict(pairs: seq<Pair>): seq<Pair> {
    if pairs == [] then [] else Put(Dict(pairs[..|pairs| - 1]), pairs[|pairs| - 1])
  }

  // --- the printer ------------------------------------------------------------------------

  predicate Special(c: char) {
    c == ' ' || c == '\t' || c == '#' || c == '"' || c == '\'' || c == '$'
  }

  predicate NeedsQuotes(v: string) {
    exists i :: 0 <= i < |v| && Special(v[i])
  }

  function Escaped(v: string): string {
    if v == "" then ""
    else (if v[0] == '\\' || v[0] == '"' then ['\\', v[0]] else [v[0]]) + Escaped(v[1..])
  }

  /** `line`. */
  function Line(k: string, v: string): string {
    if NeedsQuotes(v) then k + "=" + ("\"" + Escaped(v) + "\"") else k + "=" + v
  }

  function KeyOf(raw: string): seq<string> {
    match PairOf(raw) case None => [] case Some(p) => [p.key]
  }

  /** The keys of the template, in order. */
  function Keys(lines: seq<string>): seq<string> {
    if lines == [] then []
    else KeyOf(lines[0]) + Keys(lines[1..])
  }

  /** The value a template key gets: the file's where it is kept, else the one given. */
  function Chosen(kept: seq<Pair>, values: map<string, string>, k: string): string {
    match Lookup(kept, k) case Some(v) => v case None => if k in values then values[k] else ""
  }

  /** A template line as it is printed. */
  function LineFilled(raw: string, kept: seq<Pair>, values: map<string, string>): string {
    match PairOf(raw) case None => raw case Some(p) => Line(p.key, Chosen(kept, values, p.key))
  }

  /** The template's lines, each key's with its value. */
  function Filled(lines: seq<string>, kept: seq<Pair>, values: map<string, string>): seq<string> {
    if lines == [] then []
    else
      [LineFilled(lines[0], kept, values)] + Filled(lines[1..], kept, values)
  }

  /** The pairs of the file whose key the template does not carry. */
  function Extra(d: seq<Pair>, keys: seq<string>): seq<Pair> {
    if d == [] then [] else (if d[0].key in keys then [] else [d[0]]) + Extra(d[1..], keys)
  }

  function Printed(pairs: seq<Pair>): seq<string> {
    if pairs == [] then [] else [Line(pairs[0].key, pairs[0].value)] + Printed(pairs[1..])
  }

  const NOTE := "# Not in the template, kept as found."

  function Assembled(filled: seq<string>, extra: seq<string>): seq<string> {
    if extra == [] then filled else filled + (["", NOTE] + extra)
  }

  function EmitLines(template: string, values: map<string, string>, disk: seq<Pair>, keep: bool): seq<string> {
    var lines := Lines(template, true);
    Assembled(Filled(lines, if keep then disk else [], values), Printed(Extra(disk, Keys(lines))))
  }

  /** `emit_env` over a file that holds `disk`, a dictionary. */
  function Emit(template: string, values: map<string, string>, disk: seq<Pair>, keep: bool): string {
    Join(EmitLines(template, values, disk, keep), '\n') + "\n"
  }

  // --- the loops ---------------------------------------------------------------------------

  /** What both readers do with a line. */
  method ReadLine(raw: string) returns (p: Option<Pair>)
    ensures p == PairOf(raw)
  {
    var line := Strip(raw);
    if line == "" || line[0] == '#' || '=' !in line { return None; }
    var at := Find(line, '=');
    var value := Strip(line[at + 1..]);
    if |value| >= 2 && value[0] == value[|value| - 1] && (value[0] == '"' || value[0] == '\'') {
      value := value[1..|value| - 1];
    }
    return Some(Pair(Strip(line[..at]), value));
  }

  lemma PairsAt(before: seq<Pair>, lines: seq<string>, n: nat)
    requires n < |lines|
    ensures before + Pairs(lines[n..]) == before + One(lines[n]) + Pairs(lines[n + 1..])
  {
    var rest := lines[n..];
    assert rest[0] == lines[n] && rest[1..] == lines[n + 1..];
    assert Pairs(rest) == One(lines[n]) + Pairs(lines[n + 1..]);
  }

  method ReadPairs(lines: seq<string>) returns (pairs: seq<Pair>)
    ensures pairs == Pairs(lines)
  {
    pairs := [];
    for n := 0 to |lines|
      invariant pairs + Pairs(lines[n..]) == Pairs(lines)
    {
      PairsAt(pairs, lines, n);
      var p := ReadLine(lines[n]);
      match p {
        case None =>
          assert pairs + [] == pairs;
        case Some(pair) =>
          pairs := pairs + [pair];
      }
    }
  }

  method ParseEnvPairs(text: string) returns (pairs: seq<Pair>)
    ensures pairs == Parse(text)
  {
    pairs := ReadPairs(Lines(text, true));
  }

  /** The pairs as a map: a later value replaces an earlier one. */
  function Table(pairs: seq<Pair>): map<string, string> {
    if pairs == [] then map[] else Table(pairs[..|pairs| - 1])[pairs[|pairs| - 1].key := pairs[|pairs| - 1].value]
  }

  method ReadTable(lines: seq<string>) returns (env: map<string, string>)
    ensures env == Table(Pairs(lines))
  {
    env := map[];
    ghost var seen: seq<Pair> := [];
    for n := 0 to |lines|
      invariant seen + Pairs(lines[n..]) == Pairs(lines)
      invariant env == Table(seen)
    {
      PairsAt(seen, lines, n);
      var p := ReadLine(lines[n]);
      match p {
        case None =>
          assert seen + [] == seen;
        case Some(pair) =>
          TableMore(seen, pair);
          seen := seen + [pair];
          env := env[pair.key := pair.value];
      }
    }
    assert seen + [] == seen;
  }

  lemma TableMore(pairs: seq<Pair>, p: Pair)
    ensures Table(pairs + [p]) == Table(pairs)[p.key := p.value]
  {
    assert (pairs + [p])[..|pairs|] == pairs;
  }

  /** The lookup plugin's `_load`. */
  method Load(text: string) returns (env: map<string, string>)
    ensures env == Table(Pairs(Lines(text, false)))
  {
    env := ReadTable(Lines(text, false));
  }

  method FillTemplate(lines: seq<string>, existing: seq<Pair>, values: map<string, string>) returns (out: seq<string>, keys: set<string>)
    ensures out == Filled(lines, existing, values)
    ensures forall k :: k in keys <==> k in Keys(lines)
  {
    out, keys := [], {};
    for n := 0 to |lines|
      invariant out + Filled(lines[n..], existing, values) == Filled(lines, existing, values)
      invariant forall k :: k in Keys(lines) <==> k in keys || k in Keys(lines[n..])
    {
      FilledAt(out, lines, n, existing, values);
      var p := ReadLine(lines[n]);
      match p {
        case None => out := out + [lines[n]];
        case Some(Pair(key, _)) =>
          keys := keys + {key};
          out := out + [Line(key, Chosen(existing, values, key))];
      }
    }
  }

  lemma FilledAt(before: seq<string>, lines: seq<string>, n: nat, kept: seq<Pair>, values: map<string, string>)
    requires n < |lines|
    ensures before + Filled(lines[n..], kept, values) == before + [LineFilled(lines[n], kept, values)] + Filled(lines[n + 1..], kept, values)
    ensures Keys(lines[n..]) == KeyOf(lines[n]) + Keys(lines[n + 1..])
  {
    var rest := lines[n..];
    assert rest[0] == lines[n] && rest[1..] == lines[n + 1..];
  }

  method PrintExtra(disk: seq<Pair>, keys: set<string>, ghost order: seq<string>) returns (extra: seq<string>)
    requires forall k :: k in keys <==> k in order
    ensures extra == Printed(Extra(disk, order))
  {
    extra := [];
    for n := 0 to |disk|
      invariant extra + Printed(Extra(disk[n..], order)) == Printed(Extra(disk, order))
    {
      assert disk[n..][0] == disk[n] && disk[n..][1..] == disk[n + 1..];
      PrintedNext(extra, disk[n..], order);
      if disk[n].key !in keys { extra := extra + [Line(disk[n].key, disk[n].value)]; }
    }
  }

  method EmitEnv(template: string, values: map<string, string>, disk: seq<Pair>, keep: bool) returns (text: string)
    ensures text == Emit(template, values, disk, keep)
  {
    var lines := Lines(template, true);
    var out, keys := FillTemplate(lines, if keep then disk else [], values);
    var extra := PrintExtra(disk, keys, Keys(lines));
    if extra != [] { out := out + (["", NOTE] + extra); }
    text := Join(out, '\n') + "\n";
  }

  lemma PrintedNext(before: seq<string>, d: seq<Pair>, keys: seq<string>)
    requires d != []
    ensures before + Printed(Extra(d, keys)) ==
            (if d[0].key in keys then before else before + [Line(d[0].key, d[0].value)]) + Printed(Extra(d[1..], keys))
  {
    var rest := Extra(d[1..], keys);
    if d[0].key !in keys {
      assert ([d[0]] + rest)[1..] == rest;
    } else {
      assert [] + rest == rest;
    }
  }
}
