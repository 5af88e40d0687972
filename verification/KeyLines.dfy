/** The runner's authorized_keys as text: how `dispatch_path.py` renders the panel's and
    the proof key's lines, and how it reads off what the panel's key runs. */
module KeyLines {
  import opened Strings
  import opened TextLines
  import opened Dispatch
  import opened DispatchSafety

  const GENERATIONS := "/usr/local/lib/catena-dispatch"
  const WRITTEN := "# Written by catena-ce "
  const ROLE := "reconcile/roles/dispatch_path "
  const HELPER := "(helpers/dispatch_path.py)."
  const HEADER := WRITTEN + ROLE + HELPER
  const COMMAND := "command=\""
  const ENTRY := "/entry"

  // --- rendering ---------------------------------------------------------------------------

  function EntryPath(gen: string): string {
    GENERATIONS + "/" + gen + ENTRY
  }

  /** `key_line`, with what stands before the command: nothing, or a source and an expiry. */
  function KeyLine(lead: string, entry: string, pub: string): string {
    lead + (COMMAND + entry + "\"") + (",restrict " + pub)
  }

  /** `from="127.0.0.1,::1",expiry-time="...",`. */
  function ProofLead(expires: string): string {
    "from=\"127.0.0.1,::1\",expiry-time=\"" + expires + "\","
  }

  function PanelKeys(gen: string, pub: string): string {
    HEADER + "\n" + (KeyLine("", EntryPath(gen), pub) + "\n")
  }

  /** The file with the proof key's line at its end. */
  function WithProof(keys: Option<string>, line: string): string {
    var before := match keys case None => HEADER + "\n" case Some(k) => k;
    (if before != "" && before[|before| - 1] == '\n' then before else before + "\n") + (line + "\n")
  }

  // --- reading -------------------------------------------------------------------------------

  /** Whether a line carries the key. */
  predicate Carries(line: string, blob: string) {
    Strip(line) != "" && Strip(line)[0] != '#' && blob in Fields(line)
  }

  function FirstWith(lines: seq<string>, blob: string): Option<string> {
    if lines == [] then None else if Carries(lines[0], blob) then Some(lines[0]) else FirstWith(lines[1..], blob)
  }

  /** `line_for`. */
  function LineFor(keys: Option<string>, blob: string): Option<string> {
    match keys case None => None case Some(text) => FirstWith(Lines(text, true), blob)
  }

  /** Up to the closing quote, a backslash taking the next character with it. */
  function Quoted(s: string): Option<string> {
    if s == "" then None
    else if s[0] == '"' then Some("")
    else if s[0] == '\\' then
      if |s| == 1 || s[1] == '\n' then None
      else match Quoted(s[2..]) case None => None case Some(rest) => Some(s[..2] + rest)
    else match Quoted(s[1..]) case None => None case Some(rest) => Some([s[0]] + rest)
  }

  /** A command option that starts here. */
  function CommandAt(s: string): Option<string> {
    if COMMAND <= s then Quoted(s[|COMMAND|..]) else None
  }

  /** The first command option behind a comma. */
  function Later(line: string): Option<string> {
    if line == "" then None
    else if line[0] == ',' && CommandAt(line[1..]).Some? then CommandAt(line[1..])
    else Later(line[1..])
  }

  function Command(line: string): Option<string> {
    if CommandAt(line).Some? then CommandAt(line) else Later(line)
  }

  predicate Hex(c: char) { '0' <= c <= '9' || 'a' <= c <= 'f' }

  predicate IsGeneration(gen: string) {
    |gen| == 12 && forall i :: 0 <= i < |gen| ==> Hex(gen[i])
  }

  /** The generation whose entry a command is. */
  function GenerationOf(command: string): Option<string> {
    var lead := GENERATIONS + "/";
    if |command| != |lead| + 12 + |ENTRY| then None
    else
      var gen := command[|lead|..|lead| + 12];
      if command == EntryPath(gen) && IsGeneration(gen) then Some(gen) else None
  }

  /** `running_generation`. */
  function Running(line: Option<string>): Path {
    match line
    case None => NoPath
    case Some(l) =>
      match Command(l)
      case None => Legacy
      case Some(c) => match GenerationOf(c) case None => Legacy case Some(gen) => Generation(gen)
  }

  // --- the panel's own rendering ---------------------------------------------------------------

  /** A text with nothing in it that a quoted option or a line could end at. */
  predicate Plain(s: string) {
    forall i :: 0 <= i < |s| ==> s[i] != '"' && s[i] != '\\' && !Space(s[i])
  }

  lemma {:induction false} QuotedPlain(s: string, rest: string)
    requires Plain(s)
    ensures Quoted(s + "\"" + rest) == Some(s)
  {
    var all := s + "\"" + rest;
    if s != "" {
      assert all[0] == s[0] && all[1..] == s[1..] + "\"" + rest;
      QuotedPlain(s[1..], rest);
      assert s == [s[0]] + s[1..];
    }
  }

  lemma CommandOf(entry: string, rest: string)
    requires Plain(entry)
    ensures Command(COMMAND + entry + "\"" + rest) == Some(entry)
  {
    var line := COMMAND + entry + "\"" + rest;
    QuotedPlain(entry, rest);
    assert line[|COMMAND|..] == entry + "\"" + rest;
    assert line[..|COMMAND|] == COMMAND;
  }

  lemma EntryIsPlain(gen: string)
    requires IsGeneration(gen)
    ensures Plain(EntryPath(gen)) && GenerationOf(EntryPath(gen)) == Some(gen)
  {
    var lead := GENERATIONS + "/";
    assert Plain(lead) && Plain(ENTRY);
    assert EntryPath(gen)[|lead|..|lead| + 12] == gen;
    forall i | 0 <= i < |EntryPath(gen)|
      ensures EntryPath(gen)[i] != '"' && EntryPath(gen)[i] != '\\' && !Space(EntryPath(gen)[i])
    {
      if |lead| <= i < |lead| + 12 { assert EntryPath(gen)[i] == gen[i - |lead|]; }
    }
  }

  // --- public keys ---------------------------------------------------------------------------------------

  /** `ssh-ed25519 <blob>`, with a comment or without. */
  function PublicKey(blob: string, comment: string): string {
    "ssh-ed25519 " + blob + if comment == "" then "" else " " + comment
  }

  /** The blob's letters are those of base64, which the key type's name leaves. */
  predicate IsBlob(s: string) {
    s != "" && forall i :: 0 <= i < |s| ==>
      'a' <= s[i] <= 'z' || 'A' <= s[i] <= 'Z' || '0' <= s[i] <= '9' || s[i] == '+' || s[i] == '/' || s[i] == '='
  }

  lemma {:induction false} PublicFields(blob: string, comment: string)
    requires IsBlob(blob) && (comment == "" || Word(comment))
    ensures Fields(PublicKey(blob, comment)) == ["ssh-ed25519", blob] + if comment == "" then [] else [comment]
  {
    var kind := "ssh-ed25519";
    assert Word(kind) && Word(blob);
    if comment == "" {
      assert PublicKey(blob, comment) == kind + " " + blob;
      FieldsMore(kind, blob);
      FieldsOne(blob);
    } else {
      assert PublicKey(blob, comment) == kind + " " + (blob + " " + comment);
      FieldsMore(kind, blob + " " + comment);
      FieldsMore(blob, comment);
      FieldsOne(comment);
    }
  }

  /** A key line's words: its options, then its key's. */
  lemma LineFields(lead: string, entry: string, pub: string)
    requires Word(lead + (COMMAND + entry + "\"") + ",restrict")
    ensures Fields(KeyLine(lead, entry, pub)) == [lead + (COMMAND + entry + "\"") + ",restrict"] + Fields(pub)
  {
    var options := lead + (COMMAND + entry + "\"") + ",restrict";
    assert KeyLine(lead, entry, pub) == options + " " + pub;
    FieldsMore(options, pub);
  }

  // --- lines ------------------------------------------------------------------------------------------

  /** Words and blanks alone make no second line. */
  predicate Blanks(s: string) {
    forall i :: 0 <= i < |s| ==> !Space(s[i]) || s[i] == ' '
  }

  lemma BlanksAreSingle(s: string)
    requires Blanks(s)
    ensures Single(s, true)
  {
  }

  predicate Ascii(s: string) {
    forall i :: 0 <= i < |s| ==> ' ' <= s[i] <= 'z'
  }

  lemma AsciiIsSingle(s: string)
    requires Ascii(s)
    ensures Single(s, true)
  {
  }

  /** A line that is a comment to the reader. */
  predicate IsComment(s: string) {
    s != "" && s[0] == '#' && Single(s, true)
  }

  lemma HeaderIsComment()
    ensures IsComment(HEADER)
  {
    HeaderParts();
    assert HEADER[0] == WRITTEN[0];
    AsciiJoin(WRITTEN, ROLE);
    AsciiJoin(WRITTEN + ROLE, HELPER);
    AsciiIsSingle(HEADER);
  }

  lemma HeaderParts()
    ensures Ascii(WRITTEN) && Ascii(ROLE) && Ascii(HELPER)
  {
    assert Ascii(WRITTEN);
    AsciiRole();
    assert Ascii(HELPER);
  }

  lemma AsciiRole()
    ensures Ascii(ROLE)
  {
  }

  lemma AsciiJoin(a: string, b: string)
    requires Ascii(a) && Ascii(b)
    ensures Ascii(a + b)
  {
  }

  lemma CommentCarriesNothing(s: string, blob: string)
    requires IsComment(s)
    ensures !Carries(s, blob)
  {
    StripFirst(s);
  }

  lemma {:induction false} FirstWithJoin(a: seq<string>, b: seq<string>, blob: string)
    ensures FirstWith(a + b, blob) == if FirstWith(a, blob).Some? then FirstWith(a, blob) else FirstWith(b, blob)
  {
    if a == [] {
      assert a + b == b;
    } else {
      assert (a + b)[1..] == a[1..] + b;
      FirstWithJoin(a[1..], b, blob);
    }
  }

  predicate EndsLine(s: string) {
    s == "" || s[|s| - 1] == '\n'
  }

  /** What stands behind whole lines is read as lines of its own. */
  lemma {:induction false} LinesBehind(k: string, x: string)
    requires EndsLine(k)
    ensures Lines(k + x, true) == Lines(k, true) + Lines(x, true)
    decreases |k|
  {
    if k == "" {
      assert k + x == x;
    } else {
      var n := LineEnd(k, true);
      EndsWithBreak(k);
      LineEndBehind(k, x);
      EndsLinePast(k, n);
      LinesBehind(k[Past(k, n)..], x);
      BreakBehind(k, x, n);
      CutBoth(k, k + x, n, Past(k, n), Lines(x, true));
    }
  }

  lemma CutBoth(k: string, all: string, n: nat, m: nat, more: seq<string>)
    requires n == LineEnd(k, true) == LineEnd(all, true) && n < |k| && n < |all| && m == Past(k, n) == Past(all, n)
    requires all[..n] == k[..n] && Lines(all[m..], true) == Lines(k[m..], true) + more
    ensures Lines(all, true) == Lines(k, true) + more
  {
    LinesCut(k, n);
    LinesCut(all, n);
    OneBefore(k[..n], Lines(k[m..], true), more);
  }

  lemma OneBefore(first: string, rest: seq<string>, more: seq<string>)
    ensures [first] + (rest + more) == [first] + rest + more
  {
  }

  lemma EndsLinePast(k: string, n: nat)
    requires EndsLine(k) && n < |k|
    ensures EndsLine(k[Past(k, n)..]) && (k[n] == '\r' ==> n + 1 < |k|)
  {
    var rest := k[Past(k, n)..];
    if rest != "" { assert rest[|rest| - 1] == k[|k| - 1]; }
  }

  /** A break that is not the text's last return stays the break it is. */
  lemma BreakBehind(k: string, x: string, n: nat)
    requires n < |k| && (k[n] == '\r' ==> n + 1 < |k|)
    ensures Past(k + x, n) == Past(k, n) && (k + x)[..n] == k[..n] && (k + x)[Past(k, n)..] == k[Past(k, n)..] + x
  {
  }

  lemma {:induction false} EndsWithBreak(k: string)
    requires k != "" && Break(k[|k| - 1], true)
    ensures LineEnd(k, true) < |k|
  {
    if !Break(k[0], true) { EndsWithBreak(k[1..]); }
  }

  lemma {:induction false} LineEndBehind(k: string, x: string)
    requires LineEnd(k, true) < |k|
    ensures LineEnd(k + x, true) == LineEnd(k, true)
  {
    if !Break(k[0], true) {
      assert (k + x)[1..] == k[1..] + x;
      LineEndBehind(k[1..], x);
    }
  }

  lemma OneLine(line: string)
    requires Single(line, true)
    ensures Lines(line + "\n", true) == [line]
  {
    LinesMore(line, "", true);
    assert line + "\n" + "" == line + "\n";
  }

  /** A newline at the end of a text that has none adds no key line. */
  lemma {:induction false} NewlineAddsNoKey(k: string, blob: string)
    requires !EndsLine(k)
    ensures FirstWith(Lines(k + "\n", true), blob) == FirstWith(Lines(k, true), blob)
    decreases |k|
  {
    var n := LineEnd(k, true);
    if n == |k| {
      assert Single(k, true) by { assert k[..n] == k; }
      LinesMore(k, "", true);
      assert k + "\n" + "" == k + "\n";
    } else {
      var m := Past(k, n);
      LineEndBehind(k, "\n");
      if k[m..] != "" { NewlineAddsNoKey(k[m..], blob); }
      NewlineBehindBreak(k, n, m, blob);
    }
  }

  /** Past the first break of such a text. */
  lemma NewlineBehindBreak(k: string, n: nat, m: nat, blob: string)
    requires !EndsLine(k) && n == LineEnd(k, true) == LineEnd(k + "\n", true) && n < |k| && m == Past(k, n)
    requires k[m..] != "" ==> FirstWith(Lines(k[m..] + "\n", true), blob) == FirstWith(Lines(k[m..], true), blob)
    ensures FirstWith(Lines(k + "\n", true), blob) == FirstWith(Lines(k, true), blob)
  {
    if m == |k| {
      NewlineAtBreak(k, n);
    } else {
      BreakBehind(k, "\n", n);
      LinesCut(k, n);
      LinesCut(k + "\n", n);
      FirstWithJoin([k[..n]], Lines(k[m..], true), blob);
      FirstWithJoin([k[..n]], Lines(k[m..] + "\n", true), blob);
    }
  }

  /** The text ends with its first break, which the newline joins or follows. */
  lemma NewlineAtBreak(k: string, n: nat)
    requires !EndsLine(k) && n == LineEnd(k, true) == LineEnd(k + "\n", true) && n < |k| && |k| == Past(k, n)
    ensures Lines(k, true) == [k[..n]]
    ensures Lines(k + "\n", true) == [k[..n]] || Lines(k + "\n", true) == [k[..n], ""]
  {
    var all := k + "\n";
    BreakIsLast(k, n);
    CutAtEnd(k, n);
    NewlineBehind(k, n);
    if all[n] == '\r' {
      CutAtEnd(all, n);
    } else {
      CutBeforeNewline(all, n);
    }
  }

  lemma BreakIsLast(k: string, n: nat)
    requires !EndsLine(k) && n < |k| && |k| == Past(k, n)
    ensures n + 1 == |k|
  {
  }

  lemma NewlineBehind(k: string, n: nat)
    requires n + 1 == |k|
    ensures var all := k + "\n"; all[..n] == k[..n] && all[n + 1] == '\n' && n + 2 == |all| && (all[n] == '\r' ==> Past(all, n) == |all|)
  {
  }

  lemma CutAtEnd(s: string, n: nat)
    requires n == LineEnd(s, true) && n < |s| && Past(s, n) == |s|
    ensures Lines(s, true) == [s[..n]]
  {
    LinesCut(s, n);
    assert s[|s|..] == "";
  }

  lemma CutBeforeNewline(s: string, n: nat)
    requires n == LineEnd(s, true) && n + 2 == |s| && s[n] != '\r' && s[n + 1] == '\n'
    ensures Lines(s, true) == [s[..n], ""]
  {
    LinesCut(s, n);
    OneLine("");
    assert s[n + 1..] == "\n" == "" + "\n";
  }

  /** A comment, and a line behind it. */
  lemma UnderComment(header: string, line: string, blob: string)
    requires IsComment(header) && Single(line, true)
    ensures FirstWith(Lines(header + "\n" + (line + "\n"), true), blob) == if Carries(line, blob) then Some(line) else None
  {
    CommentCarriesNothing(header, blob);
    OneLine(line);
    LinesMore(header, line + "\n", true);
    FirstWithJoin([header], [line], blob);
  }

  /** A line behind a text that ends with one. */
  lemma BehindLines(before: string, line: string, blob: string)
    requires EndsLine(before) && Single(line, true) && !Carries(line, blob)
    ensures FirstWith(Lines(before + (line + "\n"), true), blob) == FirstWith(Lines(before, true), blob)
  {
    OneLine(line);
    LinesBehind(before, line + "\n");
    FirstWithJoin(Lines(before, true), [line], blob);
  }

  /** The newline put at the end of a text that has none. */
  lemma NewlineIsNothing(k: string, blob: string)
    ensures var before := if k != "" && k[|k| - 1] == '\n' then k else k + "\n";
            EndsLine(before) && FirstWith(Lines(before, true), blob) == FirstWith(Lines(k, true), blob)
  {
    if k == "" {
      OneLine("");
      assert "" + "\n" == "\n";
    } else if !EndsLine(k) {
      NewlineAddsNoKey(k, blob);
    }
  }

  /** A line of another key at the end changes nothing of what the panel's key runs. */
  lemma ProofLeavesThePanel(keys: Option<string>, line: string, blob: string)
    requires Single(line, true) && !Carries(line, blob)
    ensures LineFor(Some(WithProof(keys, line)), blob) == LineFor(keys, blob)
  {
    match keys {
      case None =>
        HeaderIsComment();
        UnderComment(HEADER, line, blob);
        NoneIsHeader(HEADER, line);
      case Some(k) =>
        NewlineIsNothing(k, blob);
        BehindLines(if k != "" && k[|k| - 1] == '\n' then k else k + "\n", line, blob);
    }
  }

  lemma NoneIsHeader(header: string, line: string)
    requires header == HEADER
    ensures WithProof(None, line) == header + "\n" + (line + "\n")
  {
  }

  // --- the rendering the switch rests on -----------------------------------------------------------------

  lemma OptionsAreAWord(lead: string, entry: string)
    requires (lead == "" || Word(lead)) && Plain(entry)
    ensures Word(lead + (COMMAND + entry + "\"") + ",restrict")
  {
    assert Word(COMMAND) && Word(",restrict");
  }

  lemma PanelLineRuns(gen: string, blob: string, comment: string)
    requires IsGeneration(gen) && IsBlob(blob) && (comment == "" || Word(comment))
    ensures Running(LineFor(Some(PanelKeys(gen, PublicKey(blob, comment))), blob)) == Generation(gen)
  {
    var line := KeyLine("", EntryPath(gen), PublicKey(blob, comment));
    HeaderIsComment();
    PanelLineIsOne(gen, blob, comment);
    PanelLineCarries(gen, blob, comment);
    UnderComment(HEADER, line, blob);
    PanelCommand(gen, PublicKey(blob, comment));
  }

  lemma PanelCommand(gen: string, pub: string)
    requires IsGeneration(gen)
    ensures Running(Some(KeyLine("", EntryPath(gen), pub))) == Generation(gen)
  {
    EntryIsPlain(gen);
    CommandOf(EntryPath(gen), ",restrict " + pub);
    NoLead(COMMAND + EntryPath(gen) + "\"", ",restrict " + pub);
  }

  lemma NoLead(command: string, rest: string)
    ensures "" + command + rest == command + rest
  {
    assert "" + command == command;
  }

  lemma PanelLineCarries(gen: string, blob: string, comment: string)
    requires IsGeneration(gen) && IsBlob(blob) && (comment == "" || Word(comment))
    ensures Carries(KeyLine("", EntryPath(gen), PublicKey(blob, comment)), blob)
  {
    PanelLineIsOne(gen, blob, comment);
    StripFirst(KeyLine("", EntryPath(gen), PublicKey(blob, comment)));
    EntryIsPlain(gen);
    OptionsAreAWord("", EntryPath(gen));
    LineFields("", EntryPath(gen), PublicKey(blob, comment));
    PublicFields(blob, comment);
    BlobIsThere(Fields(PublicKey(blob, comment)), blob);
  }

  lemma BlobIsThere(fields: seq<string>, blob: string)
    requires |fields| > 1 && fields[1] == blob
    ensures forall options: string :: blob in [options] + fields
  {
    forall options: string ensures blob in [options] + fields { assert ([options] + fields)[2] == blob; }
  }

  lemma BlanksJoin(a: string, b: string)
    requires Blanks(a) && Blanks(b)
    ensures Blanks(a + b)
  {
  }

  lemma PublicBlanks(blob: string, comment: string)
    requires IsBlob(blob) && (comment == "" || Word(comment))
    ensures Blanks(PublicKey(blob, comment))
  {
    var kind := "ssh-ed25519 ";
    var tail := if comment == "" then "" else " " + comment;
    assert Blanks(kind) && Blanks(blob) && Blanks(tail);
    BlanksJoin(kind, blob);
    BlanksJoin(kind + blob, tail);
  }

  lemma LineBlanks(lead: string, entry: string, pub: string)
    requires Blanks(lead) && Plain(entry) && Blanks(pub)
    ensures Blanks(KeyLine(lead, entry, pub))
  {
    var command, restrict := COMMAND, ",restrict ";
    assert Blanks(command) && Blanks(entry) && Blanks("\"") && Blanks(restrict);
    BlanksJoin(command, entry);
    BlanksJoin(command + entry, "\"");
    BlanksJoin(restrict, pub);
    BlanksJoin(lead, command + entry + "\"");
    BlanksJoin(lead + (command + entry + "\""), restrict + pub);
  }

  lemma PanelLineIsOne(gen: string, blob: string, comment: string)
    requires IsGeneration(gen) && IsBlob(blob) && (comment == "" || Word(comment))
    ensures var line := KeyLine("", EntryPath(gen), PublicKey(blob, comment)); Single(line, true) && line != "" && line[0] == 'c'
  {
    var line := KeyLine("", EntryPath(gen), PublicKey(blob, comment));
    EntryIsPlain(gen);
    PublicBlanks(blob, comment);
    LineBlanks("", EntryPath(gen), PublicKey(blob, comment));
    BlanksAreSingle(line);
  }

  function ProofLine(gen: string, expires: string, blob: string): string {
    KeyLine(ProofLead(expires), EntryPath(gen), PublicKey(blob, ""))
  }

  lemma ProofLineIsAnother(gen: string, expires: string, proofBlob: string, blob: string)
    requires IsGeneration(gen) && Plain(expires) && IsBlob(proofBlob) && IsBlob(blob) && proofBlob != blob
    ensures Single(ProofLine(gen, expires, proofBlob), true) && !Carries(ProofLine(gen, expires, proofBlob), blob)
  {
    var lead, entry := ProofLead(expires), EntryPath(gen);
    EntryIsPlain(gen);
    LeadIsAWord(expires);
    OptionsAreAWord(lead, entry);
    LineFields(lead, entry, PublicKey(proofBlob, ""));
    PublicFields(proofBlob, "");
    var options := lead + (COMMAND + entry + "\"") + ",restrict";
    assert options[5] == '"';
    NotTheBlob(options, proofBlob, blob);
    ProofLineIsOne(options, proofBlob, lead, entry);
  }

  lemma ProofLineIsOne(options: string, blob: string, lead: string, entry: string)
    requires Word(options) && IsBlob(blob) && options == lead + (COMMAND + entry + "\"") + ",restrict"
    ensures Single(KeyLine(lead, entry, PublicKey(blob, "")), true)
  {
    var line := options + " " + "ssh-ed25519" + " " + blob;
    assert Blanks("ssh-ed25519");
    assert KeyLine(lead, entry, PublicKey(blob, "")) == line;
    BlanksAreSingle(line);
  }

  lemma NotTheBlob(options: string, proofBlob: string, blob: string)
    requires |options| > 5 && options[5] == '"' && IsBlob(blob) && proofBlob != blob
    ensures blob !in [options] + (["ssh-ed25519", proofBlob] + [])
  {
    var kind := "ssh-ed25519";
    assert kind[3] == '-';
    assert blob != kind;
    assert blob != options;
    assert [options] + (["ssh-ed25519", proofBlob] + []) == [options, kind, proofBlob];
  }

  lemma LeadIsAWord(expires: string)
    requires Plain(expires)
    ensures Word(ProofLead(expires)) && |ProofLead(expires)| > 5 && ProofLead(expires)[5] == '"'
  {
  }

  /** One generation's rendering as the switch uses it. */
  function KeysEnv(gen: string, blob: string, comment: string, proofBlob: string, expires: string, linkTo: string,
                   sudoFor: Path -> string, acceptFor: Path -> string): Env
  {
    Env(gen, PanelKeys(gen, PublicKey(blob, comment)), linkTo,
        keys => Running(LineFor(keys, blob)),
        keys => WithProof(keys, ProofLine(gen, expires, proofBlob)),
        sudoFor, acceptFor)
  }

  /** What the switch is proved from holds of the texts the source renders: the panel's
      line runs the generation, and the proof key's line beside any file, whatever is in
      it, leaves what the panel's key runs. */
  lemma TextsRender(gen: string, blob: string, comment: string, proofBlob: string, expires: string, linkTo: string,
                    sudoFor: Path -> string, acceptFor: Path -> string)
    requires IsGeneration(gen) && IsBlob(blob) && (comment == "" || Word(comment))
    requires IsBlob(proofBlob) && proofBlob != blob && Plain(expires)
    ensures Renders(KeysEnv(gen, blob, comment, proofBlob, expires, linkTo, sudoFor, acceptFor))
  {
    PanelLineRuns(gen, blob, comment);
    ProofLineIsAnother(gen, expires, proofBlob, blob);
    var line := ProofLine(gen, expires, proofBlob);
    forall k: Option<string>
      ensures Running(LineFor(Some(WithProof(k, line)), blob)) == Running(LineFor(k, blob))
    {
      ProofLeavesThePanel(k, line, blob);
    }
  }

  /** So the switch, over the files as they are written, keeps the panel's path served at
      every point it can be killed at, exactly when it starts well. */
  lemma RenderedSwitchIsServed(gen: string, blob: string, comment: string, proofBlob: string, expires: string, linkTo: string,
                               sudoFor: Path -> string, acceptFor: Path -> string, d: Disk)
    requires IsGeneration(gen) && IsBlob(blob) && (comment == "" || Word(comment))
    requires IsBlob(proofBlob) && proofBlob != blob && Plain(expires)
    requires Served(KeysEnv(gen, blob, comment, proofBlob, expires, linkTo, sudoFor, acceptFor), d)
    ensures var e := KeysEnv(gen, blob, comment, proofBlob, expires, linkTo, sudoFor, acceptFor);
            StartsWell(e, d) <==> forall fed: seq<bool> :: Served(e, Dispatch.After(e, d, fed).d)
  {
    TextsRender(gen, blob, comment, proofBlob, expires, linkTo, sudoFor, acceptFor);
    AlwaysServed(KeysEnv(gen, blob, comment, proofBlob, expires, linkTo, sudoFor, acceptFor), d);
  }
}
