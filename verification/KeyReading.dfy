/** What `dispatch_path.py` reads off an authorized_keys file, on the text: which line is
    the key's, which of its options is the command, and which generation that runs. */
module KeyReading {
  import opened Strings
  import opened TextLines
  import opened Dispatch
  import opened KeyLines

  // --- the command of a line ------------------------------------------------------------

  /** What can stand between the quotes: a backslash takes the next character with it. */
  predicate Body(v: string) {
    v == "" || (if v[0] == '\\' then |v| > 1 && v[1] != '\n' && Body(v[2..]) else v[0] != '"' && Body(v[1..]))
  }

  lemma {:induction false} QuotedGives(s: string, v: string)
    requires Quoted(s) == Some(v)
    ensures Body(v) && |v| < |s| && s == v + "\"" + s[|v| + 1..]
  {
    if s[0] == '"' {
      assert v == "" && s == "" + "\"" + s[1..];
    } else if s[0] == '\\' {
      var rest := Quoted(s[2..]).value;
      QuotedGives(s[2..], rest);
      GivesBehind(s, 2, v, rest);
    } else {
      var rest := Quoted(s[1..]).value;
      QuotedGives(s[1..], rest);
      GivesBehind(s, 1, v, rest);
    }
  }

  lemma GivesBehind(s: string, n: nat, v: string, rest: string)
    requires n <= |s| && v == s[..n] + rest && |rest| < |s| - n && s[n..] == rest + "\"" + s[n..][|rest| + 1..]
    ensures |v| < |s| && v[n..] == rest && v[..n] == s[..n] && s == v + "\"" + s[|v| + 1..]
  {
    assert s == s[..n] + s[n..] && s[n..][|rest| + 1..] == s[|v| + 1..];
  }

  lemma {:induction false} QuotedFinds(v: string, tail: string)
    requires Body(v)
    ensures Quoted(v + "\"" + tail) == Some(v)
  {
    var s := v + "\"" + tail;
    if v == "" {
      assert s[0] == '"';
    } else if v[0] == '\\' {
      assert s[0] == v[0] && s[1] == v[1] && s[2..] == v[2..] + "\"" + tail && s[..2] == v[..2];
      QuotedFinds(v[2..], tail);
      assert v == v[..2] + v[2..];
    } else {
      assert s[0] == v[0] && s[1..] == v[1..] + "\"" + tail;
      QuotedFinds(v[1..], tail);
      assert v == [v[0]] + v[1..];
    }
  }

  /** `command="v"` opens the text. */
  ghost predicate Opens(s: string, v: string) {
    Body(v) && exists tail :: s == "command=\"" + (v + "\"" + tail)
  }

  lemma CommandAtIs(s: string, v: string)
    ensures CommandAt(s) == Some(v) <==> Opens(s, v)
  {
    var lead := "command=\"";
    assert lead == COMMAND;
    if CommandAt(s) == Some(v) {
      QuotedGives(s[|lead|..], v);
      assert s == lead + s[|lead|..];
    }
    if Opens(s, v) {
      var tail :| s == lead + (v + "\"" + tail);
      QuotedFinds(v, tail);
      assert s[|lead|..] == v + "\"" + tail && s[..|lead|] == lead;
    }
  }

  /** A command option stands at `i`: at the start of the line or behind a comma. */
  ghost predicate StandsAt(line: string, i: nat, v: string) {
    i <= |line| && (i == 0 || line[i - 1] == ',') && Opens(line[i..], v)
  }

  ghost predicate NoneBefore(line: string, n: nat) {
    forall j, w :: 0 <= j < n ==> !StandsAt(line, j, w)
  }

  /** Behind `i`: where the search finds a command, and where it finds none. */
  lemma {:induction false} LaterIs(line: string, i: nat) returns (at: nat)
    requires i <= |line|
    ensures i < at <= |line| + 1
    ensures forall j, w :: i < j < at ==> !StandsAt(line, j, w)
    ensures Later(line[i..]).Some? ==> at <= |line| && StandsAt(line, at, Later(line[i..]).value)
    ensures Later(line[i..]) == None ==> at == |line| + 1
    decreases |line| - i
  {
    var rest := line[i..];
    at := i + 1;
    if rest != "" {
      assert rest[1..] == line[i + 1..] && rest[0] == line[i];
      if rest[0] == ',' && CommandAt(rest[1..]).Some? {
        CommandAtIs(rest[1..], CommandAt(rest[1..]).value);
      } else {
        var next := i + 1;
        at := LaterIs(line, next);
        forall w ensures !StandsAt(line, next, w) { CommandAtIs(rest[1..], w); }
      }
    }
  }

  /** The command of a line is the first that stands in it. */
  lemma CommandIsTheFirst(line: string)
    ensures Command(line) == None ==> NoneBefore(line, |line| + 1)
    ensures Command(line).Some? ==>
      exists i :: 0 <= i <= |line| && StandsAt(line, i, Command(line).value) && NoneBefore(line, i)
  {
    assert line[0..] == line;
    if CommandAt(line).Some? {
      CommandAtIs(line, CommandAt(line).value);
      assert StandsAt(line, 0, CommandAt(line).value);
    } else {
      forall w ensures !StandsAt(line, 0, w) { CommandAtIs(line, w); }
      var at := LaterIs(line, 0);
      assert NoneBefore(line, at);
    }
  }

  // --- the generation it runs --------------------------------------------------------------

  /** Twelve digits, 0 to 9 and a to f. */
  predicate HexName(gen: string) {
    |gen| == 12 && forall i :: 0 <= i < 12 ==> gen[i] in {'0', '1', '2', '3', '4', '5', '6', '7', '8', '9', 'a', 'b', 'c', 'd', 'e', 'f'}
  }

  lemma HexNameIs(gen: string)
    ensures HexName(gen) <==> IsGeneration(gen)
  {
  }

  function EntryOf(gen: string): string { "/usr/local/lib/catena-dispatch/" + gen + "/entry" }

  lemma EntryOfIs(gen: string)
    ensures EntryOf(gen) == EntryPath(gen)
  {
    assert "/usr/local/lib/catena-dispatch/" == GENERATIONS + "/";
  }

  /** A line runs a generation exactly when its command is that generation's entry; any
      other line runs the legacy path, and no line none. */
  lemma RunningIs(line: Option<string>, gen: string)
    ensures Running(line) == Generation(gen) <==> line.Some? && Command(line.value) == Some(EntryOf(gen)) && HexName(gen)
    ensures Running(line) == NoPath <==> line == None
    ensures Running(line).Generation? ==> Running(line) == Generation(Running(line).gen)
  {
    EntryOfIs(gen);
    HexNameIs(gen);
    if HexName(gen) { EntryIsPlain(gen); }
  }

  // --- the key's line ------------------------------------------------------------------------

  /** The word stands in the text, between spaces or its ends. */
  predicate HasWord(s: string, w: string) {
    w != "" && exists i :: 0 <= i <= |s| - |w| && WordAt(s, w, i)
  }

  predicate WordAt(s: string, w: string, i: nat)
    requires i + |w| <= |s|
  {
    && s[i..i + |w|] == w && (forall k :: 0 <= k < |w| ==> !Space(w[k]))
    && (i == 0 || Space(s[i - 1])) && (i + |w| == |s| || Space(s[i + |w|]))
  }

  lemma {:induction false} WordEndIs(s: string)
    ensures forall k :: 0 <= k < WordEnd(s) ==> !Space(s[k])
    ensures WordEnd(s) < |s| ==> Space(s[WordEnd(s)])
  {
    if s != "" && !Space(s[0]) {
      WordEndIs(s[1..]);
      assert forall k :: 0 < k < WordEnd(s) ==> s[k] == s[1..][k - 1];
    }
  }

  /** A word of the text behind a space or a whole word is one of the text. */
  lemma WordBehind(s: string, n: nat, w: string, i: nat)
    requires n <= |s| && w != "" && i + |w| <= |s| - n && (n == 0 || n == |s| || Space(s[n]) || Space(s[n - 1]))
    ensures WordAt(s, w, n + i) <==> WordAt(s[n..], w, i)
  {
    assert s[n..][i..i + |w|] == s[n + i..n + i + |w|];
    if i == 0 && n < |s| { assert s[n..][0] == s[n] && s[n..][0..|w|] == s[n..n + |w|]; }
  }

  lemma {:induction false} FieldsAreWords(s: string, w: string)
    ensures w in Fields(s) <==> HasWord(s, w)
    decreases |s|
  {
    if s == "" {
    } else if Space(s[0]) {
      FieldsAreWords(s[1..], w);
      SkipSpace(s, w);
    } else {
      var n := WordEnd(s);
      WordEndIs(s);
      FieldsAreWords(s[n..], w);
      SkipWord(s, n, w);
    }
  }

  lemma SkipSpace(s: string, w: string)
    requires s != "" && Space(s[0])
    ensures HasWord(s, w) <==> HasWord(s[1..], w)
  {
    if HasWord(s, w) {
      var i :| 0 <= i <= |s| - |w| && WordAt(s, w, i);
      assert s[i..i + |w|][0] == s[i];
      WordBehind(s, 1, w, i - 1);
    }
    if HasWord(s[1..], w) {
      var i :| 0 <= i <= |s[1..]| - |w| && WordAt(s[1..], w, i);
      WordBehind(s, 1, w, i);
    }
  }

  lemma SkipWord(s: string, n: nat, w: string)
    requires 0 < n <= |s| && (forall k :: 0 <= k < n ==> !Space(s[k])) && (n == |s| || Space(s[n]))
    ensures HasWord(s, w) <==> w == s[..n] || HasWord(s[n..], w)
  {
    if HasWord(s, w) {
      var i :| 0 <= i <= |s| - |w| && WordAt(s, w, i);
      if i < n {
        var part := s[i..i + |w|];
        assert forall k :: 0 <= k < |w| ==> part[k] == s[i + k];
        assert i == 0 && |w| == n;
        assert w == s[..n];
      } else {
        WordBehind(s, n, w, i - n);
      }
    }
    if w == s[..n] { assert WordAt(s, w, 0); }
    if HasWord(s[n..], w) {
      var i :| 0 <= i <= |s[n..]| - |w| && WordAt(s[n..], w, i);
      WordBehind(s, n, w, i);
    }
  }

  lemma {:induction false} StripStart(s: string, i: nat)
    requires i < |s| && !Space(s[i]) && forall k :: 0 <= k < i ==> Space(s[k])
    ensures Strip(s) != "" && Strip(s)[0] == s[i]
    decreases i
  {
    if i == 0 { StripFirst(s); } else { StripStart(s[1..], i - 1); }
  }

  /** A key line: its first character that is no space is no "#", and the key is a word of it. */
  predicate IsKeyLine(line: string, blob: string) {
    && (forall i :: 0 <= i < |line| && line[i] == '#' ==> exists k :: 0 <= k < i && !Space(line[k]))
    && HasWord(line, blob)
  }

  lemma CarriesIs(line: string, blob: string)
    ensures Carries(line, blob) <==> IsKeyLine(line, blob)
  {
    FieldsAreWords(line, blob);
    if HasWord(line, blob) {
      var j :| 0 <= j <= |line| - |blob| && WordAt(line, blob, j);
      assert line[j..j + |blob|][0] == blob[0] == line[j];
      var i := FirstText(line, j);
      StripStart(line, i);
      if line[i] == '#' {
        assert !exists k :: 0 <= k < i && !Space(line[k]);
      } else {
        forall h | 0 <= h < |line| && line[h] == '#' ensures exists k :: 0 <= k < h && !Space(line[k]) {
          assert h > i && !Space(line[i]);
        }
      }
    }
  }

  lemma {:induction false} FirstText(s: string, j: nat) returns (i: nat)
    requires j < |s| && !Space(s[j])
    ensures i <= j && !Space(s[i]) && forall k :: 0 <= k < i ==> Space(s[k])
  {
    i := 0;
    while Space(s[i])
      invariant i <= j && forall k :: 0 <= k < i ==> Space(s[k])
      decreases j - i
    {
      i := i + 1;
    }
  }

  /** The `i`-th line is the key's, and the first that is. */
  predicate IsFirst(lines: seq<string>, blob: string, i: nat, line: string) {
    i < |lines| && lines[i] == line && IsKeyLine(line, blob) && forall j :: 0 <= j < i ==> !IsKeyLine(lines[j], blob)
  }

  lemma {:induction false} FirstIs(lines: seq<string>, blob: string)
    ensures FirstWith(lines, blob) == None ==> forall i :: 0 <= i < |lines| ==> !IsKeyLine(lines[i], blob)
    ensures FirstWith(lines, blob).Some? ==> exists i: nat :: IsFirst(lines, blob, i, FirstWith(lines, blob).value)
  {
    if lines != [] {
      CarriesIs(lines[0], blob);
      FirstIs(lines[1..], blob);
      if IsKeyLine(lines[0], blob) {
        assert IsFirst(lines, blob, 0, lines[0]);
      } else if FirstWith(lines, blob).Some? {
        var line := FirstWith(lines, blob).value;
        var i: nat :| IsFirst(lines[1..], blob, i, line);
        assert IsFirst(lines, blob, i + 1, line);
      }
    }
  }

  /** The panel's line is the first of the file that is one of its key; there is none
      exactly when no line is. */
  lemma LineIsTheFirst(text: string, blob: string)
    ensures var lines, found := Lines(text, true), LineFor(Some(text), blob);
            && (found == None ==> forall i :: 0 <= i < |lines| ==> !IsKeyLine(lines[i], blob))
            && (found.Some? ==> exists i: nat :: IsFirst(lines, blob, i, found.value))
  {
    var lines := Lines(text, true);
    FirstIs(lines, blob);
    if FirstWith(lines, blob).Some? {
      var i: nat :| IsFirst(lines, blob, i, FirstWith(lines, blob).value);
    }
  }

  // --- the proof key's line --------------------------------------------------------------------

  /** The proof key's line is good from loopback, until it expires, for the new entry alone. */
  lemma ProofLineIs(gen: string, expires: string, blob: string)
    requires IsGeneration(gen)
    ensures ProofLine(gen, expires, blob) ==
            "from=\"127.0.0.1,::1\",expiry-time=\"" + expires + "\",command=\"" + EntryOf(gen) + "\",restrict ssh-ed25519 " + blob
  {
    EntryOfIs(gen);
    var a, c := "from=\"127.0.0.1,::1\",expiry-time=\"", EntryOf(gen);
    assert PublicKey(blob, "") == "ssh-ed25519 " + blob;
    assert "\"," + COMMAND == "\",command=\"" && "\"" + ",restrict " + "ssh-ed25519 " == "\",restrict ssh-ed25519 ";
    assert ProofLine(gen, expires, blob) == (a + expires + "\",") + (COMMAND + c + "\"") + (",restrict " + ("ssh-ed25519 " + blob));
  }
}
