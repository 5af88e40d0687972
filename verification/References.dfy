/** Image references printed and read back: `parse_ref` and `Ref.name` of
    `fetch_release.py`, `split_repository` of `catena_admin_release.py`. */
module References {
  import opened Strings
  import opened Images

  // --- the parts of a reference -----------------------------------------------------------

  predicate Lower(c: char) { 'a' <= c <= 'z' || Digit(c) }

  predicate IsTag(s: string) {
    && 1 <= |s| <= 128
    && forall i :: 0 <= i < |s| ==> Letter(s[i]) || Digit(s[i]) || s[i] == '_' || (i > 0 && (s[i] == '.' || s[i] == '-'))
  }

  predicate IsDigest(s: string) {
    && |s| == 71 && s[..7] == "sha256:"
    && forall i :: 7 <= i < 71 ==> Digit(s[i]) || 'a' <= s[i] <= 'f'
  }

  /** One component of a repository path: it starts and ends with a letter or digit. */
  predicate IsComponent(s: string) {
    && s != "" && Lower(s[0]) && Lower(s[|s| - 1])
    && forall i :: 0 <= i < |s| ==> Lower(s[i]) || s[i] == '.' || s[i] == '_' || s[i] == '-'
  }

  predicate IsPath(s: string) {
    var parts := Strings.Split(s, '/');
    forall i :: 0 <= i < |parts| ==> IsComponent(parts[i])
  }

  predicate IsHostName(s: string) {
    s != "" && forall i :: 0 <= i < |s| ==> Letter(s[i]) || Digit(s[i]) || s[i] == '.' || s[i] == '-'
  }

  predicate IsPort(s: string) {
    s != "" && forall i :: 0 <= i < |s| ==> Digit(s[i])
  }

  predicate IsHost(s: string) {
    IsHostName(Before(s, ':')) && (':' in s ==> IsPort(Behind(s, ':')))
  }

  datatype Place = Place(host: string, path: string)

  /** The first component is a registry only when it looks like a host; None where there
      is no repository at all. */
  function SplitRepository(repository: string): Option<Place> {
    var r := StripOf(Strip(repository), '/');
    var head, rest := Before(r, '/'), Behind(r, '/');
    if r == "" then None
    else if rest != "" && ('.' in head || ':' in head || head == "localhost") then Some(Place(head, rest))
    else Some(Place("registry-1.docker.io", r))
  }

  datatype Ref = Ref(repository: string, host: string, path: string, tag: string, digest: string)

  function Name(r: Ref): string {
    r.repository + (if r.tag == "" then "" else ":" + r.tag) + (if r.digest == "" then "" else "@" + r.digest)
  }

  /** The parts, held against what a registry accepts. */
  function Checked(s: Images.Split, digest: string): Option<Ref> {
    match SplitRepository(s.repository)
    case None => None
    case Some(place) =>
      if IsHost(place.host) && IsPath(place.path) && (s.tag == "" || IsTag(s.tag))
      then Some(Ref(s.repository, place.host, place.path, s.tag, digest))
      else None
  }

  function ParseParts(name: string, digest: string): Option<Ref> {
    if name == "" || (digest != "" && !IsDigest(digest)) then None else Checked(SplitRef(name), digest)
  }

  /** None where the source raises. */
  function ParseRef(text: string): Option<Ref> {
    ParseParts(Before(Strip(text), '@'), Behind(Strip(text), '@'))
  }

  // --- characters ---------------------------------------------------------------------------

  lemma {:induction false} RFindAt(a: string, c: char, b: string)
    requires c !in b
    ensures RFind(a + [c] + b, c) == |a|
    decreases |b|
  {
    var s := a + [c] + b;
    if b != "" {
      assert s[..|s| - 1] == a + [c] + b[..|b| - 1];
      assert s[|s| - 1] == b[|b| - 1];
      RFindAt(a, c, b[..|b| - 1]);
    }
  }

  /** A slash behind the last colon, or no colon. */
  predicate NoTag(s: string) {
    RFind(s, ':') < 0 || '/' in s[RFind(s, ':') + 1..]
  }

  lemma NoTagBehind(a: string, b: string)
    requires '/' in b && ':' !in b
    ensures NoTag(a + b)
  {
    var s := a + b;
    var n := RFind(s, ':');
    var j :| 0 <= j < |b| && b[j] == '/';
    if n >= 0 {
      assert s[|a|..] == b;
      assert n < |a|;
      assert s[n + 1..][|a| + j - n - 1] == '/';
    }
  }

  lemma {:induction false} PathCharacters(s: string)
    requires IsPath(s)
    ensures s != "" && ':' !in s
  {
    JoinSplit(s, '/');
    var parts := Strings.Split(s, '/');
    assert IsComponent(parts[0]);
    NoColon(parts);
  }

  lemma {:induction false} NoColon(parts: seq<string>)
    requires parts != [] && forall i :: 0 <= i < |parts| ==> IsComponent(parts[i])
    ensures Join(parts, '/') != "" && ':' !in Join(parts, '/')
  {
    assert IsComponent(parts[0]);
    if |parts| > 1 {
      NoColon(parts[1..]);
    }
  }

  // --- what the parts of a parsed reference are -----------------------------------------------

  lemma {:induction false} SlashesAround(s: string) returns (a: string, b: string)
    ensures s == a + StripOf(s, '/') + b && ':' !in a && ':' !in b
    decreases |s|
  {
    a, b := "", "";
    if s != "" && s[0] == '/' {
      a, b := SlashesAround(s[1..]);
      a := "/" + a;
    } else if s != "" && s[|s| - 1] == '/' {
      a, b := SlashesAround(s[..|s| - 1]);
      b := b + "/";
    }
  }

  lemma {:induction false} SpacesAround(s: string) returns (a: string, b: string)
    ensures s == a + Strip(s) + b && ':' !in a && ':' !in b
    decreases |s|
  {
    a, b := "", "";
    if s != "" && Space(s[0]) {
      a, b := SpacesAround(s[1..]);
      a := [s[0]] + a;
    } else if s != "" && Space(s[|s| - 1]) {
      a, b := SpacesAround(s[..|s| - 1]);
      b := b + [s[|s| - 1]];
    }
  }

  lemma PlaceOf(repository: string, place: Place)
    requires SplitRepository(repository) == Some(place)
    ensures var r := StripOf(Strip(repository), '/'); place.path == r || r == place.host + ['/'] + place.path
  {
    BeforeBehind(StripOf(Strip(repository), '/'), '/');
  }

  /** What stands around a text that was stripped of spaces and slashes. */
  lemma Around(repository: string) returns (a: string, b: string)
    ensures repository == a + StripOf(Strip(repository), '/') + b && ':' !in a && ':' !in b
  {
    var c, d := SpacesAround(repository);
    var e, f := SlashesAround(Strip(repository));
    a, b := c + e, f + d;
    assert c + (e + StripOf(Strip(repository), '/') + f) + d == a + StripOf(Strip(repository), '/') + b;
  }

  lemma NoColonIsNoTag(a: string, r: string, b: string)
    requires ':' !in a && ':' !in r && ':' !in b
    ensures NoTag(a + r + b)
  {
    var s := a + r + b;
    assert ':' !in s;
  }

  lemma SlashIsNoTag(a: string, host: string, path: string, b: string)
    requires ':' !in path && ':' !in b
    ensures NoTag(a + (host + ['/'] + path) + b)
  {
    var tail := "/" + path + b;
    assert tail[0] == '/' && ':' !in tail;
    Regroup(a, host, path, b);
    NoTagBehind(a + host, tail);
  }

  /** A colon in a repository that parses is its registry's port, so a slash follows it. */
  lemma RepositoryHasNoTag(repository: string)
    requires SplitRepository(repository).Some? && IsPath(SplitRepository(repository).value.path)
    ensures repository != "" && NoTag(repository)
  {
    var place := SplitRepository(repository).value;
    var a, b := Around(repository);
    PathCharacters(place.path);
    PlaceOf(repository, place);
    if place.path == StripOf(Strip(repository), '/') {
      NoColonIsNoTag(a, place.path, b);
    } else {
      SlashIsNoTag(a, place.host, place.path, b);
    }
  }

  lemma Regroup(a: string, host: string, path: string, b: string)
    ensures a + (host + ['/'] + path) + b == a + host + ("/" + path + b)
  {
    assert host + ['/'] + path == host + ("/" + path);
  }

  lemma {:induction false} BeforeIn(s: string, c: char)
    ensures |Before(s, c)| <= |s| && forall d :: d in Before(s, c) ==> d in s
  {
    if s != "" && s[0] != c {
      BeforeIn(s[1..], c);
      assert forall d :: d in s[1..] ==> d in s;
    }
  }

  lemma SplitOfStripped(name: string)
    requires '@' !in name
    ensures var s := Strip(name);
            var i := RFind(s, ':');
            '@' !in s && SplitRef(name) ==
              if s == "" then Images.Split("", "")
              else if i < 0 || '/' in s[i + 1..] then Images.Split(s, "")
              else Images.Split(s[..i], s[i + 1..])
  {
    StripTrims(name);
    BeforeBehind(Strip(name), '@');
  }

  /** What a split keeps of a name without a digest: a beginning of it. */
  lemma SplitKeeps(name: string)
    requires '@' !in name
    ensures SplitRef(name).repository <= Strip(name) && '@' !in SplitRef(name).repository
  {
    SplitOfStripped(name);
  }

  lemma TagCharacters(tag: string)
    requires IsTag(tag)
    ensures ':' !in tag && '/' !in tag && '@' !in tag && Trimmed(tag)
  {
  }

  lemma DigestCharacters(digest: string)
    requires IsDigest(digest)
    ensures digest != "" && !Space(digest[|digest| - 1])
  {
  }

  /** The front of a reference: a repository and the tag behind it. */
  function Front(repository: string, tag: string): string {
    repository + if tag == "" then "" else ":" + tag
  }

  /** A name with no digest and no outer space, split. */
  lemma SplitOf(name: string)
    requires name != "" && Trimmed(name) && '@' !in name
    ensures SplitRef(name) ==
            if NoTag(name) then Images.Split(name, "") else Images.Split(name[..RFind(name, ':')], name[RFind(name, ':') + 1..])
  {
    StripTrims(name);
    BeforeBehind(name, '@');
    assert Before(Strip(name), '@') == name;
  }

  lemma TagSplits(repository: string, tag: string)
    requires repository != "" && !Space(repository[0]) && '@' !in repository && IsTag(tag)
    ensures var front := repository + ":" + tag;
            Trimmed(front) && '@' !in front && SplitRef(front) == Images.Split(repository, tag)
  {
    var front := repository + ":" + tag;
    TagCharacters(tag);
    assert front == repository + [':'] + tag;
    RFindAt(repository, ':', tag);
    assert front[..|repository|] == repository && front[|repository| + 1..] == tag;
    assert front[|front| - 1] == tag[|tag| - 1];
    SplitOf(front);
  }

  lemma FrontSplits(repository: string, tag: string)
    requires repository != "" && !Space(repository[0]) && '@' !in repository && NoTag(repository)
    requires (tag == "" && Trimmed(repository)) || IsTag(tag)
    ensures Trimmed(Front(repository, tag)) && '@' !in Front(repository, tag)
    ensures SplitRef(Front(repository, tag)) == Images.Split(repository, tag)
  {
    if tag == "" {
      assert Front(repository, tag) == repository;
      SplitOf(repository);
    } else {
      assert Front(repository, tag) == repository + ":" + tag;
      TagSplits(repository, tag);
    }
  }

  lemma FrontStarts(repository: string, tag: string)
    requires repository != ""
    ensures Front(repository, tag) != "" && Front(repository, tag)[0] == repository[0]
  {
  }

  /** Reading a name as its front and its digest. */
  lemma NameParts(front: string, digest: string)
    requires front != "" && !Space(front[0]) && '@' !in front
    requires digest == "" || IsDigest(digest)
    ensures var text := Strip(front + if digest == "" then "" else "@" + digest);
            Behind(text, '@') == digest && Before(text, '@') == if digest == "" then Strip(front) else front
  {
    if digest == "" {
      assert front + "" == front;
      StripTrims(front);
      BeforeBehind(Strip(front), '@');
    } else {
      DigestCharacters(digest);
      var text := front + "@" + digest;
      assert front + ("@" + digest) == text == front + ['@'] + digest;
      StripTrims(text);
      BeforeAt(front, '@', digest);
    }
  }

  lemma {:induction false} StripStarts(s: string)
    ensures Strip(s) != "" ==> !Space(Strip(s)[0])
  {
    StripTrims(s);
  }

  lemma TextParts(text: string) returns (name: string, digest: string)
    ensures ParseRef(text) == ParseParts(name, digest) && '@' !in name
  {
    name, digest := Before(Strip(text), '@'), Behind(Strip(text), '@');
    BeforeBehind(Strip(text), '@');
  }

  lemma PartsParse(name: string, digest: string, r: Ref)
    requires ParseParts(name, digest) == Some(r)
    ensures (digest == "" || IsDigest(digest)) && Checked(SplitRef(name), digest) == Some(r)
  {
  }

  lemma RepositoryKept(name: string)
    requires '@' !in name
    ensures var kept := SplitRef(name).repository; '@' !in kept && (kept != "" ==> !Space(kept[0]))
  {
    SplitKeeps(name);
    StripStarts(name);
  }

  /** What every parsed reference is made of. */
  lemma Parsed(text: string, r: Ref)
    requires ParseRef(text) == Some(r)
    ensures r.repository != "" && !Space(r.repository[0]) && '@' !in r.repository && NoTag(r.repository)
    ensures (r.tag == "" || IsTag(r.tag)) && (r.digest == "" || IsDigest(r.digest))
    ensures Checked(Images.Split(r.repository, r.tag), r.digest) == Some(r)
  {
    var name, digest := TextParts(text);
    PartsParse(name, digest, r);
    CheckedParts(SplitRef(name), digest, r);
    RepositoryKept(name);
  }

  lemma CheckedParts(s: Images.Split, digest: string, r: Ref)
    requires Checked(s, digest) == Some(r)
    ensures s == Images.Split(r.repository, r.tag) && digest == r.digest && (r.tag == "" || IsTag(r.tag))
    ensures r.repository != "" && NoTag(r.repository)
  {
    RepositoryHasNoTag(s.repository);
  }

  /** A reference that parses is read back from its own name, except where an empty tag
      followed a space, which the next reading strips. */
  lemma NameReadsBack(text: string, r: Ref)
    requires ParseRef(text) == Some(r)
    ensures ParseRef(Name(r)) == Some(r) <==> r.tag != "" || Trimmed(r.repository)
  {
    Parsed(text, r);
    if r.tag != "" || Trimmed(r.repository) {
      ReadsBack(r);
    } else {
      LosesSpace(r);
    }
  }

  lemma ReadsBack(r: Ref)
    requires r.repository != "" && !Space(r.repository[0]) && '@' !in r.repository && NoTag(r.repository)
    requires (r.tag == "" || IsTag(r.tag)) && (r.digest == "" || IsDigest(r.digest))
    requires Checked(Images.Split(r.repository, r.tag), r.digest) == Some(r)
    requires r.tag != "" || Trimmed(r.repository)
    ensures ParseRef(Name(r)) == Some(r)
  {
    var front := Front(r.repository, r.tag);
    NameIs(r);
    FrontSplits(r.repository, r.tag);
    FrontStarts(r.repository, r.tag);
    FrontReads(front, Images.Split(r.repository, r.tag), r);
    NameParts(front, r.digest);
  }

  lemma LosesSpace(r: Ref)
    requires r.repository != "" && !Space(r.repository[0]) && '@' !in r.repository
    requires r.digest == "" || IsDigest(r.digest)
    requires r.tag == "" && !Trimmed(r.repository)
    ensures ParseRef(Name(r)) != Some(r)
  {
    NameIs(r);
    assert Front(r.repository, r.tag) == r.repository;
    NameParts(r.repository, r.digest);
    SpaceIsLost(r.repository);
    NotThis(Before(Strip(Name(r)), '@'), r.digest, r);
  }

  lemma NameIs(r: Ref)
    ensures Name(r) == Front(r.repository, r.tag) + if r.digest == "" then "" else "@" + r.digest
  {
  }

  lemma PartsOf(name: string, digest: string, s: Images.Split, r: Ref)
    requires name != "" && (digest == "" || IsDigest(digest))
    requires SplitRef(name) == s && Checked(s, digest) == Some(r)
    ensures ParseParts(name, digest) == Some(r)
  {
  }

  lemma FrontReads(front: string, s: Images.Split, r: Ref)
    requires front != "" && Trimmed(front) && SplitRef(front) == s
    requires (r.digest == "" || IsDigest(r.digest)) && Checked(s, r.digest) == Some(r)
    ensures Strip(front) == front && ParseParts(front, r.digest) == Some(r)
  {
    StripTrims(front);
    PartsOf(front, r.digest, s, r);
  }

  lemma NotThis(name: string, digest: string, r: Ref)
    requires SplitRef(name).repository != r.repository
    ensures ParseParts(name, digest) != Some(r)
  {
  }

  lemma SpaceIsLost(repository: string)
    requires !Trimmed(repository) && '@' !in repository
    ensures SplitRef(repository).repository != repository
    ensures SplitRef(Strip(repository)).repository != repository
  {
    StripTrims(repository);
    StripTrims(Strip(repository));
    StripShorter(repository);
    SplitKeeps(repository);
    SplitKeeps(Strip(repository));
  }

  /** A reference with a space and an empty tag. */
  lemma SpaceBeforeEmptyTag()
    ensures var r := Ref("a ", "registry-1.docker.io", "a", "", "");
            ParseRef("a :") == Some(r) && ParseRef(Name(r)) != Some(r)
  {
    var text, r := "a :", Ref("a ", "registry-1.docker.io", "a", "", "");
    BeforeBehind(text, '@');
    RFindAt("a ", ':', "");
    assert "a " + [':'] + "" == text && text[..2] == "a ";
    SplitOf(text);
    StripTrims(text);
    HubChecks();
    NameReadsBack(text, r);
  }

  lemma HubChecks()
    ensures Checked(Images.Split("a ", ""), "") == Some(Ref("a ", "registry-1.docker.io", "a", "", ""))
  {
    HubPlace();
    HubIsHost();
    LetterIsComponent();
    OnePath("a");
    CheckedOf("a ", "registry-1.docker.io", "a");
  }

  lemma LetterIsComponent()
    ensures IsComponent("a") && '/' !in "a"
  {
  }

  lemma OnePath(s: string)
    requires IsComponent(s) && '/' !in s
    ensures IsPath(s)
  {
    SplitHead(s, "", '/');
  }

  lemma CheckedOf(repository: string, host: string, path: string)
    requires SplitRepository(repository) == Some(Place(host, path)) && IsHost(host) && IsPath(path)
    ensures Checked(Images.Split(repository, ""), "") == Some(Ref(repository, host, path, "", ""))
  {
  }

  lemma HubPlace()
    ensures SplitRepository("a ") == Some(Place("registry-1.docker.io", "a"))
  {
    var r := "a ";
    assert Strip(r) == "a" && StripOf("a", '/') == "a" && Behind("a", '/') == "";
  }

  lemma HubIsHost()
    ensures IsHost("registry-1.docker.io")
  {
    var s := "registry-1.docker.io";
    assert forall i :: 0 <= i < |s| ==> Letter(s[i]) || Digit(s[i]) || s[i] == '.' || s[i] == '-';
    assert ':' !in s;
    BeforeBehind(s, ':');
  }
}
