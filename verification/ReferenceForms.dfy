/** Which texts `fetch_release.py` takes for image references, and as what. */
module ReferenceForms {
  import opened Strings
  import opened Images
  import opened References

  // --- splitting off the tag ------------------------------------------------------------------

  /** A reference's text: the repository, a tag, a digest, each of the last two or neither. */
  function Text(repository: string, tag: string, digest: string): string {
    Front(repository, tag) + if digest == "" then "" else "@" + digest
  }

  /** The digest and the tag behind the last colon are cut off, unless a slash follows that
      colon, which is then a registry's port; spaces around the whole do not count. */
  lemma RefSplits(a: string, repository: string, tag: string, digest: string, b: string)
    requires Spaces(a) && Spaces(b)
    requires repository != "" && Trimmed(repository) && '@' !in repository && NoTag(repository)
    requires (tag == "" || IsTag(tag)) && (digest == "" || IsDigest(digest))
    ensures SplitRef(a + Text(repository, tag, digest) + b) == Images.Split(repository, tag)
  {
    var text, front := Text(repository, tag, digest), Front(repository, tag);
    FrontSplits(repository, tag);
    FrontStarts(repository, tag);
    TextTrimmed(front, digest);
    StripAround(a, text, b);
    NameParts(front, digest);
    StripTrims(text);
    StripTrims(front);
    SameSplit(a + text + b, front);
  }

  lemma TextTrimmed(front: string, digest: string)
    requires front != "" && Trimmed(front) && (digest == "" || IsDigest(digest))
    ensures Trimmed(front + if digest == "" then "" else "@" + digest)
  {
    if digest == "" {
      assert front + "" == front;
    } else {
      DigestCharacters(digest);
    }
  }

  /** What is split is the text without outer spaces and what follows "@". */
  lemma SameSplit(ref: string, front: string)
    requires front != "" && Trimmed(front) && '@' !in front && Strip(ref) != "" && Before(Strip(ref), '@') == front
    ensures SplitRef(ref) == SplitRef(front)
  {
    StripTrims(front);
    BeforeBehind(front, '@');
  }

  // --- references that parse --------------------------------------------------------------------

  /** A first component that is taken for a registry. */
  predicate LooksLikeHost(s: string) { '.' in s || ':' in s || s == "localhost" }

  predicate Fits(tag: string, digest: string) {
    (tag == "" || IsTag(tag)) && (digest == "" || IsDigest(digest))
  }

  lemma ComponentCharacters(s: string)
    requires IsComponent(s)
    ensures '/' !in s && ':' !in s && '@' !in s && Trimmed(s)
  {
  }

  lemma HostCharacters(host: string)
    requires IsHost(host)
    ensures '/' !in host && '@' !in host && host != "" && !Space(host[0])
  {
    BeforeBehind(host, ':');
    forall i | 0 <= i < |host| ensures host[i] != '/' && host[i] != '@' && !Space(host[i]) {
      HostCharacter(host, i);
    }
  }

  lemma HostCharacter(host: string, i: nat)
    requires IsHost(host) && i < |host|
    ensures host[i] != '/' && host[i] != '@' && !Space(host[i])
  {
    var before, behind := Before(host, ':'), Behind(host, ':');
    BeforeBehind(host, ':');
    if ':' in host {
      assert host == before + [':'] + behind;
      if i < |before| { assert host[i] == before[i]; } else if i > |before| { assert host[i] == behind[i - |before| - 1]; }
    }
  }

  lemma {:induction false} PathText(path: seq<string>)
    requires path != [] && forall i :: 0 <= i < |path| ==> IsComponent(path[i])
    ensures var s := Join(path, '/');
            && s != "" && ':' !in s && '@' !in s && Lower(s[0]) && Lower(s[|s| - 1]) && IsPath(s)
  {
    var s := Join(path, '/');
    forall part | part in path ensures '/' !in part {
      var i :| 0 <= i < |path| && path[i] == part;
      ComponentCharacters(path[i]);
    }
    SplitJoin(path, '/');
    PathEnds(path);
  }

  lemma {:induction false} PathEnds(path: seq<string>)
    requires path != [] && forall i :: 0 <= i < |path| ==> IsComponent(path[i])
    ensures var s := Join(path, '/'); s != "" && ':' !in s && '@' !in s && Lower(s[0]) && Lower(s[|s| - 1])
  {
    ComponentCharacters(path[0]);
    if |path| > 1 {
      var rest := Join(path[1..], '/');
      PathEnds(path[1..]);
      assert Join(path, '/') == path[0] + ['/'] + rest;
      assert (path[0] + ['/'] + rest)[|path[0]| + 1 + |rest| - 1] == rest[|rest| - 1];
    }
  }

  lemma NotStripped(r: string)
    requires r != "" && Trimmed(r) && r[0] != '/' && r[|r| - 1] != '/'
    ensures StripOf(Strip(r), '/') == r
  {
    StripTrims(r);
  }

  lemma LowerIsPlain(c: char)
    requires Lower(c)
    ensures !Space(c) && c != '/'
  {
  }

  /** The parts a text is read as, once it is split. */
  lemma ReadsAs(text: string, repository: string, host: string, path: string, tag: string, digest: string)
    requires text == Text(repository, tag, digest) && repository != "" && Trimmed(repository) && '@' !in repository && NoTag(repository)
    requires Fits(tag, digest) && IsHost(host) && IsPath(path) && SplitRepository(repository) == Some(Place(host, path))
    ensures ParseRef(text) == Some(Ref(repository, host, path, tag, digest))
  {
    var front, r := Front(repository, tag), Ref(repository, host, path, tag, digest);
    NameIs(r);
    FrontSplits(repository, tag);
    FrontStarts(repository, tag);
    FrontReads(front, Images.Split(repository, tag), r);
    NameParts(front, digest);
  }

  /** A registry, a path, a tag or none and a digest or none are read as what they are. */
  lemma RegistryReferenceIsRead(host: string, path: seq<string>, tag: string, digest: string)
    requires IsHost(host) && LooksLikeHost(host) && path != [] && (forall i :: 0 <= i < |path| ==> IsComponent(path[i])) && Fits(tag, digest)
    ensures var p := Join(path, '/');
            ParseRef(Text(host + "/" + p, tag, digest)) == Some(Ref(host + "/" + p, host, p, tag, digest))
  {
    var p := Join(path, '/');
    HostCharacters(host);
    PathIsPlain(path, p);
    RegistryReads(host, p, tag, digest);
  }

  lemma PathIsPlain(path: seq<string>, p: string)
    requires path != [] && (forall i :: 0 <= i < |path| ==> IsComponent(path[i])) && p == Join(path, '/')
    ensures IsPath(p) && p != "" && ':' !in p && '@' !in p && Trimmed(p) && p[0] != '/' && p[|p| - 1] != '/'
  {
    PathText(path);
    LowerIsPlain(p[0]);
    LowerIsPlain(p[|p| - 1]);
  }

  lemma RegistryReads(host: string, p: string, tag: string, digest: string)
    requires IsHost(host) && LooksLikeHost(host) && '/' !in host && '@' !in host && host != "" && !Space(host[0])
    requires IsPath(p) && p != "" && ':' !in p && '@' !in p && !Space(p[|p| - 1]) && p[|p| - 1] != '/' && Fits(tag, digest)
    ensures ParseRef(Text(host + "/" + p, tag, digest)) == Some(Ref(host + "/" + p, host, p, tag, digest))
  {
    Registered(host, p);
    RegistryIs(host, p, host + "/" + p);
    SlashNoTag(host, p);
    ReadsAs(Text(host + "/" + p, tag, digest), host + "/" + p, host, p, tag, digest);
  }

  lemma Registered(host: string, p: string)
    requires '/' !in host && '@' !in host && host != "" && !Space(host[0])
    requires p != "" && '@' !in p && !Space(p[|p| - 1]) && p[|p| - 1] != '/'
    ensures var s := host + "/" + p; s != "" && Trimmed(s) && '@' !in s && StripOf(Strip(s), '/') == s
  {
    var s := host + "/" + p;
    assert s[0] == host[0] && s[|s| - 1] == p[|p| - 1];
    NotStripped(s);
  }

  lemma RegistryIs(host: string, p: string, repository: string)
    requires repository == host + "/" + p && p != "" && '/' !in host && LooksLikeHost(host) && StripOf(Strip(repository), '/') == repository
    ensures SplitRepository(repository) == Some(Place(host, p))
  {
    BeforeAt(host, '/', p);
    assert repository == host + ['/'] + p;
  }

  lemma SlashNoTag(host: string, p: string)
    requires ':' !in p
    ensures NoTag(host + "/" + p)
  {
    assert "" + (host + ['/'] + p) + "" == host + "/" + p;
    SlashIsNoTag("", host, p, "");
  }

  /** Without a registry the path is one of the Docker Hub. */
  lemma HubReferenceIsRead(path: seq<string>, tag: string, digest: string)
    requires path != [] && (forall i :: 0 <= i < |path| ==> IsComponent(path[i])) && Fits(tag, digest)
    requires |path| == 1 || !LooksLikeHost(path[0])
    ensures var p := Join(path, '/');
            ParseRef(Text(p, tag, digest)) == Some(Ref(p, "registry-1.docker.io", p, tag, digest))
  {
    var p := Join(path, '/');
    PathIsPlain(path, p);
    NotStripped(p);
    HubHead(path);
    HubIs(p);
    HubIsHost();
    PlainIsNoTag(p);
    ReadsAs(Text(p, tag, digest), p, "registry-1.docker.io", p, tag, digest);
  }

  lemma HubIs(p: string)
    requires p != "" && StripOf(Strip(p), '/') == p && (Behind(p, '/') == "" || !LooksLikeHost(Before(p, '/')))
    ensures SplitRepository(p) == Some(Place("registry-1.docker.io", p))
  {
  }

  lemma PlainIsNoTag(p: string)
    requires ':' !in p
    ensures NoTag(p)
  {
    assert "" + p + "" == p;
    NoColonIsNoTag("", p, "");
  }

  lemma HubHead(path: seq<string>)
    requires path != [] && (forall i :: 0 <= i < |path| ==> IsComponent(path[i])) && (|path| == 1 || !LooksLikeHost(path[0]))
    ensures var p := Join(path, '/'); Behind(p, '/') == "" || !LooksLikeHost(Before(p, '/'))
  {
    ComponentCharacters(path[0]);
    if |path| == 1 {
      BeforeBehind(path[0], '/');
    } else {
      BeforeAt(path[0], '/', Join(path[1..], '/'));
    }
  }

  lemma PlaceIs(repository: string, place: Place)
    requires SplitRepository(repository) == Some(place)
    ensures var s := StripOf(Strip(repository), '/');
            || (s == place.path && place.host == "registry-1.docker.io" && (Behind(s, '/') == "" || !LooksLikeHost(Before(s, '/'))))
            || (s == place.host + ['/'] + place.path && LooksLikeHost(place.host) && '/' !in place.host)
  {
    BeforeBehind(StripOf(Strip(repository), '/'), '/');
  }

  lemma CheckedIsValid(s: Images.Split, digest: string, r: Ref)
    requires Checked(s, digest) == Some(r)
    ensures IsHost(r.host) && IsPath(r.path) && SplitRepository(r.repository) == Some(Place(r.host, r.path))
  {
  }

  /** Whatever parses is of that kind: its parts are what a registry accepts, and its
      repository, less outer spaces and slashes, is the path or registry and path. */
  lemma ParsedIsValid(text: string, r: Ref)
    requires ParseRef(text) == Some(r)
    ensures IsHost(r.host) && IsPath(r.path) && Fits(r.tag, r.digest)
    ensures var s := StripOf(Strip(r.repository), '/');
            || (s == r.path && r.host == "registry-1.docker.io" && (Behind(s, '/') == "" || !LooksLikeHost(Before(s, '/'))))
            || (s == r.host + ['/'] + r.path && LooksLikeHost(r.host) && '/' !in r.host)
  {
    Parsed(text, r);
    CheckedIsValid(Images.Split(r.repository, r.tag), r.digest, r);
    PlaceIs(r.repository, Place(r.host, r.path));
  }

  // --- what a registry accepts ------------------------------------------------------------------

  predicate AllLower(s: string) { s != "" && forall i :: 0 <= i < |s| ==> Lower(s[i]) }

  predicate AllBetween(s: string) { s != "" && forall i :: 0 <= i < |s| ==> s[i] == '.' || s[i] == '_' || s[i] == '-' }

  /** Runs of letters and digits, with dots, underscores and hyphens between them. */
  ghost predicate Alternates(s: string)
    decreases |s|
  {
    AllLower(s) || exists run, between, rest :: Cut(s, run, between, rest) && Alternates(rest)
  }

  predicate Cut(s: string, run: string, between: string, rest: string) {
    s == run + between + rest && AllLower(run) && AllBetween(between)
  }

  /** How far the first run reaches, and how far what is between reaches. */
  function RunEnd(s: string): (n: nat)
    ensures n <= |s| && (forall i :: 0 <= i < n ==> Lower(s[i])) && (n < |s| ==> !Lower(s[n]))
  {
    if s == "" || !Lower(s[0]) then 0 else 1 + RunEnd(s[1..])
  }

  function BetweenEnd(s: string): (n: nat)
    ensures n <= |s| && (forall i :: 0 <= i < n ==> s[i] == '.' || s[i] == '_' || s[i] == '-')
    ensures n < |s| ==> !(s[n] == '.' || s[n] == '_' || s[n] == '-')
  {
    if s == "" || !(s[0] == '.' || s[0] == '_' || s[0] == '-') then 0 else 1 + BetweenEnd(s[1..])
  }

  lemma {:induction false} ComponentAlternates(s: string)
    requires IsComponent(s)
    ensures Alternates(s)
    decreases |s|
  {
    var n := RunEnd(s);
    if n == |s| {
      assert AllLower(s);
    } else {
      var run, between, rest := FirstCut(s, n);
      ComponentAlternates(rest);
    }
  }

  lemma FirstCut(s: string, n: nat) returns (run: string, between: string, rest: string)
    requires IsComponent(s) && n == RunEnd(s) && n < |s|
    ensures Cut(s, run, between, rest) && |rest| < |s| && IsComponent(rest)
  {
    var tail := s[n..];
    var m := BetweenEnd(tail);
    assert tail[0] == s[n] && n > 0 && tail[|tail| - 1] == s[|s| - 1];
    assert m < |tail|;
    run, between, rest := s[..n], tail[..m], tail[m..];
    assert s == run + between + rest;
    TailOf(s, n + m, rest);
  }

  lemma TailOf(s: string, n: nat, rest: string)
    requires IsComponent(s) && n < |s| && rest == s[n..] && Lower(s[n])
    ensures IsComponent(rest)
  {
    assert rest[0] == s[n] && rest[|rest| - 1] == s[|s| - 1];
    assert forall i :: 0 <= i < |rest| ==> rest[i] == s[n + i];
  }

  lemma {:induction false} AlternatesComponent(s: string)
    requires Alternates(s)
    ensures IsComponent(s)
    decreases |s|
  {
    if !AllLower(s) {
      var run, between, rest :| Cut(s, run, between, rest) && Alternates(rest);
      AlternatesComponent(rest);
      assert s[0] == run[0] && s[|s| - 1] == rest[|rest| - 1];
      forall i | 0 <= i < |s| ensures Lower(s[i]) || s[i] == '.' || s[i] == '_' || s[i] == '-' {
        if i < |run| { assert s[i] == run[i]; }
        else if i < |run| + |between| { assert s[i] == between[i - |run|]; }
        else { assert s[i] == rest[i - |run| - |between|]; }
      }
    }
  }

  /** A component of a path is runs of small letters and digits with dots, underscores and
      hyphens between, as the pattern of the source has it. */
  lemma ComponentIs(s: string)
    ensures IsComponent(s) <==> Alternates(s)
  {
    if IsComponent(s) { ComponentAlternates(s); }
    if Alternates(s) { AlternatesComponent(s); }
  }

  predicate TagCharacter(c: char) {
    'a' <= c <= 'z' || 'A' <= c <= 'Z' || '0' <= c <= '9' || c == '_' || c == '.' || c == '-'
  }

  /** A tag is up to 128 such characters and starts with neither dot nor hyphen; a digest
      is "sha256:" and 64 digits; a host is such characters but "_" and, behind a colon, a port. */
  lemma TagIs(s: string)
    ensures IsTag(s) <==> 0 < |s| < 129 && s[0] != '.' && s[0] != '-' && forall i :: 0 <= i < |s| ==> TagCharacter(s[i])
  {
  }

  lemma DigestIs(s: string)
    ensures IsDigest(s) <==> |s| == 7 + 64 && "sha256:" <= s && forall i :: 7 <= i < |s| ==> '0' <= s[i] <= '9' || 'a' <= s[i] <= 'f'
  {
  }

  lemma HostIs(name: string, port: string)
    requires ':' !in name
    ensures IsHost(name) <==> name != "" && forall i :: 0 <= i < |name| ==> TagCharacter(name[i]) && name[i] != '_'
    ensures IsHost(name + ":" + port) <==>
      && (name != "" && forall i :: 0 <= i < |name| ==> TagCharacter(name[i]) && name[i] != '_')
      && (port != "" && forall i :: 0 <= i < |port| ==> '0' <= port[i] <= '9')
  {
    var s := name + ":" + port;
    BeforeBehind(name, ':');
    BeforeAt(name, ':', port);
    assert s == name + [':'] + port && s[|name|] == ':';
  }
}
