/** Agreement of the stored password with the repository, over any requests, and
    exactly where a killed request breaks it. */
module ResticAgreement {
  import opened Strings
  import opened Restic

  /** A stored password opens whatever repository the destination holds. */
  predicate Agrees(w: World, place: string -> Place) {
    w.password != "" && w.address != "" && place(w.address) in w.repos ==>
      w.password in w.repos[place(w.address)].passwords
  }

  /** Every repository of before is there, with its backups, and opened by a password. */
  predicate NoneLost(w: World, w': World) {
    forall p :: p in w.repos ==>
      p in w'.repos && w'.repos[p].backups == w.repos[p].backups && (w.repos[p].passwords != {} ==> w'.repos[p].passwords != {})
  }

  /** Only the destination's repository changes, and only where nothing was stored is one made. */
  predicate OnlyHere(w: World, w': World, place: string -> Place) {
    && (forall p :: p in w.repos && p != place(w.address) ==> p in w'.repos && w'.repos[p] == w.repos[p])
    && (forall p :: p in w'.repos && p !in w.repos ==> p == place(w.address) && p !in w.files)
  }

  /** At every write of every request: no repository lost, none made over anything. */
  lemma RequestLosesNothing(w: World, x: Tools, q: Request, i: nat)
    requires i < |Do(w, x, q).worlds|
    ensures NoneLost(w, Do(w, x, q).worlds[i]) && OnlyHere(w, Do(w, x, q).worlds[i], x.place)
  {
    match q
    case Generate(replace) =>
      if Do(w, x, q).worlds == Mint(w, x, replace).worlds { MintKeeps(w, x, replace, i); } else { SetPasswordKeeps(w, x, x.mint, i); }
    case Rotate(password) => SetPasswordKeeps(w, x, password, i);
    case Init => InitKeeps(w, x, i);
    case Validate(_) =>
  }

  lemma SetPasswordKeeps(w: World, x: Tools, password: string, i: nat)
    requires i < |SetPassword(w, x, password).worlds|
    ensures var w' := SetPassword(w, x, password).worlds[i]; NoneLost(w, w') && OnlyHere(w, w', x.place)
  {
    var w1 := Rekeyed(w, x, password).value;
    assert NoneLost(w, w1) && OnlyHere(w, w1, x.place);
  }

  lemma MintKeeps(w: World, x: Tools, replace: bool, i: nat)
    requires i < |Mint(w, x, replace).worlds|
    ensures var w' := Mint(w, x, replace).worlds[i]; NoneLost(w, w') && OnlyHere(w, w', x.place)
  {
  }

  lemma InitKeeps(w: World, x: Tools, i: nat)
    requires i < |DoInit(w, x).worlds|
    ensures var w' := DoInit(w, x).worlds[i]; NoneLost(w, w') && OnlyHere(w, w', x.place)
  {
  }

  /** After the request the store agrees with the destination again; killed before,
      it does save after one write: the re-key of `rotate` or of a fresh choice,
      where the old password is still stored. */
  lemma RequestAgrees(w: World, x: Tools, q: Request, i: nat)
    requires Agrees(w, x.place) && i < |Do(w, x, q).worlds|
    ensures Agrees(Do(w, x, q).worlds[i], x.place) <==>
      !(i == 0 && Rekeys(w, x, q) && NewPassword(x, q) != w.password)
  {
  }

  /** The request re-keys the repository. */
  predicate Rekeys(w: World, x: Tools, q: Request) {
    Do(w, x, q).worlds != [] && w.password != "" &&
    match q
    case Rotate(_) => true
    case Generate(_) => w.hold.Some? && Location(w.address) == Location(w.hold.value.settings)
    case _ => false
  }

  function NewPassword(x: Tools, q: Request): string {
    match q case Rotate(password) => password case _ => x.mint
  }

  // --- sequences ----------------------------------------------------------------------------

  datatype Turn = Turn(x: Tools, q: Request)

  function Run(w: World, turns: seq<Turn>): World {
    if turns == [] then w
    else
      var w1 := Run(w, turns[..|turns| - 1]);
      Last(w1, Do(w1, turns[|turns| - 1].x, turns[|turns| - 1].q))
  }

  lemma RequestEnds(w: World, x: Tools, q: Request)
    requires Agrees(w, x.place)
    ensures Agrees(Last(w, Do(w, x, q)), x.place) && NoneLost(w, Last(w, Do(w, x, q))) && Last(w, Do(w, x, q)).address == w.address
  {
    var n := |Do(w, x, q).worlds|;
    if n > 0 {
      RequestAgrees(w, x, q, n - 1);
      RequestLosesNothing(w, x, q, n - 1);
    }
  }

  /** Over any sequence of requests, tools failing or not, the stored password opens
      whatever the destination holds, and no repository is lost. */
  lemma {:induction false} SessionAgrees(w: World, turns: seq<Turn>, place: string -> Place)
    requires Agrees(w, place) && forall i :: 0 <= i < |turns| ==> turns[i].x.place == place
    ensures Agrees(Run(w, turns), place) && NoneLost(w, Run(w, turns)) && Run(w, turns).address == w.address
  {
    if turns != [] {
      var n := |turns| - 1;
      SessionAgrees(w, turns[..n], place);
      RequestEnds(Run(w, turns[..n]), turns[n].x, turns[n].q);
    }
  }

  /** A successful rotation, or a password generated in place of the stored one,
      leaves the store and the pass file equal, and both new. */
  lemma RekeyedStoreAndFileAgree(w: World, x: Tools, q: Request)
    requires (q.Rotate? && Do(w, x, q).reply == Fine) || (q == Generate(true) && Do(w, x, q).reply.Minted?)
    ensures var w' := Last(w, Do(w, x, q));
            w'.passFile == Some(w'.password) && w'.password == NewPassword(x, q)
  {
  }

  /** A request that is refused writes nothing. */
  lemma RefusalWritesNothing(w: World, x: Tools, q: Request)
    requires Do(w, x, q).reply == Refused
    ensures Do(w, x, q).worlds == []
  {
  }

  // --- addresses -----------------------------------------------------------------------------

  lemma {:induction false} StripsRight(s: string, n: nat)
    requires s != "" && s[|s| - 1] != '/'
    ensures StripRight(s + seq(n, i => '/'), '/') == s
  {
    var tail := seq(n, i => '/');
    if n == 0 {
      assert s + tail == s;
    } else {
      StripsRight(s, n - 1);
      assert (s + tail)[..|s + tail| - 1] == s + seq(n - 1, i => '/');
    }
  }

  /** A bare endpoint, and trailing slashes on the bucket path, name the same
      location as the https address written out. */
  lemma SameLocation(host: string, path: string, slashes: nat)
    requires '/' !in host && host != "" && !("http:" <= host) && !("https:" <= host)
    requires path != "" && path[0] != '/' && path[|path| - 1] != '/'
    ensures Location("s3:" + (host + "/" + (path + seq(slashes, i => '/')))) == Some(("https", host, path))
    ensures Location("s3:" + ("https://" + (host + "/" + path))) == Some(("https", host, path))
  {
    BareIs(host, path, slashes);
    WrittenOutIs(host, path);
  }

  lemma BareIs(host: string, path: string, slashes: nat)
    requires '/' !in host && host != "" && !("http:" <= host) && !("https:" <= host)
    requires path != "" && path[0] != '/' && path[|path| - 1] != '/'
    ensures Location("s3:" + (host + "/" + (path + seq(slashes, i => '/')))) == Some(("https", host, path))
  {
    var tail := path + seq(slashes, i => '/');
    var bare := host + "/" + tail;
    BeforeAt(host, '/', tail);
    StripsRight(path, slashes);
    NotSchemed(host, tail);
    assert ("s3:" + bare)[3..] == bare;
  }

  lemma WrittenOutIs(host: string, path: string)
    requires '/' !in host && host != "" && !("http:" <= host) && !("https:" <= host)
    requires path != "" && path[0] != '/' && path[|path| - 1] != '/'
    ensures Location("s3:" + ("https://" + (host + "/" + path))) == Some(("https", host, path))
  {
    var full := "https://" + (host + "/" + path);
    BeforeAt(host, '/', path);
    StripsRight(path, 0);
    assert path + seq(0, i => '/') == path;
    assert ("s3:" + full)[3..] == full;
    assert full[8..] == host + "/" + path && full[4] == 's';
  }

  lemma NotSchemed(host: string, tail: string)
    requires '/' !in host && host != "" && !("http:" <= host) && !("https:" <= host)
    ensures !("http://" <= host + "/" + tail) && !("https://" <= host + "/" + tail)
  {
    var s := host + "/" + tail;
    assert s[|host|] == '/' && forall i :: 0 <= i < |host| ==> s[i] == host[i];
    if |host| >= 5 { assert s[..5] == host[..5]; }
    if |host| >= 6 { assert s[..6] == host[..6]; }
  }

  /** An http address names its own location; and whatever names one has a scheme, a host
      before the first slash and a path of a bucket behind it. */
  lemma HttpLocation(host: string, path: string)
    requires '/' !in host && host != "" && !("https:" <= host)
    requires path != "" && path[0] != '/' && path[|path| - 1] != '/'
    ensures Location("s3:" + ("http://" + (host + "/" + path))) == Some(("http", host, path))
  {
    var rest := host + "/" + path;
    var full := "http://" + rest;
    BeforeAt(host, '/', path);
    assert rest == host + ['/'] + path;
    StripsRight(path, 0);
    assert path + seq(0, i => '/') == path;
    assert ("s3:" + full)[3..] == full && full[7..] == rest;
    assert rest[|host|] == '/' && forall i :: 0 <= i < |host| ==> rest[i] == host[i];
    if |host| >= 6 { assert rest[..6] == host[..6]; }
    assert !("https://" <= rest);
  }

  lemma LocationMeans(repo: string)
    requires Location(repo).Some?
    ensures var (scheme, host, path) := Location(repo).value;
            && "s3:" <= repo && (scheme == "http" || scheme == "https") && host != "" && '/' !in host
            && path != "" && path[0] != '/' && path[|path| - 1] != '/'
  {
    var (scheme1, rest1) := Schemed(repo[3..], "https", "http://", "http");
    var (scheme, rest) := Schemed(rest1, scheme1, "https://", "https");
    BeforeBehind(rest, '/');
    LeftEnd(Behind(rest, '/'));
    RightEnd(StripLeft(Behind(rest, '/'), '/'));
  }

  lemma {:induction false} LeftEnd(s: string)
    ensures var r := StripLeft(s, '/'); r != "" ==> r[0] != '/'
  {
    if s != "" && s[0] == '/' { LeftEnd(s[1..]); }
  }

  lemma {:induction false} RightEnd(s: string)
    ensures var r := StripRight(s, '/'); (r != "" ==> r[|r| - 1] != '/' && r[0] == s[0]) && |r| <= |s|
  {
    if s != "" && s[|s| - 1] == '/' { RightEnd(s[..|s| - 1]); }
  }
}
