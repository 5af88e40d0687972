/** The restic password and its repository, `catena-restic-key.py`: what the store,
    the pass file and the repositories hold after every write of every request. */
module Restic {
  import opened Strings

  type Place = string

  /** A repository: the passwords that open it, and the backups in it. */
  datatype Repo = Repo(passwords: set<string>, backups: nat)

  datatype Hold = Hold(settings: string, choice: string)

  /** `password` is "" while none is stored; `place` is where an address leads;
      `files` are the places that hold something else than a repository. */
  datatype World = World(password: string, passFile: Option<string>, repos: map<Place, Repo>, files: set<Place>,
                         address: string, accessKey: string, secretKey: string, hold: Option<Hold>)

  datatype Request = Generate(replace: bool) | Validate(password: string) | Rotate(password: string) | Init

  datatype Reply = Refused | Fine | Minted(password: string) | Created | Exists

  /** Whether each tool gets through when it is run, what the generator draws, and
      where an address leads. */
  datatype Tools = Tools(cat: bool, list: bool, act: bool, mint: string, place: string -> Place)

  /** A request's writes, the world after each, and its reply. */
  datatype Effect = Effect(worlds: seq<World>, reply: Reply)

  function Last(w: World, e: Effect): World {
    if e.worlds == [] then w else e.worlds[|e.worlds| - 1]
  }

  // --- the tools, answering truthfully ------------------------------------------------

  datatype Exit = Opened | NoRepository | WrongPassword | Other

  function CatConfig(w: World, x: Tools, password: string): Exit {
    if !x.cat then Other
    else if x.place(w.address) !in w.repos then NoRepository
    else if password in w.repos[x.place(w.address)].passwords then Opened
    else WrongPassword
  }

  /** Whether the location holds any object; None when it could not be listed. */
  function HoldsAnything(w: World, x: Tools): Option<bool> {
    if !x.list || Location(w.address) == None then None
    else Some(x.place(w.address) in w.repos || x.place(w.address) in w.files)
  }

  /** `restic key passwd`: the current key replaced by one under the new password. */
  function Rekeyed(w: World, x: Tools, password: string): Option<World> {
    var p := x.place(w.address);
    if !x.act || p !in w.repos || w.password !in w.repos[p].passwords then None
    else Some(w.(repos := w.repos[p := w.repos[p].(passwords := w.repos[p].passwords - {w.password} + {password})]))
  }

  function Initialised(w: World, x: Tools): Option<World> {
    var p := x.place(w.address);
    if !x.act || p in w.repos then None else Some(w.(repos := w.repos[p := Repo({w.password}, 0)]))
  }

  // --- addresses ---------------------------------------------------------------------

  function StripLeft(s: string, c: char): string { if s != "" && s[0] == c then StripLeft(s[1..], c) else s }

  function StripRight(s: string, c: char): string {
    if s != "" && s[|s| - 1] == c then StripRight(s[..|s| - 1], c) else s
  }

  function Schemed(rest: string, scheme: string, prefix: string, name: string): (string, string) {
    if prefix <= rest then (name, rest[|prefix|..]) else (scheme, rest)
  }

  /** An s3 address as its scheme, endpoint host and bucket path. */
  function Location(repo: string): Option<(string, string, string)> {
    if !("s3:" <= repo) then None
    else
      var (scheme1, rest1) := Schemed(repo[3..], "https", "http://", "http");
      var (scheme, rest) := Schemed(rest1, scheme1, "https://", "https");
      var host, path := Before(rest, '/'), StripRight(StripLeft(Behind(rest, '/'), '/'), '/');
      if host == "" || path == "" then None else Some((scheme, host, path))
  }

  // --- the requests --------------------------------------------------------------------

  const REFUSED := Effect([], Refused)

  /** Re-key the repository, then keep the password in the store and the pass file. */
  function SetPassword(w: World, x: Tools, password: string): Effect {
    if w.password == "" || w.address == "" then REFUSED
    else
      match Rekeyed(w, x, password)
      case None => REFUSED
      case Some(w1) =>
        var w2 := w1.(password := password);
        Effect([w1, w2, w2.(passFile := Some(password))], Fine)
  }

  function Mint(w: World, x: Tools, replace: bool): Effect {
    if w.address != "" && CatConfig(w, x, x.mint) != NoRepository then REFUSED
    else
      var w1 := w.(password := x.mint);
      Effect([w1] + (if replace then [w1.(passFile := Some(x.mint))] else []), Minted(x.mint))
  }

  function DoGenerate(w: World, x: Tools, replace: bool): Effect {
    if w.password == "" then Mint(w, x, replace)
    else if !replace || w.hold == None || Location(w.address) == None then REFUSED
    else if Location(w.address) != Location(w.hold.value.settings) then Mint(w, x, true)
    else if w.hold.value.choice != "fresh" then REFUSED
    else
      var e := SetPassword(w, x, x.mint);
      if e.reply == Fine then Effect(e.worlds, Minted(x.mint)) else e
  }

  function DoInit(w: World, x: Tools): Effect {
    if w.address == "" || w.accessKey == "" || w.secretKey == "" || w.password == "" then REFUSED
    else
      match CatConfig(w, x, w.password)
      case Opened => Effect([], Exists)
      case NoRepository =>
        if HoldsAnything(w, x) != Some(false) then REFUSED
        else (match Initialised(w, x) case Some(w1) => Effect([w1], Created) case None => REFUSED)
      case _ => REFUSED
  }

  function Do(w: World, x: Tools, q: Request): Effect {
    match q
    case Generate(replace) => DoGenerate(w, x, replace)
    case Validate(password) =>
      if password == "" || w.address == "" then REFUSED
      else Effect([], if CatConfig(w, x, password) == Opened then Fine else Refused)
    case Rotate(password) => if w.hold != None || password == "" then REFUSED else SetPassword(w, x, password)
    case Init => DoInit(w, x)
  }

  // --- the program, writing as it goes ---------------------------------------------------

  class Keeper {
    var w: World
    // The world after each write.
    ghost var trace: seq<World>

    constructor (w: World)
      ensures this.w == w && trace == []
    {
      this.w, trace := w, [];
    }

    method SaveStore(password: string)
      modifies this
      ensures w == old(w).(password := password) && trace == old(trace) + [w]
    {
      w := w.(password := password);
      trace := trace + [w];
    }

    method WritePassFile(password: string)
      modifies this
      ensures w == old(w).(passFile := Some(password)) && trace == old(trace) + [w]
    {
      w := w.(passFile := Some(password));
      trace := trace + [w];
    }

    method SetPasswordTo(x: Tools, password: string) returns (r: Reply)
      modifies this
      ensures var e := SetPassword(old(w), x, password);
              r == e.reply && trace == old(trace) + e.worlds && w == Last(old(w), e)
    {
      if w.password == "" || w.address == "" { return Refused; }
      var rekeyed := Rekeyed(w, x, password);
      if rekeyed == None { return Refused; }
      w := rekeyed.value;
      trace := trace + [w];
      SaveStore(password);
      WritePassFile(password);
      return Fine;
    }

    method MintPassword(x: Tools, replace: bool) returns (r: Reply)
      modifies this
      ensures var e := Mint(old(w), x, replace);
              r == e.reply && trace == old(trace) + e.worlds && w == Last(old(w), e)
    {
      if w.address != "" {
        var rc := CatConfig(w, x, x.mint);
        if rc != NoRepository { return Refused; }
      }
      SaveStore(x.mint);
      if replace {
        WritePassFile(x.mint);
      }
      return Minted(x.mint);
    }

    method GeneratePassword(x: Tools, replace: bool) returns (r: Reply)
      modifies this
      ensures var e := DoGenerate(old(w), x, replace);
              r == e.reply && trace == old(trace) + e.worlds && w == Last(old(w), e)
    {
      if w.password != "" {
        if !replace || w.hold == None { return Refused; }
        var here := Location(w.address);
        if here == None { return Refused; }
        if here == Location(w.hold.value.settings) {
          if w.hold.value.choice != "fresh" { return Refused; }
          r := SetPasswordTo(x, x.mint);
          return if r == Fine then Minted(x.mint) else r;
        }
      }
      r := MintPassword(x, replace);
    }

    method InitRepository(x: Tools) returns (r: Reply)
      modifies this
      ensures var e := DoInit(old(w), x);
              r == e.reply && trace == old(trace) + e.worlds && w == Last(old(w), e)
    {
      if w.address == "" || w.accessKey == "" || w.secretKey == "" || w.password == "" { return Refused; }
      var rc := CatConfig(w, x, w.password);
      if rc == Opened { return Exists; }
      if rc != NoRepository { return Refused; }
      var holds := HoldsAnything(w, x);
      if holds != Some(false) { return Refused; }
      var made := Initialised(w, x);
      if made == None { return Refused; }
      w := made.value;
      trace := trace + [w];
      return Created;
    }

    method Handle(x: Tools, q: Request) returns (r: Reply)
      modifies this
      ensures var e := Do(old(w), x, q);
              r == e.reply && trace == old(trace) + e.worlds && w == Last(old(w), e)
    {
      match q
      case Generate(replace) => r := GeneratePassword(x, replace);
      case Validate(password) =>
        if password == "" || w.address == "" { return Refused; }
        var rc := CatConfig(w, x, password);
        return if rc == Opened then Fine else Refused;
      case Rotate(password) =>
        if w.hold != None || password == "" { return Refused; }
        r := SetPasswordTo(x, password);
      case Init => r := InitRepository(x);
    }
  }
}
