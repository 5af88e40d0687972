/** Image references and versions: `_split_ref`, `_order` and the pin of `image_pin.py`,
    `parse_ref` of `fetch_release.py`, `split_repository` of `catena_admin_release.py`. */
module Images {
  import opened Strings

  // --- splitting a reference --------------------------------------------------------------

  /** Where `c` stands last, or -1. */
  function RFind(s: string, c: char): (n: int)
    ensures -1 <= n < |s| && (n >= 0 ==> s[n] == c) && c !in s[n + 1..]
  {
    if s == "" then -1 else if s[|s| - 1] == c then |s| - 1 else RFind(s[..|s| - 1], c)
  }

  datatype Split = Split(repository: string, tag: string)

  /** A colon with a slash after it is a registry port. */
  function SplitRef(ref: string): Split {
    var name := Before(Strip(ref), '@');
    var i := RFind(name, ':');
    if Strip(ref) == "" then Split("", "")
    else if i < 0 || '/' in name[i + 1..] then Split(name, "")
    else Split(name[..i], name[i + 1..])
  }

  // --- versions -----------------------------------------------------------------------------

  datatype Family = Semver | TwoPart(major: nat, suffix: string)

  /** `plain` is 0 for a pre-release or build, 1 without one. */
  datatype Key = Key(major: nat, minor: nat, patch: nat, build: nat, plain: nat, suffix: string)

  datatype Version = Version(family: Family, key: Key)

  predicate Digit(c: char) { '0' <= c <= '9' }

  predicate Letter(c: char) { 'a' <= c <= 'z' || 'A' <= c <= 'Z' }

  /** How many digits a text starts with. */
  function Lead(s: string): (n: nat)
    ensures n <= |s| && forall i :: 0 <= i < n ==> Digit(s[i])
  {
    if s == "" || !Digit(s[0]) then 0 else 1 + Lead(s[1..])
  }

  function Whole(s: string): nat
    requires forall i :: 0 <= i < |s| ==> Digit(s[i])
  {
    if s == "" then 0
    else
      var last := s[|s| - 1];
      assert Digit(last);
      Whole(s[..|s| - 1]) * 10 + (last - '0') as nat
  }

  datatype Dotted = Dotted(numbers: seq<nat>, rest: string)

  /** Up to `most` numbers with dots between, and what follows. */
  function Numbers(s: string, most: nat): Dotted {
    var n := Lead(s);
    if most == 0 || n == 0 then Dotted([], s)
    else if n + 1 < |s| && s[n] == '.' && Digit(s[n + 1]) && most > 1 then
      var more := Numbers(s[n + 1..], most - 1);
      Dotted([Whole(s[..n])] + more.numbers, more.rest)
    else Dotted([Whole(s[..n])], s[n..])
  }

  /** A letter, then letters and digits. */
  predicate IsWord(s: string) {
    s != "" && Letter(s[0]) && forall i :: 0 <= i < |s| ==> Letter(s[i]) || Digit(s[i])
  }

  function Unprefixed(tag: string): string {
    if tag != "" && tag[0] == 'v' then tag[1..] else tag
  }

  /** What follows a version's numbers: nothing, or a suffix on one line. */
  predicate IsTail(rest: string) {
    rest == "" || ((rest[0] == '-' || rest[0] == '+') && |rest| > 1 && '\n' !in rest[1..])
  }

  /** Without one newline at the end, which the `$` of a pattern matches before. */
  function Chomp(tag: string): string {
    if tag != "" && tag[|tag| - 1] == '\n' then tag[..|tag| - 1] else tag
  }

  /** `_order`: None for a tag that compares with no other. */
  function Order(tag: string): Option<Version> {
    Ordered(Numbers(Chomp(tag), PARTS), Numbers(Unprefixed(Chomp(tag)), PARTS))
  }

  /** The most numbers a comparable tag has. */
  const PARTS: nat := 4

  /** By the numbers of a tag as it stands and without its prefix. */
  function Ordered(bare: Dotted, d: Dotted): Option<Version> {
    if |bare.numbers| == 2 && bare.rest != "" && bare.rest[0] == '-' && IsWord(bare.rest[1..]) then
      Some(Version(TwoPart(bare.numbers[0], bare.rest[1..]), Key(bare.numbers[1], 0, 0, 0, 0, "")))
    else if |d.numbers| == 2 && d.rest == "" then
      Some(Version(Semver, Key(d.numbers[0], d.numbers[1], 0, 0, 1, "")))
    else if |d.numbers| >= 3 && IsTail(d.rest) then
      Some(Version(Semver, Key(d.numbers[0], d.numbers[1], d.numbers[2], if |d.numbers| == 4 then d.numbers[3] else 0,
                               if d.rest == "" then 1 else 0, if d.rest == "" then "" else d.rest[1..])))
    else None
  }

  /** Python's order on the key tuples. */
  predicate Less(x: Key, y: Key) {
    if x.major != y.major then x.major < y.major
    else if x.minor != y.minor then x.minor < y.minor
    else if x.patch != y.patch then x.patch < y.patch
    else if x.build != y.build then x.build < y.build
    else if x.plain != y.plain then x.plain < y.plain
    else x.suffix != y.suffix && Leq(x.suffix, y.suffix)
  }

  /** A strict total order. */
  lemma LessIsTotal(x: Key, y: Key, z: Key)
    ensures !Less(x, x)
    ensures Less(x, y) || Less(y, x) || x == y
    ensures !(Less(x, y) && Less(y, x))
    ensures Less(x, y) && Less(y, z) ==> Less(x, z)
  {
    LeqOrder(x.suffix, y.suffix);
    LeqOrder(y.suffix, z.suffix);
    if Leq(x.suffix, y.suffix) && Leq(y.suffix, z.suffix) { LeqTransitive(x.suffix, y.suffix, z.suffix); }
  }

  // --- the pin ----------------------------------------------------------------------------------

  /** `catena_image_pinned`. */
  function Pinned(pins: map<string, string>, repository: string): string {
    if repository !in pins || Strip(pins[repository]) == "" then ""
    else
      var s := SplitRef(pins[repository]);
      if s.repository != repository || Order(s.tag) == None then "" else pins[repository]
  }

  /** `catena_image_pin`; None where it raises. */
  function Pin(floor: string, pins: map<string, string>): Option<string> {
    if Strip(floor) == "" then None
    else
      var s := SplitRef(floor);
      var pin := Pinned(pins, s.repository);
      if pin == "" || Order(s.tag) == None then Some(floor)
      else
        var p, f := Order(SplitRef(pin).tag).value, Order(s.tag).value;
        if p.family != f.family then Some(floor) else if Less(f.key, p.key) then Some(pin) else Some(floor)
  }

  datatype Image = Image(repository: string, version: Option<Version>)

  function Read(ref: string): Image {
    Image(SplitRef(ref).repository, Order(SplitRef(ref).tag))
  }

  /** Two images of one repository whose versions compare. */
  predicate Comparable(a: Image, b: Image) {
    a.repository == b.repository && a.version.Some? && b.version.Some? && a.version.value.family == b.version.value.family
  }

  predicate Older(a: Image, b: Image) {
    a.version.Some? && b.version.Some? && Less(a.version.value.key, b.version.value.key)
  }

  /** The image a host has pinned for a repository. */
  predicate Recorded(pins: map<string, string>, repository: string) {
    repository in pins && Strip(pins[repository]) != ""
  }

  /** The pin runs exactly where it is of the floor's repository, compares, and is newer. */
  lemma PinRuns(floor: string, pins: map<string, string>)
    requires Strip(floor) != ""
    ensures var repository := Read(floor).repository;
            Pin(floor, pins) == Some(if Recorded(pins, repository) && Comparable(Read(floor), Read(pins[repository]))
                                          && Older(Read(floor), Read(pins[repository]))
                                     then pins[repository] else floor)
  {
  }

  /** What runs is the floor or the newer pin: of the floor's repository, nothing older
      than either where they compare. */
  lemma PinIsNewest(floor: string, pins: map<string, string>)
    requires Strip(floor) != ""
    ensures Pin(floor, pins).Some?
    ensures var r, f := Read(Pin(floor, pins).value), Read(floor);
            && r.repository == f.repository
            && (f.version.Some? ==> Comparable(f, r) && !Older(r, f))
            && (Recorded(pins, f.repository) && Comparable(f, Read(pins[f.repository])) ==>
                  Comparable(r, Read(pins[f.repository])) && !Older(r, Read(pins[f.repository])))
  {
    PinRuns(floor, pins);
    var f := Read(floor);
    if Recorded(pins, f.repository) { NewerIsNewest(f, Read(pins[f.repository])); }
    if f.version.Some? { LessIsTotal(f.version.value.key, f.version.value.key, f.version.value.key); }
  }

  lemma NewerIsNewest(f: Image, p: Image)
    ensures Older(f, p) ==> !Older(p, f) && !Older(p, p)
    ensures Comparable(f, p) && !Older(f, p) ==> !Older(f, p) && Comparable(f, f)
  {
    if f.version.Some? && p.version.Some? {
      var x, y := f.version.value.key, p.version.value.key;
      LessIsTotal(x, y, x);
      LessIsTotal(y, y, y);
    }
  }

  /** A newer floor never runs something older. */
  lemma PinIsMonotone(low: string, high: string, pins: map<string, string>)
    requires Strip(low) != "" && Strip(high) != "" && Comparable(Read(low), Read(high)) && !Older(Read(high), Read(low))
    ensures var x, y := Read(Pin(low, pins).value), Read(Pin(high, pins).value); Comparable(x, y) && !Older(y, x)
  {
    PinRuns(low, pins);
    PinRuns(high, pins);
    var repository := Read(low).repository;
    LaterStays(Read(low), Read(high), if Recorded(pins, repository) then Read(pins[repository]) else Read(low));
  }

  /** The later of `low` and `p` is no later than the later of `high` and `p`. */
  lemma LaterStays(low: Image, high: Image, p: Image)
    requires Comparable(low, high) && !Older(high, low)
    ensures var x := if Comparable(low, p) && Older(low, p) then p else low;
            var y := if Comparable(high, p) && Older(high, p) then p else high;
            Comparable(x, y) && !Older(y, x)
  {
    var l, h := low.version.value.key, high.version.value.key;
    LessIsTotal(l, h, l);
    if p.version.Some? {
      var k := p.version.value.key;
      LessIsTotal(k, k, k);
      LessIsTotal(l, k, h);
      LessIsTotal(h, l, k);
      LessIsTotal(h, k, l);
    }
  }

  // --- runs of converges and pin writes ---------------------------------------------------------

  datatype Event = Deploy(floor: string) | Write(repository: string, ref: string)

  /** What each converge of a run deploys; None where it raises. */
  function Deployed(pins: map<string, string>, events: seq<Event>): seq<Option<string>>
    decreases |events|
  {
    if events == [] then []
    else
      match events[0]
      case Deploy(floor) => [Pin(floor, pins)] + Deployed(pins, events[1..])
      case Write(repository, ref) => Deployed(pins[repository := ref], events[1..])
  }

  function Floors(events: seq<Event>): seq<string> {
    if events == [] then []
    else match events[0] case Deploy(floor) => [floor] + Floors(events[1..]) case Write(_, _) => Floors(events[1..])
  }

  /** A floor that is a reference with a comparable version. */
  predicate Shippable(floor: string) {
    Strip(floor) != "" && Read(floor).version.Some?
  }

  predicate AtLeast(deployed: Option<string>, floor: string) {
    deployed.Some? && Comparable(Read(floor), Read(deployed.value)) && !Older(Read(deployed.value), Read(floor))
  }

  lemma PinAtLeast(floor: string, pins: map<string, string>)
    requires Shippable(floor)
    ensures AtLeast(Pin(floor, pins), floor)
  {
    PinIsNewest(floor, pins);
  }

  /** Each deployed image is at least the floor shipped with it. */
  predicate AllAtLeast(deployed: seq<Option<string>>, floors: seq<string>) {
    |deployed| == |floors| &&
    (floors == [] || (AtLeast(deployed[0], floors[0]) && AllAtLeast(deployed[1..], floors[1..])))
  }

  predicate AllShippable(floors: seq<string>) {
    floors == [] || (Shippable(floors[0]) && AllShippable(floors[1..]))
  }

  /** Whatever is written into the store, no converge of a run deploys something older than
      the floor it ships, or something of another repository. */
  lemma {:induction false} NoRunGoesBelowTheFloor(pins: map<string, string>, events: seq<Event>)
    requires AllShippable(Floors(events))
    ensures AllAtLeast(Deployed(pins, events), Floors(events))
    decreases |events|
  {
    if events != [] {
      var rest := events[1..];
      match events[0] {
        case Deploy(floor) =>
          assert Floors(events)[1..] == Floors(rest) && Deployed(pins, events)[1..] == Deployed(pins, rest);
          PinAtLeast(floor, pins);
          NoRunGoesBelowTheFloor(pins, rest);
        case Write(repository, ref) =>
          assert Floors(events) == Floors(rest);
          NoRunGoesBelowTheFloor(pins[repository := ref], rest);
      }
    }
  }
}
