/** The two sections of the on-box store that `onbox_config.py` owns, and what its
    operations make of them. */
module OnboxStore {
  import opened Strings

  /** The keys the code names, and any other. */
  datatype Key = AccessMethod | TailnetProvider | ControlUrl | Zone | Zones | OauthClient | Token | Tokens | Named(name: string)

  datatype Value = Null | Text(text: string) | Table(entries: map<string, string>)

  type Section = map<Key, Value>

  datatype Store = Store(secrets: Section, config: Section)

  /** The declared names; the cookie secrets a zones setting asks for; how a table is
      spelt where text is expected. */
  datatype Registry = Registry(internal: set<Key>, userHeld: set<Key>, onRequest: set<Key>, external: set<Key>,
                               cookies: Value -> set<Key>, show: map<string, string> -> string)

  /** What a converge hands over: the secrets it captured, and the `--set` pairs. */
  datatype Inputs = Inputs(adopted: Section, secrets: Section, config: Section)

  datatype Mint = NoMint | UserHeldOnly | Everything

  const PUBLIC_SSH := "public_ssh"
  const NONE := "none"
  const HEADSCALE := "headscale"
  const TAILSCALE := "tailscale"

  // --- text and values -------------------------------------------------------------

  function Lower(s: string): string {
    if s == "" then "" else [if 'A' <= s[0] <= 'Z' then s[0] - 'A' + 'a' else s[0]] + Lower(s[1..])
  }

  /** `d.get(key)`: an absent key and a null read alike. */
  function Get(m: Section, k: Key): Value {
    if k in m then m[k] else Null
  }

  predicate Truthy(v: Value) {
    match v case Null => false case Text(s) => s != "" case Table(entries) => entries != map[]
  }

  predicate Blank(v: Value) {
    match v case Null => true case Text(s) => Strip(s) == "" case Table(_) => false
  }

  /** `str(value or "").strip()`. */
  function Shown(reg: Registry, v: Value): string {
    match v case Null => "" case Text(s) => Strip(s) case Table(entries) => if entries == map[] then "" else Strip(reg.show(entries))
  }

  // --- the operations ----------------------------------------------------------------

  /** `adopt`, and the secrets half of `apply_inputs`. */
  function Fill(m: Section, given: Section, overwrite: bool): Section {
    m + NewSecrets(m, given, overwrite)
  }

  function NewSecrets(m: Section, given: Section, overwrite: bool): Section {
    map k | k in given && !Blank(given[k]) && (overwrite || !Truthy(Get(m, k))) :: given[k]
  }

  function NewSettings(m: Section, given: Section, overwrite: bool): Section {
    map k | k in given && (overwrite || k !in m) && Get(m, k) != given[k] :: given[k]
  }

  /** The config half of `apply_inputs`. */
  function FillConfig(m: Section, given: Section, overwrite: bool): Section {
    m + NewSettings(m, given, overwrite)
  }

  function TokenTable(secrets: Section): map<string, string> {
    if Get(secrets, Tokens).Table? then Get(secrets, Tokens).entries else map[]
  }

  /** The domain that is left and the token to keep for it, where there are both and
      the table does not have them yet. */
  function Outgoing(reg: Registry, s: Store, given: Section): Option<(string, string)> {
    var incoming, current, token := Shown(reg, Get(given, Zone)), Shown(reg, Get(s.config, Zone)), Shown(reg, Get(s.secrets, Token));
    if incoming == "" || current == "" || incoming == current || token == "" then None
    else if current in TokenTable(s.secrets) && TokenTable(s.secrets)[current] == token then None
    else Some((current, token))
  }

  function Preserved(reg: Registry, s: Store, given: Section): Store {
    match Outgoing(reg, s, given)
    case None => s
    case Some((zone, token)) => s.(secrets := s.secrets[Tokens := Table(TokenTable(s.secrets)[zone := token])])
  }

  /** None where the source raises: a key that is no external secret. */
  function Applied(reg: Registry, s: Store, secrets: Section, config: Section, overwrite: bool): Option<Store> {
    if !(secrets.Keys <= reg.external) then None
    else
      var p := Preserved(reg, s, config);
      Some(Store(Fill(p.secrets, secrets, overwrite), FillConfig(p.config, config, overwrite)))
  }

  predicate Provider(p: string) {
    p == NONE || p == TAILSCALE || p == HEADSCALE
  }

  function ProviderOf(reg: Registry, s: Store): (p: string)
    ensures Provider(p)
  {
    var way := Shown(reg, Get(s.config, AccessMethod));
    var stated := Lower(Shown(reg, Get(s.config, TailnetProvider)));
    if way == PUBLIC_SSH then NONE
    else if Provider(stated) then stated
    else if Shown(reg, Get(s.config, ControlUrl)) != "" then HEADSCALE
    else if way == "tailnet" || Truthy(Get(s.secrets, OauthClient)) then TAILSCALE
    else NONE
  }

  function Settled(reg: Registry, s: Store): Store {
    s.(config := (s.config - {AccessMethod})[TailnetProvider := Text(ProviderOf(reg, s))])
  }

  function Minted(m: Section, keys: set<Key>, draw: Key -> string): Section {
    m + (map k | k in keys && Blank(Get(m, k)) :: Text(draw(k)))
  }

  /** The secrets a run mints where they are missing. */
  function Wanted(reg: Registry, config: Section, mint: Mint): set<Key> {
    match mint
    case NoMint => {}
    case UserHeldOnly => reg.userHeld - reg.onRequest
    case Everything => reg.internal + reg.cookies(Get(config, Zones)) + (reg.userHeld - reg.onRequest)
  }

  function Converged(reg: Registry, s: Store, i: Inputs, overwrite: bool, mint: Mint, draw: Key -> string): Option<Store> {
    match Applied(reg, s.(secrets := Fill(s.secrets, i.adopted, overwrite)), i.secrets, i.config, overwrite)
    case None => None
    case Some(b) =>
      var c := Settled(reg, b);
      Some(c.(secrets := Minted(c.secrets, Wanted(reg, c.config, mint), draw)))
  }

  /** What the generators promise. */
  ghost predicate Draws(draw: Key -> string) {
    forall k :: !Blank(Text(draw(k)))
  }

  /** No secret minted on the box is one the client supplies. */
  ghost predicate Sound(reg: Registry) {
    forall m: Mint, config: Section :: Wanted(reg, config, m) !! reg.external + {Token, Tokens}
  }

  // --- what filling leaves ------------------------------------------------------------

  /** How far a value is from missing. Every value of the middle rank is the empty table. */
  function Rank(v: Value): nat {
    if Truthy(v) then 2 else if Blank(v) then 0 else 1
  }

  ghost predicate Grows(m: Section, n: Section) {
    forall k :: Rank(Get(m, k)) <= Rank(Get(n, k))
  }

  ghost predicate Filled(m: Section, given: Section) {
    forall k :: k in given && !Blank(given[k]) ==> Truthy(Get(m, k)) || Get(m, k) == given[k]
  }

  lemma FillFills(m: Section, given: Section)
    ensures Filled(Fill(m, given, false), given) && Grows(m, Fill(m, given, false))
  {
  }

  lemma FilledStays(m: Section, n: Section, given: Section)
    requires Filled(m, given) && Grows(m, n)
    ensures Filled(n, given) && Fill(n, given, false) == n
  {
    forall k | k in given && !Blank(given[k])
      ensures Truthy(Get(n, k)) || Get(n, k) == given[k]
    {
      assert Rank(Get(m, k)) <= Rank(Get(n, k));
    }
    assert Fill(n, given, false) == n;
  }

  lemma PreservedGrows(reg: Registry, s: Store, given: Section)
    ensures Grows(s.secrets, Preserved(reg, s, given).secrets)
  {
    match Outgoing(reg, s, given)
    case None =>
    case Some((zone, token)) =>
      var table := TokenTable(s.secrets)[zone := token];
      assert zone in table;
  }

  lemma MintedGrows(m: Section, keys: set<Key>, draw: Key -> string)
    requires Draws(draw)
    ensures Grows(m, Minted(m, keys, draw))
    ensures forall k :: k in keys ==> !Blank(Get(Minted(m, keys, draw), k))
  {
    forall k
      ensures Rank(Get(m, k)) <= Rank(Get(Minted(m, keys, draw), k))
      ensures k in keys ==> !Blank(Get(Minted(m, keys, draw), k))
    {
      assert !Blank(Text(draw(k)));
    }
  }
}
