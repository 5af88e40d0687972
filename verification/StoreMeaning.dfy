/** What a converge, a settings write and the settling of the tailnet provider make of the
    store, key by key, in terms of the store and the inputs they started from. */
module StoreMeaning {
  import opened Strings
  import opened OnboxStore
  import opened StoreConverge

  // --- values ------------------------------------------------------------------------------

  lemma {:induction false} StripIsEmpty(s: string)
    ensures Strip(s) == "" <==> forall i :: 0 <= i < |s| ==> Space(s[i])
    decreases |s|
  {
    if s != "" {
      if Space(s[0]) {
        StripIsEmpty(s[1..]);
        assert forall i :: 0 < i < |s| ==> s[i] == s[1..][i - 1];
      } else if Space(s[|s| - 1]) {
        StripFirst(s);
      }
    }
  }

  /** A value that is not there: none, or a text of spaces alone. A token table always is. */
  lemma BlankMeans(v: Value)
    ensures Blank(v) <==> v == Null || (v.Text? && forall i :: 0 <= i < |v.text| ==> Space(v.text[i]))
    ensures Truthy(v) <==> v != Null && v != Text("") && v != Table(map[])
  {
    if v.Text? { StripIsEmpty(v.text); }
  }

  // --- secrets -----------------------------------------------------------------------------

  /** A given value takes the place of one that is missing, or of any where it overwrites;
      a blank one of none. */
  function Offered(stored: Value, m: Section, k: Key, overwrite: bool): Value {
    if k !in m || Blank(m[k]) then stored
    else if overwrite || stored in {Null, Text(""), Table(map[])} then m[k]
    else stored
  }

  lemma FillByKey(m: Section, given: Section, overwrite: bool, k: Key)
    ensures Get(Fill(m, given, overwrite), k) == Offered(Get(m, k), given, k, overwrite)
  {
    BlankMeans(Get(m, k));
  }

  /** The secrets a converge mints where they are missing: all that are its own, a cookie
      secret for each configured zone and those shown to the user, unless it is told to
      mint only the last or none. */
  predicate Mints(reg: Registry, config: Section, mint: Mint, k: Key) {
    match mint
    case NoMint => false
    case UserHeldOnly => k in reg.userHeld && k !in reg.onRequest
    case Everything => k in reg.internal || k in reg.cookies(Get(config, Zones)) || (k in reg.userHeld && k !in reg.onRequest)
  }

  /** Every secret after a converge: what is stored, else what was captured, else what was
      given, and where that leaves it blank and it is one to mint, what is drawn. */
  lemma ConvergedSecret(reg: Registry, s: Store, i: Inputs, overwrite: bool, mint: Mint, draw: Key -> string, k: Key)
    requires Converged(reg, s, i, overwrite, mint, draw).Some? && k != Tokens
    ensures var after := Converged(reg, s, i, overwrite, mint, draw).value;
            var v := Offered(Offered(Get(s.secrets, k), i.adopted, k, overwrite), i.secrets, k, overwrite);
            Get(after.secrets, k) == if Mints(reg, after.config, mint, k) && Blank(v) then Text(draw(k)) else v
  {
    var a := s.(secrets := Fill(s.secrets, i.adopted, overwrite));
    var c := Settled(reg, Applied(reg, a, i.secrets, i.config, overwrite).value);
    FillByKey(s.secrets, i.adopted, overwrite, k);
    AppliedSecret(reg, a, i.secrets, i.config, overwrite, k);
    MintedByKey(reg, c.secrets, c.config, mint, draw, k);
  }

  lemma AppliedSecret(reg: Registry, s: Store, secrets: Section, config: Section, overwrite: bool, k: Key)
    requires Applied(reg, s, secrets, config, overwrite).Some? && k != Tokens
    ensures Get(Applied(reg, s, secrets, config, overwrite).value.secrets, k) == Offered(Get(s.secrets, k), secrets, k, overwrite)
  {
    PreservedSecret(reg, s, config, k);
    FillByKey(Preserved(reg, s, config).secrets, secrets, overwrite, k);
  }

  lemma MintedByKey(reg: Registry, m: Section, config: Section, mint: Mint, draw: Key -> string, k: Key)
    ensures Get(Minted(m, Wanted(reg, config, mint), draw), k) ==
            if Mints(reg, config, mint, k) && Blank(Get(m, k)) then Text(draw(k)) else Get(m, k)
  {
  }

  lemma PreservedSecret(reg: Registry, s: Store, given: Section, k: Key)
    requires k != Tokens
    ensures Get(Preserved(reg, s, given).secrets, k) == Get(s.secrets, k)
  {
  }

  /** A converge raises exactly where it is given a secret that is not the client's. */
  lemma ConvergeRaises(reg: Registry, s: Store, i: Inputs, overwrite: bool, mint: Mint, draw: Key -> string)
    ensures Converged(reg, s, i, overwrite, mint, draw) == None <==> exists k :: k in i.secrets && k !in reg.external
  {
    if k :| k in i.secrets && k !in reg.external { assert k in i.secrets.Keys; }
  }

  /** Every secret after a settings write. */
  lemma WrittenSecret(reg: Registry, s: Store, secrets: Section, config: Section, k: Key)
    requires Applied(reg, s, secrets, config, true).Some? && k != Tokens
    ensures Get(Applied(reg, s, secrets, config, true).value.secrets, k) ==
            if k in secrets && !Blank(secrets[k]) then secrets[k] else Get(s.secrets, k)
  {
    AppliedSecret(reg, s, secrets, config, true, k);
  }

  // --- settings ----------------------------------------------------------------------------

  /** Every setting but the two a converge settles: a given one is taken where the key is
      not there yet, or overwrites. */
  lemma ConvergedSetting(reg: Registry, s: Store, i: Inputs, overwrite: bool, mint: Mint, draw: Key -> string, k: Key)
    requires Converged(reg, s, i, overwrite, mint, draw).Some? && k != AccessMethod && k != TailnetProvider
    ensures Get(Converged(reg, s, i, overwrite, mint, draw).value.config, k) ==
            if k in i.config && (overwrite || k !in s.config) then i.config[k] else Get(s.config, k)
  {
    PreservedConfig(reg, s.(secrets := Fill(s.secrets, i.adopted, overwrite)), i.config);
    FillConfigByKey(s.config, i.config, overwrite, k);
  }

  lemma PreservedConfig(reg: Registry, s: Store, given: Section)
    ensures Preserved(reg, s, given).config == s.config
  {
  }

  lemma FillConfigByKey(m: Section, given: Section, overwrite: bool, k: Key)
    ensures Get(FillConfig(m, given, overwrite), k) == if k in given && (overwrite || k !in m) then given[k] else Get(m, k)
  {
  }

  /** Every setting after a settings write. */
  lemma WrittenSetting(reg: Registry, s: Store, secrets: Section, config: Section, k: Key)
    requires Applied(reg, s, secrets, config, true).Some?
    ensures Get(Applied(reg, s, secrets, config, true).value.config, k) == if k in config then config[k] else Get(s.config, k)
  {
    PreservedConfig(reg, s, config);
    FillConfigByKey(s.config, config, true, k);
  }

  // --- the token of a domain that is left -----------------------------------------------------

  /** The request names a domain, another is stored, and its token is there. */
  predicate Leaves(reg: Registry, s: Store, given: Section) {
    var to, from, token := Shown(reg, Get(given, Zone)), Shown(reg, Get(s.config, Zone)), Shown(reg, Get(s.secrets, Token));
    to != "" && from != "" && to != from && token != ""
  }

  function TokenMap(s: Store): map<string, string> {
    match Get(s.secrets, Tokens) case Table(entries) => entries case _ => map[]
  }

  /** Before a request that moves the host to another domain is taken in, the token of the
      one it leaves is in the table under that domain, and nothing else has changed; any
      other request changes nothing. */
  lemma OutgoingTokenIsKept(reg: Registry, s: Store, given: Section)
    ensures var after := Preserved(reg, s, given);
            if Leaves(reg, s, given) then
              && TokenMap(after) == TokenMap(s)[Shown(reg, Get(s.config, Zone)) := Shown(reg, Get(s.secrets, Token))]
              && after.secrets - {Tokens} == s.secrets - {Tokens} && after.config == s.config
            else after == s
  {
    var from, token := Shown(reg, Get(s.config, Zone)), Shown(reg, Get(s.secrets, Token));
    var table := TokenMap(s);
    assert TokenTable(s.secrets) == table;
    if from in table && table[from] == token {
      assert table[from := token] == table;
    }
  }

  /** It reads the store before the request is in: a settings write that names another
      domain and brings its token keeps the old one under the old domain. */
  lemma MoveKeepsTheToken(reg: Registry, s: Store, secrets: Section, config: Section)
    requires Applied(reg, s, secrets, config, true).Some? && Leaves(reg, s, config) && Tokens !in secrets
    ensures var after := Applied(reg, s, secrets, config, true).value;
            && TokenMap(after) == TokenMap(s)[Shown(reg, Get(s.config, Zone)) := Shown(reg, Get(s.secrets, Token))]
            && Get(after.config, Zone) == config[Zone]
            && (Token in secrets && !Blank(secrets[Token]) ==> Get(after.secrets, Token) == secrets[Token])
  {
    OutgoingTokenIsKept(reg, s, config);
    FillByKey(Preserved(reg, s, config).secrets, secrets, true, Tokens);
    WrittenSecret(reg, s, secrets, config, Token);
    WrittenSetting(reg, s, secrets, config, Zone);
  }

  // --- the tailnet provider --------------------------------------------------------------------

  lemma {:induction false} LowerOf(t: string, p: string)
    requires States(t, p) && forall i :: 0 <= i < |p| ==> 'a' <= p[i] <= 'z'
    ensures Lower(t) == p
  {
    if t != "" {
      LowerOf(t[1..], p[1..]);
      assert p == [p[0]] + p[1..] && States(t[1..], p[1..]);
    }
  }

  /** The text, whatever its case, reads as one of the three answers. */
  predicate States(t: string, p: string) {
    |t| == |p| && forall i :: 0 <= i < |p| ==> t[i] == p[i] || ('A' <= t[i] <= 'Z' && t[i] - 'A' + 'a' == p[i])
  }

  predicate Answer(p: string) { p == "none" || p == "tailscale" || p == "headscale" }

  lemma AnswerIsProvider(p: string)
    ensures Answer(p) <==> Provider(p)
    ensures Answer(p) ==> forall i :: 0 <= i < |p| ==> 'a' <= p[i] <= 'z'
  {
  }

  lemma {:induction false} LowerStates(t: string)
    ensures |Lower(t)| == |t|
    ensures forall i :: 0 <= i < |t| ==> Lower(t)[i] == (if 'A' <= t[i] <= 'Z' then t[i] - 'A' + 'a' else t[i])
  {
    if t != "" { LowerStates(t[1..]); }
  }

  lemma StatesIs(t: string, p: string)
    requires Answer(p)
    ensures States(t, p) <==> Lower(t) == p
  {
    AnswerIsProvider(p);
    LowerStates(t);
    if States(t, p) { LowerOf(t, p); }
  }

  /** What the store says of the tailnet, in the order it is believed: public SSH is no
      tailnet; a provider is what it says; a control server is Headscale; a tailnet method
      or a Tailscale client is Tailscale; nothing at all is no tailnet. */
  lemma ProviderMeans(reg: Registry, s: Store)
    ensures var p, way := ProviderOf(reg, s), Shown(reg, Get(s.config, AccessMethod));
            var said := Shown(reg, Get(s.config, TailnetProvider));
            && Answer(p)
            && (way == "public_ssh" ==> p == "none")
            && (way != "public_ssh" ==>
                  && (forall q :: Answer(q) && States(said, q) ==> p == q)
                  && ((forall q :: Answer(q) ==> !States(said, q)) ==>
                        p == if Shown(reg, Get(s.config, ControlUrl)) != "" then "headscale"
                             else if way == "tailnet" || Truthy(Get(s.secrets, OauthClient)) then "tailscale"
                             else "none"))
  {
    var said := Shown(reg, Get(s.config, TailnetProvider));
    AnswerIsProvider(ProviderOf(reg, s));
    forall q | Answer(q) ensures States(said, q) <==> Lower(said) == q { StatesIs(said, q); }
    AnswerIsProvider(Lower(said));
  }

  /** After settling, the provider is stored and is the one answer; settling again changes
      nothing, and nothing but it and the access method has changed. */
  lemma SettlingSettles(reg: Registry, s: Store)
    ensures var after := Settled(reg, s);
            && AccessMethod !in after.config && TailnetProvider in after.config
            && after.config[TailnetProvider] == Text(ProviderOf(reg, s)) && Answer(ProviderOf(reg, s))
            && after.config - {AccessMethod, TailnetProvider} == s.config - {AccessMethod, TailnetProvider}
            && after.secrets == s.secrets && Settled(reg, after) == after
  {
    var p, after := ProviderOf(reg, s), Settled(reg, s);
    AnswerIsProvider(p);
    ProviderStated(reg, after, p);
    assert after.config - {AccessMethod} == after.config;
    assert after.config[TailnetProvider := Text(p)] == after.config;
  }

  /** Every converge ends settled, by what the store says once its inputs are in. */
  lemma ConvergedIsSettled(reg: Registry, s: Store, i: Inputs, overwrite: bool, mint: Mint, draw: Key -> string)
    requires Converged(reg, s, i, overwrite, mint, draw).Some?
    ensures var after := Converged(reg, s, i, overwrite, mint, draw).value;
            && AccessMethod !in after.config && TailnetProvider in after.config
            && exists p :: Answer(p) && after.config[TailnetProvider] == Text(p)
  {
    var b := Applied(reg, s.(secrets := Fill(s.secrets, i.adopted, overwrite)), i.secrets, i.config, overwrite).value;
    SettlingSettles(reg, b);
  }
}
