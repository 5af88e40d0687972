/** What a converge may change, and when a second one changes nothing. */
module StoreConverge {
  import opened Strings
  import opened OnboxStore

  /** The secrets once the inputs are in, before a token is kept and any is minted. */
  function Supplied(s: Store, i: Inputs): Section {
    Fill(Fill(s.secrets, i.adopted, false), i.secrets, false)
  }

  /** This call brings the first token, while the domain it names is not the stored one:
      the next call takes the token for the outgoing domain's. */
  predicate LateToken(reg: Registry, s: Store, i: Inputs) {
    && Shown(reg, Get(Fill(s.secrets, i.adopted, false), Token)) == ""
    && Outgoing(reg, Store(Supplied(s, i), s.config), i.config).Some?
  }

  /** The access method this call names loses to what is stored, which is then dropped:
      the next call hears it. */
  predicate LateMethod(reg: Registry, s: Store, i: Inputs) {
    && Shown(reg, Get(i.config, AccessMethod)) == PUBLIC_SSH
    && ProviderOf(reg, Store(Supplied(s, i), FillConfig(s.config, i.config, false))) != NONE
  }

  /** A converge's store, stage by stage. */
  function Adopted(s: Store, i: Inputs): Store {
    s.(secrets := Fill(s.secrets, i.adopted, false))
  }

  function Given(reg: Registry, s: Store, i: Inputs): Store {
    var p := Preserved(reg, Adopted(s, i), i.config);
    Store(Fill(p.secrets, i.secrets, false), FillConfig(p.config, i.config, false))
  }

  function Result(reg: Registry, s: Store, i: Inputs, mint: Mint, draw: Key -> string): Store {
    var c := Settled(reg, Given(reg, s, i));
    c.(secrets := Minted(c.secrets, Wanted(reg, c.config, mint), draw))
  }

  lemma ConvergedIs(reg: Registry, s: Store, i: Inputs, mint: Mint, draw: Key -> string)
    ensures Converged(reg, s, i, false, mint, draw) ==
            if i.secrets.Keys <= reg.external then Some(Result(reg, s, i, mint, draw)) else None
  {
  }

  // --- the secrets ---------------------------------------------------------------------

  lemma GivenGrows(reg: Registry, s: Store, i: Inputs)
    ensures Grows(s.secrets, Given(reg, s, i).secrets)
    ensures Filled(Given(reg, s, i).secrets, i.adopted) && Filled(Given(reg, s, i).secrets, i.secrets)
  {
    var a := Adopted(s, i);
    var p := Preserved(reg, a, i.config);
    FillFills(s.secrets, i.adopted);
    PreservedGrows(reg, a, i.config);
    FillFills(p.secrets, i.secrets);
    FilledStays(a.secrets, p.secrets, i.adopted);
    FilledStays(p.secrets, Fill(p.secrets, i.secrets, false), i.adopted);
  }

  lemma ResultFilled(reg: Registry, s: Store, i: Inputs, mint: Mint, draw: Key -> string)
    requires Draws(draw)
    ensures Filled(Result(reg, s, i, mint, draw).secrets, i.adopted)
    ensures Filled(Result(reg, s, i, mint, draw).secrets, i.secrets)
    ensures Grows(s.secrets, Result(reg, s, i, mint, draw).secrets)
  {
    GivenGrows(reg, s, i);
    var c := Settled(reg, Given(reg, s, i));
    var keys := Wanted(reg, c.config, mint);
    MintedGrows(c.secrets, keys, draw);
    FilledStays(c.secrets, Minted(c.secrets, keys, draw), i.adopted);
    FilledStays(c.secrets, Minted(c.secrets, keys, draw), i.secrets);
  }

  lemma NothingToMint(reg: Registry, s: Store, i: Inputs, mint: Mint, draw: Key -> string, again: Key -> string)
    requires Draws(draw)
    ensures var t := Result(reg, s, i, mint, draw); Minted(t.secrets, Wanted(reg, t.config, mint), again) == t.secrets
  {
    var c := Settled(reg, Given(reg, s, i));
    var keys := Wanted(reg, c.config, mint);
    MintedTwice(c.secrets, keys, draw, again);
  }

  lemma MintedTwice(m: Section, keys: set<Key>, draw: Key -> string, again: Key -> string)
    requires Draws(draw)
    ensures Minted(Minted(m, keys, draw), keys, again) == Minted(m, keys, draw)
  {
    MintedGrows(m, keys, draw);
  }

  // --- the outgoing token ---------------------------------------------------------------

  /** What `Outgoing` looks at. */
  lemma OutgoingReads(reg: Registry, s: Store, t: Store, given: Section)
    requires Get(s.secrets, Token) == Get(t.secrets, Token) && Get(s.secrets, Tokens) == Get(t.secrets, Tokens)
    requires Get(s.config, Zone) == Get(t.config, Zone)
    ensures Outgoing(reg, s, given) == Outgoing(reg, t, given)
  {
  }

  lemma MintedLeaves(reg: Registry, m: Section, config: Section, mint: Mint, draw: Key -> string, k: Key)
    requires Sound(reg) && (k in reg.external || k == Token || k == Tokens)
    ensures Get(Minted(m, Wanted(reg, config, mint), draw), k) == Get(m, k)
  {
    assert Wanted(reg, config, mint) !! reg.external + {Token, Tokens};
    assert k in reg.external + {Token, Tokens};
  }

  /** A text that shows is not filled over. */
  lemma ShownStays(reg: Registry, m: Section, given: Section, k: Key)
    requires Truthy(Get(m, k))
    ensures Get(Fill(m, given, false), k) == Get(m, k)
  {
  }

  lemma ShownIsTruthy(reg: Registry, v: Value)
    requires Shown(reg, v) != ""
    ensures Truthy(v)
  {
  }

  /** The token a converge keeps, it keeps once. */
  lemma OutgoingOnce(reg: Registry, s: Store, i: Inputs, zone: string, token: string)
    requires Outgoing(reg, Adopted(s, i), i.config) == Some((zone, token))
    ensures Outgoing(reg, Store(Given(reg, s, i).secrets, s.config), i.config) == None
  {
    var a := Adopted(s, i);
    var p := Preserved(reg, a, i.config);
    var table := TokenTable(a.secrets)[zone := token];
    assert p.secrets == a.secrets[Tokens := Table(table)];
    assert zone in table;
    assert Truthy(Table(table));
    ShownIsTruthy(reg, Get(a.secrets, Token));
    ShownStays(reg, p.secrets, i.secrets, Tokens);
    ShownStays(reg, p.secrets, i.secrets, Token);
    assert Get(p.secrets, Tokens) == Table(table) && Get(p.secrets, Token) == Get(a.secrets, Token);
  }

  /** With no token kept, the second call looks at what was supplied. */
  lemma OutgoingLater(reg: Registry, s: Store, i: Inputs)
    requires Outgoing(reg, Adopted(s, i), i.config) == None
    ensures Given(reg, s, i).secrets == Supplied(s, i)
    ensures Shown(reg, Get(Adopted(s, i).secrets, Token)) != "" ==> Outgoing(reg, Store(Supplied(s, i), s.config), i.config) == None
  {
    var a := Adopted(s, i);
    if Shown(reg, Get(a.secrets, Token)) != "" {
      ShownIsTruthy(reg, Get(a.secrets, Token));
      ShownStays(reg, a.secrets, i.secrets, Token);
      if Truthy(Get(a.secrets, Tokens)) {
        ShownStays(reg, a.secrets, i.secrets, Tokens);
        OutgoingReads(reg, a, Store(Supplied(s, i), s.config), i.config);
      } else {
        assert TokenTable(a.secrets) == map[];
      }
    }
  }

  /** A domain this call sets is no outgoing one. */
  lemma OutgoingZone(reg: Registry, s: Store, secrets: Section, i: Inputs)
    ensures Outgoing(reg, Store(secrets, FillConfig(s.config, i.config, false)), i.config) == Outgoing(reg, Store(secrets, s.config), i.config)
  {
  }

  lemma OutgoingAgain(reg: Registry, s: Store, i: Inputs, mint: Mint, draw: Key -> string)
    requires Sound(reg)
    ensures Outgoing(reg, Result(reg, s, i, mint, draw), i.config).Some? <==> LateToken(reg, s, i)
  {
    var g := Given(reg, s, i);
    var t := Result(reg, s, i, mint, draw);
    MintedLeaves(reg, g.secrets, t.config, mint, draw, Token);
    MintedLeaves(reg, g.secrets, t.config, mint, draw, Tokens);
    assert Get(t.config, Zone) == Get(g.config, Zone);
    OutgoingReads(reg, t, g, i.config);
    assert g == Store(g.secrets, FillConfig(s.config, i.config, false));
    OutgoingZone(reg, s, g.secrets, i);
    match Outgoing(reg, Adopted(s, i), i.config)
    case None => OutgoingLater(reg, s, i);
    case Some((zone, token)) => OutgoingOnce(reg, s, i, zone, token);
  }

  // --- the settings ----------------------------------------------------------------------

  lemma {:induction false} LowerIsLower(s: string)
    requires forall j :: 0 <= j < |s| ==> 'a' <= s[j] <= 'z'
    ensures Lower(s) == s && Strip(s) == s
  {
    if s != "" {
      LowerIsLower(s[1..]);
      assert s == [s[0]] + s[1..];
    }
  }

  lemma ProviderAgain(p: string)
    requires Provider(p)
    ensures Lower(Strip(p)) == p
  {
    LowerIsLower(p);
  }

  /** Where a store states a provider, only a public access method overrules it. */
  lemma ProviderStated(reg: Registry, s: Store, p: string)
    requires Provider(p) && Get(s.config, TailnetProvider) == Text(p)
    ensures ProviderOf(reg, s) == if Shown(reg, Get(s.config, AccessMethod)) == PUBLIC_SSH then NONE else p
  {
    ProviderAgain(p);
  }

  /** Of the settings given again, all but the access method are there. */
  lemma OnlyTheMethodIsNew(config: Section, given: Section, first: Section, provider: Value)
    requires config == FillConfig(first, given, false)
    ensures var t := (config - {AccessMethod})[TailnetProvider := provider];
            && FillConfig(t, given, false) - {AccessMethod} == t
            && Get(FillConfig(t, given, false), AccessMethod) == Get(given, AccessMethod)
            && Get(FillConfig(t, given, false), TailnetProvider) == provider
  {
  }

  /** The settings of the first call, given again. */
  lemma SettledAgain(reg: Registry, g: Store, given: Section, first: Section, secrets: Section)
    requires g.config == FillConfig(first, given, false)
    ensures var t := Settled(reg, g).config;
            Settled(reg, Store(secrets, FillConfig(t, given, false))).config == t <==>
            !(Shown(reg, Get(given, AccessMethod)) == PUBLIC_SSH && ProviderOf(reg, g) != NONE)
  {
    var p := ProviderOf(reg, g);
    var t := Settled(reg, g).config;
    var again := Store(secrets, FillConfig(t, given, false));
    OnlyTheMethodIsNew(g.config, given, first, Text(p));
    ProviderStated(reg, again, p);
    assert t[TailnetProvider := Text(p)] == t;
    if ProviderOf(reg, again) != p {
      assert Settled(reg, again).config[TailnetProvider] != t[TailnetProvider];
    }
  }

  lemma ProviderReads(reg: Registry, s: Store, t: Store)
    requires s.config == t.config && Get(s.secrets, OauthClient) == Get(t.secrets, OauthClient)
    ensures ProviderOf(reg, s) == ProviderOf(reg, t)
  {
  }

  lemma GivenSupplied(reg: Registry, s: Store, i: Inputs)
    ensures Get(Given(reg, s, i).secrets, OauthClient) == Get(Supplied(s, i), OauthClient)
  {
  }

  // --- twice ------------------------------------------------------------------------------

  lemma GivenAgain(reg: Registry, t: Store, i: Inputs)
    requires Filled(t.secrets, i.adopted) && Filled(t.secrets, i.secrets)
    ensures Adopted(t, i) == t
    ensures Outgoing(reg, t, i.config) == None ==> Given(reg, t, i).secrets == t.secrets
    ensures Outgoing(reg, t, i.config).Some? ==> Given(reg, t, i).secrets == Preserved(reg, t, i.config).secrets
  {
    assert Grows(t.secrets, t.secrets);
    FilledStays(t.secrets, t.secrets, i.adopted);
    PreservedGrows(reg, t, i.config);
    FilledStays(t.secrets, Preserved(reg, t, i.config).secrets, i.secrets);
  }

  lemma PreservedDiffers(reg: Registry, t: Store, given: Section)
    requires Outgoing(reg, t, given).Some?
    ensures !Blank(Get(Preserved(reg, t, given).secrets, Tokens))
    ensures Get(Preserved(reg, t, given).secrets, Tokens) != Get(t.secrets, Tokens)
  {
    var (zone, token) := Outgoing(reg, t, given).value;
    var table := TokenTable(t.secrets)[zone := token];
    assert zone in table && table[zone] == token;
  }

  lemma FirstIsNotLate(reg: Registry, s: Store, i: Inputs, mint: Mint, draw: Key -> string, again: Key -> string)
    requires Sound(reg) && Draws(draw) && !LateToken(reg, s, i)
    ensures var t := Result(reg, s, i, mint, draw); Result(reg, t, i, mint, again).secrets == t.secrets
  {
    var t := Result(reg, s, i, mint, draw);
    OutgoingAgain(reg, s, i, mint, draw);
    ResultFilled(reg, s, i, mint, draw);
    GivenAgain(reg, t, i);
    MintAgain(reg, s, i, mint, draw, again);
  }

  /** The zones setting is what the cookie secrets come from, and it does not move. */
  lemma MintAgain(reg: Registry, s: Store, i: Inputs, mint: Mint, draw: Key -> string, again: Key -> string)
    requires Draws(draw)
    ensures var t := Result(reg, s, i, mint, draw);
            Minted(t.secrets, Wanted(reg, Settled(reg, Given(reg, t, i)).config, mint), again) == t.secrets
  {
    var t := Result(reg, s, i, mint, draw);
    NothingToMint(reg, s, i, mint, draw, again);
    ZonesStay(reg, s, i, mint, draw);
    WantedReads(reg, Settled(reg, Given(reg, t, i)).config, t.config, mint);
  }

  lemma WantedReads(reg: Registry, a: Section, b: Section, mint: Mint)
    requires Get(a, Zones) == Get(b, Zones)
    ensures Wanted(reg, a, mint) == Wanted(reg, b, mint)
  {
  }

  lemma ZonesStay(reg: Registry, s: Store, i: Inputs, mint: Mint, draw: Key -> string)
    ensures var t := Result(reg, s, i, mint, draw); Get(Settled(reg, Given(reg, t, i)).config, Zones) == Get(t.config, Zones)
  {
  }

  lemma LateTokenChanges(reg: Registry, s: Store, i: Inputs, mint: Mint, draw: Key -> string, again: Key -> string)
    requires Sound(reg) && Draws(draw) && LateToken(reg, s, i)
    ensures var t := Result(reg, s, i, mint, draw); Result(reg, t, i, mint, again).secrets != t.secrets
  {
    var t := Result(reg, s, i, mint, draw);
    OutgoingAgain(reg, s, i, mint, draw);
    ResultFilled(reg, s, i, mint, draw);
    GivenAgain(reg, t, i);
    PreservedDiffers(reg, t, i.config);
    MintedLeaves(reg, Given(reg, t, i).secrets, Settled(reg, Given(reg, t, i)).config, mint, again, Tokens);
  }

  lemma ConfigAgain(reg: Registry, s: Store, i: Inputs, mint: Mint, draw: Key -> string, again: Key -> string)
    ensures var t := Result(reg, s, i, mint, draw);
            Result(reg, t, i, mint, again).config == t.config <==> !LateMethod(reg, s, i)
  {
    var g := Given(reg, s, i);
    var t := Result(reg, s, i, mint, draw);
    ResultConfig(reg, s, i, mint, draw);
    ResultConfig(reg, t, i, mint, again);
    SettledAgain(reg, g, i.config, s.config, Given(reg, t, i).secrets);
    SettlesAtSupplied(reg, s, i);
  }

  lemma ResultConfig(reg: Registry, s: Store, i: Inputs, mint: Mint, draw: Key -> string)
    ensures Result(reg, s, i, mint, draw).config ==
            Settled(reg, Store(Given(reg, s, i).secrets, FillConfig(s.config, i.config, false))).config
  {
  }

  lemma SettlesAtSupplied(reg: Registry, s: Store, i: Inputs)
    ensures ProviderOf(reg, Given(reg, s, i)) == ProviderOf(reg, Store(Supplied(s, i), FillConfig(s.config, i.config, false)))
  {
    GivenSupplied(reg, s, i);
    ProviderReads(reg, Given(reg, s, i), Store(Supplied(s, i), FillConfig(s.config, i.config, false)));
  }

  lemma SecondResult(reg: Registry, s: Store, i: Inputs, mint: Mint, draw: Key -> string, again: Key -> string)
    requires Sound(reg) && Draws(draw)
    ensures var t := Result(reg, s, i, mint, draw);
            Result(reg, t, i, mint, again) == t <==> !LateToken(reg, s, i) && !LateMethod(reg, s, i)
  {
    ConfigAgain(reg, s, i, mint, draw, again);
    if LateToken(reg, s, i) {
      LateTokenChanges(reg, s, i, mint, draw, again);
    } else {
      FirstIsNotLate(reg, s, i, mint, draw, again);
    }
  }

  /** A second converge with the same inputs changes nothing, whatever it would draw,
      exactly when neither the token nor the access method of the first comes late. */
  lemma SecondConvergeIsQuiet(reg: Registry, s: Store, i: Inputs, t: Store, mint: Mint, draw: Key -> string, again: Key -> string)
    requires Sound(reg) && Draws(draw) && Converged(reg, s, i, false, mint, draw) == Some(t)
    ensures Converged(reg, t, i, false, mint, again).Some?
    ensures Converged(reg, t, i, false, mint, again) == Some(t) <==> !LateToken(reg, s, i) && !LateMethod(reg, s, i)
  {
    ConvergedIs(reg, s, i, mint, draw);
    ConvergedIs(reg, t, i, mint, again);
    SecondResult(reg, s, i, mint, draw, again);
  }

  /** A host on a tailnet whose inputs ask for public SSH: the second converge leaves
      the tailnet. */
  lemma LateMethodHappens(reg: Registry)
    ensures var s := Store(map[], map[AccessMethod := Text("tailnet")]);
            var i := Inputs(map[], map[], map[AccessMethod := Text("public_ssh")]);
            LateMethod(reg, s, i)
  {
    LowerIsLower("tailnet");
    assert Strip("public_ssh") == PUBLIC_SSH;
  }

  /** A stored domain without a token, and inputs that name another and bring one. */
  lemma LateTokenHappens(reg: Registry)
    ensures var s := Store(map[], map[Zone := Text("a")]);
            var i := Inputs(map[], map[Token := Text("t")], map[Zone := Text("b")]);
            LateToken(reg, s, i)
  {
    var given := map[Token := Text("t")];
    assert Strip("t") == "t" && Strip("a") == "a" && Strip("b") == "b";
    assert Get(Fill(Fill(map[], map[], false), given, false), Token) == Text("t");
    assert Get(Fill(Fill(map[], map[], false), given, false), Tokens) == Null;
  }

  /** After a converge nothing comes late. */
  lemma NotLateTwice(reg: Registry, s: Store, i: Inputs, mint: Mint, draw: Key -> string)
    requires Sound(reg) && Draws(draw)
    ensures var t := Result(reg, s, i, mint, draw); !LateToken(reg, t, i) && !LateMethod(reg, t, i)
  {
    ResultFilled(reg, s, i, mint, draw);
    var t := Result(reg, s, i, mint, draw);
    TokenInTime(reg, t, i);
    NoMethodLeft(reg, s, i, mint, draw);
    MethodInTime(reg, t, i);
  }

  lemma NoMethodLeft(reg: Registry, s: Store, i: Inputs, mint: Mint, draw: Key -> string)
    ensures AccessMethod !in Result(reg, s, i, mint, draw).config
  {
  }

  lemma TokenInTime(reg: Registry, t: Store, i: Inputs)
    requires Filled(t.secrets, i.adopted) && Filled(t.secrets, i.secrets)
    ensures !LateToken(reg, t, i)
  {
    assert Grows(t.secrets, t.secrets);
    FilledStays(t.secrets, t.secrets, i.adopted);
    FilledStays(t.secrets, t.secrets, i.secrets);
  }

  lemma MethodInTime(reg: Registry, t: Store, i: Inputs)
    requires AccessMethod !in t.config
    ensures !LateMethod(reg, t, i)
  {
    MethodGiven(t.config, i.config);
  }

  lemma MethodGiven(config: Section, given: Section)
    requires AccessMethod !in config
    ensures Get(FillConfig(config, given, false), AccessMethod) == Get(given, AccessMethod)
  {
  }

  /** So from the second converge on, the store stays as it is. */
  lemma ThirdConvergeIsQuiet(reg: Registry, s: Store, i: Inputs, t: Store, u: Store, mint: Mint,
                             draw: Key -> string, again: Key -> string, third: Key -> string)
    requires Sound(reg) && Draws(draw) && Draws(again)
    requires Converged(reg, s, i, false, mint, draw) == Some(t) && Converged(reg, t, i, false, mint, again) == Some(u)
    ensures Converged(reg, u, i, false, mint, third) == Some(u)
  {
    ConvergedIs(reg, s, i, mint, draw);
    NotLateTwice(reg, s, i, mint, draw);
    SecondConvergeIsQuiet(reg, t, i, u, mint, again, third);
  }
}
