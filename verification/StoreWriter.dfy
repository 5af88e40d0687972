/** The operations of `onbox_config.py` as it runs them: on a store held in memory
    between the load and the dump, key by key. */
module StoreWriter {
  import opened Strings
  import opened OnboxStore

  /** The given keys whose value is another one now. */
  function Changes(m: Section, n: Section, given: Section): set<Key> {
    set k | k in given && Get(m, k) != Get(n, k)
  }

  lemma ChangesStep(m: Section, n: Section, given: Section, key: Key, v: Value)
    requires key in given && Get(n, key) == Get(m, key) && v != Get(m, key)
    ensures Changes(m, n[key := v], given) == Changes(m, n, given) + {key}
  {
  }

  /** One more key of `given`. */
  lemma FillStep(m: Section, given: Section, rest: set<Key>, key: Key, overwrite: bool)
    requires key in rest && rest <= given.Keys
    ensures Get(Fill(m, given - rest, overwrite), key) == Get(m, key)
    ensures Fill(m, given - (rest - {key}), overwrite) ==
            if !Blank(given[key]) && (overwrite || !Truthy(Get(m, key))) && Get(m, key) != given[key]
            then Fill(m, given - rest, overwrite)[key := given[key]]
            else Fill(m, given - rest, overwrite)
  {
    NewSecretsStep(m, given, rest, key, overwrite);
  }

  lemma NewSecretsStep(m: Section, given: Section, rest: set<Key>, key: Key, overwrite: bool)
    requires key in rest && rest <= given.Keys
    ensures key !in NewSecrets(m, given - rest, overwrite)
    ensures NewSecrets(m, given - (rest - {key}), overwrite) ==
            if !Blank(given[key]) && (overwrite || !Truthy(Get(m, key)))
            then NewSecrets(m, given - rest, overwrite)[key := given[key]]
            else NewSecrets(m, given - rest, overwrite)
  {
  }

  lemma MintedStep(m: Section, keys: set<Key>, key: Key, draw: Key -> string)
    requires key !in keys
    ensures Get(Minted(m, keys, draw), key) == Get(m, key)
    ensures Minted(m, keys + {key}, draw) ==
            if Blank(Get(m, key)) then Minted(m, keys, draw)[key := Text(draw(key))] else Minted(m, keys, draw)
  {
  }

  lemma FillConfigStep(m: Section, given: Section, rest: set<Key>, key: Key, overwrite: bool)
    requires key in rest && rest <= given.Keys
    ensures Get(FillConfig(m, given - rest, overwrite), key) == Get(m, key)
    ensures key in FillConfig(m, given - rest, overwrite) <==> key in m
    ensures FillConfig(m, given - (rest - {key}), overwrite) ==
            if (overwrite || key !in m) && Get(m, key) != given[key]
            then FillConfig(m, given - rest, overwrite)[key := given[key]]
            else FillConfig(m, given - rest, overwrite)
  {
    NewSettingsStep(m, given, rest, key, overwrite);
  }

  lemma NewSettingsStep(m: Section, given: Section, rest: set<Key>, key: Key, overwrite: bool)
    requires key in rest && rest <= given.Keys
    ensures key !in NewSettings(m, given - rest, overwrite)
    ensures NewSettings(m, given - (rest - {key}), overwrite) ==
            if (overwrite || key !in m) && Get(m, key) != given[key]
            then NewSettings(m, given - rest, overwrite)[key := given[key]]
            else NewSettings(m, given - rest, overwrite)
  {
  }

  class Working {
    var secrets: Section
    var config: Section

    constructor (s: Store)
      ensures Held() == s
    {
      secrets, config := s.secrets, s.config;
    }

    ghost function Held(): Store
      reads this
    {
      Store(secrets, config)
    }

    /** `adopt`; also the loop over the secrets in `apply_inputs`. */
    method Adopt(given: Section, overwrite: bool) returns (changed: set<Key>)
      modifies this
      ensures Held() == old(Held()).(secrets := Fill(old(secrets), given, overwrite))
      ensures changed == Changes(old(secrets), secrets, given)
    {
      changed := {};
      var rest := given.Keys;
      while rest != {}
        invariant rest <= given.Keys && config == old(config)
        invariant secrets == Fill(old(secrets), given - rest, overwrite)
        invariant changed == Changes(old(secrets), secrets, given)
      {
        var key :| key in rest;
        FillStep(old(secrets), given, rest, key, overwrite);
        rest := rest - {key};
        if !Blank(given[key]) && (overwrite || !Truthy(Get(secrets, key))) && Get(secrets, key) != given[key] {
          ChangesStep(old(secrets), secrets, given, key, given[key]);
          secrets := secrets[key := given[key]];
          changed := changed + {key};
        }
      }
      assert given - {} == given;
    }

    /** The loop over the settings in `apply_inputs`. */
    method FillSettings(given: Section, overwrite: bool) returns (changed: set<Key>)
      modifies this
      ensures Held() == old(Held()).(config := FillConfig(old(config), given, overwrite))
      ensures changed == Changes(old(config), config, given)
    {
      changed := {};
      var rest := given.Keys;
      while rest != {}
        invariant rest <= given.Keys && secrets == old(secrets)
        invariant config == FillConfig(old(config), given - rest, overwrite)
        invariant changed == Changes(old(config), config, given)
      {
        var key :| key in rest;
        FillConfigStep(old(config), given, rest, key, overwrite);
        rest := rest - {key};
        if (overwrite || key !in config) && Get(config, key) != given[key] {
          ChangesStep(old(config), config, given, key, given[key]);
          config := config[key := given[key]];
          changed := changed + {key};
        }
      }
      assert given - {} == given;
    }

    method PreserveOutgoing(reg: Registry, given: Section)
      modifies this
      ensures Held() == Preserved(reg, old(Held()), given)
    {
      if Zone !in given { return; }
      var incoming, current := Shown(reg, Get(given, Zone)), Shown(reg, Get(config, Zone));
      if incoming == "" || current == "" || incoming == current { return; }
      var token := Shown(reg, Get(secrets, Token));
      if token == "" { return; }
      var table := TokenTable(secrets);
      if current in table && table[current] == token { return; }
      secrets := secrets[Tokens := Table(table[current := token])];
    }

    /** False where the source raises; nothing is dumped then. */
    method ApplyInputs(reg: Registry, given: Section, settings: Section, overwrite: bool) returns (ok: bool)
      modifies this
      ensures ok == Applied(reg, old(Held()), given, settings, overwrite).Some?
      ensures ok ==> Held() == Applied(reg, old(Held()), given, settings, overwrite).value
    {
      PreserveOutgoing(reg, settings);
      var rest := given.Keys;
      while rest != {}
        invariant rest <= given.Keys && given.Keys - rest <= reg.external
        invariant Held() == Preserved(reg, old(Held()), settings)
      {
        var key :| key in rest;
        if key !in reg.external { return false; }
        rest := rest - {key};
      }
      var _ := Adopt(given, overwrite);
      var _ := FillSettings(settings, overwrite);
      return true;
    }

    method SettleTailnetProvider(reg: Registry) returns (changed: bool)
      modifies this
      ensures Held() == Settled(reg, old(Held()))
      ensures changed <==> Shown(reg, old(Get(config, AccessMethod))) != "" || Get(config, TailnetProvider) != old(Get(config, TailnetProvider))
    {
      var way := Shown(reg, Get(config, AccessMethod));
      var stored := Get(config, TailnetProvider);
      var address, client := Get(config, ControlUrl), Get(secrets, OauthClient);
      config := config - {AccessMethod};
      var provider := Lower(Shown(reg, stored));
      if way == PUBLIC_SSH {
        provider := NONE;
      } else if !Provider(provider) {
        if Shown(reg, address) != "" {
          provider := HEADSCALE;
        } else if way == "tailnet" || Truthy(client) {
          provider := TAILSCALE;
        } else {
          provider := NONE;
        }
      }
      changed := way != "" || stored != Text(provider);
      config := config[TailnetProvider := Text(provider)];
    }

    /** Mints each missing secret among `keys`. */
    method Ensure(keys: set<Key>, draw: Key -> string) returns (minted: set<Key>)
      modifies this
      ensures Held() == old(Held()).(secrets := Minted(old(secrets), keys, draw))
      ensures minted == set k | k in keys && old(Blank(Get(secrets, k)))
    {
      minted := {};
      var rest := keys;
      while rest != {}
        invariant rest <= keys && config == old(config)
        invariant secrets == Minted(old(secrets), keys - rest, draw)
        invariant minted == set k | k in keys - rest && old(Blank(Get(secrets, k)))
      {
        var key :| key in rest;
        MintedStep(old(secrets), keys - rest, key, draw);
        assert keys - (rest - {key}) == keys - rest + {key};
        rest := rest - {key};
        if Blank(Get(secrets, key)) {
          secrets := secrets[key := Text(draw(key))];
          minted := minted + {key};
        }
      }
      assert keys - {} == keys;
    }

    method Converge(reg: Registry, i: Inputs, overwrite: bool, mint: Mint, draw: Key -> string) returns (ok: bool)
      modifies this
      ensures ok == Converged(reg, old(Held()), i, overwrite, mint, draw).Some?
      ensures ok ==> Held() == Converged(reg, old(Held()), i, overwrite, mint, draw).value
    {
      var _ := Adopt(i.adopted, overwrite);
      ok := ApplyInputs(reg, i.secrets, i.config, overwrite);
      if !ok { return; }
      var _ := SettleTailnetProvider(reg);
      MintMissing(reg, mint, draw);
    }

    method MintMissing(reg: Registry, mint: Mint, draw: Key -> string)
      modifies this
      ensures Held() == old(Held()).(secrets := Minted(old(secrets), Wanted(reg, old(config), mint), draw))
    {
      var own := reg.userHeld - reg.onRequest;
      match mint
      case NoMint =>
        assert Minted(secrets, {}, draw) == secrets;
      case UserHeldOnly =>
        var _ := Ensure(own, draw);
      case Everything =>
        var cookies := reg.cookies(Get(config, Zones));
        MintedJoin(secrets, reg.internal, cookies, draw);
        MintedJoin(secrets, reg.internal + cookies, own, draw);
        var _ := Ensure(reg.internal, draw);
        var _ := Ensure(cookies, draw);
        var _ := Ensure(own, draw);
    }

    /** The settings page's `write`. */
    method PanelWrite(reg: Registry, given: Section, settings: Section) returns (ok: bool)
      modifies this
      ensures ok == Applied(reg, old(Held()), given, settings, true).Some?
      ensures ok ==> Held() == Applied(reg, old(Held()), given, settings, true).value
    {
      ok := ApplyInputs(reg, given, settings, true);
    }
  }

  /** Minting in turns is minting at once. */
  lemma MintedJoin(m: Section, a: set<Key>, b: set<Key>, draw: Key -> string)
    ensures Minted(Minted(m, a, draw), b, draw) == Minted(m, a + b, draw)
  {
  }
}
