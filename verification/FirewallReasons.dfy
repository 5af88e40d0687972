/** What the walk of `Firewall` reports is there: each of its reasons names something of
    the ruleset that drops packets, and that the packet it asks about can meet. */
module FirewallReasons {
  import opened Strings
  import opened Firewall
  import opened FirewallKernel

  /** A rule that drops and can fire, a policy of DROP at a hook the packet passes, or a
      rule that can fire and jumps from a chain more than 30 deep. */
  ghost predicate Real(r: Reader, a: Addr, rules: Rules, reason: Reason) {
    match reason
    case Dropped(table, line) =>
      exists chain, rule :: CanFire(r, a, rules, table, chain, rule) && line == PrintRule(chain, rule) && rule.target.Deny?
    case PolicyDrop(table, chain) => (table, chain) in CROSSED && table in rules && PolicyDrops(rules[table], chain)
    case TooDeep(table, chain) => exists rule :: CanFire(r, a, rules, table, chain, rule) && rule.target.Jump?
  }

  ghost predicate CanFire(r: Reader, a: Addr, rules: Rules, table: string, chain: string, rule: Rule) {
    table in rules && chain in rules[table].chains && rule in rules[table].chains[chain] && Fires(r, a, rule, AllTrue(rule))
  }

  ghost predicate AllReal(r: Reader, a: Addr, rules: Rules, reasons: seq<Reason>) {
    forall reason :: reason in reasons ==> Real(r, a, rules, reason)
  }

  /** A step that can fire was read from a rule that can. */
  ghost predicate Justified(r: Reader, a: Addr, rules: Rules, table: string, chain: string, s: Step) {
    s.m != No ==> exists rule :: From(r, a, rules, table, chain, s, rule)
  }

  ghost predicate From(r: Reader, a: Addr, rules: Rules, table: string, chain: string, s: Step, rule: Rule) {
    && CanFire(r, a, rules, table, chain, rule) && s.line == PrintRule(chain, rule)
    && (s.kind == Kind.Deny ==> rule.target.Deny?)
    && (s.kind == Enter ==> rule.target.Jump? && s.target in rules[table].chains)
  }

  ghost predicate AllJustified(r: Reader, a: Addr, rules: Rules, table: string, chain: string, steps: seq<Step>) {
    forall s :: s in steps ==> Justified(r, a, rules, table, chain, s)
  }

  ghost predicate TableJustified(r: Reader, a: Addr, rules: Rules, table: string, st: map<string, seq<Step>>) {
    && table in rules
    && forall c | c in rules[table].chains :: c in st && AllJustified(r, a, rules, table, c, st[c])
  }

  lemma StepJustified(r: Reader, a: Addr, rules: Rules, table: string, chain: string, rule: Rule, s: Step)
    requires a in r.own && RuleTogether(r, rule) && table in rules && chain in rules[table].chains
    requires rule in rules[table].chains[chain] && WellPrinted(rules[table].chains.Keys, chain, rule)
    requires s == ReadLine(r, rules[table].chains.Keys, PrintRule(chain, rule))
    ensures Justified(r, a, rules, table, chain, s)
  {
    RuleRead(r, a, rules[table].chains.Keys, chain, rule);
    if s.m != No {
      StepFires(r, a, s, rule, AllTrue(rule));
      JumpLands(rules[table], chain, rule);
      assert From(r, a, rules, table, chain, s, rule);
    }
  }

  lemma TableReads(r: Reader, a: Addr, rules: Rules, table: string)
    requires Asked(r, a, rules) && Readable(rules) && table in rules
    ensures TableJustified(r, a, rules, table, ReadTable(r, PrintTable(rules[table])))
  {
    var t, printed := rules[table], PrintTable(rules[table]);
    assert printed.rules.Keys == t.chains.Keys && ReadableTable(t);
    forall c | c in t.chains
      ensures c in ReadTable(r, printed) && AllJustified(r, a, rules, table, c, ReadTable(r, printed)[c])
    {
      forall s | s in ReadTable(r, printed)[c]
        ensures Justified(r, a, rules, table, c, s)
      {
        var steps := ReadTable(r, printed)[c];
        var i :| 0 <= i < |steps| && steps[i] == s;
        StepJustified(r, a, rules, table, c, t.chains[c][i], s);
      }
    }
  }

  /** What one rule adds, given that what its chain adds is there. */
  lemma TakenIsReal(r: Reader, a: Addr, rules: Rules, table: string, chain: string, s: Step, depth: nat, inner: (Verdict, seq<Reason>))
    requires Justified(r, a, rules, table, chain, s) && AllReal(r, a, rules, inner.1) && (inner.0 == Drop ==> inner.1 != [])
    ensures AllReal(r, a, rules, TakeStep(table, chain, s, depth, inner).1)
  {
    TakenAdds(table, chain, s, depth, inner);
    if s.m != No {
      var rule :| From(r, a, rules, table, chain, s, rule);
      RuleIsReal(r, a, rules, table, chain, rule);
    }
  }

  lemma RuleIsReal(r: Reader, a: Addr, rules: Rules, table: string, chain: string, rule: Rule)
    requires CanFire(r, a, rules, table, chain, rule)
    ensures rule.target.Deny? ==> Real(r, a, rules, Dropped(table, PrintRule(chain, rule)))
    ensures rule.target.Jump? ==> Real(r, a, rules, TooDeep(table, chain))
  {
  }

  lemma TakenAdds(table: string, chain: string, s: Step, depth: nat, inner: (Verdict, seq<Reason>))
    requires inner.0 == Drop ==> inner.1 != []
    ensures forall reason :: reason in TakeStep(table, chain, s, depth, inner).1 ==>
      || (s.m != No && s.kind == Kind.Deny && reason == Dropped(table, s.line))
      || (s.m != No && s.kind == Enter && reason == TooDeep(table, chain))
      || reason in inner.1
  {
  }

  lemma {:induction false} ChainIsReal(r: Reader, a: Addr, rules: Rules, st: map<string, seq<Step>>, table: string, chain: string,
                                       steps: seq<Step>, depth: nat)
    requires TableJustified(r, a, rules, table, st) && AllJustified(r, a, rules, table, chain, steps) && depth <= MAX_DEPTH + 1
    ensures AllReal(r, a, rules, WalkSteps(st, table, chain, steps, depth).1)
    decreases MAX_DEPTH + 1 - depth, |steps|
  {
    if steps != [] {
      var s := steps[0];
      assert Justified(r, a, rules, table, chain, s);
      if Enters(s, depth) { InnerIsReal(r, a, rules, st, table, chain, s, depth); }
      NoReasonLeft(st, table, chain, steps, depth);
      TakenIsReal(r, a, rules, table, chain, s, depth, Inner(st, table, s, depth));
      ChainIsReal(r, a, rules, st, table, chain, steps[1..], depth);
    }
  }

  lemma {:induction false} InnerIsReal(r: Reader, a: Addr, rules: Rules, st: map<string, seq<Step>>, table: string, chain: string,
                                       s: Step, depth: nat)
    requires TableJustified(r, a, rules, table, st) && Justified(r, a, rules, table, chain, s) && Enters(s, depth)
    ensures AllReal(r, a, rules, Inner(st, table, s, depth).1)
    decreases MAX_DEPTH + 1 - depth, 0
  {
    var rule :| From(r, a, rules, table, chain, s, rule);
    ChainIsReal(r, a, rules, st, table, s.target, st[s.target], depth + 1);
  }

  lemma {:induction false} HooksAreReal(r: Reader, a: Addr, rules: Rules, hooks: seq<(string, string)>)
    requires Asked(r, a, rules) && Readable(rules) && forall hook :: hook in hooks ==> hook in CROSSED
    ensures AllReal(r, a, rules, WalkHooks(r, Print(rules), hooks))
  {
    if hooks != [] {
      var (table, name) := hooks[0];
      HookRead(rules, hooks[0]);
      HooksAreReal(r, a, rules, hooks[1..]);
      if Hooked(rules, hooks[0]) {
        var st := ReadTable(r, PrintTable(rules[table]));
        TableReads(r, a, rules, table);
        ChainIsReal(r, a, rules, st, table, name, st[name], 0);
      }
    }
  }

  /** Every reason of the walk is there. */
  lemma ReasonsAreReal(r: Reader, a: Addr, rules: Rules)
    requires Asked(r, a, rules) && Readable(rules)
    ensures AllReal(r, a, rules, WalkHooks(r, Print(rules), INBOUND))
  {
    assert INBOUND == CROSSED;
    HooksAreReal(r, a, rules, INBOUND);
  }
}
