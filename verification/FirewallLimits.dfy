/** Where the walk of `Firewall` clears a ruleset that can still drop the packet:
    each hypothesis of `FirewallKernel.WalkIsExact` left out, with the rulesets
    that fail without it. */
module FirewallLimits {
  import opened Strings
  import opened Firewall
  import opened FirewallKernel

  const HOOK := ("filter", "INPUT")

  /** A ruleset with a filter table alone. */
  function FilterOnly(t: KTable): Rules { map["filter" := t] }

  lemma {:induction false} UnhookedSkipped(r: Reader, a: Addr, exits: bool, rules: Rules, pre: seq<(string, string)>, fuel: nat, tape: Tape)
    requires forall h :: h in pre ==> !Hooked(rules, h)
    ensures Delivered(r, a, exits, rules, pre + [HOOK], fuel, tape) == Delivered(r, a, exits, rules, [HOOK], fuel, tape)
    ensures WalkHooks(r, Print(rules), pre + [HOOK]) == WalkHooks(r, Print(rules), [HOOK])
  {
    if pre == [] {
      assert pre + [HOOK] == [HOOK];
    } else {
      UnhookedSkipped(r, a, exits, rules, pre[1..], fuel, tape);
      HookRead(rules, pre[0]);
      assert (pre + [HOOK])[1..] == pre[1..] + [HOOK];
    }
  }

  /** With a filter table alone the packet is delivered when INPUT accepts it. */
  lemma InputDecides(r: Reader, a: Addr, exits: bool, t: KTable, fuel: nat, tape: Tape)
    requires "INPUT" in t.chains
    ensures var out := Run(r, a, exits, t, t.chains["INPUT"], fuel, tape).0;
            Delivered(r, a, exits, FilterOnly(t), CROSSED, fuel, tape) <==>
            out == Accepted || (out == Returned && !PolicyDrops(t, "INPUT"))
    ensures WalkHooks(r, Print(FilterOnly(t)), INBOUND) == WalkHooks(r, Print(FilterOnly(t)), [HOOK])
  {
    var pre := [("raw", "PREROUTING"), ("mangle", "PREROUTING"), ("nat", "PREROUTING"), ("mangle", "INPUT")];
    assert INBOUND == pre + [HOOK] == CROSSED;
    UnhookedSkipped(r, a, exits, FilterOnly(t), pre, fuel, tape);
    assert [HOOK][1..] == [];
  }

  const ALLOW := Rule([], false, Action.Allow, [])

  ghost predicate InputIs(t: KTable, rule: Rule) {
    "INPUT" in t.chains && t.chains["INPUT"] == [rule, ALLOW] && PolicyDrops(t, "INPUT")
  }

  /** The rule leaves INPUT: a RETURN, or a `-g` to a chain without rules. */
  ghost predicate Exits(t: KTable, rule: Rule) {
    || rule.target.Back?
    || (rule.target.Jump? && rule.goto && rule.target.name in t.chains && t.chains[rule.target.name] == [])
  }

  lemma PassedOver(r: Reader, a: Addr, t: KTable, rule: Rule, fuel: nat, tape: Tape)
    requires InputIs(t, rule) && Exits(t, rule) && Undecided(r, a, rule) && fuel > 0
    ensures Run(r, a, false, t, t.chains["INPUT"], fuel, tape).0 == Accepted
  {
    var left := After(tape);
    assert Run(r, a, false, t, [ALLOW], fuel, left).0 == Accepted;
    assert [rule, ALLOW][1..] == [ALLOW];
    if rule.target.Jump? {
      assert Run(r, a, false, t, [], fuel - 1, left) == (Returned, left);
    }
  }

  lemma Taken(r: Reader, a: Addr, t: KTable, rule: Rule, fuel: nat)
    requires InputIs(t, rule) && Exits(t, rule) && Undecided(r, a, rule) && fuel > 0
    ensures Run(r, a, true, t, t.chains["INPUT"], fuel, [AllTrue(rule)]).0 == Returned
  {
    FiresExact(r, a, rule, Maybe);
    if rule.target.Jump? {
      assert Run(r, a, true, t, [], fuel - 1, []) == (Returned, []);
    }
  }

  lemma OneRank(t: KTable, rule: Rule)
    requires InputIs(t, rule) && Exits(t, rule)
    requires forall c :: c in t.chains && c != "INPUT" ==> t.chains[c] == []
    ensures Ranked(FilterOnly(t), (table, c) => if c == "INPUT" then 1 else 0)
  {
  }

  /** INPUT holds an undecided rule that leaves it, by RETURN or by `-g` to a chain
      without rules, then an ACCEPT, over a policy of DROP. The walk clears every
      such ruleset, and a run of each drops the packet. */
  lemma UndecidedExitIsMissed(r: Reader, a: Addr, t: KTable, rule: Rule, fuel: nat)
    requires Asked(r, a, FilterOnly(t)) && Readable(FilterOnly(t)) && Modelled(FilterOnly(t)) && fuel >= 31
    requires InputIs(t, rule) && Exits(t, rule) && Undecided(r, a, rule)
    requires forall c :: c in t.chains && c != "INPUT" ==> t.chains[c] == []
    ensures WalkHooks(r, Print(FilterOnly(t)), INBOUND) == []
    ensures exists tape: Tape :: !Delivered(r, a, true, FilterOnly(t), CROSSED, fuel, tape)
  {
    var rules := FilterOnly(t);
    OneRank(t, rule);
    WalkDecides(r, a, rules, fuel, (table, c) => if c == "INPUT" then 1 else 0);
    forall tape: Tape
      ensures Delivered(r, a, false, rules, CROSSED, fuel, tape)
    {
      InputDecides(r, a, false, t, fuel, tape);
      PassedOver(r, a, t, rule, fuel, tape);
    }
    Taken(r, a, t, rule, fuel);
    InputDecides(r, a, true, t, fuel, [AllTrue(rule)]);
  }

  /** INPUT's one step, and what the hook makes of it. */
  lemma OneStep(r: Reader, t: KTable, rule: Rule)
    requires t.chains == map["INPUT" := [rule]]
    requires var s := ReadLine(r, {"INPUT"}, PrintRule("INPUT", rule)); s.kind == Pass || (s.kind == Kind.Allow && s.m == Yes)
    ensures var s := ReadLine(r, {"INPUT"}, PrintRule("INPUT", rule));
            (WalkHooks(r, Print(FilterOnly(t)), [HOOK]) == [] <==> s.kind == Kind.Allow || !PolicyDrops(t, "INPUT"))
  {
    StepsOf(r, t, rule);
    HookRead(FilterOnly(t), HOOK);
    OneWalk(map["INPUT" := [ReadLine(r, {"INPUT"}, PrintRule("INPUT", rule))]], ReadLine(r, {"INPUT"}, PrintRule("INPUT", rule)));
    assert [HOOK][1..] == [];
  }

  lemma OneWalk(st: map<string, seq<Step>>, s: Step)
    requires s.kind == Pass || (s.kind == Kind.Allow && s.m == Yes)
    ensures WalkSteps(st, "filter", "INPUT", [s], 0) == (if s.kind == Pass then Return else Accept, [])
  {
    var inner := Inner(st, "filter", s, 0);
    assert inner == (Return, []);
    var steps := [s];
    assert steps[0..] == steps && steps[0 + 1..] == [];
    WalkOne(st, "filter", "INPUT", steps, 0, 0);
    assert WalkSteps(st, "filter", "INPUT", steps[0 + 1..], 0) == (Return, []);
    assert TakeStep("filter", "INPUT", s, 0, inner) == (if s.kind == Pass then None else Some(Accept), []);
    var none: seq<Reason> := [];
    assert none + none == none;
  }

  lemma StepsOf(r: Reader, t: KTable, rule: Rule)
    requires t.chains == map["INPUT" := [rule]]
    ensures ReadTable(r, PrintTable(t)) == map["INPUT" := [ReadLine(r, {"INPUT"}, PrintRule("INPUT", rule))]]
  {
    var printed: Table := PrintTable(t);
    assert printed.rules.Keys == {"INPUT"};
    assert PrintRules("INPUT", [rule]) == [PrintRule("INPUT", rule)];
    assert ReadLines(r, {"INPUT"}, [PrintRule("INPUT", rule)]) == [ReadLine(r, {"INPUT"}, PrintRule("INPUT", rule))];
  }

  // --- a flag ahead of the rule's own ---------------------------------------------------

  /** INPUT holds one rule, which may drop the packet, over no policy of DROP. */
  ghost predicate DropsAlone(r: Reader, a: Addr, t: KTable, rule: Rule) {
    && t.chains == map["INPUT" := [rule]] && !PolicyDrops(t, "INPUT")
    && rule.target.Deny? && WellMatchedAll(rule) && Fires(r, a, rule, AllTrue(rule))
  }

  lemma DropsSome(r: Reader, a: Addr, t: KTable, rule: Rule, fuel: nat)
    requires DropsAlone(r, a, t, rule)
    ensures !Delivered(r, a, true, FilterOnly(t), CROSSED, fuel, [AllTrue(rule)])
  {
    InputDecides(r, a, true, t, fuel, [AllTrue(rule)]);
  }

  lemma OptionIsPassed(name: string)
    requires StartsOption(name)
    ensures KindOf(name, {"INPUT"}) == Pass
  {
    OptionStarts(name);
    assert name[0] == '-' || name[0] == "!"[0];
    assert "DROP"[0] == 'D' && "REJECT"[0] == 'R' && "ACCEPT"[0] == 'A' && "RETURN"[0] == 'R' && "INPUT"[0] == 'I';
  }

  /** Any such rule whose line reads as another target is cleared: whatever the walk
      takes for the target, an option always and else what it lets carry on. */
  lemma MistakenDropIsMissed(r: Reader, a: Addr, t: KTable, rule: Rule, fuel: nat)
    requires DropsAlone(r, a, t, rule) && WellTargeted({"INPUT"}, rule.target) && !Legible("INPUT", rule)
    requires var line := PrintRule("INPUT", rule);
             Flag(line) in Head("INPUT", rule) || (Flag(line) in line ==> KindOf(Target(line), {"INPUT"}) == Pass)
    ensures WalkHooks(r, Print(FilterOnly(t)), INBOUND) == []
    ensures exists tape: Tape :: !Delivered(r, a, true, FilterOnly(t), CROSSED, fuel, tape)
  {
    var line := PrintRule("INPUT", rule);
    if Flag(line) in Head("INPUT", rule) {
      MisreadTarget("INPUT", rule);
      OptionIsPassed(Target(line));
    } else {
      FlagIsThere("INPUT", rule);
    }
    OneStep(r, t, rule);
    InputDecides(r, a, true, t, fuel, []);
    DropsSome(r, a, t, rule, fuel);
  }

  lemma FlagIsThere(chain: string, rule: Rule)
    requires !rule.target.Count?
    ensures Flag(PrintRule(chain, rule)) in PrintRule(chain, rule)
  {
    var line := PrintRule(chain, rule);
    assert line == Head(chain, rule) + PrintTarget(rule);
    assert line[|Head(chain, rule)|] == if rule.goto then "-g" else "-j";
  }

  /** A rule that always drops, commented "-g" or "-j", is passed over. */
  lemma CommentIsReadAsFlag(r: Reader, a: Addr, text: string, fuel: nat)
    requires text in {"-g", "-j"}
    ensures var rule := Rule([Aside("--comment", text)], false, Action.Deny("DROP"), []);
            var t := KTable(map[], map["INPUT" := [rule]]);
            WalkHooks(r, Print(FilterOnly(t)), INBOUND) == []
            && exists tape: Tape :: !Delivered(r, a, true, FilterOnly(t), CROSSED, fuel, tape)
  {
    var rule := Rule([Aside("--comment", text)], false, Action.Deny("DROP"), []);
    var t := KTable(map[], map["INPUT" := [rule]]);
    CommentedHead(rule, text);
    assert Argument("DROP") by { assert "DROP"[0] == 'D' && "!"[0] == '!'; }
    MistakenDropIsMissed(r, a, t, rule, fuel);
  }

  lemma CommentedHead(rule: Rule, text: string)
    requires text in {"-g", "-j"} && rule == Rule([Aside("--comment", text)], false, Action.Deny("DROP"), [])
    ensures Flag(PrintRule("INPUT", rule)) in Head("INPUT", rule) && !Legible("INPUT", rule)
  {
    var head, line := Head("INPUT", rule), PrintRule("INPUT", rule);
    assert PrintMatches(rule.matches) == ["--comment", text];
    assert head[3] == text;
    assert line == head + ["-j", "DROP"];
    assert "-g" in line <==> text == "-g";
  }

  // --- a target that is not modelled ------------------------------------------------------

  function Targeting(target: string): Rule { Rule([], false, Foreign(target), []) }

  lemma ForeignLine(r: Reader, target: string)
    requires WellTargeted({"INPUT"}, Foreign(target))
    ensures ReadLine(r, {"INPUT"}, PrintRule("INPUT", Targeting(target))).kind == Pass
  {
    var rule := Targeting(target);
    assert Head("INPUT", rule) == ["-A", "INPUT"];
    LegibleIsRead("INPUT", rule);
    KindRead({"INPUT"}, Foreign(target));
  }

  /** A target the walk does not model is passed over, whatever it does. */
  lemma ForeignTargetIsPassed(r: Reader, a: Addr, target: string, fuel: nat)
    requires WellTargeted({"INPUT"}, Foreign(target))
    ensures var t := KTable(map[], map["INPUT" := [Targeting(target)]]);
            WalkHooks(r, Print(FilterOnly(t)), INBOUND) == []
            && !Delivered(r, a, true, FilterOnly(t), CROSSED, fuel, [[], [false]])
  {
    var t := KTable(map[], map["INPUT" := [Targeting(target)]]);
    ForeignLine(r, target);
    OneStep(r, t, Targeting(target));
    InputDecides(r, a, true, t, fuel, [[], [false]]);
    ForeignDrops(r, a, t, target, fuel);
  }

  lemma ForeignDrops(r: Reader, a: Addr, t: KTable, target: string, fuel: nat)
    ensures Run(r, a, true, t, [Targeting(target)], fuel, [[], [false]]).0 == Discarded
  {
    assert After([[], [false]]) == [[false]];
    assert Fires(r, a, Targeting(target), []);
  }

  // --- a list that tells two own addresses apart ------------------------------------------

  /** INPUT admits what is sent to the list, over a policy of DROP. */
  function Admits(list: string): Rule { Rule([Match(false, Dest("-d", list))], false, Action.Allow, []) }

  function Admitting(list: string): KTable { KTable(map["INPUT" := "DROP"], map["INPUT" := [Admits(list)]]) }

  lemma AdmitsInside(r: Reader, b: Addr, list: string, fuel: nat, tape: Tape)
    ensures Delivered(r, b, true, FilterOnly(Admitting(list)), CROSSED, fuel, tape) <==> Inside(r, list, b)
  {
    var t, rule := Admitting(list), Admits(list);
    InputDecides(r, b, true, t, fuel, tape);
    assert Holds(r, b, rule.matches[0], Bit(First(tape), 0)) <==> Inside(r, list, b);
    assert Fires(r, b, rule, First(tape)) <==> Inside(r, list, b);
  }

  lemma AdmittingIsCleared(r: Reader, list: string)
    requires list != "-j" && list != "-g" && DestHolds(r, list)
    ensures WalkHooks(r, Print(FilterOnly(Admitting(list))), INBOUND) == []
  {
    DestLine(r, list);
    OneStep(r, Admitting(list), Admits(list));
    InputIsLast(r, Admitting(list));
  }

  lemma InputIsLast(r: Reader, t: KTable)
    requires "INPUT" in t.chains
    ensures WalkHooks(r, Print(FilterOnly(t)), INBOUND) == WalkHooks(r, Print(FilterOnly(t)), [HOOK])
  {
    InputDecides(r, Addr(4, 0), true, t, 0, []);
  }

  /** Where some own address is on the list, the walk clears the ruleset; and that every
      own address is then delivered to is true exactly when the list holds them all. */
  lemma AddressesStandTogether(r: Reader, list: string, fuel: nat)
    requires list != "-j" && list != "-g" && DestHolds(r, list)
    ensures WalkHooks(r, Print(FilterOnly(Admitting(list))), INBOUND) == []
    ensures (forall b, tape: Tape :: b in r.own ==> Delivered(r, b, true, FilterOnly(Admitting(list)), CROSSED, fuel, tape))
            <==> Together(r, list)
  {
    AdmittingIsCleared(r, list);
    forall b, tape: Tape
      ensures Delivered(r, b, true, FilterOnly(Admitting(list)), CROSSED, fuel, tape) <==> Inside(r, list, b)
    {
      AdmitsInside(r, b, list, fuel, tape);
    }
    var a, n :| a in r.own && n in r.nets(list) && n.Contains(a);
    assert Inside(r, list, a);
    if !Together(r, list) {
      var c, d :| c in r.own && d in r.own && Inside(r, list, c) && !Inside(r, list, d);
      assert !Delivered(r, d, true, FilterOnly(Admitting(list)), CROSSED, fuel, []);
    }
  }

  lemma AdmitsPrinted(list: string)
    ensures PrintMatches(Admits(list).matches) == ["-d", list]
    ensures PrintRule("INPUT", Admits(list)) == ["-A", "INPUT", "-d", list] + (["-j", "ACCEPT"] + [])
  {
    assert PrintMatch(Match(false, Dest("-d", list))) == ["-d", list];
    assert PrintMatches(Admits(list).matches) == ["-d", list] + [];
  }

  lemma DestLine(r: Reader, list: string)
    requires list != "-j" && list != "-g" && DestHolds(r, list)
    ensures var s := ReadLine(r, {"INPUT"}, PrintRule("INPUT", Admits(list))); s.kind == Kind.Allow && s.m == Yes
  {
    AdmitsPrinted(list);
    FlagFound(["-A", "INPUT", "-d", list], "-j", "ACCEPT", []);
    DestScan(r, list, PrintRule("INPUT", Admits(list)), ["-j", "ACCEPT"] + []);
  }

  lemma DestScan(r: Reader, list: string, line: Tokens, tail: Tokens)
    requires line == ["-A", "INPUT", "-d", list] + tail && |tail| > 0 && tail[0] == "-j" && DestHolds(r, list)
    ensures Scan(r, line, false, Yes) == Yes
  {
    var rest := ["-d", list] + tail;
    DestOne(r, list, tail);
    ScanAside(r, "-A", "INPUT", rest, Yes);
    TwoFirst("-A", "INPUT", "-d", list, tail);
  }

  lemma TwoFirst(a: string, b: string, c: string, d: string, tail: Tokens)
    ensures [a, b, c, d] + tail == [a, b] + ([c, d] + tail)
  {
  }

  lemma DestOne(r: Reader, list: string, tail: Tokens)
    requires |tail| > 0 && tail[0] == "-j" && DestHolds(r, list)
    ensures Scan(r, ["-d", list] + tail, false, Yes) == Yes
  {
    var rest := ["-d", list] + tail;
    assert rest[2..] == tail && rest[0] == "-d" && rest[1] == list;
    assert Scan(r, tail, false, Yes) == Yes;
  }

  // --- a port range left open ----------------------------------------------------------------

  /** A port, a range, and a range open below hold 22 as the kernel has them; a range
      open above, which the kernel takes to 65535, is read as its first port alone. */
  lemma OpenRangeIsReadAsOnePort(n: nat, m: nat)
    ensures PortRange(Numeral(n)) == (n, n) && PortRange(Numeral(n) + [':'] + Numeral(m)) == (n, m)
    ensures PortRange([':'] + Numeral(m)) == (0, m) && PortRange(":") == (0, 65535)
    ensures PortsHold(Numeral(n) + ":") <==> n == 22
  {
    var open := Numeral(n) + ":";
    ParseNumeral(n);
    ParseNumeral(m);
    BeforeBehind(Numeral(n), ':');
    BeforeAt(Numeral(n), ':', Numeral(m));
    BeforeAt("", ':', Numeral(m));
    assert "" + [':'] + Numeral(m) == [':'] + Numeral(m);
    BeforeAt("", ':', "");
    assert "" + [':'] + "" == ":";
    BeforeAt(Numeral(n), ':', "");
    assert open == Numeral(n) + [':'] + "";
    assert PortRange(open) == (n, n);
    SplitHead(open, "", ',');
    assert open in Split(open, ',');
  }
}
