/** What the kernel does with the packet the walk asks about, and that the walk
    of `Firewall` reports a reason exactly when some run of the kernel drops it. */
module FirewallKernel {
  import opened Strings
  import opened Firewall

  // --- rulesets as data, and as iptables-save prints them ---------------------

  datatype Ports = Ports(lo: nat, hi: nat)

  /** One condition, under any of the names its option goes by. */
  datatype Test =
    | Iface(opt: string, name: string)
    | Proto(opt: string, proto: string)
    | Dest(opt: string, list: string)
    | Dports(opt: string, ports: seq<Ports>)
    | States(opt: string, states: seq<string>)
    | DstType(kind: string)
    | Unmodelled(opt: string, args: seq<string>)

  /** `-m module`, `--comment text`, or one condition, negated or not. */
  datatype Match = Aside(opt: string, text: string) | Match(negated: bool, test: Test)

  /** Count for a rule that only counts, Jump for a user chain, Foreign for
      anything the walk does not model. */
  datatype Action = Count | Deny(name: string) | Allow | Back | Carry(name: string) | Jump(name: string) | Foreign(name: string)

  datatype Rule = Rule(matches: seq<Match>, goto: bool, target: Action, options: seq<string>)

  datatype KTable = KTable(policy: map<string, string>, chains: map<string, seq<Rule>>)

  type Rules = map<string, KTable>

  function PrintPorts(p: Ports): string {
    if p.lo == p.hi then Numeral(p.lo) else Numeral(p.lo) + ":" + Numeral(p.hi)
  }

  function PrintTest(t: Test): Tokens {
    match t
    case Iface(opt, n) => [opt, n]
    case Proto(opt, p) => [opt, p]
    case Dest(opt, l) => [opt, l]
    case Dports(opt, ps) => [opt, Join(seq(|ps|, i requires 0 <= i < |ps| => PrintPorts(ps[i])), ',')]
    case States(opt, ss) => [opt, Join(ss, ',')]
    case DstType(k) => ["--dst-type", k]
    case Unmodelled(opt, args) => [opt] + args
  }

  function PrintMatch(m: Match): Tokens {
    match m
    case Aside(opt, text) => [opt, text]
    case Match(negated, test) => (if negated then ["!"] else []) + PrintTest(test)
  }

  function PrintMatches(ms: seq<Match>): Tokens {
    if ms == [] then [] else PrintMatch(ms[0]) + PrintMatches(ms[1..])
  }

  function TargetName(t: Action): string {
    match t
    case Count => ""
    case Allow => "ACCEPT"
    case Back => "RETURN"
    case _ => t.name
  }

  function PrintTarget(rule: Rule): Tokens {
    if rule.target.Count? then [] else [if rule.goto then "-g" else "-j", TargetName(rule.target)] + rule.options
  }

  function PrintRule(chain: string, rule: Rule): Tokens {
    ["-A", chain] + PrintMatches(rule.matches) + PrintTarget(rule)
  }

  function PrintRules(chain: string, rules: seq<Rule>): (lines: seq<Tokens>)
    ensures |lines| == |rules|
    ensures forall i :: 0 <= i < |rules| ==> lines[i] == PrintRule(chain, rules[i])
  {
    seq(|rules|, i requires 0 <= i < |rules| => PrintRule(chain, rules[i]))
  }

  function PrintTable(t: KTable): Table {
    Table(t.policy, map c | c in t.chains :: PrintRules(c, t.chains[c]))
  }

  function Print(rules: Rules): Ruleset {
    map t | t in rules :: PrintTable(rules[t])
  }

  // --- what a printed rule has to be for its tokens to name its parts ---------

  /** The options a condition above goes by, and those that state none. */
  predicate KnownOption(opt: string) {
    || opt in {"-i", "--in-interface", "-p", "--protocol", "-d", "--destination", "--ctstate", "--state", "--dst-type"}
    || opt in {"--dport", "--destination-port", "--dports", "--destination-ports"}
    || opt in {"-A", "-m", "--comment", "-j", "-g", "!"}
  }

  /** A token that no option starts with. */
  predicate Argument(token: string) {
    token != "!" && (token == "" || token[0] != '-')
  }

  predicate WellTested(t: Test) {
    match t
    case Iface(opt, _) => opt == "-i" || opt == "--in-interface"
    case Proto(opt, _) => opt == "-p" || opt == "--protocol"
    case Dest(opt, _) => opt == "-d" || opt == "--destination"
    case Dports(opt, ps) => opt in {"--dport", "--destination-port", "--dports", "--destination-ports"} && ps != []
    case States(opt, ss) => (opt == "--ctstate" || opt == "--state") && ss != [] && forall s :: s in ss ==> ',' !in s
    case DstType(_) => true
    case Unmodelled(opt, args) => !Argument(opt) && !KnownOption(opt) && forall a :: a in args ==> Argument(a)
  }

  predicate WellMatched(m: Match) {
    match m
    case Aside(opt, _) => opt in {"-m", "--comment"}
    case Match(_, test) => WellTested(test)
  }

  predicate WellMatchedAll(rule: Rule) {
    forall m :: m in rule.matches ==> WellMatched(m)
  }

  /** The tokens before the flag. */
  function Head(chain: string, rule: Rule): Tokens {
    ["-A", chain] + PrintMatches(rule.matches)
  }

  /** No token ahead of the flag reads as one (a comment could, or a network or chain
      of that name), and behind a `-j` none reads `-g`. */
  predicate Legible(chain: string, rule: Rule) {
    if rule.target.Count? then "-j" !in Head(chain, rule) && "-g" !in Head(chain, rule)
    else if rule.goto then "-g" !in Head(chain, rule)
    else "-j" !in Head(chain, rule) && "-g" !in Head(chain, rule) && "-g" !in rule.options
  }

  const VERDICTS: set<string> := {"DROP", "REJECT", "ACCEPT", "RETURN"}

  /** Targets behind which the packet goes on to the next rule. */
  const CARRYING: set<string> :=
    {"AUDIT", "CONNMARK", "CT", "DNAT", "LOG", "MARK", "MASQUERADE", "NFLOG", "REDIRECT", "SNAT", "TRACE"}

  /** The kernel gives no chain and no target a name that starts an option. */
  predicate WellTargeted(chains: set<string>, t: Action) {
    && Argument(TargetName(t))
    && match t
       case Deny(n) => n in {"DROP", "REJECT"}
       case Carry(n) => n in CARRYING
       case Jump(n) => n !in VERDICTS && n !in CARRYING && n in chains
       case Foreign(n) => n !in VERDICTS && n !in CARRYING && n !in chains
       case _ => true
  }

  predicate WellPrinted(chains: set<string>, chain: string, rule: Rule) {
    WellMatchedAll(rule) && WellTargeted(chains, rule.target) && Legible(chain, rule)
  }

  // --- the kernel ------------------------------------------------------------

  /** A condition's truth for the packet to `a`; None where the packet's other
      properties (its source, its rate, its mark...) decide. */
  function Truth(r: Reader, a: Addr, t: Test): Option<bool> {
    match t
    case Iface(_, n) => Some(Arrives(n))
    case Proto(_, p) => Some(p in {"tcp", "6", "all", "0"})
    case Dest(_, l) => Some(Inside(r, l, a))
    case Dports(_, ps) => Some(exists p :: p in ps && p.lo <= 22 <= p.hi)
    case States(_, ss) => Some("NEW" in ss)
    case DstType(k) => if k == "LOCAL" then Some(true) else None
    case Unmodelled(_, _) => None
  }

  /** The packet arrives on tailscale0: that name, or a beginning of it and a "+". */
  predicate Arrives(name: string) {
    name == "tailscale0" || exists k: nat :: k <= 10 && name == "tailscale0"[..k] + "+"
  }

  predicate Inside(r: Reader, list: string, a: Addr) {
    exists n :: n in r.nets(list) && n.version == a.version && n.lo <= a.value <= n.hi
  }

  /** The list holds all of this host's addresses or none. */
  predicate Together(r: Reader, list: string) {
    forall a, b :: a in r.own && b in r.own && Inside(r, list, a) ==> Inside(r, list, b)
  }

  predicate TestTogether(r: Reader, t: Test) { t.Dest? ==> Together(r, t.list) }

  predicate MatchTogether(r: Reader, m: Match) { m.Match? ==> TestTogether(r, m.test) }

  predicate RuleTogether(r: Reader, rule: Rule) { forall m :: m in rule.matches ==> MatchTogether(r, m) }

  predicate Holds(r: Reader, a: Addr, m: Match, bit: bool) {
    match m
    case Aside(_, _) => true
    case Match(negated, test) =>
      match Truth(r, a, test)
      case Some(b) => b != negated
      case None => bit
  }

  /** One evaluation's answers: what each undecided condition of the rule turns out to be. */
  type Answer = seq<bool>

  function Bit(ans: Answer, i: nat): bool { i < |ans| && ans[i] }

  ghost predicate Fires(r: Reader, a: Addr, rule: Rule, ans: Answer) {
    forall i :: 0 <= i < |rule.matches| ==> Holds(r, a, rule.matches[i], Bit(ans, i))
  }

  /** A run takes one answer from the tape at each rule it evaluates, so no two
      evaluations have to agree; past its end every answer is false. */
  type Tape = seq<Answer>

  function First(tape: Tape): Answer { if tape == [] then [] else tape[0] }
  function After(tape: Tape): Tape { if tape == [] then [] else tape[1..] }

  datatype Outcome = Accepted | Discarded | Returned | Unbounded

  /** Run `rules` of table `t`, with at most `fuel` chains nested below. A target
      that is neither a chain nor one the walk models does what the tape says.
      The kernel is the run with `exits`; without, a rule whose conditions stay
      undecided leaves no chain: its RETURN is passed over and its `-g` is a `-j`. */
  ghost function Run(r: Reader, a: Addr, exits: bool, t: KTable, rules: seq<Rule>, fuel: nat, tape: Tape): (Outcome, Tape)
    decreases fuel, |rules|
  {
    if rules == [] then (Returned, tape)
    else
      var rule, left := rules[0], After(tape);
      if !Fires(r, a, rule, First(tape)) then Run(r, a, exits, t, rules[1..], fuel, left)
      else
        match rule.target
        case Deny(_) => (Discarded, left)
        case Allow => (Accepted, left)
        case Back => if Leaves(r, a, exits, rule) then (Returned, left) else Run(r, a, exits, t, rules[1..], fuel, left)
        case Jump(c) =>
          if fuel == 0 || c !in t.chains then (Unbounded, left)
          else
            var (v, left') := Run(r, a, exits, t, t.chains[c], fuel - 1, left);
            if v != Returned || (rule.goto && Leaves(r, a, exits, rule)) then (v, left') else Run(r, a, exits, t, rules[1..], fuel, left')
        case Foreign(_) =>
          var left' := After(left);
          if First(left) == [true] then (Accepted, left')
          else if First(left) == [false] then (Discarded, left')
          else Run(r, a, exits, t, rules[1..], fuel, left')
        case _ => Run(r, a, exits, t, rules[1..], fuel, left)
  }

  predicate Leaves(r: Reader, a: Addr, exits: bool, rule: Rule) { exits || !Undecided(r, a, rule) }

  /** Where a packet for this host passes, in order. */
  const CROSSED: seq<(string, string)> :=
    [("raw", "PREROUTING"), ("mangle", "PREROUTING"), ("nat", "PREROUTING"), ("mangle", "INPUT"), ("filter", "INPUT")]

  predicate Hooked(rules: Rules, hook: (string, string)) {
    hook.0 in rules && hook.1 in rules[hook.0].chains
  }

  predicate PolicyDrops(t: KTable, chain: string) {
    chain in t.policy && t.policy[chain] == "DROP"
  }

  /** The packet passes every hook. */
  ghost predicate Delivered(r: Reader, a: Addr, exits: bool, rules: Rules, hooks: seq<(string, string)>, fuel: nat, tape: Tape)
    decreases |hooks|
  {
    if hooks == [] then true
    else if !Hooked(rules, hooks[0]) then Delivered(r, a, exits, rules, hooks[1..], fuel, tape)
    else
      var t := rules[hooks[0].0];
      var (v, left) := Run(r, a, exits, t, t.chains[hooks[0].1], fuel, tape);
      && (v == Accepted || (v == Returned && !PolicyDrops(t, hooks[0].1)))
      && Delivered(r, a, exits, rules, hooks[1..], fuel, left)
  }

  // --- one rule: the three values are exactly the possible truths -------------

  /** The source's fold of one condition into the result so far. */
  function FoldOne(r: Reader, a: Addr, m: Match, acc: Tri): Tri {
    match m
    case Aside(_, _) => acc
    case Match(negated, test) => Fold(acc, negated, Value(r, a, test))
  }

  function Value(r: Reader, a: Addr, test: Test): Tri {
    match Truth(r, a, test) case Some(b) => Known(b) case None => Maybe
  }

  function FoldMatches(r: Reader, a: Addr, ms: seq<Match>, acc: Tri): Tri {
    if ms == [] then acc else FoldMatches(r, a, ms[1..], FoldOne(r, a, ms[0], acc))
  }

  lemma PortsRead(p: Ports)
    ensures PortRange(PrintPorts(p)) == (p.lo, p.hi) && ',' !in PrintPorts(p)
  {
    ParseNumeral(p.lo);
    ParseNumeral(p.hi);
    BeforeBehind(Numeral(p.lo), ':');
    BeforeAt(Numeral(p.lo), ':', Numeral(p.hi));
  }

  /** A port list holds 22 exactly when one of its ranges does. */
  lemma RangesHold(parts: seq<string>, ps: seq<Ports>)
    requires |parts| == |ps| && forall i :: 0 <= i < |ps| ==> PortRange(parts[i]) == (ps[i].lo, ps[i].hi)
    ensures (exists part :: part in parts && PortRange(part).0 <= SSH_PORT <= PortRange(part).1) <==>
            (exists p :: p in ps && p.lo <= SSH_PORT <= p.hi)
  {
    if p :| p in ps && p.lo <= SSH_PORT <= p.hi {
      var i :| 0 <= i < |ps| && ps[i] == p;
      assert parts[i] in parts;
    }
    if part :| part in parts && PortRange(part).0 <= SSH_PORT <= PortRange(part).1 {
      var i :| 0 <= i < |parts| && parts[i] == part;
      assert ps[i] in ps;
    }
  }

  lemma PortListRead(opt: string, ps: seq<Ports>)
    requires ps != []
    ensures PortsHold(PrintTest(Dports(opt, ps))[1]) <==> exists p :: p in ps && p.lo <= 22 <= p.hi
  {
    var printed := seq(|ps|, i requires 0 <= i < |ps| => PrintPorts(ps[i]));
    forall i | 0 <= i < |ps|
      ensures PortRange(printed[i]) == (ps[i].lo, ps[i].hi) && ',' !in printed[i]
    {
      PortsRead(ps[i]);
    }
    SplitJoin(printed, ',');
    RangesHold(printed, ps);
  }

  lemma DestRead(r: Reader, a: Addr, list: string)
    requires a in r.own && Together(r, list)
    ensures DestHolds(r, list) <==> Inside(r, list, a)
  {
    if DestHolds(r, list) {
      var b, n :| b in r.own && n in r.nets(list) && n.Contains(b);
      assert Inside(r, list, b);
    }
  }

  /** Reading a printed condition's option gives its truth for the packet. */
  lemma TestRead(r: Reader, a: Addr, t: Test)
    requires a in r.own && TestTogether(r, t) && WellTested(t)
    ensures var tokens := PrintTest(t);
            OptionValue(r, tokens[0], if |tokens| > 1 then tokens[1] else "") ==
            (if t.Unmodelled? then None
             else Some(Value(r, a, t)))
    ensures PrintTest(t)[0] !in SKIP_OPTS && PrintTest(t)[0] !in {"-j", "-g", "!"}
  {
    match t
    case Iface(_, n) => IfaceRead(n);
    case Dports(opt, ps) => PortListRead(opt, ps);
    case States(_, ss) => SplitJoin(ss, ',');
    case Dest(_, l) => DestRead(r, a, l);
    case Unmodelled(opt, _) => OptionStarts(opt);
    case _ =>
  }

  lemma OptionStarts(token: string)
    ensures StartsOption(token) <==> !Argument(token)
  {
  }

  /** The walk's reading of an interface name is the kernel's. */
  lemma IfaceRead(name: string)
    ensures IfaceHolds(name) <==> Arrives(name)
  {
    if name != "" && name[|name| - 1] == '+' {
      var lead := name[..|name| - 1];
      assert name == lead + "+";
      if lead <= "tailscale0" {
        assert lead == "tailscale0"[..|lead|];
      }
      if k: nat :| k <= 10 && name == "tailscale0"[..k] + "+" {
        assert lead == "tailscale0"[..k];
      }
      assert "tailscale0"[9] == '0';
    }
  }

  lemma {:induction false} ArgsSkipped(args: seq<string>, tail: Tokens)
    requires forall a :: a in args ==> Argument(a)
    requires tail == [] || StartsOption(tail[0])
    ensures SkipArgs(args + tail) == tail
  {
    if args == [] {
      assert args + tail == tail;
    } else {
      ArgsSkipped(args[1..], tail);
      OptionStarts(args[0]);
      assert (args + tail)[1..] == args[1..] + tail;
    }
  }

  lemma MatchHead(m: Match)
    requires WellMatched(m)
    ensures PrintMatch(m) != [] && StartsOption(PrintMatch(m)[0])
  {
    if m.Match? {
      assert !m.negated ==> PrintMatch(m) == PrintTest(m.test);
    }
  }

  predicate EndsMatches(tail: Tokens) { tail == [] || tail[0] in {"-j", "-g"} }

  lemma ScanTest(r: Reader, a: Addr, test: Test, rest: Tokens, negated: bool, acc: Tri)
    requires a in r.own && TestTogether(r, test) && WellTested(test)
    requires rest == [] || StartsOption(rest[0])
    ensures Scan(r, PrintTest(test) + rest, negated, acc) ==
            Scan(r, rest, false, Fold(acc, negated, Value(r, a, test)))
  {
    TestRead(r, a, test);
    var tokens := PrintTest(test);
    if test.Unmodelled? {
      ArgsSkipped(test.args, rest);
      ScanUnknown(r, tokens, rest, negated, acc);
    } else {
      ScanKnown(r, tokens[0], tokens[1], rest, negated, acc, Value(r, a, test));
    }
  }

  lemma ScanKnown(r: Reader, opt: string, arg: string, rest: Tokens, negated: bool, acc: Tri, v: Tri)
    requires OptionValue(r, opt, arg) == Some(v) && opt !in SKIP_OPTS && opt !in {"-j", "-g", "!"}
    ensures Scan(r, [opt, arg] + rest, negated, acc) == Scan(r, rest, false, Fold(acc, negated, v))
  {
    var line := [opt, arg] + rest;
    assert line[0] == opt && line[1] == arg && line[2..] == rest;
  }

  lemma ScanUnknown(r: Reader, tokens: Tokens, rest: Tokens, negated: bool, acc: Tri)
    requires tokens != [] && OptionValue(r, tokens[0], if |tokens + rest| > 1 then (tokens + rest)[1] else "") == None
    requires tokens[0] !in SKIP_OPTS && tokens[0] !in {"-j", "-g", "!"} && SkipArgs(tokens[1..] + rest) == rest
    ensures Scan(r, tokens + rest, negated, acc) == Scan(r, rest, false, Fold(acc, negated, Maybe))
  {
    var line := tokens + rest;
    assert line[0] == tokens[0] && line[1..] == tokens[1..] + rest;
  }

  lemma ScanAside(r: Reader, opt: string, text: string, rest: Tokens, acc: Tri)
    requires opt in SKIP_OPTS
    ensures Scan(r, [opt, text] + rest, false, acc) == Scan(r, rest, false, acc)
  {
    var tokens := [opt, text] + rest;
    assert tokens[0] == opt && opt !in {"-j", "-g", "!"};
    assert tokens[2..] == rest;
  }

  lemma ScanMatch(r: Reader, a: Addr, m: Match, rest: Tokens, acc: Tri)
    requires a in r.own && MatchTogether(r, m) && WellMatched(m)
    requires rest == [] || StartsOption(rest[0])
    ensures Scan(r, PrintMatch(m) + rest, false, acc) == Scan(r, rest, false, FoldOne(r, a, m, acc))
  {
    match m
    case Aside(opt, text) => ScanAside(r, opt, text, rest, acc);
    case Match(negated, test) =>
      var body := PrintTest(test) + rest;
      assert PrintMatch(m) + rest == (if negated then ["!"] + body else body);
      ScanNot(r, body, acc);
      ScanTest(r, a, test, rest, negated, acc);
  }

  lemma ScanNot(r: Reader, body: Tokens, acc: Tri)
    ensures Scan(r, ["!"] + body, false, acc) == Scan(r, body, true, acc)
  {
    assert (["!"] + body)[1..] == body;
  }

  lemma RestStarts(ms: seq<Match>, tail: Tokens)
    requires EndsMatches(tail) && forall m :: m in ms ==> WellMatched(m)
    ensures var rest := PrintMatches(ms) + tail; rest == [] || StartsOption(rest[0])
  {
    if ms == [] {
      assert PrintMatches(ms) + tail == tail;
    } else {
      MatchHead(ms[0]);
      assert (PrintMatches(ms) + tail)[0] == PrintMatch(ms[0])[0];
    }
  }

  /** Scanning a rule's printed conditions folds their truths, in order. */
  lemma {:induction false} ScanPrinted(r: Reader, a: Addr, ms: seq<Match>, tail: Tokens, acc: Tri)
    requires a in r.own && EndsMatches(tail)
    requires forall m :: m in ms ==> WellMatched(m) && MatchTogether(r, m)
    ensures Scan(r, PrintMatches(ms) + tail, false, acc) == FoldMatches(r, a, ms, acc)
  {
    if ms == [] {
      assert PrintMatches(ms) + tail == tail;
    } else {
      var rest := PrintMatches(ms[1..]) + tail;
      assert PrintMatches(ms) + tail == PrintMatch(ms[0]) + rest;
      RestStarts(ms[1..], tail);
      ScanMatch(r, a, ms[0], rest, acc);
      ScanPrinted(r, a, ms[1..], tail, FoldOne(r, a, ms[0], acc));
    }
  }

  predicate Never(r: Reader, a: Addr, m: Match) { !Holds(r, a, m, false) && !Holds(r, a, m, true) }
  predicate Always(r: Reader, a: Addr, m: Match) { Holds(r, a, m, false) && Holds(r, a, m, true) }

  lemma FoldStep(r: Reader, a: Addr, m: Match, acc: Tri)
    ensures FoldOne(r, a, m, acc) == No <==> acc == No || Never(r, a, m)
    ensures FoldOne(r, a, m, acc) == Yes <==> acc == Yes && Always(r, a, m)
  {
  }

  lemma {:induction false} FoldExact(r: Reader, a: Addr, ms: seq<Match>, acc: Tri)
    ensures FoldMatches(r, a, ms, acc) == No <==> acc == No || exists m :: m in ms && Never(r, a, m)
    ensures FoldMatches(r, a, ms, acc) == Yes <==> acc == Yes && forall m :: m in ms ==> Always(r, a, m)
  {
    if ms != [] {
      FoldStep(r, a, ms[0], acc);
      FoldExact(r, a, ms[1..], FoldOne(r, a, ms[0], acc));
      assert forall m :: m in ms <==> m == ms[0] || m in ms[1..];
    }
  }

  ghost predicate Matches(r: Reader, a: Addr, rule: Rule, m: Tri) {
    match m
    case Yes => forall ans: Answer :: Fires(r, a, rule, ans)
    case No => forall ans: Answer :: !Fires(r, a, rule, ans)
    case Maybe => Fires(r, a, rule, AllTrue(rule)) && !Fires(r, a, rule, [])
  }

  function AllTrue(rule: Rule): Answer { seq(|rule.matches|, i => true) }

  // --- a line's flag and target ------------------------------------------------------

  /** The walk takes the rule's own flag and target for them; none where it has none. */
  predicate TargetRead(chain: string, rule: Rule) {
    var line := PrintRule(chain, rule);
    if rule.target.Count? then Flag(line) !in line
    else
      && Flag(line) == (if rule.goto then "-g" else "-j") && Flag(line) in line
      && Target(line) == TargetName(rule.target)
  }

  lemma FlagFound(head: Tokens, flag: string, target: string, options: Tokens)
    requires "-g" !in head && flag in {"-j", "-g"}
    requires flag == "-j" ==> "-j" !in head && "-g" !in [target] + options
    ensures var line := head + ([flag, target] + options);
            Flag(line) == flag && flag in line && Target(line) == target
  {
    var line := head + ([flag, target] + options);
    assert line[|head|] == flag && line[|head| + 1] == target;
    assert forall t :: t in line ==> t in head || t == flag || t in [target] + options;
    assert Flag(line) == flag;
    assert line[..|head|] == head;
    FirstAt(line, flag, |head|);
  }

  lemma FirstAt(line: Tokens, flag: string, n: nat)
    requires n < |line| && line[n] == flag && flag !in line[..n]
    ensures IndexOf(flag, line) == n
  {
    var i := IndexOf(flag, line);
    assert forall j :: 0 <= j < n ==> line[..n][j] == line[j];
    assert forall j :: 0 <= j < i ==> line[..i][j] == line[j];
  }

  /** Behind each such token comes an option, save at the end. */
  predicate Followed(tokens: Tokens, flag: string) {
    forall i :: 0 <= i < |tokens| - 1 && tokens[i] == flag ==> StartsOption(tokens[i + 1])
  }

  lemma FollowedJoin(a: Tokens, b: Tokens, flag: string)
    requires Followed(a, flag) && Followed(b, flag) && (b == [] || StartsOption(b[0]))
    ensures Followed(a + b, flag)
  {
    var all := a + b;
    forall i | 0 <= i < |all| - 1 && all[i] == flag
      ensures StartsOption(all[i + 1])
    {
      if i + 1 < |a| {
        assert a[i] == flag && all[i + 1] == a[i + 1];
      } else if i >= |a| {
        assert b[i - |a|] == flag && all[i + 1] == b[i - |a| + 1];
      }
    }
  }

  lemma FollowedMatch(m: Match, flag: string)
    requires WellMatched(m) && flag in {"-j", "-g"}
    ensures Followed(PrintMatch(m), flag)
  {
    if m.Match? {
      FollowedTest(m.test, flag);
      assert PrintMatch(m) == if m.negated then ["!"] + PrintTest(m.test) else PrintTest(m.test);
    }
  }

  lemma FollowedTest(t: Test, flag: string)
    requires WellTested(t) && flag in {"-j", "-g"}
    ensures Followed(PrintTest(t), flag) && PrintTest(t)[0] != flag
    ensures StartsOption(PrintTest(t)[0])
  {
    if t.Unmodelled? {
      assert forall i :: 1 <= i < |PrintTest(t)| ==> PrintTest(t)[i] in t.args;
    }
  }

  lemma {:induction false} FollowedMatches(ms: seq<Match>, flag: string)
    requires flag in {"-j", "-g"} && forall m :: m in ms ==> WellMatched(m)
    ensures Followed(PrintMatches(ms), flag)
    ensures PrintMatches(ms) == [] || StartsOption(PrintMatches(ms)[0])
  {
    if ms != [] {
      FollowedMatch(ms[0], flag);
      MatchHead(ms[0]);
      FollowedMatches(ms[1..], flag);
      FollowedJoin(PrintMatch(ms[0]), PrintMatches(ms[1..]), flag);
    }
  }

  /** A flag found ahead of the rule's own is followed by an option, which is then
      taken for the target; or by nothing, in a rule without a target. */
  lemma MisreadTarget(chain: string, rule: Rule)
    requires WellMatchedAll(rule) && Flag(PrintRule(chain, rule)) in Head(chain, rule)
    ensures var line := PrintRule(chain, rule);
            Flag(line) in line && (StartsOption(Target(line)) || (rule.target.Count? && Target(line) == ""))
  {
    var head, tail, line := Head(chain, rule), PrintTarget(rule), PrintRule(chain, rule);
    var flag := Flag(line);
    FollowedMatches(rule.matches, flag);
    FollowedJoin(["-A", chain], PrintMatches(rule.matches), flag);
    assert line == head + tail;
    FirstIsFollowed(flag, head, tail);
  }

  lemma FirstIsFollowed(flag: string, head: Tokens, tail: Tokens)
    requires flag in head && Followed(head, flag) && (tail == [] || StartsOption(tail[0]))
    ensures flag in head + tail
    ensures var i := IndexOf(flag, head + tail);
            i < |head| && (i + 1 < |head + tail| ==> StartsOption((head + tail)[i + 1])) && (i + 1 >= |head + tail| ==> tail == [])
  {
    var line := head + tail;
    var k :| 0 <= k < |head| && head[k] == flag;
    assert line[k] == flag;
    var i := IndexOf(flag, line);
    assert forall j :: 0 <= j < i ==> line[..i][j] == line[j];
    assert head[i] == flag;
    assert i + 1 < |line| ==> line[i + 1] == if i + 1 < |head| then head[i + 1] else tail[0];
  }

  /** The walk reads a line's target exactly where nothing ahead of the flag reads as
      one and nothing behind a `-j` reads `-g`. */
  lemma TargetReadExactly(chain: string, rule: Rule)
    requires WellMatchedAll(rule) && Argument(TargetName(rule.target))
    ensures TargetRead(chain, rule) <==> Legible(chain, rule)
  {
    var head, line := Head(chain, rule), PrintRule(chain, rule);
    assert line == head + PrintTarget(rule);
    if Legible(chain, rule) {
      LegibleIsRead(chain, rule);
    } else if Flag(line) in head {
      MisreadTarget(chain, rule);
    } else {
      assert !rule.target.Count? && !rule.goto && "-g" in rule.options;
      assert "-g" in line;
    }
  }

  lemma LegibleIsRead(chain: string, rule: Rule)
    requires Legible(chain, rule) && Argument(TargetName(rule.target))
    ensures TargetRead(chain, rule)
  {
    var head, line := Head(chain, rule), PrintRule(chain, rule);
    assert line == head + PrintTarget(rule);
    if rule.target.Count? {
      assert line == head;
    } else {
      FlagFound(head, if rule.goto then "-g" else "-j", TargetName(rule.target), rule.options);
    }
  }

  function ActionKind(t: Action): Kind {
    match t
    case Count => Silent
    case Deny(_) => Kind.Deny
    case Allow => Kind.Allow
    case Back => Kind.Back
    case Jump(_) => Enter
    case _ => Pass
  }

  lemma KindRead(chains: set<string>, t: Action)
    requires WellTargeted(chains, t) && !t.Count?
    ensures KindOf(TargetName(t), chains) == ActionKind(t)
  {
  }

  /** What the source reads off a printed line is the rule's own flag and target. */
  lemma RuleRead(r: Reader, a: Addr, chains: set<string>, chain: string, rule: Rule)
    requires a in r.own && RuleTogether(r, rule) && WellPrinted(chains, chain, rule)
    ensures Reads(r, a, ReadLine(r, chains, PrintRule(chain, rule)), rule)
  {
    LegibleIsRead(chain, rule);
    if !rule.target.Count? {
      ScanRule(r, a, chain, rule);
      KindRead(chains, rule.target);
    }
  }

  /** The three-valued match of a printed line is exact: True when the rule fires
      whatever its undecided conditions are, False when it never does, None when
      both happen. */
  lemma MatchIsExact(r: Reader, a: Addr, chain: string, rule: Rule)
    requires a in r.own && RuleTogether(r, rule) && WellMatchedAll(rule)
    ensures Matches(r, a, rule, Scan(r, PrintRule(chain, rule), false, Yes))
  {
    ScanRule(r, a, chain, rule);
    FiresExact(r, a, rule, FoldMatches(r, a, rule.matches, Yes));
  }

  lemma ScanRule(r: Reader, a: Addr, chain: string, rule: Rule)
    requires a in r.own && RuleTogether(r, rule) && WellMatchedAll(rule)
    ensures Scan(r, PrintRule(chain, rule), false, Yes) == FoldMatches(r, a, rule.matches, Yes)
  {
    var matches, target := PrintMatches(rule.matches), PrintTarget(rule);
    ScanPrinted(r, a, rule.matches, target, Yes);
    ScanAside(r, "-A", chain, matches + target, Yes);
    TokensJoin(["-A", chain], matches, target);
  }

  lemma TokensJoin(a: Tokens, b: Tokens, c: Tokens)
    ensures a + (b + c) == a + b + c
  {
  }

  lemma FiresExact(r: Reader, a: Addr, rule: Rule, m: Tri)
    requires m == FoldMatches(r, a, rule.matches, Yes)
    ensures Matches(r, a, rule, m)
  {
    FoldExact(r, a, rule.matches, Yes);
    var ms := rule.matches;
    match m
    case Yes =>
      forall ans: Answer, i | 0 <= i < |ms|
        ensures Holds(r, a, ms[i], Bit(ans, i))
      {
        assert Always(r, a, ms[i]);
      }
    case No =>
      var c :| c in ms && Never(r, a, c);
      var i :| 0 <= i < |ms| && ms[i] == c;
    case Maybe =>
      var c :| c in ms && !Always(r, a, c);
      var i :| 0 <= i < |ms| && ms[i] == c;
      assert !Holds(r, a, ms[i], Bit([], i));
      forall k | 0 <= k < |ms|
        ensures Holds(r, a, ms[k], Bit(AllTrue(rule), k))
      {
        assert !Never(r, a, ms[k]);
      }
  }

  // --- the hypotheses of the theorem, each a check on the ruleset -------------

  predicate Undecided(r: Reader, a: Addr, rule: Rule) {
    FoldMatches(r, a, rule.matches, Yes) == Maybe
  }

  /** Every rule of every chain is as iptables-save prints it. */
  predicate Readable(rules: Rules) {
    forall table | table in rules :: ReadableTable(rules[table])
  }

  predicate ReadableTable(t: KTable) {
    forall chain, rule | chain in t.chains && rule in t.chains[chain] :: WellPrinted(t.chains.Keys, chain, rule)
  }

  /** Every target is a verdict, a chain, or one the walk models. */
  predicate Modelled(rules: Rules) {
    forall table, chain, rule | table in rules && chain in rules[table].chains && rule in rules[table].chains[chain] ::
      !rule.target.Foreign?
  }

  /** `a` is one of this host's addresses, and no destination list tells two of them apart. */
  predicate Asked(r: Reader, a: Addr, rules: Rules) {
    && a in r.own
    && forall table, chain, rule | table in rules && chain in rules[table].chains && rule in rules[table].chains[chain] ::
         RuleTogether(r, rule)
  }

  /** No rule whose conditions stay undecided leaves its chain by RETURN or `-g`. */
  predicate NoUndecidedExit(r: Reader, a: Addr, rules: Rules) {
    forall table, chain, rule | table in rules && chain in rules[table].chains && rule in rules[table].chains[chain] ::
      Tame(r, a, rule)
  }

  predicate Tame(r: Reader, a: Addr, rule: Rule) {
    Undecided(r, a, rule) ==> !(rule.target.Jump? && rule.goto) && !rule.target.Back?
  }

  /** Jumps go down in rank, from at most 31: no cycle, and no nesting past the cap. */
  ghost predicate Ranked(rules: Rules, rank: (string, string) -> nat) {
    forall table, chain | table in rules && chain in rules[table].chains ::
      && rank(table, chain) <= 31
      && forall rule :: rule in rules[table].chains[chain] && rule.target.Jump? ==>
           rank(table, rule.target.name) < rank(table, chain)
  }

  // --- the walk's steps against the kernel's rules ---------------------------

  /** A step of the walk reads a rule of the kernel. */
  predicate Reads(r: Reader, a: Addr, s: Step, rule: Rule) {
    if rule.target.Count? then s.m == No
    else
      && s.m == FoldMatches(r, a, rule.matches, Yes)
      && s.goto == rule.goto && s.kind == ActionKind(rule.target)
      && (rule.target.Jump? ==> s.target == rule.target.name)
  }

  /** ... and the walk models it: its target is no foreign one, its jump lands. */
  predicate Models(r: Reader, a: Addr, t: KTable, s: Step, rule: Rule) {
    && Reads(r, a, s, rule) && !rule.target.Foreign?
    && (rule.target.Jump? ==> rule.target.name in t.chains)
  }

  ghost predicate ModelsAll(r: Reader, a: Addr, t: KTable, steps: seq<Step>, rules: seq<Rule>) {
    |steps| == |rules| && forall i :: 0 <= i < |rules| ==> Models(r, a, t, steps[i], rules[i])
  }

  ghost predicate TameAll(r: Reader, a: Addr, rules: seq<Rule>) {
    forall i :: 0 <= i < |rules| ==> Tame(r, a, rules[i])
  }

  ghost predicate ModelsTable(r: Reader, a: Addr, st: map<string, seq<Step>>, t: KTable) {
    forall c | c in t.chains :: c in st && ModelsAll(r, a, t, st[c], t.chains[c])
  }

  ghost predicate TameTable(r: Reader, a: Addr, t: KTable) {
    forall c | c in t.chains :: TameAll(r, a, t.chains[c])
  }

  lemma ChainRead(r: Reader, a: Addr, t: KTable, c: string, rules: seq<Rule>)
    requires a in r.own
    requires forall rule :: rule in rules ==> WellPrinted(t.chains.Keys, c, rule) && !rule.target.Foreign? && RuleTogether(r, rule)
    ensures ModelsAll(r, a, t, ReadLines(r, t.chains.Keys, PrintRules(c, rules)), rules)
  {
    forall i | 0 <= i < |rules|
      ensures Models(r, a, t, ReadLines(r, t.chains.Keys, PrintRules(c, rules))[i], rules[i])
    {
      RuleRead(r, a, t.chains.Keys, c, rules[i]);
      JumpLands(t, c, rules[i]);
    }
  }

  lemma JumpLands(t: KTable, c: string, rule: Rule)
    requires WellPrinted(t.chains.Keys, c, rule)
    ensures rule.target.Jump? ==> rule.target.name in t.chains
  {
  }

  lemma TableRead(r: Reader, a: Addr, rules: Rules, table: string)
    requires Asked(r, a, rules) && Readable(rules) && Modelled(rules) && table in rules
    ensures ModelsTable(r, a, ReadTable(r, PrintTable(rules[table])), rules[table])
  {
    var t := rules[table];
    var printed := PrintTable(t);
    assert printed.rules.Keys == t.chains.Keys;
    assert ReadableTable(t);
    forall c | c in t.chains
      ensures c in ReadTable(r, printed) && ModelsAll(r, a, t, ReadTable(r, printed)[c], t.chains[c])
    {
      ChainRead(r, a, t, c, t.chains[c]);
    }
  }

  /** What a run sees of a rule whose step the walk takes. */
  lemma StepFires(r: Reader, a: Addr, s: Step, rule: Rule, ans: Answer)
    requires Reads(r, a, s, rule) && !rule.target.Count?
    ensures s.m == No ==> !Fires(r, a, rule, ans)
    ensures s.m == Yes ==> Fires(r, a, rule, ans)
    ensures s.m == Maybe ==> Undecided(r, a, rule) && Fires(r, a, rule, AllTrue(rule)) && !Fires(r, a, rule, [])
  {
    FiresExact(r, a, rule, s.m);
  }

  lemma NoReasonLeft(st: map<string, seq<Step>>, table: string, name: string, steps: seq<Step>, depth: nat)
    requires depth <= MAX_DEPTH + 1 && steps != []
    ensures var (stop, why) := TakeStep(table, name, steps[0], depth, Inner(st, table, steps[0], depth));
            var (v, all) := WalkSteps(st, table, name, steps, depth);
            var rest := WalkSteps(st, table, name, steps[1..], depth);
            && (v, all) == (if stop.Some? then (stop.value, why) else (rest.0, why + rest.1))
            && (all == [] <==> why == [] && (stop.None? ==> rest.1 == []))
  {
    assert steps[0..] == steps;
    WalkOne(st, table, name, steps, 0, depth);
  }

  // --- no reason: every run is delivered ------------------------------------

  predicate Agrees(v: Verdict, out: Outcome) {
    match v
    case Accept => out == Accepted
    case Return => out in {Accepted, Returned}
    case Drop => false
  }

  lemma {:induction false} ChainSound(r: Reader, a: Addr, exits: bool, st: map<string, seq<Step>>, t: KTable, table: string, name: string,
                                      steps: seq<Step>, rules: seq<Rule>, depth: nat, fuel: nat, tape: Tape)
    requires ModelsTable(r, a, st, t) && ModelsAll(r, a, t, steps, rules)
    requires exits ==> TameTable(r, a, t) && TameAll(r, a, rules)
    requires depth <= MAX_DEPTH + 1 && fuel >= MAX_DEPTH + 1 - depth
    requires WalkSteps(st, table, name, steps, depth).1 == []
    ensures Agrees(WalkSteps(st, table, name, steps, depth).0, Run(r, a, exits, t, rules, fuel, tape).0)
    decreases MAX_DEPTH + 1 - depth, |steps|, 2
  {
    if rules != [] {
      var s, rule := steps[0], rules[0];
      assert Models(r, a, t, s, rule) && (exits ==> Tame(r, a, rule));
      NoReasonLeft(st, table, name, steps, depth);
      if !rule.target.Count? { StepFires(r, a, s, rule, First(tape)); }
      if Passes(r, a, exits, rule, First(tape)) {
        RunPasses(r, a, exits, t, rules, fuel, tape);
        ChainSound(r, a, exits, st, t, table, name, steps[1..], rules[1..], depth, fuel, After(tape));
      } else if rule.target.Jump? {
        JumpSound(r, a, exits, st, t, table, name, steps, rules, depth, fuel, tape);
      }
    }
  }

  lemma {:induction false} JumpSound(r: Reader, a: Addr, exits: bool, st: map<string, seq<Step>>, t: KTable, table: string, name: string,
                                     steps: seq<Step>, rules: seq<Rule>, depth: nat, fuel: nat, tape: Tape)
    requires ModelsTable(r, a, st, t) && ModelsAll(r, a, t, steps, rules)
    requires exits ==> TameTable(r, a, t) && TameAll(r, a, rules)
    requires depth <= MAX_DEPTH + 1 && fuel >= MAX_DEPTH + 1 - depth
    requires WalkSteps(st, table, name, steps, depth).1 == []
    requires rules != [] && Models(r, a, t, steps[0], rules[0]) && (exits ==> Tame(r, a, rules[0]))
    requires rules[0].target.Jump? && steps[0].m != No && Fires(r, a, rules[0], First(tape))
    ensures Agrees(WalkSteps(st, table, name, steps, depth).0, Run(r, a, exits, t, rules, fuel, tape).0)
    decreases MAX_DEPTH + 1 - depth, |steps|, 1
  {
    var c := rules[0].target.name;
    assert ChainOf(st, c) == st[c];
    QuietJump(st, table, name, steps, depth, c, st[c]);
    CalleeSound(r, a, exits, st, t, table, depth, fuel, After(tape), c);
    var (v, left) := Run(r, a, exits, t, t.chains[c], fuel - 1, After(tape));
    RestSound(r, a, exits, st, t, table, name, steps, rules, depth, fuel, c, v, left);
    JumpConcludes(r, a, exits, st, t, table, name, steps, rules, depth, fuel, tape, c, st[c], v, left);
  }

  lemma {:induction false} CalleeSound(r: Reader, a: Addr, exits: bool, st: map<string, seq<Step>>, t: KTable, table: string,
                                       depth: nat, fuel: nat, tape: Tape, c: string)
    requires ModelsTable(r, a, st, t) && (exits ==> TameTable(r, a, t)) && c in t.chains
    requires depth <= MAX_DEPTH && fuel >= MAX_DEPTH + 1 - depth && WalkSteps(st, table, c, st[c], depth + 1).1 == []
    ensures Agrees(WalkSteps(st, table, c, st[c], depth + 1).0, Run(r, a, exits, t, t.chains[c], fuel - 1, tape).0)
    decreases MAX_DEPTH + 1 - depth, 0, 0
  {
    assert exits ==> TameAll(r, a, t.chains[c]);
    ChainSound(r, a, exits, st, t, table, c, st[c], t.chains[c], depth + 1, fuel - 1, tape);
  }

  /** The rest of the chain, where the jump's comes back. */
  lemma {:induction false} RestSound(r: Reader, a: Addr, exits: bool, st: map<string, seq<Step>>, t: KTable, table: string, name: string,
                                     steps: seq<Step>, rules: seq<Rule>, depth: nat, fuel: nat, c: string, v: Outcome, left: Tape)
    requires ModelsTable(r, a, st, t) && ModelsAll(r, a, t, steps, rules)
    requires exits ==> TameTable(r, a, t) && TameAll(r, a, rules)
    requires depth <= MAX_DEPTH && fuel >= MAX_DEPTH + 1 - depth
    requires WalkSteps(st, table, name, steps, depth).1 == []
    requires rules != [] && Models(r, a, t, steps[0], rules[0]) && steps[0].m != No
    requires rules[0].target == Jump(c) && c in st && Agrees(WalkSteps(st, table, c, st[c], depth + 1).0, v)
    ensures v == Returned && !(rules[0].goto && Leaves(r, a, exits, rules[0])) ==>
      Agrees(WalkSteps(st, table, name, steps[1..], depth).0, Run(r, a, exits, t, rules[1..], fuel, left).0)
    decreases MAX_DEPTH + 1 - depth, |steps|, 0
  {
    if v == Returned && !(rules[0].goto && Leaves(r, a, exits, rules[0])) {
      QuietJump(st, table, name, steps, depth, c, st[c]);
      GoesOn(r, a, exits, steps[0], rules[0], WalkSteps(st, table, c, st[c], depth + 1).0, v);
      ChainSound(r, a, exits, st, t, table, name, steps[1..], rules[1..], depth, fuel, left);
    }
  }

  /** A jump agrees when its chain does, and, where that comes back, the rest. */
  lemma JumpConcludes(r: Reader, a: Addr, exits: bool, st: map<string, seq<Step>>, t: KTable, table: string, name: string,
                      steps: seq<Step>, rules: seq<Rule>, depth: nat, fuel: nat, tape: Tape, c: string, callee: seq<Step>, v: Outcome, left: Tape)
    requires |steps| == |rules| > 0 && Models(r, a, t, steps[0], rules[0]) && (exits ==> Tame(r, a, rules[0]))
    requires depth <= MAX_DEPTH && fuel > 0 && WalkSteps(st, table, name, steps, depth).1 == []
    requires rules[0].target == Jump(c) && ChainOf(st, c) == callee && steps[0].m != No && Fires(r, a, rules[0], First(tape))
    requires Run(r, a, exits, t, t.chains[c], fuel - 1, After(tape)) == (v, left)
    requires Agrees(WalkSteps(st, table, c, callee, depth + 1).0, v)
    requires v == Returned && !(rules[0].goto && Leaves(r, a, exits, rules[0])) ==>
      Agrees(WalkSteps(st, table, name, steps[1..], depth).0, Run(r, a, exits, t, rules[1..], fuel, left).0)
    ensures Agrees(WalkSteps(st, table, name, steps, depth).0, Run(r, a, exits, t, rules, fuel, tape).0)
  {
    QuietJump(st, table, name, steps, depth, c, callee);
    JumpRuns(r, a, exits, t, rules, fuel, tape);
    JumpAgrees(r, a, exits, steps[0], rules[0], WalkSteps(st, table, c, callee, depth + 1).0, v,
               WalkSteps(st, table, name, steps[1..], depth).0, Run(r, a, exits, t, rules[1..], fuel, left).0);
  }

  /** A jump that adds no reason: its chain adds none, and ends this one or not. */
  lemma QuietJump(st: map<string, seq<Step>>, table: string, name: string, steps: seq<Step>, depth: nat, c: string, callee: seq<Step>)
    requires depth <= MAX_DEPTH + 1 && steps != [] && steps[0].m != No && steps[0].kind == Enter
    requires steps[0].target == c && ChainOf(st, c) == callee
    requires WalkSteps(st, table, name, steps, depth).1 == []
    ensures depth <= MAX_DEPTH
    ensures var s := steps[0];
            var inner := WalkSteps(st, table, c, callee, depth + 1);
            var all, rest := WalkSteps(st, table, name, steps, depth), WalkSteps(st, table, name, steps[1..], depth);
            && inner.1 == [] && all.0 == Jumped(s, inner.0, rest.0) && (Ends(s, inner.0) || (rest.1 == [] && rest.0 != Drop))
  {
    NoReasonLeft(st, table, name, steps, depth);
  }

  /** The chain's verdict ends the one that jumped. */
  predicate Ends(s: Step, inner: Verdict) { s.m == Yes && (inner != Return || s.goto) }

  function Jumped(s: Step, inner: Verdict, rest: Verdict): Verdict {
    if Ends(s, inner) then inner else rest
  }

  /** Where a run of the jump's chain comes back, the walk goes on too. */
  lemma GoesOn(r: Reader, a: Addr, exits: bool, s: Step, rule: Rule, inner: Verdict, v: Outcome)
    requires Reads(r, a, s, rule) && rule.target.Jump? && s.m != No && Agrees(inner, v)
    requires v == Returned && !(rule.goto && Leaves(r, a, exits, rule))
    ensures !Ends(s, inner)
  {
    FiresExact(r, a, rule, s.m);
  }

  lemma JumpAgrees(r: Reader, a: Addr, exits: bool, s: Step, rule: Rule, inner: Verdict, v: Outcome, rest: Verdict, out: Outcome)
    requires Reads(r, a, s, rule) && rule.target.Jump? && s.m != No && (exits ==> Tame(r, a, rule))
    requires Agrees(inner, v) && (Ends(s, inner) || rest != Drop)
    requires v == Returned && !(rule.goto && Leaves(r, a, exits, rule)) ==> Agrees(rest, out)
    ensures Agrees(Jumped(s, inner, rest), if v != Returned || (rule.goto && Leaves(r, a, exits, rule)) then v else out)
  {
    FiresExact(r, a, rule, s.m);
  }

  lemma JumpRuns(r: Reader, a: Addr, exits: bool, t: KTable, rules: seq<Rule>, fuel: nat, tape: Tape)
    requires rules != [] && rules[0].target.Jump? && Fires(r, a, rules[0], First(tape)) && rules[0].target.name in t.chains && fuel > 0
    ensures var (v, left) := Run(r, a, exits, t, t.chains[rules[0].target.name], fuel - 1, After(tape));
            Run(r, a, exits, t, rules, fuel, tape) ==
            if v != Returned || (rules[0].goto && Leaves(r, a, exits, rules[0])) then (v, left)
            else Run(r, a, exits, t, rules[1..], fuel, left)
  {
  }

  /** The rule hands the packet on to the next one. */
  ghost predicate Passes(r: Reader, a: Addr, exits: bool, rule: Rule, ans: Answer) {
    || !Fires(r, a, rule, ans) || rule.target.Count? || rule.target.Carry?
    || (rule.target.Back? && !Leaves(r, a, exits, rule))
  }

  lemma RunPasses(r: Reader, a: Addr, exits: bool, t: KTable, rules: seq<Rule>, fuel: nat, tape: Tape)
    requires rules != [] && Passes(r, a, exits, rules[0], First(tape))
    ensures Run(r, a, exits, t, rules, fuel, tape) == Run(r, a, exits, t, rules[1..], fuel, After(tape))
  {
  }

  // --- a reason: some run is dropped ----------------------------------------

  function OutcomeOf(v: Verdict): Outcome {
    match v case Accept => Accepted case Drop => Discarded case Return => Returned
  }

  /** Whatever follows on the tape: with no reason the run ends as the walk says,
      having used exactly `tape`; with one it drops the packet. */
  ghost predicate Realizes(r: Reader, a: Addr, exits: bool, t: KTable, rules: seq<Rule>, fuel: nat, tape: Tape, v: Verdict, quiet: bool) {
    forall more: Tape ::
      if quiet then Run(r, a, exits, t, rules, fuel, tape + more) == (OutcomeOf(v), more)
      else Run(r, a, exits, t, rules, fuel, tape + more).0 == Discarded
  }

  ghost predicate RankedJumps(rules: seq<Rule>, rank: string -> nat, below: nat) {
    forall i :: 0 <= i < |rules| && rules[i].target.Jump? ==> rank(rules[i].target.name) < below
  }

  ghost predicate RankedTable(t: KTable, rank: string -> nat) {
    forall c | c in t.chains :: RankedJumps(t.chains[c], rank, rank(c))
  }

  /** A tape for each of the walk's answers, built as the walk goes: nothing
      undecided happens, save on the way to the first rule reported. */
  lemma {:induction false} Witness(r: Reader, a: Addr, exits: bool, st: map<string, seq<Step>>, t: KTable, table: string, name: string,
                                   steps: seq<Step>, rules: seq<Rule>, depth: nat, fuel: nat, rank: string -> nat, below: nat)
    returns (tape: Tape)
    requires ModelsTable(r, a, st, t) && ModelsAll(r, a, t, steps, rules)
    requires RankedTable(t, rank) && RankedJumps(rules, rank, below)
    requires depth + below <= MAX_DEPTH + 1 <= fuel + depth
    ensures var (v, why) := WalkSteps(st, table, name, steps, depth);
            Realizes(r, a, exits, t, rules, fuel, tape, v, why == [])
    decreases MAX_DEPTH + 1 - depth, |steps|, 1
  {
    if rules == [] {
      tape := [];
      assert forall more: Tape :: tape + more == more;
    } else {
      var s, rule := steps[0], rules[0];
      assert Models(r, a, t, s, rule);
      if s.m == No || rule.target.Carry? || (s.m == Maybe && !rule.target.Deny? && Inner(st, table, s, depth).1 == []) {
        tape := Skipping(r, a, exits, st, t, table, name, steps, rules, depth, fuel, rank, below);
      } else if rule.target.Jump? {
        tape := Jumping(r, a, exits, st, t, table, name, steps, rules, depth, fuel, rank, below);
      } else {
        tape := [AllTrue(rule)];
        EndsHere(r, a, exits, st, t, table, name, steps, rules, depth, fuel);
      }
    }
  }

  /** A jump taken, to a tape for its chain, and for the rest where that comes back. */
  lemma {:induction false} Jumping(r: Reader, a: Addr, exits: bool, st: map<string, seq<Step>>, t: KTable, table: string, name: string,
                                   steps: seq<Step>, rules: seq<Rule>, depth: nat, fuel: nat, rank: string -> nat, below: nat)
    returns (tape: Tape)
    requires ModelsTable(r, a, st, t) && ModelsAll(r, a, t, steps, rules)
    requires RankedTable(t, rank) && RankedJumps(rules, rank, below)
    requires depth + below <= MAX_DEPTH + 1 <= fuel + depth
    requires rules != [] && Models(r, a, t, steps[0], rules[0]) && rules[0].target.Jump?
    requires steps[0].m == Yes || (steps[0].m == Maybe && Inner(st, table, steps[0], depth).1 != [])
    ensures var (v, why) := WalkSteps(st, table, name, steps, depth);
            Realizes(r, a, exits, t, rules, fuel, tape, v, why == [])
    decreases MAX_DEPTH + 1 - depth, |steps|, 0
  {
    var s, rule := steps[0], rules[0];
    var inner := Inner(st, table, s, depth);
    var sub := InnerWitness(r, a, exits, st, t, table, s, depth, fuel, rank, rule.target.name);
    if JumpEnds(inner, s) {
      tape := [AllTrue(rule)] + sub;
      JumpStops(r, a, exits, st, t, table, name, steps, rules, depth, fuel, sub);
    } else {
      var rest := Witness(r, a, exits, st, t, table, name, steps[1..], rules[1..], depth, fuel, rank, below);
      tape := [AllTrue(rule)] + sub + rest;
      JumpGoesOn(r, a, exits, st, t, table, name, steps, rules, depth, fuel, sub, rest);
    }
  }

  lemma {:induction false} InnerWitness(r: Reader, a: Addr, exits: bool, st: map<string, seq<Step>>, t: KTable, table: string,
                                        s: Step, depth: nat, fuel: nat, rank: string -> nat, c: string)
    returns (tape: Tape)
    requires ModelsTable(r, a, st, t) && RankedTable(t, rank) && c in t.chains
    requires s.kind == Enter && s.target == c && s.m != No
    requires depth + rank(c) + 1 <= MAX_DEPTH + 1 <= fuel + depth
    ensures var (v, why) := Inner(st, table, s, depth); Realizes(r, a, exits, t, t.chains[c], fuel - 1, tape, v, why == [])
    decreases MAX_DEPTH + 1 - depth, 0, 0
  {
    tape := Witness(r, a, exits, st, t, table, c, st[c], t.chains[c], depth + 1, fuel - 1, rank, rank(c));
  }

  /** A rule that matches and ends the chain, or an undecided one that may drop the packet. */
  lemma EndsHere(r: Reader, a: Addr, exits: bool, st: map<string, seq<Step>>, t: KTable, table: string, name: string,
                 steps: seq<Step>, rules: seq<Rule>, depth: nat, fuel: nat)
    requires |steps| == |rules| > 0 && depth <= MAX_DEPTH + 1 && Models(r, a, t, steps[0], rules[0])
    requires steps[0].m != No && !rules[0].target.Carry? && !rules[0].target.Jump?
    requires steps[0].m == Maybe ==> rules[0].target.Deny? || Inner(st, table, steps[0], depth).1 != []
    ensures var (v, why) := WalkSteps(st, table, name, steps, depth);
            Realizes(r, a, exits, t, rules, fuel, [AllTrue(rules[0])], v, why == [])
  {
    var rule := rules[0];
    var tape := [AllTrue(rule)];
    NoReasonLeft(st, table, name, steps, depth);
    StepFires(r, a, steps[0], rule, AllTrue(rule));
    forall more: Tape ensures First(tape + more) == AllTrue(rule) && After(tape + more) == more { }
  }

  /** The chain's own reasons drop the packet, or its verdict is the jump's. */
  predicate JumpEnds(inner: (Verdict, seq<Reason>), s: Step) {
    inner.1 != [] || inner.0 != Return || s.goto
  }

  ghost predicate TakesJump(r: Reader, a: Addr, exits: bool, st: map<string, seq<Step>>, t: KTable, table: string, name: string,
                            steps: seq<Step>, rules: seq<Rule>, depth: nat, fuel: nat, sub: Tape)
  {
    && |steps| == |rules| > 0 && depth <= MAX_DEPTH && fuel > 0
    && Models(r, a, t, steps[0], rules[0]) && rules[0].target.Jump?
    && var inner := Inner(st, table, steps[0], depth);
       && (steps[0].m == Yes || (steps[0].m == Maybe && inner.1 != []))
       && Realizes(r, a, exits, t, t.chains[rules[0].target.name], fuel - 1, sub, inner.0, inner.1 == [])
  }

  lemma JumpStops(r: Reader, a: Addr, exits: bool, st: map<string, seq<Step>>, t: KTable, table: string, name: string,
                  steps: seq<Step>, rules: seq<Rule>, depth: nat, fuel: nat, sub: Tape)
    requires TakesJump(r, a, exits, st, t, table, name, steps, rules, depth, fuel, sub)
    requires JumpEnds(Inner(st, table, steps[0], depth), steps[0])
    ensures var (v, why) := WalkSteps(st, table, name, steps, depth);
            Realizes(r, a, exits, t, rules, fuel, [AllTrue(rules[0])] + sub, v, why == [])
  {
    var inner := Inner(st, table, steps[0], depth);
    WalkStops(st, table, name, steps, depth, inner);
    JumpTape(r, a, exits, t, steps[0], rules, fuel, AllTrue(rules[0]), sub, inner.0, inner.1 == []);
  }

  lemma WalkStops(st: map<string, seq<Step>>, table: string, name: string, steps: seq<Step>, depth: nat, inner: (Verdict, seq<Reason>))
    requires depth <= MAX_DEPTH && steps != [] && steps[0].kind == Enter && inner == Inner(st, table, steps[0], depth)
    requires JumpEnds(inner, steps[0]) && (steps[0].m == Yes || (steps[0].m == Maybe && inner.1 != []))
    ensures if inner.1 == [] then WalkSteps(st, table, name, steps, depth) == (inner.0, []) else WalkSteps(st, table, name, steps, depth).1 != []
  {
    NoReasonLeft(st, table, name, steps, depth);
  }

  lemma JumpGoesOn(r: Reader, a: Addr, exits: bool, st: map<string, seq<Step>>, t: KTable, table: string, name: string,
                   steps: seq<Step>, rules: seq<Rule>, depth: nat, fuel: nat, sub: Tape, rest: Tape)
    requires TakesJump(r, a, exits, st, t, table, name, steps, rules, depth, fuel, sub)
    requires !JumpEnds(Inner(st, table, steps[0], depth), steps[0])
    requires var (v, why) := WalkSteps(st, table, name, steps[1..], depth);
             Realizes(r, a, exits, t, rules[1..], fuel, rest, v, why == [])
    ensures var (v, why) := WalkSteps(st, table, name, steps, depth);
            Realizes(r, a, exits, t, rules, fuel, [AllTrue(rules[0])] + sub + rest, v, why == [])
  {
    var (v, why) := WalkSteps(st, table, name, steps[1..], depth);
    WalkGoesOn(st, table, name, steps, depth);
    JumpTape(r, a, exits, t, steps[0], rules, fuel, AllTrue(rules[0]), sub, Return, true);
    TapeGoesOn(r, a, exits, t, rules, fuel, [AllTrue(rules[0])] + sub, rest, v, why == []);
  }

  lemma WalkGoesOn(st: map<string, seq<Step>>, table: string, name: string, steps: seq<Step>, depth: nat)
    requires depth <= MAX_DEPTH && steps != [] && steps[0].m != No && steps[0].kind == Enter
    requires !JumpEnds(Inner(st, table, steps[0], depth), steps[0])
    ensures WalkSteps(st, table, name, steps, depth) == WalkSteps(st, table, name, steps[1..], depth)
  {
    NoReasonLeft(st, table, name, steps, depth);
    var (v, why) := WalkSteps(st, table, name, steps[1..], depth);
    assert [] + why == why;
  }

  lemma TapeGoesOn(r: Reader, a: Addr, exits: bool, t: KTable, rules: seq<Rule>, fuel: nat, front: Tape, rest: Tape, v: Verdict, quiet: bool)
    requires rules != [] && Realizes(r, a, exits, t, rules[1..], fuel, rest, v, quiet)
    requires forall more: Tape :: Run(r, a, exits, t, rules, fuel, front + more) == Run(r, a, exits, t, rules[1..], fuel, more)
    ensures Realizes(r, a, exits, t, rules, fuel, front + rest, v, quiet)
  {
    forall more: Tape
      ensures Run(r, a, exits, t, rules, fuel, front + rest + more) == Run(r, a, exits, t, rules[1..], fuel, rest + more)
    {
      Joined(front, rest, more);
    }
  }

  lemma Joined(a: Tape, b: Tape, c: Tape)
    ensures a + b + c == a + (b + c)
  {
  }

  /** A jump taken with answer `ans`, over a tape that realizes its chain. */
  lemma JumpTape(r: Reader, a: Addr, exits: bool, t: KTable, s: Step, rules: seq<Rule>, fuel: nat, ans: Answer, sub: Tape, v: Verdict, quiet: bool)
    requires rules != [] && rules[0].target.Jump? && rules[0].target.name in t.chains && fuel > 0
    requires Reads(r, a, s, rules[0]) && (s.m == Yes || (s.m == Maybe && !quiet && ans == AllTrue(rules[0])))
    requires Realizes(r, a, exits, t, t.chains[rules[0].target.name], fuel - 1, sub, v, quiet)
    ensures forall more: Tape ::
      var out := Run(r, a, exits, t, rules, fuel, [ans] + sub + more);
      if !quiet then out.0 == Discarded
      else if v != Return || rules[0].goto then out == (OutcomeOf(v), more)
      else out == Run(r, a, exits, t, rules[1..], fuel, more)
  {
    StepFires(r, a, s, rules[0], ans);
    forall more: Tape
      ensures First([ans] + sub + more) == ans && After([ans] + sub + more) == sub + more
    {
    }
  }

  /** The rule does not end the chain: an answer on which it does not, and a tape for the rest. */
  lemma {:induction false} Skipping(r: Reader, a: Addr, exits: bool, st: map<string, seq<Step>>, t: KTable, table: string, name: string,
                                    steps: seq<Step>, rules: seq<Rule>, depth: nat, fuel: nat, rank: string -> nat, below: nat)
    returns (tape: Tape)
    requires ModelsTable(r, a, st, t) && ModelsAll(r, a, t, steps, rules)
    requires RankedTable(t, rank) && RankedJumps(rules, rank, below)
    requires depth + below <= MAX_DEPTH + 1 <= fuel + depth
    requires rules != []
    requires || rules[0].target.Carry? || steps[0].m == No
             || (steps[0].m == Maybe && !rules[0].target.Deny? && Inner(st, table, steps[0], depth).1 == [])
    ensures var (v, why) := WalkSteps(st, table, name, steps, depth);
            Realizes(r, a, exits, t, rules, fuel, tape, v, why == [])
    decreases MAX_DEPTH + 1 - depth, |steps|, 0
  {
    var s, rule := steps[0], rules[0];
    assert Models(r, a, t, s, rule);
    NoReasonLeft(st, table, name, steps, depth);
    var rest := Witness(r, a, exits, st, t, table, name, steps[1..], rules[1..], depth, fuel, rank, below);
    tape := [[]] + rest;
    if !rule.target.Count? { StepFires(r, a, s, rule, []); }
    forall more: Tape
      ensures First(tape + more) == [] && After(tape + more) == rest + more
    {
    }
  }

  // --- the whole walk ---------------------------------------------------------

  /** Only the last hook is in the filter table, where an ACCEPT ends the walk. */
  predicate FilterLast(hooks: seq<(string, string)>) {
    forall i :: 0 <= i < |hooks| - 1 ==> hooks[i].0 != "filter"
  }

  lemma HookRead(rules: Rules, hook: (string, string))
    ensures HasChain(Print(rules), hook) <==> Hooked(rules, hook)
    ensures Hooked(rules, hook) ==> (DropsByPolicy(Print(rules)[hook.0], hook.1) <==> PolicyDrops(rules[hook.0], hook.1))
  {
  }

  lemma {:induction false} HooksSound(r: Reader, a: Addr, exits: bool, rules: Rules, hooks: seq<(string, string)>, fuel: nat, tape: Tape)
    requires Asked(r, a, rules) && Readable(rules) && Modelled(rules) && (exits ==> NoUndecidedExit(r, a, rules))
    requires FilterLast(hooks) && fuel >= MAX_DEPTH + 1
    requires WalkHooks(r, Print(rules), hooks) == []
    ensures Delivered(r, a, exits, rules, hooks, fuel, tape)
  {
    if hooks != [] {
      HookRead(rules, hooks[0]);
      if Hooked(rules, hooks[0]) {
        var (table, name) := hooks[0];
        var t := rules[table];
        var st := ReadTable(r, Print(rules)[table]);
        TableRead(r, a, rules, table);
        assert (exits ==> TameTable(r, a, t)) && ModelsAll(r, a, t, st[name], t.chains[name]);
        ChainSound(r, a, exits, st, t, table, name, st[name], t.chains[name], 0, fuel, tape);
        HooksSound(r, a, exits, rules, hooks[1..], fuel, Run(r, a, exits, t, t.chains[name], fuel, tape).1);
      } else {
        HooksSound(r, a, exits, rules, hooks[1..], fuel, tape);
      }
    }
  }

  lemma {:induction false} HooksAlarm(r: Reader, a: Addr, exits: bool, rules: Rules, hooks: seq<(string, string)>, fuel: nat,
                                      rank: (string, string) -> nat)
    returns (tape: Tape)
    requires Asked(r, a, rules) && Readable(rules) && Modelled(rules) && Ranked(rules, rank)
    requires fuel >= MAX_DEPTH + 1
    requires WalkHooks(r, Print(rules), hooks) != []
    ensures !Delivered(r, a, exits, rules, hooks, fuel, tape)
  {
    HookRead(rules, hooks[0]);
    if Hooked(rules, hooks[0]) {
      var (table, name) := hooks[0];
      var t := rules[table];
      var st := ReadTable(r, Print(rules)[table]);
      TableRead(r, a, rules, table);
      var ranks := c => rank(table, c);
      assert RankedTable(t, ranks);
      var mine := Witness(r, a, exits, st, t, table, name, st[name], t.chains[name], 0, fuel, ranks, ranks(name));
      var (v, why) := WalkSteps(st, table, name, st[name], 0);
      if why == [] && v != Drop && !(v == Return && PolicyDrops(t, name)) {
        var rest := HooksAlarm(r, a, exits, rules, hooks[1..], fuel, rank);
        tape := mine + rest;
      } else {
        tape := mine + [];
      }
    } else {
      tape := HooksAlarm(r, a, exits, rules, hooks[1..], fuel, rank);
    }
  }

  /** What the walk decides, for every ruleset: it reports nothing exactly when
      the packet to this host's one tailnet address is delivered by every run in
      which no undecided rule leaves its chain. */
  lemma WalkDecides(r: Reader, a: Addr, rules: Rules, fuel: nat, rank: (string, string) -> nat)
    requires Asked(r, a, rules) && Readable(rules) && Modelled(rules)
    requires Ranked(rules, rank) && fuel >= 31
    ensures WalkHooks(r, Print(rules), INBOUND) == [] <==>
            forall tape: Tape :: Delivered(r, a, false, rules, CROSSED, fuel, tape)
  {
    if WalkHooks(r, Print(rules), INBOUND) == [] {
      forall tape: Tape ensures Delivered(r, a, false, rules, CROSSED, fuel, tape) {
        HooksSound(r, a, false, rules, INBOUND, fuel, tape);
      }
    } else {
      var tape := HooksAlarm(r, a, false, rules, INBOUND, fuel, rank);
    }
  }

  /** With no undecided RETURN and no undecided `-g`, that is the kernel: the walk
      reports nothing exactly when every run delivers the packet, whatever the
      undecided conditions turn out to be, each evaluation on its own. */
  lemma WalkIsExact(r: Reader, a: Addr, rules: Rules, fuel: nat, rank: (string, string) -> nat)
    requires Asked(r, a, rules) && Readable(rules) && Modelled(rules) && NoUndecidedExit(r, a, rules)
    requires Ranked(rules, rank) && fuel >= 31
    ensures WalkHooks(r, Print(rules), INBOUND) == [] <==>
            forall tape: Tape :: Delivered(r, a, true, rules, CROSSED, fuel, tape)
  {
    if WalkHooks(r, Print(rules), INBOUND) == [] {
      forall tape: Tape ensures Delivered(r, a, true, rules, CROSSED, fuel, tape) {
        HooksSound(r, a, true, rules, INBOUND, fuel, tape);
      }
    } else {
      var tape := HooksAlarm(r, a, true, rules, INBOUND, fuel, rank);
    }
  }

  /** Soundness alone needs no bound on the jumps: whatever the chain graph, cycles
      included, a ruleset the walk clears delivers. */
  lemma WalkIsSound(r: Reader, a: Addr, rules: Rules, fuel: nat, tape: Tape)
    requires Asked(r, a, rules) && Readable(rules) && Modelled(rules) && NoUndecidedExit(r, a, rules)
    requires fuel >= 31
    requires WalkHooks(r, Print(rules), INBOUND) == []
    ensures Delivered(r, a, true, rules, CROSSED, fuel, tape)
  {
    HooksSound(r, a, true, rules, INBOUND, fuel, tape);
  }

  /** No false alarm needs no limit on undecided RETURN and `-g`: a reason is
      always a packet some run of the kernel drops. */
  lemma NoFalseAlarm(r: Reader, a: Addr, rules: Rules, fuel: nat, rank: (string, string) -> nat)
    requires Asked(r, a, rules) && Readable(rules) && Modelled(rules) && Ranked(rules, rank)
    requires fuel >= 31 && WalkHooks(r, Print(rules), INBOUND) != []
    ensures exists tape: Tape :: !Delivered(r, a, true, rules, CROSSED, fuel, tape)
  {
    var tape := HooksAlarm(r, a, true, rules, INBOUND, fuel, rank);
  }
}
