/** The inbound walk of `tailnet_reachability.py`: three-valued matching of one
    rule's tokens, and the walk through the tables a packet for this host crosses. */
module Firewall {
  import opened Strings

  const TAILNET_IFACE := "tailscale0"
  const SSH_PORT := 22
  const MAX_DEPTH := 30

  /** Where a packet addressed to this host goes, in kernel order. */
  const INBOUND: seq<(string, string)> :=
    [("raw", "PREROUTING"), ("mangle", "PREROUTING"), ("nat", "PREROUTING"),
     ("mangle", "INPUT"), ("filter", "INPUT")]

  /** Targets that act on the packet and let it carry on through the chain. */
  const CONTINUE: set<string> :=
    {"LOG", "NFLOG", "MARK", "CONNMARK", "CT", "TRACE", "AUDIT", "DNAT", "SNAT", "MASQUERADE", "REDIRECT"}

  datatype Addr = Addr(version: nat, value: nat)

  datatype Net = Net(version: nat, lo: nat, hi: nat) {
    predicate Contains(a: Addr) { version == a.version && lo <= a.value <= hi }
  }

  /** This host's tailnet addresses, and how a list of networks is read. */
  datatype Reader = Reader(own: seq<Addr>, nets: string -> seq<Net>)

  /** True, False, or None in the source. */
  datatype Tri = Yes | No | Maybe

  type Tokens = seq<string>

  datatype Table = Table(policy: map<string, string>, rules: map<string, seq<Tokens>>)

  type Ruleset = map<string, Table>

  datatype Verdict = Accept | Drop | Return

  datatype Reason =
    | Dropped(table: string, line: Tokens)
    | TooDeep(table: string, chain: string)
    | PolicyDrop(table: string, chain: string)

  // --- one rule -----------------------------------------------------------

  function PortRange(part: string): (int, int) {
    var lo, hi := Before(part, ':'), Behind(part, ':');
    (if lo == "" then 0 else ParseInt(lo),
     if hi != "" then ParseInt(hi) else if lo != "" then ParseInt(lo) else 65535)
  }

  predicate PortsHold(spec: string) {
    exists part :: part in Split(spec, ',') && PortRange(part).0 <= SSH_PORT <= PortRange(part).1
  }

  predicate IfaceHolds(arg: string) {
    if arg != "" && arg[|arg| - 1] == '+' then arg[..|arg| - 1] <= TAILNET_IFACE else arg == TAILNET_IFACE
  }

  predicate DestHolds(r: Reader, arg: string) {
    exists a, n :: a in r.own && n in r.nets(arg) && n.Contains(a)
  }

  const IFACE_OPTS := {"-i", "--in-interface"}
  const PROTO_OPTS := {"-p", "--protocol"}
  const DEST_OPTS := {"-d", "--destination"}
  const PORT_OPTS := {"--dport", "--destination-port", "--dports", "--destination-ports"}
  const STATE_OPTS := {"--ctstate", "--state"}
  const SKIP_OPTS := {"-A", "-m", "--comment"}

  /** The value the source folds for an option it models; None for one it does not. */
  function OptionValue(r: Reader, opt: string, arg: string): Option<Tri> {
    if opt in IFACE_OPTS then Some(Known(IfaceHolds(arg)))
    else if opt in PROTO_OPTS then Some(Known(arg in {"tcp", "6", "all", "0"}))
    else if opt in DEST_OPTS then Some(Known(DestHolds(r, arg)))
    else if opt in PORT_OPTS then Some(Known(PortsHold(arg)))
    else if opt in STATE_OPTS then Some(Known("NEW" in Split(arg, ',')))
    else if opt == "--dst-type" then Some(if arg == "LOCAL" then Yes else Maybe)
    else None
  }

  function Known(b: bool): Tri { if b then Yes else No }

  function Negate(negate: bool, value: Tri): Tri {
    if !negate || value == Maybe then value else if value == Yes then No else Yes
  }

  function Fold(result: Tri, negate: bool, value: Tri): Tri {
    var v := Negate(negate, value);
    if v == No then No else if v == Maybe && result == Yes then Maybe else result
  }

  predicate StartsOption(token: string) { "-" <= token || token == "!" }

  /** Past the arguments an unmodelled option took. */
  function SkipArgs(tokens: Tokens): (rest: Tokens)
    ensures |rest| <= |tokens|
  {
    if tokens == [] || StartsOption(tokens[0]) then tokens else SkipArgs(tokens[1..])
  }

  function Drop2(tokens: Tokens): Tokens
    requires tokens != []
  {
    if |tokens| == 1 then [] else tokens[2..]
  }

  function Scan(r: Reader, tokens: Tokens, negate: bool, result: Tri): Tri
    decreases |tokens|
  {
    if tokens == [] || tokens[0] in {"-j", "-g"} then result
    else if tokens[0] == "!" then Scan(r, tokens[1..], true, result)
    else if tokens[0] in SKIP_OPTS then Scan(r, Drop2(tokens), negate, result)
    else
      match OptionValue(r, tokens[0], if |tokens| > 1 then tokens[1] else "")
      case Some(v) => Scan(r, Drop2(tokens), false, Fold(result, negate, v))
      case None => Scan(r, SkipArgs(tokens[1..]), false, Fold(result, negate, Maybe))
  }

  /** The tokens from `i` on; none past the end. */
  function From(tokens: Tokens, i: nat): Tokens {
    if i <= |tokens| then tokens[i..] else []
  }

  /** One turn of the loop below. */
  lemma ScanAt(r: Reader, tokens: Tokens, i: nat, negate: bool, result: Tri)
    requires i < |tokens| && tokens[i] !in {"-j", "-g"}
    ensures var opt, arg := tokens[i], if i + 1 < |tokens| then tokens[i + 1] else "";
            Scan(r, From(tokens, i), negate, result) ==
            if opt == "!" then Scan(r, From(tokens, i + 1), true, result)
            else if opt in SKIP_OPTS then Scan(r, From(tokens, i + 2), negate, result)
            else
              match OptionValue(r, opt, arg)
              case Some(v) => Scan(r, From(tokens, i + 2), false, Fold(result, negate, v))
              case None => Scan(r, SkipArgs(From(tokens, i + 1)), false, Fold(result, negate, Maybe))
  {
    var here := From(tokens, i);
    assert here[0] == tokens[i] && here[1..] == From(tokens, i + 1) && Drop2(here) == From(tokens, i + 2);
  }

  /** Past the arguments that start at `start`. */
  method PastArgs(tokens: Tokens, start: nat) returns (i: nat)
    requires start <= |tokens|
    ensures i <= |tokens| && From(tokens, i) == SkipArgs(From(tokens, start))
  {
    i := start;
    while i < |tokens| && !StartsOption(tokens[i])
      invariant i <= |tokens| && SkipArgs(From(tokens, i)) == SkipArgs(From(tokens, start))
    {
      i := i + 1;
    }
  }

  /** Whether the rule matches the SSH packet, decided token by token. */
  method RuleMatches(r: Reader, tokens: Tokens) returns (result: Tri)
    ensures result == Scan(r, tokens, false, Yes)
  {
    result := Yes;
    var negate, i: nat := false, 0;
    assert From(tokens, 0) == tokens;
    while i < |tokens|
      invariant Scan(r, From(tokens, i), negate, result) == Scan(r, tokens, false, Yes)
      decreases |tokens| - i
    {
      var opt := tokens[i];
      var arg := if i + 1 < |tokens| then tokens[i + 1] else "";
      if opt in {"-j", "-g"} { break; }
      ScanAt(r, tokens, i, negate, result);
      if opt == "!" {
        negate := true;
        i := i + 1;
        continue;
      }
      if opt in SKIP_OPTS {
        i := i + 2;
        continue;
      }
      match OptionValue(r, opt, arg)
      case Some(v) =>
        result, negate := Fold(result, negate, v), false;
        i := i + 2;
      case None =>
        result, negate := Fold(result, negate, Maybe), false;
        ghost var past := i;
        i := PastArgs(tokens, i + 1);
        ArgsGoOn(tokens, past, i);
    }
  }

  lemma ArgsGoOn(tokens: Tokens, past: nat, i: nat)
    requires past < |tokens| && i <= |tokens| && From(tokens, i) == SkipArgs(From(tokens, past + 1))
    ensures past < i
  {
    assert |From(tokens, i)| == |tokens| - i;
  }

  function IndexOf(t: string, tokens: Tokens): (i: nat)
    requires t in tokens
    ensures i < |tokens| && tokens[i] == t && t !in tokens[..i]
  {
    if tokens[0] == t then 0 else 1 + IndexOf(t, tokens[1..])
  }

  function Flag(tokens: Tokens): string { if "-g" in tokens then "-g" else "-j" }

  function Target(tokens: Tokens): string
    requires Flag(tokens) in tokens
  {
    var i := IndexOf(Flag(tokens), tokens);
    if i + 1 < |tokens| then tokens[i + 1] else ""
  }

  /** What a rule's target is to the walk: a verdict, a chain to enter, or
      nothing to stop for (Silent, for a rule without a target). */
  datatype Kind = Silent | Deny | Allow | Back | Enter | Pass

  /** One rule as the walk reads it. */
  datatype Step = Step(line: Tokens, m: Tri, kind: Kind, target: string, goto: bool)

  function KindOf(target: string, chains: set<string>): Kind {
    if target in {"DROP", "REJECT"} then Deny
    else if target == "ACCEPT" then Allow
    else if target == "RETURN" then Back
    else if target !in CONTINUE && target in chains then Enter
    else Pass
  }

  function ReadLine(r: Reader, chains: set<string>, line: Tokens): Step {
    if Flag(line) !in line then Step(line, No, Silent, "", false)
    else Step(line, Scan(r, line, false, Yes), KindOf(Target(line), chains), Target(line), Flag(line) == "-g")
  }

  function ReadLines(r: Reader, chains: set<string>, lines: seq<Tokens>): (steps: seq<Step>)
    ensures |steps| == |lines|
    ensures forall i :: 0 <= i < |lines| ==> steps[i] == ReadLine(r, chains, lines[i])
  {
    seq(|lines|, i requires 0 <= i < |lines| => ReadLine(r, chains, lines[i]))
  }

  function ReadTable(r: Reader, t: Table): map<string, seq<Step>> {
    map c | c in t.rules :: ReadLines(r, t.rules.Keys, t.rules[c])
  }

  // --- the walk, as a function ----------------------------------------------

  predicate Enters(s: Step, depth: nat) { s.m != No && s.kind == Enter && depth <= MAX_DEPTH }

  /** What one rule does, given what the chain it enters answered: the verdict it
      ends its own chain with, if any, and the reasons it adds. */
  function TakeStep(table: string, name: string, s: Step, depth: nat, inner: (Verdict, seq<Reason>))
    : (res: (Option<Verdict>, seq<Reason>))
    requires inner.0 == Drop ==> inner.1 != []
    ensures res.0 == Some(Drop) ==> res.1 != []
  {
    if s.m == No then (None, [])
    else
      match s.kind
      case Deny => (if s.m == Yes then Some(Drop) else None, [Dropped(table, s.line)])
      case Allow => (if s.m == Yes then Some(Accept) else None, [])
      case Back => (if s.m == Yes then Some(Return) else None, [])
      case Enter =>
        if depth > MAX_DEPTH then (Some(Drop), [TooDeep(table, name)])
        else (if s.m == Yes && (inner.0 != Return || s.goto) then Some(inner.0) else None, inner.1)
      case _ => (None, [])
  }

  lemma EnterStep(table: string, name: string, s: Step, depth: nat, inner: (Verdict, seq<Reason>))
    requires s.m != No && s.kind == Enter && (inner.0 == Drop ==> inner.1 != [])
    ensures TakeStep(table, name, s, depth, inner) ==
            if depth > MAX_DEPTH then (Some(Drop), [TooDeep(table, name)])
            else (if s.m == Yes && (inner.0 != Return || s.goto) then Some(inner.0) else None, inner.1)
  {
  }

  function ChainOf<T>(t: map<string, seq<T>>, name: string): seq<T> {
    if name in t then t[name] else []
  }

  /** What `chain` answers over `steps`, and the reasons it appends. */
  function WalkSteps(t: map<string, seq<Step>>, table: string, name: string, steps: seq<Step>, depth: nat)
    : (res: (Verdict, seq<Reason>))
    requires depth <= MAX_DEPTH + 1
    ensures res.0 == Drop ==> res.1 != []
    decreases MAX_DEPTH + 1 - depth, |steps|
  {
    if steps == [] then (Return, [])
    else
      var s := steps[0];
      var inner := if Enters(s, depth) then WalkSteps(t, table, s.target, ChainOf(t, s.target), depth + 1) else (Return, []);
      var (stop, why) := TakeStep(table, name, s, depth, inner);
      if stop.Some? then (stop.value, why) else Report(why, WalkSteps(t, table, name, steps[1..], depth))
  }

  function Report(why: seq<Reason>, res: (Verdict, seq<Reason>)): (Verdict, seq<Reason>) {
    (res.0, why + res.1)
  }

  /** What the chain a rule enters answers. */
  function Inner(t: map<string, seq<Step>>, table: string, s: Step, depth: nat): (res: (Verdict, seq<Reason>))
    requires depth <= MAX_DEPTH + 1
  {
    if Enters(s, depth) then WalkSteps(t, table, s.target, ChainOf(t, s.target), depth + 1) else (Return, [])
  }

  lemma WalkOne(t: map<string, seq<Step>>, table: string, name: string, steps: seq<Step>, i: nat, depth: nat)
    requires i < |steps| && depth <= MAX_DEPTH + 1
    ensures var (stop, why) := TakeStep(table, name, steps[i], depth, Inner(t, table, steps[i], depth));
            WalkSteps(t, table, name, steps[i..], depth) ==
            if stop.Some? then (stop.value, why) else Report(why, WalkSteps(t, table, name, steps[i + 1..], depth))
  {
    assert steps[i..][0] == steps[i] && steps[i..][1..] == steps[i + 1..];
  }

  lemma Regroup(a: seq<Reason>, b: seq<Reason>, c: seq<Reason>)
    ensures (a + b) + c == a + (b + c)
  {
  }

  lemma ReportTwice(why: seq<Reason>, more: seq<Reason>, res: (Verdict, seq<Reason>))
    ensures Report(why, Report(more, res)) == Report(why + more, res)
  {
    assert why + (more + res.1) == (why + more) + res.1;
  }

  predicate HasChain(tables: Ruleset, hook: (string, string)) {
    hook.0 in tables && hook.1 in tables[hook.0].rules
  }

  predicate DropsByPolicy(t: Table, chain: string) {
    chain in t.policy && t.policy[chain] == "DROP"
  }

  function WalkHooks(r: Reader, tables: Ruleset, hooks: seq<(string, string)>): seq<Reason> {
    if hooks == [] then []
    else if !HasChain(tables, hooks[0]) then WalkHooks(r, tables, hooks[1..])
    else
      var (table, name) := hooks[0];
      var t := tables[table];
      var steps := ReadTable(r, t);
      var (v, why) := WalkSteps(steps, table, name, steps[name], 0);
      if v == Drop then why
      else if v == Return && DropsByPolicy(t, name) then why + [PolicyDrop(table, name)]
      else if v == Accept && table == "filter" then why
      else why + WalkHooks(r, tables, hooks[1..])
  }

  lemma HooksFrom(r: Reader, tables: Ruleset, hooks: seq<(string, string)>, i: nat)
    requires i < |hooks|
    ensures WalkHooks(r, tables, hooks[i..]) ==
            var (table, name) := hooks[i];
            var rest := WalkHooks(r, tables, hooks[i + 1..]);
            if !HasChain(tables, hooks[i]) then rest
            else
              var (v, why) := WalkSteps(ReadTable(r, tables[table]), table, name, ReadTable(r, tables[table])[name], 0);
              if v == Drop then why
              else if v == Return && DropsByPolicy(tables[table], name) then why + [PolicyDrop(table, name)]
              else if v == Accept && table == "filter" then why
              else why + rest
  {
    assert hooks[i..][0] == hooks[i] && hooks[i..][1..] == hooks[i + 1..];
  }

  // --- the walk, as the source runs it ----------------------------------------

  /** One walk: the reasons found so far, appended to by every chain entered. */
  class Walk {
    const r: Reader
    const tables: Ruleset
    var reasons: seq<Reason>

    constructor (r: Reader, tables: Ruleset)
      ensures this.r == r && this.tables == tables && reasons == []
    {
      this.r, this.tables, reasons := r, tables, [];
    }

    /** The flag, target and match of one rule line. */
    method Read(chains: set<string>, line: Tokens) returns (s: Step)
      ensures s == ReadLine(r, chains, line)
    {
      if Flag(line) !in line { return Step(line, No, Silent, "", false); }
      var target := Target(line);
      var m := RuleMatches(r, line);
      return Step(line, m, KindOf(target, chains), target, Flag(line) == "-g");
    }

    /** One rule of a chain: what the loop body of `chain` does with it. */
    method Take(table: string, name: string, s: Step, depth: nat) returns (stop: Option<Verdict>)
      requires table in tables && depth <= MAX_DEPTH + 1
      modifies this
      ensures var (v, why) := TakeStep(table, name, s, depth, Inner(ReadTable(r, tables[table]), table, s, depth));
              stop == v && reasons == old(reasons) + why
      decreases MAX_DEPTH + 1 - depth, 2
    {
      stop := None;
      assert reasons + [] == reasons;
      if s.m != No {
        match s.kind
        case Deny =>
          reasons := reasons + [Dropped(table, s.line)];
          if s.m == Yes { stop := Some(Drop); }
        case Allow =>
          if s.m == Yes { stop := Some(Accept); }
        case Back =>
          if s.m == Yes { stop := Some(Return); }
        case Enter =>
          stop := Enter(table, name, s, depth);
        case _ =>
      }
    }

    /** A rule that enters a chain: refused past the depth the walk follows. */
    method Enter(table: string, name: string, s: Step, depth: nat) returns (stop: Option<Verdict>)
      requires table in tables && depth <= MAX_DEPTH + 1 && s.m != No && s.kind == Kind.Enter
      modifies this
      ensures var (v, why) := TakeStep(table, name, s, depth, Inner(ReadTable(r, tables[table]), table, s, depth));
              stop == v && reasons == old(reasons) + why
      decreases MAX_DEPTH + 1 - depth, 1
    {
      stop := None;
      EnterStep(table, name, s, depth, Inner(ReadTable(r, tables[table]), table, s, depth));
      if depth > MAX_DEPTH {
        reasons := reasons + [TooDeep(table, name)];
        stop := Some(Drop);
      } else {
        var v := Chain(table, s.target, depth + 1);
        if s.m == Yes && (v != Return || s.goto) { stop := Some(v); }
      }
    }

    method Chain(table: string, name: string, depth: nat) returns (verdict: Verdict)
      requires table in tables && depth <= MAX_DEPTH + 1
      modifies this
      ensures var steps := ReadTable(r, tables[table]);
              var (v, why) := WalkSteps(steps, table, name, ChainOf(steps, name), depth);
              verdict == v && reasons == old(reasons) + why
      decreases MAX_DEPTH + 1 - depth, 3
    {
      var t := tables[table];
      var lines := ChainOf(t.rules, name);
      ghost var read := ReadTable(r, t);
      ghost var steps := ChainOf(read, name);
      ghost var why: seq<Reason> := [];
      ghost var whole := WalkSteps(read, table, name, steps, depth);
      assert why + whole.1 == whole.1 && steps[0..] == steps;
      var i := 0;
      while i < |lines|
        invariant 0 <= i <= |lines| == |steps|
        invariant reasons == old(reasons) + why
        invariant whole == Report(why, WalkSteps(read, table, name, steps[i..], depth))
      {
        var s := Read(t.rules.Keys, lines[i]);
        assert s == steps[i];
        WalkOne(read, table, name, steps, i, depth);
        ghost var more := TakeStep(table, name, s, depth, Inner(read, table, s, depth)).1;
        ReportTwice(why, more, WalkSteps(read, table, name, steps[i + 1..], depth));
        Regroup(old(reasons), why, more);
        var stop := Take(table, name, s, depth);
        why := why + more;
        if stop.Some? { return stop.value; }
        i := i + 1;
      }
      assert steps[i..] == [] && why + [] == why;
      return Return;
    }

    /** Why the SSH packet would not reach sshd; none when the ruleset accepts it. */
    method Inbound() returns (why: seq<Reason>)
      requires reasons == []
      modifies this
      ensures reasons == WalkHooks(r, tables, INBOUND)
      ensures why == Distinct(reasons)
    {
      Hooks(INBOUND);
      why := Distinct(reasons);
    }

    /** The hooks in kernel order, as far as a verdict lets the packet go. */
    method Hooks(hooks: seq<(string, string)>)
      requires reasons == []
      modifies this
      ensures reasons == WalkHooks(r, tables, hooks)
    {
      var i := 0;
      while i < |hooks|
        invariant 0 <= i <= |hooks|
        invariant WalkHooks(r, tables, hooks) == reasons + WalkHooks(r, tables, hooks[i..])
      {
        var (table, name) := hooks[i];
        HooksFrom(r, tables, hooks, i);
        ghost var before := reasons;
        if HasChain(tables, hooks[i]) {
          var verdict := Chain(table, name, 0);
          Regroup(before, WalkSteps(ReadTable(r, tables[table]), table, name, ReadTable(r, tables[table])[name], 0).1,
                  WalkHooks(r, tables, hooks[i + 1..]));
          if verdict == Drop { break; }
          if verdict == Return && DropsByPolicy(tables[table], name) {
            reasons := reasons + [PolicyDrop(table, name)];
            break;
          }
          if verdict == Accept && table == "filter" { break; }
        }
        i := i + 1;
      }
    }
  }

  /** First occurrences, in order: `list(dict.fromkeys(reasons))`. */
  function Distinct(reasons: seq<Reason>): (out: seq<Reason>)
    ensures forall x :: x in out <==> x in reasons
    ensures forall i, j :: 0 <= i < j < |out| ==> out[i] != out[j]
    ensures out == [] <==> reasons == []
  {
    if reasons == [] then []
    else
      var n := |reasons| - 1;
      var front := Distinct(reasons[..n]);
      assert reasons == reasons[..n] + [reasons[n]];
      if reasons[n] in front then front else front + [reasons[n]]
  }
}
