/** The switch of `dispatch_path.py`, write by write: beside, proof, switch and
    retire, with the undo of each, as a machine that can be stopped between any
    two writes. `ok` is what the command a step runs answers. */
module Dispatch {
  import opened Strings

  /** What the panel key's line runs. */
  datatype Path = NoPath | Legacy | Generation(gen: string)

  /** A generation's directory: exactly this tree's two executables, or not. */
  datatype Dir = Intact | Tampered

  /** Everything the switch reads and writes. `loaded` is the text of the drop-ins
      sshd last read; `proofs` counts the proof-key directories under /run. */
  datatype Disk = Disk(keys: Option<string>, sudo: Option<string>, sudoNext: Option<string>,
                       accept: Option<string>, acceptNext: Option<string>, loaded: set<string>,
                       dirs: map<string, Dir>, link: Option<string>, proofs: nat)

  /** One generation's rendering, and how the texts are read: `running` is
      running_generation(line_for(keys)), `withProof` adds the proof key's line,
      and a path needs the rules `sudoFor` and `acceptFor`. */
  datatype Env = Env(gen: string, panelKeys: string, linkTo: string,
                     running: Option<string> -> Path, withProof: Option<string> -> string,
                     sudoFor: Path -> string, acceptFor: Path -> string)
  {
    function Rule(): string { sudoFor(Generation(gen)) }
    function Accept(): string { acceptFor(Generation(gen)) }
  }

  /** The panel's rendered line runs this generation; the proof key's line, added
      beside it, leaves what the panel's key runs as it is. */
  ghost predicate Renders(e: Env) {
    && e.running(Some(e.panelKeys)) == Generation(e.gen)
    && forall k: Option<string> :: e.running(Some(e.withProof(k))) == e.running(k)
  }

  /** BESIDE: the new generation's directory and -next rules. */
  datatype BesidePc = Install | Rename | SudoNext | AcceptNext | AcceptTest(was: Option<string>) | Reload

  /** PROOF, then SWITCH and the proof with the panel's key. */
  datatype ProofPc =
    | ProofDir | Keygen | ProofKey | Prove | KeysBack(proved: bool) | ProofDirGone(proved: bool)
    | SwitchKeys | PanelProve | PutBack

  datatype UndoPc = DropDir | DropSudo | DropAccept | UndoReload

  /** RETIRE. */
  datatype RetirePc =
    | Reinstall | Rerename | Keys | Sudo | Accept | AcceptTested(was: Option<string>)
    | SudoNextGone | AcceptNextGone | Reloading | FinalProve

  /** Back to the -next files after a failed proof, or on to the end. */
  datatype LastPc = BackSudo | BackAccept | BackTest(was: Option<string>) | BackReload | Link | OthersGone | Stale

  datatype Pc = Start | Beside(b: BesidePc) | Proof(p: ProofPc) | Undo(u: UndoPc) | Retire(r: RetirePc) | Last(l: LastPc) | Ended(how: End)

  /** Undone: refused before the panel moved, all undone. Stranded: the panel's
      line could not be put back. Refused: refused while retiring. */
  datatype End = Done | Undone | Stranded | Refused

  datatype Config = Config(d: Disk, pc: Pc, before: Option<string>, reloaded: bool, touched: bool, reload: bool, wrote: bool)

  function Begin(d: Disk): Config { Config(d, Start, None, false, false, false, false) }

  function Texts(d: Disk): set<string> {
    (match d.accept case Some(t) => {t} case None => {}) + (match d.acceptNext case Some(t) => {t} case None => {})
  }

  function Wrote(c: Config, d: Disk, pc: Pc): Config { c.(d := d, pc := pc, wrote := true) }

  /** Write a file unless it holds the text already. */
  function Put(c: Config, holds: Option<string>, text: string, d: Disk, pc: Pc): Config {
    if holds == Some(text) then c.(pc := pc) else Wrote(c, d, pc)
  }

  /** Remove a file that is there. */
  function Drop(c: Config, holds: Option<string>, d: Disk, pc: Pc): Config {
    if holds == None then c.(pc := pc) else Wrote(c, d, pc)
  }

  function Others(e: Env, d: Disk): set<string> { d.dirs.Keys - {e.gen} }

  function IsIntact(e: Env, d: Disk): bool { e.gen in d.dirs && d.dirs[e.gen] == Intact }

  function BesideStep(e: Env, c: Config, b: BesidePc, ok: bool): Config {
    var d := c.d;
    match b
    case Install =>
      if IsIntact(e, d) then c.(pc := Beside(SudoNext))
      else if e.gen in d.dirs then Wrote(c, d.(dirs := d.dirs - {e.gen}), Beside(Rename))
      else c.(pc := Beside(Rename))
    case Rename => Wrote(c, d.(dirs := d.dirs[e.gen := Intact]), Beside(SudoNext))
    case SudoNext =>
      if d.sudoNext != Some(e.Rule()) && !ok then c.(pc := Undo(DropDir))
      else Put(c, d.sudoNext, e.Rule(), d.(sudoNext := Some(e.Rule())), Beside(AcceptNext))
    case AcceptNext =>
      if d.acceptNext == Some(e.Accept()) then c.(pc := Beside(Reload))
      else Wrote(c, d.(acceptNext := Some(e.Accept())), Beside(AcceptTest(d.acceptNext)))
    case AcceptTest(was) =>
      if ok then c.(pc := Beside(Reload)) else Wrote(c, d.(acceptNext := was), Undo(DropDir))
    case Reload =>
      if ok then c.(d := d.(loaded := Texts(d)), reloaded := true, pc := Proof(ProofDir))
      else c.(reloaded := true, pc := Undo(DropDir))
  }

  function ProofStep(e: Env, c: Config, p: ProofPc, ok: bool): Config {
    var d := c.d;
    match p
    case ProofDir => c.(d := d.(proofs := d.proofs + 1), pc := Proof(Keygen))
    case Keygen => c.(pc := Proof(if ok then ProofKey else ProofDirGone(false)))
    case ProofKey =>
      if ok then Wrote(c, d.(keys := Some(e.withProof(c.before))), Proof(Prove)) else c.(pc := Proof(ProofDirGone(false)))
    case Prove => c.(pc := Proof(KeysBack(ok)))
    case KeysBack(proved) =>
      if ok then Wrote(c, d.(keys := c.before), Proof(ProofDirGone(proved))) else c.(pc := Proof(ProofDirGone(false)))
    case ProofDirGone(proved) =>
      c.(d := d.(proofs := if d.proofs == 0 then 0 else d.proofs - 1), pc := if proved then Proof(SwitchKeys) else Undo(DropDir))
    case SwitchKeys =>
      if ok then Put(c, d.keys, e.panelKeys, d.(keys := Some(e.panelKeys)), Proof(PanelProve)) else c.(pc := Undo(DropDir))
    case PanelProve => c.(pc := if ok then Retire(Reinstall) else Proof(PutBack))
    case PutBack => if ok then Wrote(c, d.(keys := c.before), Undo(DropDir)) else c.(pc := Ended(Stranded))
  }

  function UndoStep(e: Env, c: Config, u: UndoPc, ok: bool): Config {
    var d := c.d;
    match u
    case DropDir =>
      if e.gen in d.dirs then Wrote(c, d.(dirs := d.dirs - {e.gen}), Undo(DropSudo)) else c.(pc := Undo(DropSudo))
    case DropSudo => Drop(c, d.sudoNext, d.(sudoNext := None), Undo(DropAccept))
    case DropAccept =>
      Drop(c, d.acceptNext, d.(acceptNext := None),
           if d.acceptNext.Some? || c.reloaded then Undo(UndoReload) else Ended(Undone))
    case UndoReload => c.(d := if ok then d.(loaded := Texts(d)) else d, pc := Ended(Undone))
  }

  function RetireStep(e: Env, c: Config, r: RetirePc, ok: bool): Config {
    var d := c.d;
    match r
    case Reinstall =>
      if IsIntact(e, d) then c.(pc := Retire(Keys))
      else if e.gen in d.dirs then Wrote(c, d.(dirs := d.dirs - {e.gen}), Retire(Rerename))
      else c.(pc := Retire(Rerename))
    case Rerename => Wrote(c, d.(dirs := d.dirs[e.gen := Intact]), Retire(Keys)).(touched := true)
    case Keys =>
      if d.keys == Some(e.panelKeys) then c.(pc := Retire(Sudo))
      else if ok then Wrote(c, d.(keys := Some(e.panelKeys)), Retire(Sudo)).(touched := true)
      else c.(pc := Ended(Refused))
    case Sudo =>
      if d.sudo == Some(e.Rule()) then c.(pc := Retire(Accept))
      else if ok then Wrote(c, d.(sudo := Some(e.Rule())), Retire(Accept)).(touched := true)
      else c.(pc := Ended(Refused))
    case Accept =>
      if d.accept == Some(e.Accept()) then c.(pc := Retire(SudoNextGone))
      else Wrote(c, d.(accept := Some(e.Accept())), Retire(AcceptTested(d.accept)))
    case AcceptTested(was) =>
      if ok then c.(touched := true, reload := true, pc := Retire(SudoNextGone))
      else Wrote(c, d.(accept := was), Ended(Refused))
    case SudoNextGone =>
      Drop(c, d.sudoNext, d.(sudoNext := None), Retire(AcceptNextGone)).(touched := c.touched || d.sudoNext.Some?)
    case AcceptNextGone =>
      Drop(c, d.acceptNext, d.(acceptNext := None), Retire(Reloading))
        .(touched := c.touched || d.acceptNext.Some?, reload := c.reload || d.acceptNext.Some?)
    case Reloading =>
      if !c.reload then c.(pc := Retire(FinalProve))
      else if ok then c.(d := d.(loaded := Texts(d)), pc := Retire(FinalProve))
      else c.(pc := Ended(Refused))
    case FinalProve => c.(pc := Last(if !c.touched || ok then Link else BackSudo))
  }

  function LastStep(e: Env, c: Config, l: LastPc, ok: bool): Config {
    var d := c.d;
    match l
    case BackSudo =>
      if d.sudoNext != Some(e.Rule()) && !ok then c.(pc := Ended(Refused))
      else Put(c, d.sudoNext, e.Rule(), d.(sudoNext := Some(e.Rule())), Last(BackAccept))
    case BackAccept =>
      if d.acceptNext == Some(e.Accept()) then c.(pc := Ended(Refused))
      else Wrote(c, d.(acceptNext := Some(e.Accept())), Last(BackTest(d.acceptNext)))
    case BackTest(was) =>
      if ok then c.(pc := Last(BackReload)) else Wrote(c, d.(acceptNext := was), Ended(Refused))
    case BackReload => c.(d := if ok then d.(loaded := Texts(d)) else d, pc := Ended(Refused))
    case Link => Put(c, d.link, e.linkTo, d.(link := Some(e.linkTo)), Last(OthersGone))
    case OthersGone =>
      if Others(e, d) == {} then c.(pc := Last(Stale))
      else Wrote(c, d.(dirs := d.dirs - {Least(Others(e, d))}), Last(OthersGone))
    case Stale => c.(d := d.(proofs := 0), pc := Ended(Done))
  }

  /** One step: at most one write or one command. */
  function Step(e: Env, c: Config, ok: bool): Config {
    match c.pc
    case Start =>
      c.(before := c.d.keys, pc := if e.running(c.d.keys) == Generation(e.gen) then Retire(Reinstall) else Beside(Install))
    case Beside(b) => BesideStep(e, c, b, ok)
    case Proof(p) => ProofStep(e, c, p, ok)
    case Undo(u) => UndoStep(e, c, u, ok)
    case Retire(r) => RetireStep(e, c, r, ok)
    case Last(l) => LastStep(e, c, l, ok)
    case Ended(_) => c
  }

  /** The configuration after the answers `fed`: every point a run can be killed at. */
  function Iter(e: Env, c: Config, fed: seq<bool>): Config {
    if fed == [] then c else Step(e, Iter(e, c, fed[..|fed| - 1]), fed[|fed| - 1])
  }

  function After(e: Env, d: Disk, fed: seq<bool>): Config { Iter(e, Begin(d), fed) }

  // --- the panel always has a path ----------------------------------------------

  /** The path has its directory, a sudo rule and an AcceptEnv rule on disk, and
      sshd has loaded that AcceptEnv rule. */
  predicate Serves(e: Env, d: Disk, p: Path) {
    p.NoPath? || (
      && (p.Generation? ==> p.gen in d.dirs)
      && Some(e.sudoFor(p)) in {d.sudo, d.sudoNext}
      && Some(e.acceptFor(p)) in {d.accept, d.acceptNext}
      && e.acceptFor(p) in d.loaded)
  }

  /** The path the key file names can be dispatched through. */
  predicate Served(e: Env, d: Disk) { Serves(e, d, e.running(d.keys)) }

  /** ... from the main rules alone. */
  predicate ServesMain(e: Env, d: Disk, p: Path) {
    p.NoPath? || (
      && (p.Generation? ==> p.gen in d.dirs)
      && d.sudo == Some(e.sudoFor(p)) && d.accept == Some(e.acceptFor(p)) && e.acceptFor(p) in d.loaded)
  }

  /** Another path's rules are in the main files; this generation is intact. */
  predicate StartsWell(e: Env, d: Disk) {
    var p := e.running(d.keys);
    if p == Generation(e.gen) then Served(e, d) && IsIntact(e, d) else ServesMain(e, d, p)
  }

  /** This generation's directory and -next rules are in place. */
  predicate InPlace(e: Env, d: Disk) {
    IsIntact(e, d) && d.sudoNext == Some(e.Rule()) && d.acceptNext == Some(e.Accept())
  }

  /** The panel's line is on the new generation. */
  predicate Switched(pc: Pc) { (pc.Proof? && (pc.p.PanelProve? || pc.p.PutBack?)) || pc == Ended(Stranded) }

  /** Before retiring: the old path keeps its main rules, whatever is added beside. */
  predicate InvMove(e: Env, c: Config) {
    var d, p := c.d, e.running(c.before);
    && p != Generation(e.gen) && ServesMain(e, d, p)
    && e.running(d.keys) == (if Switched(c.pc) then Generation(e.gen) else p)
  }

  predicate InvBeside(e: Env, c: Config, b: BesidePc) {
    var d := c.d;
    && InvMove(e, c)
    && (!b.Install? && !b.Rename? ==> IsIntact(e, d))
    && (b.AcceptNext? || b.AcceptTest? || b.Reload? ==> d.sudoNext == Some(e.Rule()))
    && (b.AcceptTest? || b.Reload? ==> d.acceptNext == Some(e.Accept()))
  }

  /** Retiring: this generation is served, from the main rules once they hold it. */
  predicate InvRetire(e: Env, c: Config) {
    e.running(c.d.keys) == Generation(e.gen) && Served(e, c.d) && IsIntact(e, c.d)
  }

  predicate InvRules(e: Env, c: Config, r: RetirePc) {
    var d := c.d;
    && InvRetire(e, c)
    && (!r.Reinstall? && !r.Rerename? && !r.Keys? && !r.Sudo? ==> d.sudo == Some(e.Rule()))
    && (!r.Reinstall? && !r.Rerename? && !r.Keys? && !r.Sudo? && !r.Accept? ==> d.accept == Some(e.Accept()))
    && (match r case AcceptTested(was) => Some(e.Accept()) in {was, d.acceptNext} case _ => true)
  }

  /** What holds at each point of a run that started well. */
  predicate Inv(e: Env, c: Config) {
    match c.pc
    case Start => StartsWell(e, c.d)
    case Beside(b) => InvBeside(e, c, b)
    case Proof(p) => InvMove(e, c) && InPlace(e, c.d) && e.Accept() in c.d.loaded
    case Undo(_) => InvMove(e, c)
    case Retire(r) => InvRules(e, c, r)
    case Last(_) => InvRetire(e, c) && c.d.sudo == Some(e.Rule()) && c.d.accept == Some(e.Accept())
    case Ended(Undone) => InvMove(e, c)
    case Ended(Stranded) => InvMove(e, c) && InPlace(e, c.d) && e.Accept() in c.d.loaded
    case Ended(_) => InvRetire(e, c)
  }

  lemma DirectoryKeeps(e: Env, c: Config, b: BesidePc, ok: bool)
    requires Renders(e) && c.pc == Beside(b) && Inv(e, c) && (b.Install? || b.Rename? || b.SudoNext?)
    ensures Inv(e, BesideStep(e, c, b, ok))
  {
  }

  lemma AcceptKeeps(e: Env, c: Config, b: BesidePc, ok: bool)
    requires Renders(e) && c.pc == Beside(b) && Inv(e, c) && !(b.Install? || b.Rename? || b.SudoNext?)
    ensures Inv(e, BesideStep(e, c, b, ok))
  {
  }

  lemma BesideKeeps(e: Env, c: Config, b: BesidePc, ok: bool)
    requires Renders(e) && c.pc == Beside(b) && Inv(e, c)
    ensures Inv(e, BesideStep(e, c, b, ok))
  {
    if b.Install? || b.Rename? || b.SudoNext? { DirectoryKeeps(e, c, b, ok); } else { AcceptKeeps(e, c, b, ok); }
  }

  lemma ProofKeeps(e: Env, c: Config, p: ProofPc, ok: bool)
    requires Renders(e) && c.pc == Proof(p) && Inv(e, c)
    ensures Inv(e, ProofStep(e, c, p, ok))
  {
  }

  lemma DropKeeps(e: Env, c: Config, u: UndoPc, ok: bool)
    requires Renders(e) && c.pc == Undo(u) && Inv(e, c) && (u.DropDir? || u.DropSudo?)
    ensures Inv(e, UndoStep(e, c, u, ok))
  {
  }

  lemma DropLastKeeps(e: Env, c: Config, u: UndoPc, ok: bool)
    requires Renders(e) && c.pc == Undo(u) && Inv(e, c) && !(u.DropDir? || u.DropSudo?)
    ensures Inv(e, UndoStep(e, c, u, ok))
  {
  }

  lemma UndoKeeps(e: Env, c: Config, u: UndoPc, ok: bool)
    requires Renders(e) && c.pc == Undo(u) && Inv(e, c)
    ensures Inv(e, UndoStep(e, c, u, ok))
  {
    if u.DropDir? || u.DropSudo? { DropKeeps(e, c, u, ok); } else { DropLastKeeps(e, c, u, ok); }
  }

  lemma EarlyKeeps(e: Env, c: Config, r: RetirePc, ok: bool)
    requires Renders(e) && c.pc == Retire(r) && Inv(e, c) && (r.Reinstall? || r.Rerename? || r.Keys? || r.Sudo?)
    ensures Inv(e, RetireStep(e, c, r, ok))
  {
  }

  lemma LateKeeps(e: Env, c: Config, r: RetirePc, ok: bool)
    requires Renders(e) && c.pc == Retire(r) && Inv(e, c) && !(r.Reinstall? || r.Rerename? || r.Keys? || r.Sudo?)
    ensures Inv(e, RetireStep(e, c, r, ok))
  {
  }

  lemma RetireKeeps(e: Env, c: Config, r: RetirePc, ok: bool)
    requires Renders(e) && c.pc == Retire(r) && Inv(e, c)
    ensures Inv(e, RetireStep(e, c, r, ok))
  {
    if r.Reinstall? || r.Rerename? || r.Keys? || r.Sudo? { EarlyKeeps(e, c, r, ok); } else { LateKeeps(e, c, r, ok); }
  }

  lemma EndKeeps(e: Env, c: Config, l: LastPc, ok: bool)
    requires Renders(e) && c.pc == Last(l) && Inv(e, c) && (l.Link? || l.OthersGone? || l.Stale?)
    ensures Inv(e, LastStep(e, c, l, ok))
  {
  }

  lemma BackKeeps(e: Env, c: Config, l: LastPc, ok: bool)
    requires Renders(e) && c.pc == Last(l) && Inv(e, c) && !(l.Link? || l.OthersGone? || l.Stale?)
    ensures Inv(e, LastStep(e, c, l, ok))
  {
  }

  lemma LastKeeps(e: Env, c: Config, l: LastPc, ok: bool)
    requires Renders(e) && c.pc == Last(l) && Inv(e, c)
    ensures Inv(e, LastStep(e, c, l, ok))
  {
    if l.Link? || l.OthersGone? || l.Stale? { EndKeeps(e, c, l, ok); } else { BackKeeps(e, c, l, ok); }
  }

  lemma {:induction false} InvIter(e: Env, d: Disk, fed: seq<bool>)
    requires Renders(e) && StartsWell(e, d)
    ensures Inv(e, After(e, d, fed))
  {
    if fed != [] {
      var n := |fed| - 1;
      InvIter(e, d, fed[..n]);
      var c, ok := After(e, d, fed[..n]), fed[n];
      match c.pc
      case Beside(b) => BesideKeeps(e, c, b, ok);
      case Proof(p) => ProofKeeps(e, c, p, ok);
      case Undo(u) => UndoKeeps(e, c, u, ok);
      case Retire(r) => RetireKeeps(e, c, r, ok);
      case Last(l) => LastKeeps(e, c, l, ok);
      case _ =>
    }
  }

  lemma InvServed(e: Env, c: Config)
    requires Renders(e) && Inv(e, c)
    ensures Served(e, c.d)
  {
  }
}
