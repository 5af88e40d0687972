/** What the switch of `Dispatch` makes of what its commands and proofs answer: nothing
    moves past a failure, and what each failed proof leads to. */
module DispatchProof {
  import opened Strings
  import opened Dispatch
  import opened DispatchSafety

  // --- a run that ends well met no failure -----------------------------------------

  /** The next step runs a command, a check or a proof that the run hangs on. */
  predicate Asks(e: Env, c: Config) {
    match c.pc
    case Beside(b) => (b.SudoNext? && c.d.sudoNext != Some(e.Rule())) || b.AcceptTest? || b.Reload?
    case Proof(p) => p.Keygen? || p.ProofKey? || p.Prove? || p.KeysBack? || p.SwitchKeys? || p.PanelProve?
    case Retire(r) =>
      || (r.Keys? && c.d.keys != Some(e.panelKeys)) || (r.Sudo? && c.d.sudo != Some(e.Rule())) || r.AcceptTested?
      || (r.Reloading? && c.reload) || (r.FinalProve? && c.touched)
    case _ => false
  }

  /** On the way to an end that is not Done. */
  predicate Failing(pc: Pc) {
    match pc
    case Proof(p) => p == KeysBack(false) || p == ProofDirGone(false) || p == PutBack
    case Undo(_) => true
    case Last(l) => l.BackSudo? || l.BackAccept? || l.BackTest? || l.BackReload?
    case Ended(how) => how != Done
    case _ => false
  }

  // --- one step, seen from outside ------------------------------------------------------

  /** What a step of one stage does to the run: where it may go, and what it leaves. */
  predicate BesideGoesTo(e: Env, c: Config, b: BesidePc, ok: bool, next: Config) {
    && (next.pc.Beside? || next.pc == Proof(ProofDir) || next.pc == Undo(DropDir))
    && (Asks(e, c) && !ok ==> next.pc == Undo(DropDir))
    && next.d.keys == c.d.keys && Kept(e, c, next) && (Touching(c) ==> Touching(next))
  }

  predicate ProofGoesTo(e: Env, c: Config, p: ProofPc, ok: bool, next: Config) {
    && next.pc == (match p
                   case ProofDir => Proof(Keygen)
                   case Keygen => Proof(if ok then ProofKey else ProofDirGone(false))
                   case ProofKey => Proof(if ok then Prove else ProofDirGone(false))
                   case Prove => Proof(KeysBack(ok))
                   case KeysBack(proved) => Proof(ProofDirGone(proved && ok))
                   case ProofDirGone(proved) => if proved then Proof(SwitchKeys) else Undo(DropDir)
                   case SwitchKeys => if ok then Proof(PanelProve) else Undo(DropDir)
                   case PanelProve => if ok then Retire(Reinstall) else Proof(PutBack)
                   case PutBack => if ok then Undo(DropDir) else Ended(Stranded))
    && next.d.keys == (if !ok then c.d.keys
                       else match p
                            case ProofKey => Some(e.withProof(c.before))
                            case SwitchKeys => Some(e.panelKeys)
                            case KeysBack(_) => c.before
                            case PutBack => c.before
                            case _ => c.d.keys)
    && (p.PanelProve? || (p.PutBack? && !ok) ==> next.d == c.d)
    && next.d.sudoNext == c.d.sudoNext && Kept(e, c, next)
  }

  predicate UndoGoesTo(e: Env, c: Config, u: UndoPc, next: Config) {
    && (match u
        case DropDir => next.pc == Undo(DropSudo)
        case DropSudo => next.pc == Undo(DropAccept)
        case DropAccept => next.pc == Undo(UndoReload) || next.pc == Ended(Undone)
        case UndoReload => next.pc == Ended(Undone))
    && next.d.keys == c.d.keys && Kept(e, c, next)
  }

  predicate RetireGoesTo(e: Env, c: Config, r: RetirePc, ok: bool, next: Config) {
    && (if r.FinalProve? then next.pc == Last(if c.touched && !ok then BackSudo else Link) && next.d == c.d
        else next.pc.Retire? || next.pc == Ended(Refused))
    && (Asks(e, c) && !ok ==> next.pc == Last(BackSudo) || next.pc == Ended(Refused))
    && Kept(e, c, next) && (Touching(c) ==> Touching(next)) && (Dropped(c) ==> Dropped(next))
  }

  /** Once sshd is told of it, the drop-in beside the main one is gone. */
  predicate Dropped(c: Config) {
    c.pc == Retire(Reloading) || c.pc == Retire(FinalProve) ==> c.d.acceptNext == None
  }

  predicate LastGoesTo(e: Env, c: Config, l: LastPc, ok: bool, next: Config) {
    next.before == c.before &&
    match l
    case Link => next.pc == Last(OthersGone)
    case OthersGone => next.pc == Last(OthersGone) || next.pc == Last(Stale)
    case Stale => next.pc == Ended(Done)
    case _ => Backing(next.pc) && SameButNext(next.d, c.d) && BackLeft(next.pc) < BackLeft(c.pc) && (ok && BackSoFar(e, c) ==> BackSoFar(e, next))
  }

  /** The link and the other generations' directories. */
  predicate Kept(e: Env, c: Config, next: Config) {
    next.before == c.before && next.d.link == c.d.link && next.d.dirs - {e.gen} == c.d.dirs - {e.gen}
  }

  predicate GoesTo(e: Env, c: Config, ok: bool, next: Config) {
    match c.pc
    case Start =>
      && next.pc == (if e.running(c.d.keys) == Generation(e.gen) then Retire(Reinstall) else Beside(Install))
      && next.d == c.d && next.before == c.d.keys
    case Beside(b) => BesideGoesTo(e, c, b, ok, next)
    case Proof(p) => ProofGoesTo(e, c, p, ok, next)
    case Undo(u) => UndoGoesTo(e, c, u, next)
    case Retire(r) => RetireGoesTo(e, c, r, ok, next)
    case Last(l) => LastGoesTo(e, c, l, ok, next)
    case Ended(_) => next == c
  }

  lemma BesideDirGoes(e: Env, c: Config, b: BesidePc, ok: bool)
    requires c.pc == Beside(b) && (b.Install? || b.Rename? || b.SudoNext?)
    ensures BesideGoesTo(e, c, b, ok, BesideStep(e, c, b, ok))
  {
    DirsApart(c.d.dirs, e.gen);
  }

  lemma BesideAcceptGoes(e: Env, c: Config, b: BesidePc, ok: bool)
    requires c.pc == Beside(b) && !b.Install? && !b.Rename? && !b.SudoNext?
    ensures BesideGoesTo(e, c, b, ok, BesideStep(e, c, b, ok))
  {
  }

  lemma ProofGoesOn(e: Env, c: Config, p: ProofPc, ok: bool)
    requires c.pc == Proof(p)
    ensures ProofGoesTo(e, c, p, ok, ProofStep(e, c, p, ok))
  {
  }

  lemma UndoGoesOn(e: Env, c: Config, u: UndoPc, ok: bool)
    requires c.pc == Undo(u)
    ensures UndoGoesTo(e, c, u, UndoStep(e, c, u, ok))
  {
    DirsApart(c.d.dirs, e.gen);
  }

  lemma RetireEarlyGoes(e: Env, c: Config, r: RetirePc, ok: bool)
    requires c.pc == Retire(r) && Early(r)
    ensures RetireGoesTo(e, c, r, ok, RetireStep(e, c, r, ok))
  {
    DirsApart(c.d.dirs, e.gen);
  }

  lemma RetireLateGoes(e: Env, c: Config, r: RetirePc, ok: bool)
    requires c.pc == Retire(r) && !Early(r)
    ensures RetireGoesTo(e, c, r, ok, RetireStep(e, c, r, ok))
  {
  }

  lemma LastGoesOn(e: Env, c: Config, l: LastPc, ok: bool)
    requires c.pc == Last(l)
    ensures LastGoesTo(e, c, l, ok, LastStep(e, c, l, ok))
  {
  }

  lemma StepGoes(e: Env, c: Config, ok: bool) returns (next: Config)
    ensures next == Step(e, c, ok) && GoesTo(e, c, ok, next)
  {
    match c.pc
    case Start => next := Step(e, c, ok);
    case Beside(b) =>
      next := BesideStep(e, c, b, ok);
      if b.Install? || b.Rename? || b.SudoNext? { BesideDirGoes(e, c, b, ok); } else { BesideAcceptGoes(e, c, b, ok); }
    case Proof(p) => next := ProofStep(e, c, p, ok); ProofGoesOn(e, c, p, ok);
    case Undo(u) => next := UndoStep(e, c, u, ok); UndoGoesOn(e, c, u, ok);
    case Retire(r) =>
      next := RetireStep(e, c, r, ok);
      if Early(r) { RetireEarlyGoes(e, c, r, ok); } else { RetireLateGoes(e, c, r, ok); }
    case Last(l) => next := LastStep(e, c, l, ok); LastGoesOn(e, c, l, ok);
    case Ended(_) => next := c;
  }

  // --- a failure ends the run ----------------------------------------------------------

  lemma FailingGoesOn(e: Env, c: Config, ok: bool, next: Config)
    requires GoesTo(e, c, ok, next) && (Failing(c.pc) || (Asks(e, c) && !ok))
    ensures Failing(next.pc)
  {
  }

  lemma {:induction false} FailingStays(e: Env, c: Config, fed: seq<bool>)
    requires Failing(c.pc)
    ensures Failing(Iter(e, c, fed).pc)
  {
    if fed != [] {
      var n := |fed| - 1;
      FailingStays(e, c, fed[..n]);
      var next := StepGoes(e, Iter(e, c, fed[..n]), fed[n]);
      FailingGoesOn(e, Iter(e, c, fed[..n]), fed[n], next);
    }
  }

  /** A run is its first answers, and the rest from there. */
  lemma {:induction false} IterJoin(e: Env, c: Config, a: seq<bool>, b: seq<bool>)
    ensures Iter(e, c, a + b) == Iter(e, Iter(e, c, a), b)
    decreases |b|
  {
    if b == [] {
      assert a + b == a;
    } else {
      var n := |b| - 1;
      IterJoin(e, c, a, b[..n]);
      assert (a + b)[..|a + b| - 1] == a + b[..n];
    }
  }

  lemma IterOne(e: Env, c: Config, ok: bool)
    ensures Iter(e, c, [ok]) == Step(e, c, ok)
  {
    assert [ok][..0] == [];
    assert Iter(e, c, []) == c;
  }

  /** The run from a point on: the answer there, and the rest. */
  lemma RunSplits(e: Env, d: Disk, fed: seq<bool>, i: nat)
    requires i < |fed|
    ensures After(e, d, fed) == Iter(e, Step(e, After(e, d, fed[..i]), fed[i]), fed[i + 1..])
  {
    var at := fed[..i];
    assert fed == at + ([fed[i]] + fed[i + 1..]);
    IterJoin(e, Begin(d), at, [fed[i]] + fed[i + 1..]);
    IterJoin(e, After(e, d, at), [fed[i]], fed[i + 1..]);
    IterOne(e, After(e, d, at), fed[i]);
  }

  /** A run that ends Done was answered well by every command, check and proof it ran. */
  lemma DoneMeansNoFailure(e: Env, d: Disk, fed: seq<bool>, i: nat)
    requires After(e, d, fed).pc == Ended(Done) && i < |fed| && Asks(e, After(e, d, fed[..i]))
    ensures fed[i]
  {
    if !fed[i] {
      RunSplits(e, d, fed, i);
      var next := StepGoes(e, After(e, d, fed[..i]), false);
      FailingGoesOn(e, After(e, d, fed[..i]), false, next);
      FailingStays(e, next, fed[i + 1..]);
    }
  }

  // --- ... and ran its proofs ---------------------------------------------------------

  /** The run stood there and was answered well. */
  ghost predicate Answered(e: Env, d: Disk, fed: seq<bool>, pc: Pc) {
    exists i :: 0 <= i < |fed| && After(e, d, fed[..i]).pc == pc && fed[i]
  }

  lemma AnsweredMore(e: Env, d: Disk, fed: seq<bool>, pc: Pc)
    requires fed != []
    ensures var n := |fed| - 1;
            (After(e, d, fed[..n]).pc == pc && fed[n]) || Answered(e, d, fed[..n], pc) ==> Answered(e, d, fed, pc)
  {
    var n := |fed| - 1;
    if Answered(e, d, fed[..n], pc) {
      var i :| 0 <= i < n && After(e, d, fed[..n][..i]).pc == pc && fed[..n][i];
      assert fed[..n][..i] == fed[..i] && fed[..n][i] == fed[i];
    }
  }

  /** The panel's line named another path when the run started. */
  predicate Moves(e: Env, d: Disk) { e.running(d.keys) != Generation(e.gen) }

  predicate PastProof(pc: Pc) {
    || (pc.Proof? && (pc.p == KeysBack(true) || pc.p == ProofDirGone(true) || pc.p.SwitchKeys? || pc.p.PanelProve? || pc.p.PutBack?))
    || PastSwitch(pc)
  }

  predicate PastSwitch(pc: Pc) { pc.Retire? || pc.Last? || pc == Ended(Done) || pc == Ended(Refused) }

  predicate PastFinal(pc: Pc) { (pc.Last? && (pc.l.Link? || pc.l.OthersGone? || pc.l.Stale?)) || pc == Ended(Done) }

  /** Of a move: until it touched a main rule it has its -next rule, which it then drops. */
  predicate Touching(c: Config) {
    match c.pc
    case Beside(b) => b.AcceptNext? || b.AcceptTest? || b.Reload? ==> c.d.sudoNext.Some?
    case Proof(_) => c.d.sudoNext.Some?
    case Retire(r) => c.touched || (c.d.sudoNext.Some? && !r.AcceptNextGone? && !r.Reloading? && !r.FinalProve?)
    case _ => true
  }

  /** ... and only its start stands at Start. */
  predicate MoveSoFar(e: Env, d: Disk, c: Config) {
    Touching(c) && (c.pc == Start ==> c.d == d)
  }

  lemma MoveGoesOn(e: Env, d: Disk, c: Config, ok: bool, next: Config)
    requires Moves(e, d) && MoveSoFar(e, d, c) && GoesTo(e, c, ok, next)
    ensures MoveSoFar(e, d, next)
  {
  }

  lemma {:induction false} TouchingIter(e: Env, d: Disk, fed: seq<bool>)
    requires Moves(e, d)
    ensures MoveSoFar(e, d, After(e, d, fed))
  {
    if fed != [] {
      var n := |fed| - 1;
      TouchingIter(e, d, fed[..n]);
      var next := StepGoes(e, After(e, d, fed[..n]), fed[n]);
      MoveGoesOn(e, d, After(e, d, fed[..n]), fed[n], next);
    }
  }

  /** A step that gets past a proof stood at it and was answered well, or was past it. */
  lemma PastStep(e: Env, d: Disk, c: Config, ok: bool, next: Config)
    requires Moves(e, d) && MoveSoFar(e, d, c) && GoesTo(e, c, ok, next)
    ensures PastProof(next.pc) ==> PastProof(c.pc) || (c.pc == Proof(Prove) && ok)
    ensures PastSwitch(next.pc) ==> PastSwitch(c.pc) || (c.pc == Proof(PanelProve) && ok)
    ensures PastFinal(next.pc) ==> PastFinal(c.pc) || (c.pc == Retire(FinalProve) && ok)
  {
  }

  ghost predicate Proven(e: Env, d: Disk, fed: seq<bool>) {
    var pc := After(e, d, fed).pc;
    && (PastProof(pc) ==> Answered(e, d, fed, Proof(Prove)))
    && (PastSwitch(pc) ==> Answered(e, d, fed, Proof(PanelProve)))
    && (PastFinal(pc) ==> Answered(e, d, fed, Retire(FinalProve)))
  }

  /** A run that moves the panel's line is past a proof only when that proof passed:
      the one through the new entry before the line, the panel's own before the main
      rules, the last before the link and the other generations. */
  lemma {:induction false} NothingPassesUnproven(e: Env, d: Disk, fed: seq<bool>)
    requires Moves(e, d)
    ensures Proven(e, d, fed)
  {
    if fed != [] {
      var n := |fed| - 1;
      NothingPassesUnproven(e, d, fed[..n]);
      TouchingIter(e, d, fed[..n]);
      var next := StepGoes(e, After(e, d, fed[..n]), fed[n]);
      PastStep(e, d, After(e, d, fed[..n]), fed[n], next);
      AnsweredMore(e, d, fed, Proof(Prove));
      AnsweredMore(e, d, fed, Proof(PanelProve));
      AnsweredMore(e, d, fed, Retire(FinalProve));
    }
  }

  // --- what a failed proof leads to ------------------------------------------------------

  /** Steps left before a refused move has ended. */
  function UndoLeft(pc: Pc): nat {
    match pc
    case Proof(p) => if p.KeysBack? then 6 else if p.ProofDirGone? || p.PutBack? then 5 else 9
    case Undo(u) => (match u case DropDir => 4 case DropSudo => 3 case DropAccept => 2 case UndoReload => 1)
    case Ended(_) => 0
    case _ => 9
  }

  predicate Undoing(pc: Pc) {
    pc == Proof(KeysBack(false)) || pc == Proof(ProofDirGone(false)) || pc.Undo? || pc == Ended(Undone)
  }

  lemma UndoingStep(e: Env, c: Config, ok: bool, next: Config)
    requires Undoing(c.pc) && GoesTo(e, c, ok, next)
    ensures && Undoing(next.pc) && UndoLeft(next.pc) <= (if UndoLeft(c.pc) == 0 then 0 else UndoLeft(c.pc) - 1)
            && next.before == c.before && (next.d.keys == c.d.keys || next.d.keys == c.before)
  {
  }

  lemma {:induction false} UndoingEnds(e: Env, c: Config, fed: seq<bool>)
    requires Undoing(c.pc)
    ensures var end := Iter(e, c, fed);
            && Undoing(end.pc) && (|fed| >= UndoLeft(c.pc) ==> end.pc == Ended(Undone))
            && (|fed| < UndoLeft(c.pc) ==> UndoLeft(end.pc) <= UndoLeft(c.pc) - |fed|)
            && end.before == c.before && (end.d.keys == c.d.keys || end.d.keys == c.before)
  {
    if fed != [] {
      var n := |fed| - 1;
      UndoingEnds(e, c, fed[..n]);
      var next := StepGoes(e, Iter(e, c, fed[..n]), fed[n]);
      UndoingStep(e, Iter(e, c, fed[..n]), fed[n], next);
    }
  }

  /** What a move's keys hold until its line moves. */
  predicate Aside(e: Env, d: Disk, c: Config) {
    && (c.pc != Start ==> c.before == d.keys)
    && (c.pc == Start || c.pc.Beside? ==> c.d.keys == d.keys)
    && (c.pc.Proof? && !c.pc.p.PanelProve? && !c.pc.p.PutBack? ==> c.d.keys in {d.keys, Some(e.withProof(d.keys))})
  }

  lemma AsideStep(e: Env, d: Disk, c: Config, ok: bool, next: Config)
    requires Aside(e, d, c) && GoesTo(e, c, ok, next)
    ensures Aside(e, d, next)
  {
  }

  lemma {:induction false} AsideIter(e: Env, d: Disk, fed: seq<bool>)
    ensures Aside(e, d, After(e, d, fed))
  {
    if fed != [] {
      var n := |fed| - 1;
      AsideIter(e, d, fed[..n]);
      var next := StepGoes(e, After(e, d, fed[..n]), fed[n]);
      AsideStep(e, d, After(e, d, fed[..n]), fed[n], next);
    }
  }

  /** Where the proof through the new entry fails, the panel's line never names the new
      generation, whatever is answered from there on, and the run ends undone. */
  lemma FailedProofMovesNothing(e: Env, d: Disk, fed: seq<bool>, rest: seq<bool>)
    requires Renders(e) && Moves(e, d) && After(e, d, fed).pc == Proof(Prove)
    ensures var c := After(e, d, fed + [false] + rest);
            e.running(c.d.keys) == e.running(d.keys) && Undoing(c.pc) && (|rest| >= 6 ==> c.pc == Ended(Undone))
  {
    var at := After(e, d, fed);
    AsideIter(e, d, fed);
    FromHere(e, d, fed, false, rest);
    var next := StepGoes(e, at, false);
    UndoingEnds(e, next, rest);
    assert e.running(Some(e.withProof(d.keys))) == e.running(d.keys);
  }

  lemma FromHere(e: Env, d: Disk, fed: seq<bool>, ok: bool, rest: seq<bool>)
    ensures After(e, d, fed + [ok] + rest) == Iter(e, Step(e, After(e, d, fed), ok), rest)
  {
    IterJoin(e, Begin(d), fed + [ok], rest);
    IterJoin(e, Begin(d), fed, [ok]);
    IterOne(e, After(e, d, fed), ok);
  }

  /** Where the proof with the panel's own key fails, its line is put back and the move
      undone; where it cannot be, the run stops at once, the line on the new generation. */
  lemma FailedPanelProofPutsBack(e: Env, d: Disk, fed: seq<bool>, back: bool, rest: seq<bool>)
    requires After(e, d, fed).pc == Proof(PanelProve)
    ensures var c := After(e, d, fed + [false] + ([back] + rest));
            if back then c.d.keys == d.keys && Undoing(c.pc) && (|rest| >= 4 ==> c.pc == Ended(Undone))
            else c.d == After(e, d, fed).d && c.pc == Ended(Stranded)
  {
    var at := After(e, d, fed);
    AsideIter(e, d, fed);
    FromHere(e, d, fed, false, [back] + rest);
    var put := StepGoes(e, at, false);
    var next := StepGoes(e, put, back);
    IterJoin(e, put, [back], rest);
    IterOne(e, put, back);
    if back { UndoingEnds(e, next, rest); } else { EndedIter(e, next, rest); }
  }

  lemma {:induction false} EndedIter(e: Env, c: Config, fed: seq<bool>)
    requires c.pc.Ended?
    ensures Iter(e, c, fed) == c
  {
    if fed != [] { EndedIter(e, c, fed[..|fed| - 1]); }
  }

  predicate Backing(pc: Pc) {
    (pc.Last? && (pc.l.BackSudo? || pc.l.BackAccept? || pc.l.BackTest? || pc.l.BackReload?)) || pc == Ended(Refused)
  }

  function BackLeft(pc: Pc): nat {
    if pc.Last? then match pc.l case BackSudo => 4 case BackAccept => 3 case BackTest(_) => 2 case _ => 1 else 0
  }

  /** The -next rules are back as far as the run has got, and sshd has them at the end. */
  predicate BackSoFar(e: Env, c: Config) {
    && (c.pc == Last(BackSudo) || c.pc == Last(BackAccept) ==> c.d.acceptNext == None)
    && (c.pc == Ended(Refused) ==> c.d.loaded == Texts(c.d))
    && (c.pc != Last(BackSudo) ==> c.d.sudoNext == Some(e.Rule()))
    && (c.pc != Last(BackSudo) && c.pc != Last(BackAccept) ==> c.d.acceptNext == Some(e.Accept()))
  }

  predicate SameButNext(a: Disk, b: Disk) {
    a.keys == b.keys && a.sudo == b.sudo && a.accept == b.accept && a.dirs == b.dirs && a.link == b.link
  }

  lemma BackingStep(e: Env, c: Config, ok: bool, next: Config)
    requires Backing(c.pc) && GoesTo(e, c, ok, next)
    ensures && Backing(next.pc) && BackLeft(next.pc) <= (if BackLeft(c.pc) == 0 then 0 else BackLeft(c.pc) - 1)
            && SameButNext(next.d, c.d) && (ok && BackSoFar(e, c) ==> BackSoFar(e, next))
  {
  }

  lemma {:induction false} BackingEnds(e: Env, c: Config, fed: seq<bool>)
    requires Backing(c.pc)
    ensures var end := Iter(e, c, fed);
            && Backing(end.pc) && SameButNext(end.d, c.d)
            && BackLeft(end.pc) <= (if |fed| < BackLeft(c.pc) then BackLeft(c.pc) - |fed| else 0)
            && (AllOk(fed) && BackSoFar(e, c) ==> BackSoFar(e, end))
  {
    if fed != [] {
      var n := |fed| - 1;
      BackingEnds(e, c, fed[..n]);
      var next := StepGoes(e, Iter(e, c, fed[..n]), fed[n]);
      BackingStep(e, Iter(e, c, fed[..n]), fed[n], next);
    }
  }

  lemma DroppedStep(e: Env, c: Config, ok: bool, next: Config)
    requires Dropped(c) && GoesTo(e, c, ok, next)
    ensures Dropped(next)
  {
  }

  lemma {:induction false} DroppedIter(e: Env, d: Disk, fed: seq<bool>)
    ensures Dropped(After(e, d, fed))
  {
    if fed != [] {
      var n := |fed| - 1;
      DroppedIter(e, d, fed[..n]);
      var next := StepGoes(e, After(e, d, fed[..n]), fed[n]);
      DroppedStep(e, After(e, d, fed[..n]), fed[n], next);
    }
  }

  /** Where the last proof fails, the run is refused with the panel's line, the main
      rules, the link and every generation's directory as they stood, and, where nothing
      else fails, with the -next rules back and loaded. */
  lemma FailedFinalProofBringsNextBack(e: Env, d: Disk, fed: seq<bool>, rest: seq<bool>)
    requires var at := After(e, d, fed); at.pc == Retire(FinalProve) && at.touched
    ensures var at, c := After(e, d, fed), After(e, d, fed + [false] + rest);
            && SameButNext(c.d, at.d) && Backing(c.pc) && (|rest| >= 4 ==> c.pc == Ended(Refused))
            && (|rest| >= 4 && AllOk(rest) ==>
                  c.d.sudoNext == Some(e.Rule()) && c.d.acceptNext == Some(e.Accept()) && c.d.loaded == Texts(c.d))
  {
    var at := After(e, d, fed);
    DroppedIter(e, d, fed);
    FromHere(e, d, fed, false, rest);
    var next := StepGoes(e, at, false);
    BackingEnds(e, next, rest);
  }

  // --- what stays until the last proof -----------------------------------------------------

  predicate Untidied(e: Env, d: Disk, c: Config) {
    PastFinal(c.pc) || (c.d.link == d.link && c.d.dirs - {e.gen} == d.dirs - {e.gen})
  }

  lemma UntidiedStep(e: Env, d: Disk, c: Config, ok: bool, next: Config)
    requires Untidied(e, d, c) && GoesTo(e, c, ok, next)
    ensures Untidied(e, d, next)
  {
  }

  /** Until a run is past its last proof the link and every other generation's directory
      are as they were. */
  lemma {:induction false} OthersStayUntilProven(e: Env, d: Disk, fed: seq<bool>)
    ensures Untidied(e, d, After(e, d, fed))
  {
    if fed != [] {
      var n := |fed| - 1;
      OthersStayUntilProven(e, d, fed[..n]);
      var next := StepGoes(e, After(e, d, fed[..n]), fed[n]);
      UntidiedStep(e, d, After(e, d, fed[..n]), fed[n], next);
    }
  }

  // --- what every rule on disk has been through ----------------------------------------------

  /** sshd -t is about to read the new drop-in. */
  predicate Testing(pc: Pc) {
    (pc.Beside? && pc.b.AcceptTest?) || (pc.Retire? && pc.r.AcceptTested?) || (pc.Last? && pc.l.BackTest?)
  }

  /** What the drop-in under test replaced. */
  function Was(pc: Pc): Option<string>
    requires Testing(pc)
  {
    match pc case Beside(b) => b.was case Retire(r) => r.was case Last(l) => l.was
  }

  /** visudo is about to read the new rule, which is written when it passes. */
  predicate Checking(pc: Pc) { pc == Beside(SudoNext) || pc == Retire(Sudo) || pc == Last(BackSudo) }

  /** This generation's drop-in is nowhere, save where it is under test. */
  predicate NoAccept(e: Env, c: Config) {
    var text := Some(e.Accept());
    if Testing(c.pc) then Was(c.pc) != text && (if c.pc.Retire? then c.d.acceptNext != text else c.d.accept != text)
    else c.d.accept != text && c.d.acceptNext != text
  }

  predicate NoRule(e: Env, c: Config) { c.d.sudo != Some(e.Rule()) && c.d.sudoNext != Some(e.Rule()) }

  /** What a step does about the rules: none is written unread. */
  predicate Reads(e: Env, c: Config, ok: bool, next: Config) {
    && (NoAccept(e, c) && !(Testing(c.pc) && ok) ==> NoAccept(e, next))
    && (NoRule(e, c) && !(Checking(c.pc) && ok) ==> NoRule(e, next))
  }

  /** On the way to Done, sshd has what is on disk, or the run is yet to reload it. */
  predicate Current(e: Env, c: Config) {
    var same := c.d.loaded == Texts(c.d);
    match c.pc
    case Beside(b) => b.AcceptTest? || b.Reload? || same
    case Retire(r) => r.AcceptTested? || (c.reload && !r.FinalProve?) || same
    case _ => Failing(c.pc) || same
  }

  lemma BesideReads(e: Env, c: Config, b: BesidePc, ok: bool)
    requires c.pc == Beside(b)
    ensures Reads(e, c, ok, BesideStep(e, c, b, ok))
  {
  }

  lemma BesideCurrent(e: Env, c: Config, b: BesidePc, ok: bool)
    requires c.pc == Beside(b) && Current(e, c)
    ensures Current(e, BesideStep(e, c, b, ok))
  {
  }

  lemma ProofReads(e: Env, c: Config, p: ProofPc, ok: bool)
    requires c.pc == Proof(p)
    ensures Reads(e, c, ok, ProofStep(e, c, p, ok))
  {
  }

  lemma ProofCurrent(e: Env, c: Config, p: ProofPc, ok: bool)
    requires c.pc == Proof(p) && Current(e, c)
    ensures Current(e, ProofStep(e, c, p, ok))
  {
  }

  lemma UndoReads(e: Env, c: Config, u: UndoPc, ok: bool)
    requires c.pc == Undo(u)
    ensures Reads(e, c, ok, UndoStep(e, c, u, ok))
  {
  }

  lemma UndoCurrent(e: Env, c: Config, u: UndoPc, ok: bool)
    requires c.pc == Undo(u)
    ensures Current(e, UndoStep(e, c, u, ok))
  {
  }

  lemma RetireEarlyReads(e: Env, c: Config, r: RetirePc, ok: bool)
    requires c.pc == Retire(r) && Early(r)
    ensures Reads(e, c, ok, RetireStep(e, c, r, ok))
  {
  }

  lemma RetireLateReads(e: Env, c: Config, r: RetirePc, ok: bool)
    requires c.pc == Retire(r) && !Early(r)
    ensures Reads(e, c, ok, RetireStep(e, c, r, ok))
  {
  }

  lemma RetireCurrent(e: Env, c: Config, r: RetirePc, ok: bool)
    requires c.pc == Retire(r) && Current(e, c)
    ensures Current(e, RetireStep(e, c, r, ok))
  {
  }

  lemma LastReads(e: Env, c: Config, l: LastPc, ok: bool)
    requires c.pc == Last(l)
    ensures Reads(e, c, ok, LastStep(e, c, l, ok))
  {
  }

  lemma LastCurrent(e: Env, c: Config, l: LastPc, ok: bool)
    requires c.pc == Last(l) && Current(e, c)
    ensures Current(e, LastStep(e, c, l, ok))
  {
  }

  lemma StepReads(e: Env, c: Config, ok: bool) returns (next: Config)
    ensures next == Step(e, c, ok) && Reads(e, c, ok, next)
  {
    match c.pc
    case Start => next := Step(e, c, ok);
    case Beside(b) => next := BesideStep(e, c, b, ok); BesideReads(e, c, b, ok);
    case Proof(p) => next := ProofStep(e, c, p, ok); ProofReads(e, c, p, ok);
    case Undo(u) => next := UndoStep(e, c, u, ok); UndoReads(e, c, u, ok);
    case Retire(r) =>
      next := RetireStep(e, c, r, ok);
      if Early(r) { RetireEarlyReads(e, c, r, ok); } else { RetireLateReads(e, c, r, ok); }
    case Last(l) => next := LastStep(e, c, l, ok); LastReads(e, c, l, ok);
    case Ended(_) => next := c;
  }

  lemma StepCurrent(e: Env, c: Config, ok: bool) returns (next: Config)
    requires Current(e, c)
    ensures next == Step(e, c, ok) && Current(e, next)
  {
    match c.pc
    case Start => next := Step(e, c, ok);
    case Beside(b) => next := BesideStep(e, c, b, ok); BesideCurrent(e, c, b, ok);
    case Proof(p) => next := ProofStep(e, c, p, ok); ProofCurrent(e, c, p, ok);
    case Undo(u) => next := UndoStep(e, c, u, ok); UndoCurrent(e, c, u, ok);
    case Retire(r) => next := RetireStep(e, c, r, ok); RetireCurrent(e, c, r, ok);
    case Last(l) => next := LastStep(e, c, l, ok); LastCurrent(e, c, l, ok);
    case Ended(_) => next := c;
  }

  /** The run stood at such a check and was answered well. */
  ghost predicate Passed(e: Env, d: Disk, fed: seq<bool>, check: Pc -> bool) {
    exists i :: 0 <= i < |fed| && check(After(e, d, fed[..i]).pc) && fed[i]
  }

  lemma PassedMore(e: Env, d: Disk, fed: seq<bool>, check: Pc -> bool)
    requires fed != []
    ensures var n := |fed| - 1;
            (check(After(e, d, fed[..n]).pc) && fed[n]) || Passed(e, d, fed[..n], check) ==> Passed(e, d, fed, check)
  {
    var n := |fed| - 1;
    if Passed(e, d, fed[..n], check) {
      var i :| 0 <= i < n && check(After(e, d, fed[..n][..i]).pc) && fed[..n][i];
      assert fed[..n][..i] == fed[..i] && fed[..n][i] == fed[i];
    }
  }

  /** This generation's rules stand only where they stood or were read and passed: the
      sudo rule by visudo before it is written, the drop-in by sshd -t before anything
      else is done. */
  lemma {:induction false} RulesAreRead(e: Env, d: Disk, fed: seq<bool>)
    ensures var c := After(e, d, fed);
            && (Some(e.Accept()) in {d.accept, d.acceptNext} || Passed(e, d, fed, Testing) || NoAccept(e, c))
            && (Some(e.Rule()) in {d.sudo, d.sudoNext} || Passed(e, d, fed, Checking) || NoRule(e, c))
  {
    if fed != [] {
      var n := |fed| - 1;
      RulesAreRead(e, d, fed[..n]);
      var next := StepReads(e, After(e, d, fed[..n]), fed[n]);
      PassedMore(e, d, fed, Testing);
      PassedMore(e, d, fed, Checking);
    }
  }

  lemma {:induction false} CurrentIter(e: Env, d: Disk, fed: seq<bool>)
    requires d.loaded == Texts(d)
    ensures Current(e, After(e, d, fed))
  {
    if fed != [] {
      var n := |fed| - 1;
      CurrentIter(e, d, fed[..n]);
      var next := StepCurrent(e, After(e, d, fed[..n]), fed[n]);
    }
  }

  /** A run that ends Done leaves sshd with the drop-ins that are on disk, if it had them. */
  lemma DoneIsLoaded(e: Env, d: Disk, fed: seq<bool>)
    requires d.loaded == Texts(d) && After(e, d, fed).pc == Ended(Done)
    ensures After(e, d, fed).d.loaded == Texts(After(e, d, fed).d)
  {
    CurrentIter(e, d, fed);
  }

  // --- a run that changes the rules proves them ------------------------------------------------

  predicate SameRules(e: Env, a: Disk, b: Disk) {
    && a.keys == b.keys && a.sudo == b.sudo && a.accept == b.accept
    && a.sudoNext == b.sudoNext && a.acceptNext == b.acceptNext && (IsIntact(e, a) <==> IsIntact(e, b))
  }

  /** Of a run that does not move: it has changed no rule, or counts it. */
  predicate Counted(e: Env, d: Disk, c: Config) {
    match c.pc
    case Start => c.d == d
    case Retire(r) => c.touched || r.Rerename? || r.AcceptTested? || SameRules(e, d, c.d)
    case Last(l) => c.touched || (!Backing(c.pc) && SameRules(e, d, c.d))
    case Ended(how) => how != Done || c.touched || SameRules(e, d, c.d)
    case _ => false
  }

  lemma RetireCounts(e: Env, d: Disk, c: Config, r: RetirePc, ok: bool)
    requires c.pc == Retire(r) && Counted(e, d, c)
    ensures Counted(e, d, RetireStep(e, c, r, ok))
  {
  }

  lemma LastCounts(e: Env, d: Disk, c: Config, l: LastPc, ok: bool)
    requires c.pc == Last(l) && Counted(e, d, c)
    ensures Counted(e, d, LastStep(e, c, l, ok))
  {
  }

  /** What such a run counted its last proof has vouched for. */
  ghost predicate Vouched(e: Env, d: Disk, fed: seq<bool>) {
    var c := After(e, d, fed);
    PastFinal(c.pc) && c.touched ==> Answered(e, d, fed, Retire(FinalProve))
  }

  lemma {:induction false} CountedIter(e: Env, d: Disk, fed: seq<bool>)
    requires !Moves(e, d)
    ensures Counted(e, d, After(e, d, fed)) && Vouched(e, d, fed)
  {
    if fed != [] {
      var n := |fed| - 1;
      var c, ok := After(e, d, fed[..n]), fed[n];
      CountedIter(e, d, fed[..n]);
      AnsweredMore(e, d, fed, Retire(FinalProve));
      match c.pc
      case Retire(r) => RetireCounts(e, d, c, r, ok); RetireVouches(e, c, r, ok);
      case Last(l) => LastCounts(e, d, c, l, ok); LastVouches(e, c, l, ok);
      case _ =>
    }
  }

  lemma RetireVouches(e: Env, c: Config, r: RetirePc, ok: bool)
    ensures var next := RetireStep(e, c, r, ok); PastFinal(next.pc) && next.touched ==> r.FinalProve? && ok
  {
  }

  lemma LastVouches(e: Env, c: Config, l: LastPc, ok: bool)
    ensures var next := LastStep(e, c, l, ok); next.touched == c.touched && (PastFinal(next.pc) ==> l.Link? || l.OthersGone? || l.Stale?)
  {
  }

  /** A run that ends Done having changed the panel's keys, a rule or this generation's
      directory had its last proof, and that passed. */
  lemma ChangedRulesAreProven(e: Env, d: Disk, fed: seq<bool>)
    requires After(e, d, fed).pc == Ended(Done) && !SameRules(e, d, After(e, d, fed).d)
    ensures Answered(e, d, fed, Retire(FinalProve))
  {
    if Moves(e, d) { NothingPassesUnproven(e, d, fed); } else { CountedIter(e, d, fed); }
  }

  // --- an undone move and sshd -----------------------------------------------------------------

  /** On the way to Undone: sshd has what is on disk, or is yet to be told again. */
  predicate Retellable(c: Config) {
    match c.pc
    case Start => c.d.loaded == Texts(c.d)
    case Beside(b) =>
      if b.AcceptTest? then c.d.loaded == Texts(c.d.(acceptNext := b.was)) else b.Reload? || c.d.loaded == Texts(c.d)
    case Proof(_) => c.reloaded
    case Undo(u) => u.UndoReload? || c.reloaded || c.d.loaded == Texts(c.d)
    case Ended(how) => how != Undone || c.d.loaded == Texts(c.d)
    case _ => true
  }

  lemma BesideRetells(e: Env, c: Config, b: BesidePc, ok: bool)
    requires c.pc == Beside(b) && Retellable(c)
    ensures Retellable(BesideStep(e, c, b, ok))
  {
  }

  lemma ProofRetells(e: Env, c: Config, p: ProofPc, ok: bool)
    requires c.pc == Proof(p) && Retellable(c)
    ensures Retellable(ProofStep(e, c, p, ok))
  {
  }

  lemma UndoRetells(e: Env, c: Config, u: UndoPc, ok: bool)
    requires c.pc == Undo(u) && Retellable(c) && (u.UndoReload? ==> ok)
    ensures Retellable(UndoStep(e, c, u, ok))
  {
  }

  lemma {:induction false} RetellIter(e: Env, d: Disk, fed: seq<bool>)
    requires d.loaded == Texts(d)
    requires forall i :: 0 <= i < |fed| && After(e, d, fed[..i]).pc == Undo(UndoReload) ==> fed[i]
    ensures Retellable(After(e, d, fed))
  {
    if fed != [] {
      var n := |fed| - 1;
      var c, ok := After(e, d, fed[..n]), fed[n];
      assert forall i :: 0 <= i < n ==> fed[..n][..i] == fed[..i];
      RetellIter(e, d, fed[..n]);
      match c.pc
      case Beside(b) => BesideRetells(e, c, b, ok);
      case Proof(p) => ProofRetells(e, c, p, ok);
      case Undo(u) => UndoRetells(e, c, u, ok);
      case Retire(r) => RetireStays(e, c, r, ok);
      case Last(l) => LastStays(e, c, l, ok);
      case _ =>
    }
  }

  /** An undone move leaves sshd with the drop-ins that are on disk, if it had them and
      the reload of the undo did not fail. */
  lemma UndoneIsLoaded(e: Env, d: Disk, fed: seq<bool>)
    requires d.loaded == Texts(d) && After(e, d, fed).pc == Ended(Undone)
    requires forall i :: 0 <= i < |fed| && After(e, d, fed[..i]).pc == Undo(UndoReload) ==> fed[i]
    ensures After(e, d, fed).d.loaded == Texts(After(e, d, fed).d)
  {
    RetellIter(e, d, fed);
  }
}
