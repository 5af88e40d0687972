/** What the switch of `Dispatch` keeps at every write, what a refusal undoes, and
    where every run that meets no failure ends. */
module DispatchSafety {
  import opened Strings
  import opened Dispatch

  // --- at every point of every run ----------------------------------------------

  ghost predicate AllOk(fed: seq<bool>) { forall i :: 0 <= i < |fed| ==> fed[i] }

  /** Some answers take the run there; with `good`, no command fails on the way. */
  ghost predicate Reaches(e: Env, c: Config, c': Config, good: bool) {
    exists fed: seq<bool> :: Iter(e, c, fed) == c' && (good ==> AllOk(fed))
  }

  lemma ReachesStep(e: Env, c: Config, c': Config, ok: bool, good: bool)
    requires Reaches(e, c, c', good) && (good ==> ok)
    ensures Reaches(e, c, Step(e, c', ok), good)
  {
    var fed: seq<bool> :| Iter(e, c, fed) == c' && (good ==> AllOk(fed));
    assert (fed + [ok])[..|fed|] == fed;
    assert Iter(e, c, fed + [ok]) == Step(e, c', ok);
  }

  lemma ReachesBeside(e: Env, c: Config, c': Config, b: BesidePc, ok: bool, good: bool)
    requires Reaches(e, c, c', good) && (good ==> ok) && c'.pc == Beside(b)
    ensures Reaches(e, c, BesideStep(e, c', b, ok), good)
  {
    ReachesStep(e, c, c', ok, good);
  }

  lemma ReachesProof(e: Env, c: Config, c': Config, p: ProofPc, ok: bool, good: bool)
    requires Reaches(e, c, c', good) && (good ==> ok) && c'.pc == Proof(p)
    ensures Reaches(e, c, ProofStep(e, c', p, ok), good)
  {
    ReachesStep(e, c, c', ok, good);
  }

  lemma ReachesUndo(e: Env, c: Config, c': Config, u: UndoPc, ok: bool, good: bool)
    requires Reaches(e, c, c', good) && (good ==> ok) && c'.pc == Undo(u)
    ensures Reaches(e, c, UndoStep(e, c', u, ok), good)
  {
    ReachesStep(e, c, c', ok, good);
  }

  lemma ReachesRetire(e: Env, c: Config, c': Config, r: RetirePc, ok: bool, good: bool)
    requires Reaches(e, c, c', good) && (good ==> ok) && c'.pc == Retire(r)
    ensures Reaches(e, c, RetireStep(e, c', r, ok), good)
  {
    ReachesStep(e, c, c', ok, good);
  }

  lemma ReachesLast(e: Env, c: Config, c': Config, l: LastPc, ok: bool, good: bool)
    requires Reaches(e, c, c', good) && (good ==> ok) && c'.pc == Last(l)
    ensures Reaches(e, c, LastStep(e, c', l, ok), good)
  {
    ReachesStep(e, c, c', ok, good);
  }

  /** The first step only reads. */
  lemma Started(e: Env, d: Disk, good: bool) returns (c: Config)
    ensures Reaches(e, Begin(d), c, good) && c.d == d
    ensures c.pc == if e.running(d.keys) == Generation(e.gen) then Retire(Reinstall) else Beside(Install)
  {
    assert Iter(e, Begin(d), []) == Begin(d) && AllOk([]);
    ReachesStep(e, Begin(d), Begin(d), true, good);
    c := Step(e, Begin(d), true);
  }

  function BesideLeft(b: BesidePc): nat {
    match b case Install => 5 case Rename => 4 case SudoNext => 3 case AcceptNext => 2 case AcceptTest(_) => 1 case Reload => 0
  }

  predicate BesideNext(b: BesidePc, ok: bool, c: Config, next: Config) {
    && next.d.keys == c.d.keys && next.d.sudo == c.d.sudo && next.d.accept == c.d.accept
    && (if b.Reload? then next.pc == (if ok then Proof(ProofDir) else Undo(DropDir))
        else ok ==> next.pc.Beside? && BesideLeft(next.pc.b) < BesideLeft(b))
  }

  lemma BesideGoes(e: Env, c: Config, b: BesidePc, ok: bool)
    ensures BesideNext(b, ok, c, BesideStep(e, c, b, ok))
  {
  }

  lemma BesideOne(e: Env, c0: Config, c: Config, b: BesidePc, ok: bool, good: bool) returns (next: Config)
    requires Reaches(e, c0, c, good) && c.pc == Beside(b) && (good ==> ok)
    ensures Reaches(e, c0, next, good) && BesideNext(b, ok, c, next)
  {
    next := BesideStep(e, c, b, ok);
    BesideGoes(e, c, b, ok);
    ReachesBeside(e, c0, c, b, ok, good);
  }

  /** BESIDE with every command answering well, save perhaps the reload. */
  lemma BesideRuns(e: Env, c0: Config, c: Config, b: BesidePc, good: bool) returns (end: Config)
    requires Reaches(e, c0, c, good) && c.pc == Beside(b)
    ensures Reaches(e, c0, end, good) && end.pc == if good then Proof(ProofDir) else Undo(DropDir)
    ensures end.d.keys == c.d.keys && end.d.sudo == c.d.sudo && end.d.accept == c.d.accept
    decreases BesideLeft(b)
  {
    end := BesideOne(e, c0, c, b, good || !b.Reload?, good);
    if !b.Reload? { end := BesideRuns(e, c0, end, end.pc.b, good); }
  }

  predicate UndoNext(u: UndoPc, c: Config, next: Config) {
    && next.d.keys == c.d.keys && next.d.sudo == c.d.sudo && next.d.accept == c.d.accept
    && (u.DropDir? ==> next.pc == Undo(DropSudo))
    && (u.DropSudo? ==> next.pc == Undo(DropAccept) && next.d.sudoNext == None)
    && (u.DropAccept? ==> next.d.sudoNext == c.d.sudoNext && next.d.acceptNext == None)
  }

  lemma UndoGoes(e: Env, c: Config, u: UndoPc)
    requires !u.UndoReload?
    ensures UndoNext(u, c, UndoStep(e, c, u, true))
  {
  }

  lemma UndoRuns(e: Env, c0: Config, c: Config, u: UndoPc) returns (end: Config)
    requires Reaches(e, c0, c, false) && c.pc == Undo(u) && !u.UndoReload?
    requires u.DropAccept? ==> c.d.sudoNext == None
    ensures Reaches(e, c0, end, false) && end.d.sudoNext == None && end.d.acceptNext == None
    ensures end.d.keys == c.d.keys && end.d.sudo == c.d.sudo && end.d.accept == c.d.accept
    decreases match u case DropDir => 3 case DropSudo => 2 case _ => 1
  {
    end := UndoOne(e, c0, c, u);
    if !u.DropAccept? { end := UndoRuns(e, c0, end, end.pc.u); }
  }

  lemma UndoOne(e: Env, c0: Config, c: Config, u: UndoPc) returns (next: Config)
    requires Reaches(e, c0, c, false) && c.pc == Undo(u) && !u.UndoReload?
    ensures Reaches(e, c0, next, false) && UndoNext(u, c, next)
  {
    next := UndoStep(e, c, u, true);
    UndoGoes(e, c, u);
    ReachesUndo(e, c0, c, u, true, false);
  }

  /** From a host whose panel can dispatch, the switch keeps it so at every point
      it can be killed at, whatever its commands and proofs answer, exactly when
      it starts well: the running path's rules are in the main files, or the line
      already names this generation, intact. */
  lemma AlwaysServed(e: Env, d: Disk)
    requires Renders(e) && Served(e, d)
    ensures StartsWell(e, d) <==> forall fed: seq<bool> :: Served(e, After(e, d, fed).d)
  {
    if StartsWell(e, d) {
      forall fed: seq<bool> ensures Served(e, After(e, d, fed).d) {
        InvIter(e, d, fed);
        InvServed(e, After(e, d, fed));
      }
    } else {
      var c := Begin(d);
      var bad := Started(e, d, false);
      if e.running(d.keys) == Generation(e.gen) {
        ReachesRetire(e, c, bad, Reinstall, true, false);
        bad := RetireStep(e, bad, Reinstall, true);
      } else {
        bad := BesideRuns(e, c, bad, Install, false);
        bad := UndoRuns(e, c, bad, DropDir);
      }
      assert !Served(e, bad.d);
      var fed: seq<bool> :| Iter(e, c, fed) == bad;
      assert !Served(e, After(e, d, fed).d);
    }
  }

  // --- a refusal undoes ----------------------------------------------------------

  /** What a refused move leaves: all as it was, this generation's directory and
      the -next files absent. */
  predicate RolledBack(e: Env, d0: Disk, d: Disk) {
    && d.keys == d0.keys && d.sudo == d0.sudo && d.accept == d0.accept && d.link == d0.link
    && d.dirs == d0.dirs - {e.gen} && d.sudoNext == None && d.acceptNext == None && d.proofs == d0.proofs
  }

  /** What a move leaves alone. */
  predicate Apart(e: Env, d0: Disk, c: Config) {
    var d := c.d;
    && c.before == d0.keys && d.sudo == d0.sudo && d.accept == d0.accept && d.link == d0.link
    && d.dirs - {e.gen} == d0.dirs - {e.gen}
  }

  predicate ProofMoving(e: Env, d0: Disk, c: Config, p: ProofPc) {
    && Apart(e, d0, c)
    && c.d.proofs == (if p.ProofDir? || p.SwitchKeys? || p.PanelProve? || p.PutBack? then d0.proofs else d0.proofs + 1)
    && (p.Prove? || p.KeysBack? || p.PanelProve? || p.PutBack? || c.d.keys == d0.keys)
  }

  predicate UndoMoving(e: Env, d0: Disk, c: Config, u: UndoPc) {
    var d := c.d;
    && Apart(e, d0, c) && d.keys == d0.keys && d.proofs == d0.proofs
    && (u.DropDir? || e.gen !in d.dirs)
    && (u.DropAccept? || u.UndoReload? ==> d.sudoNext == None)
    && (u.UndoReload? ==> d.acceptNext == None)
  }

  /** A move touches only what its undo removes, and the keys it puts back. */
  predicate Moving(e: Env, d0: Disk, c: Config) {
    match c.pc
    case Start => c.d == d0
    case Beside(_) => Apart(e, d0, c) && c.d.keys == d0.keys && c.d.proofs == d0.proofs
    case Proof(p) => ProofMoving(e, d0, c, p)
    case Undo(u) => UndoMoving(e, d0, c, u)
    case Ended(Undone) => RolledBack(e, d0, c.d)
    case _ => true
  }

  lemma DirsApart(dirs: map<string, Dir>, gen: string)
    ensures (dirs - {gen}) - {gen} == dirs - {gen} && dirs[gen := Intact] - {gen} == dirs - {gen}
    ensures gen !in dirs ==> dirs - {gen} == dirs
  {
  }

  lemma DirectoryMoves(e: Env, d0: Disk, c: Config, b: BesidePc, ok: bool)
    requires c.pc == Beside(b) && Moving(e, d0, c) && (b.Install? || b.Rename?)
    ensures Moving(e, d0, BesideStep(e, c, b, ok))
  {
    DirsApart(c.d.dirs, e.gen);
  }

  lemma NextMoves(e: Env, d0: Disk, c: Config, b: BesidePc, ok: bool)
    requires c.pc == Beside(b) && Moving(e, d0, c) && !b.Install? && !b.Rename?
    ensures Moving(e, d0, BesideStep(e, c, b, ok))
  {
  }

  lemma BesideMoves(e: Env, d0: Disk, c: Config, b: BesidePc, ok: bool)
    requires c.pc == Beside(b) && Moving(e, d0, c)
    ensures Moving(e, d0, BesideStep(e, c, b, ok))
  {
    if b.Install? || b.Rename? { DirectoryMoves(e, d0, c, b, ok); } else { NextMoves(e, d0, c, b, ok); }
  }

  lemma ProofMoves(e: Env, d0: Disk, c: Config, p: ProofPc, ok: bool)
    requires c.pc == Proof(p) && Moving(e, d0, c) && (p.KeysBack? ==> ok)
    ensures Moving(e, d0, ProofStep(e, c, p, ok))
  {
  }

  lemma DropDirMoves(e: Env, d0: Disk, c: Config)
    requires c.pc == Undo(DropDir) && Moving(e, d0, c)
    ensures Moving(e, d0, UndoStep(e, c, DropDir, true)) && UndoStep(e, c, DropDir, true).pc == Undo(DropSudo)
  {
    DirsApart(c.d.dirs, e.gen);
  }

  lemma UndoMoves(e: Env, d0: Disk, c: Config, u: UndoPc, ok: bool)
    requires c.pc == Undo(u) && Moving(e, d0, c)
    ensures Moving(e, d0, UndoStep(e, c, u, ok))
  {
    if u.DropDir? { DropDirMoves(e, d0, c); } else { DirsApart(c.d.dirs, e.gen); }
  }

  /** Once retiring, a run never comes back. */
  predicate PastMove(pc: Pc) { pc.Retire? || pc.Last? || (pc.Ended? && pc.how != Undone) }

  lemma RetireStays(e: Env, c: Config, r: RetirePc, ok: bool)
    ensures PastMove(RetireStep(e, c, r, ok).pc)
  {
  }

  lemma LastStays(e: Env, c: Config, l: LastPc, ok: bool)
    ensures PastMove(LastStep(e, c, l, ok).pc)
  {
  }

  predicate AtKeysBack(pc: Pc) { pc.Proof? && pc.p.KeysBack? }

  /** The proof key's line came off the key file whenever it was put back. */
  predicate KeysRestored(e: Env, d: Disk, fed: seq<bool>) {
    fed == [] || (
      var n := |fed| - 1;
      KeysRestored(e, d, fed[..n]) && (AtKeysBack(After(e, d, fed[..n]).pc) ==> fed[n]))
  }

  lemma MovingStep(e: Env, d: Disk, c: Config, ok: bool)
    requires Moving(e, d, c) && (AtKeysBack(c.pc) ==> ok)
    ensures Moving(e, d, Step(e, c, ok))
  {
    match c.pc
    case Beside(b) => BesideMoves(e, d, c, b, ok);
    case Proof(p) => ProofMoves(e, d, c, p, ok);
    case Undo(u) => UndoMoves(e, d, c, u, ok);
    case Retire(r) => RetireStays(e, c, r, ok);
    case Last(l) => LastStays(e, c, l, ok);
    case _ =>
  }

  lemma {:induction false} MovingIter(e: Env, d: Disk, fed: seq<bool>)
    requires KeysRestored(e, d, fed)
    ensures Moving(e, d, After(e, d, fed))
  {
    if fed != [] {
      var n := |fed| - 1;
      MovingIter(e, d, fed[..n]);
      MovingStep(e, d, After(e, d, fed[..n]), fed[n]);
    }
  }

  /** A move that refuses, before or after the panel's key moved, leaves the disk
      as it was, without this generation's directory and the -next files. */
  lemma RefusalRollsBack(e: Env, d: Disk, fed: seq<bool>)
    requires After(e, d, fed).pc == Ended(Undone) && KeysRestored(e, d, fed)
    ensures RolledBack(e, d, After(e, d, fed).d)
  {
    MovingIter(e, d, fed);
  }

  // --- a run that meets no failure -----------------------------------------------

  /** The one disk a successful run for this generation ends in. */
  predicate Canonical(e: Env, d: Disk) {
    && d.keys == Some(e.panelKeys) && d.sudo == Some(e.Rule()) && d.accept == Some(e.Accept())
    && d.sudoNext == None && d.acceptNext == None && d.link == Some(e.linkTo)
    && d.dirs == map[e.gen := Intact] && d.proofs == 0
  }

  predicate Retired(e: Env, d: Disk, r: RetirePc) {
    && (r.Reinstall? || r.Rerename? || IsIntact(e, d))
    && (r.Reinstall? || r.Rerename? || r.Keys? || d.keys == Some(e.panelKeys))
    && (r.Reinstall? || r.Rerename? || r.Keys? || r.Sudo? || d.sudo == Some(e.Rule()))
    && (r.Reinstall? || r.Rerename? || r.Keys? || r.Sudo? || r.Accept? || d.accept == Some(e.Accept()))
    && (r.AcceptNextGone? || r.Reloading? || r.FinalProve? ==> d.sudoNext == None)
    && (r.Reloading? || r.FinalProve? ==> d.acceptNext == None)
  }

  function ProofLeft(p: ProofPc): nat {
    match p case ProofDir => 9 case Keygen => 8 case ProofKey => 7 case Prove => 6 case KeysBack(_) => 5
            case ProofDirGone(_) => 4 case SwitchKeys => 3 case PanelProve => 2 case PutBack => 1
  }

  /** On the way to the panel's own proof, each proof so far having passed. */
  predicate Proving(p: ProofPc) { !p.PutBack? && (p.KeysBack? || p.ProofDirGone? ==> p.proved) }

  lemma ProofGoes(e: Env, c: Config, p: ProofPc)
    requires Proving(p)
    ensures var next := ProofStep(e, c, p, true).pc;
            if p.PanelProve? then next == Retire(Reinstall) else next.Proof? && Proving(next.p) && ProofLeft(next.p) < ProofLeft(p)
  {
  }

  lemma ProofRuns(e: Env, c0: Config, c: Config, p: ProofPc) returns (end: Config)
    requires Reaches(e, c0, c, true) && c.pc == Proof(p) && Proving(p)
    ensures Reaches(e, c0, end, true) && end.pc == Retire(Reinstall)
    decreases ProofLeft(p)
  {
    end := ProofStep(e, c, p, true);
    ProofGoes(e, c, p);
    ReachesProof(e, c0, c, p, true, true);
    if !p.PanelProve? { end := ProofRuns(e, c0, end, end.pc.p); }
  }

  function RetireLeft(r: RetirePc): nat {
    match r case Reinstall => 9 case Rerename => 8 case Keys => 7 case Sudo => 6 case Accept => 5 case AcceptTested(_) => 4
            case SudoNextGone => 3 case AcceptNextGone => 2 case Reloading => 1 case FinalProve => 0
  }

  /** One step on from `r`, with all that holds there. */
  predicate RetiredNext(e: Env, r: RetirePc, next: Config) {
    if r.FinalProve? then next.pc == Last(Link) && Retired(e, next.d, FinalProve)
    else next.pc.Retire? && RetireLeft(next.pc.r) < RetireLeft(r) && Retired(e, next.d, next.pc.r)
  }

  lemma RetireRuns(e: Env, c0: Config, c: Config, r: RetirePc) returns (end: Config)
    requires Reaches(e, c0, c, true) && c.pc == Retire(r) && Retired(e, c.d, r)
    ensures Reaches(e, c0, end, true) && end.pc == Last(Link) && Retired(e, end.d, FinalProve)
    decreases RetireLeft(r)
  {
    end := RetireNext(e, c0, c, r);
    if !r.FinalProve? { end := RetireRuns(e, c0, end, end.pc.r); }
  }

  lemma RetireNext(e: Env, c0: Config, c: Config, r: RetirePc) returns (next: Config)
    requires Reaches(e, c0, c, true) && c.pc == Retire(r) && Retired(e, c.d, r)
    ensures Reaches(e, c0, next, true) && RetiredNext(e, r, next)
  {
    next := RetireStep(e, c, r, true);
    RetireProgress(e, c, r);
    ReachesRetire(e, c0, c, r, true, true);
  }

  lemma RetireProgress(e: Env, c: Config, r: RetirePc)
    requires Retired(e, c.d, r)
    ensures RetiredNext(e, r, RetireStep(e, c, r, true))
  {
    if Early(r) { EarlyProgress(e, c, r); } else { LateProgress(e, c, r); }
  }

  lemma OneDirLess(dirs: map<string, Dir>, x: string)
    requires x in dirs
    ensures |dirs - {x}| < |dirs|
  {
    assert (dirs - {x}).Keys == dirs.Keys - {x};
    assert |dirs.Keys - {x}| == |dirs.Keys| - 1;
  }

  lemma OthersGo(e: Env, c0: Config, c: Config) returns (end: Config)
    requires Reaches(e, c0, c, true) && c.pc == Last(OthersGone) && Retired(e, c.d, FinalProve) && c.d.link == Some(e.linkTo)
    ensures Reaches(e, c0, end, true) && end.pc == Ended(Done) && Canonical(e, end.d)
    decreases |c.d.dirs|
  {
    var next := LastStep(e, c, OthersGone, true);
    ReachesLast(e, c0, c, OthersGone, true, true);
    if Others(e, c.d) == {} {
      assert c.d.dirs.Keys == {e.gen} && c.d.dirs == map[e.gen := Intact];
      ReachesLast(e, c0, next, Stale, true, true);
      end := LastStep(e, next, Stale, true);
    } else {
      OneDirLess(c.d.dirs, Least(Others(e, c.d)));
      end := OthersGo(e, c0, next);
    }
  }

  lemma {:induction false} EndedStays(e: Env, c: Config, fed: seq<bool>, n: nat)
    requires n <= |fed| && Iter(e, c, fed[..n]).pc.Ended?
    ensures Iter(e, c, fed) == Iter(e, c, fed[..n])
  {
    if n == |fed| {
      assert fed[..n] == fed;
    } else {
      var front := fed[..|fed| - 1];
      assert front[..n] == fed[..n];
      EndedStays(e, c, front, n);
    }
  }

  /** With every answer good there is one end. */
  lemma OneEnd(e: Env, c: Config, some: seq<bool>, other: seq<bool>)
    requires AllOk(some) && AllOk(other) && Iter(e, c, some).pc.Ended? && Iter(e, c, other).pc.Ended?
    ensures Iter(e, c, some) == Iter(e, c, other)
  {
    if |some| <= |other| {
      assert other[..|some|] == some;
      EndedStays(e, c, other, |some|);
    } else {
      assert some[..|other|] == other;
      EndedStays(e, c, some, |other|);
    }
  }

  lemma GoodRunEnds(e: Env, d: Disk) returns (fed: seq<bool>)
    ensures AllOk(fed) && After(e, d, fed).pc == Ended(Done) && Canonical(e, After(e, d, fed).d)
  {
    var c0 := Begin(d);
    var c := Started(e, d, true);
    if c.pc == Beside(Install) {
      c := BesideRuns(e, c0, c, Install, true);
      c := ProofRuns(e, c0, c, ProofDir);
    }
    c := RetireRuns(e, c0, c, Reinstall);
    ReachesLast(e, c0, c, Link, true, true);
    c := LastStep(e, c, Link, true);
    c := OthersGo(e, c0, c);
    fed :| Iter(e, c0, fed) == c && AllOk(fed);
  }

  /** From whatever a run killed anywhere leaves (indeed from any disk), a run for
      this generation that meets no failure ends, and in its one canonical disk. */
  lemma RerunIsCanonical(e: Env, d: Disk, killed: seq<bool>)
    ensures var left := After(e, d, killed).d;
            && (exists fed: seq<bool> :: AllOk(fed) && After(e, left, fed).pc.Ended?)
            && (forall fed: seq<bool> :: AllOk(fed) && After(e, left, fed).pc.Ended? ==>
                  After(e, left, fed).pc == Ended(Done) && Canonical(e, After(e, left, fed).d))
  {
    var left := After(e, d, killed).d;
    var good := GoodRunEnds(e, left);
    forall fed: seq<bool> | AllOk(fed) && After(e, left, fed).pc.Ended?
      ensures After(e, left, fed) == After(e, left, good)
    {
      OneEnd(e, Begin(left), fed, good);
    }
  }

  predicate Early(r: RetirePc) { r.Reinstall? || r.Rerename? || r.Keys? || r.Sudo? }

  lemma EarlyProgress(e: Env, c: Config, r: RetirePc)
    requires Early(r) && Retired(e, c.d, r)
    ensures RetiredNext(e, r, RetireStep(e, c, r, true))
  {
  }

  lemma LateProgress(e: Env, c: Config, r: RetirePc)
    requires !Early(r) && Retired(e, c.d, r)
    ensures RetiredNext(e, r, RetireStep(e, c, r, true))
  {
  }

  /** A run that has written nothing, nor anything left to do. */
  predicate Quiet(d: Disk, c: Config) {
    c.d == d && !c.wrote && !c.touched && !c.reload
    && match c.pc
       case Start => true
       case Retire(r) => !r.Rerename? && !r.AcceptTested?
       case Last(l) => l.Link? || l.OthersGone? || l.Stale?
       case Ended(how) => how == Done
       case _ => false
  }

  lemma QuietRetire(e: Env, d: Disk, c: Config, r: RetirePc, ok: bool)
    requires Canonical(e, d) && c.pc == Retire(r) && Quiet(d, c)
    ensures Quiet(d, RetireStep(e, c, r, ok))
  {
  }

  lemma QuietLast(e: Env, d: Disk, c: Config, l: LastPc, ok: bool)
    requires Canonical(e, d) && c.pc == Last(l) && Quiet(d, c)
    ensures Quiet(d, LastStep(e, c, l, ok))
  {
    assert Others(e, d) == {};
  }

  /** There a further run writes nothing, whatever its commands would answer. */
  lemma {:induction false} CanonicalIsQuiet(e: Env, d: Disk, fed: seq<bool>)
    requires Renders(e) && Canonical(e, d)
    ensures Quiet(d, After(e, d, fed))
  {
    if fed != [] {
      var n := |fed| - 1;
      CanonicalIsQuiet(e, d, fed[..n]);
      var c := After(e, d, fed[..n]);
      match c.pc
      case Retire(r) => QuietRetire(e, d, c, r, fed[n]);
      case Last(l) => QuietLast(e, d, c, l, fed[n]);
      case _ =>
    }
  }

  // --- killed, then run for another generation -------------------------------------

  /** The same host, rendering another generation. */
  ghost predicate SameHost(e: Env, e2: Env) {
    e.running == e2.running && e.sudoFor == e2.sudoFor && e.acceptFor == e2.acceptFor && e.gen != e2.gen
  }

  /** A run killed once the panel's line has moved, before its rules reach the main
      files, leaves a host another generation's run can strand: it overwrites the
      -next rules the panel then depends on. */
  lemma KilledMidSwitchIsNotSafeForAnother(e: Env, e2: Env, d: Disk, fed: seq<bool>)
    requires Renders(e) && Renders(e2) && SameHost(e, e2) && StartsWell(e, d)
    requires After(e, d, fed).pc == Proof(PanelProve) && d.sudo != Some(e.Rule())
    ensures exists fed2: seq<bool> :: !Served(e2, After(e2, After(e, d, fed).d, fed2).d)
  {
    InvIter(e, d, fed);
    var left := After(e, d, fed);
    InvServed(e, left);
    MainKept(e, d, fed);
    assert !StartsWell(e2, left.d);
    AlwaysServed(e2, left.d);
  }

  predicate MainAsWas(d: Disk, c: Config) {
    c.pc.Start? || c.pc.Beside? || c.pc.Proof? || c.pc.Undo? ==> c.d.sudo == d.sudo
  }

  /** Until it retires, a run leaves the main sudo rule as it was. */
  lemma {:induction false} MainKept(e: Env, d: Disk, fed: seq<bool>)
    ensures MainAsWas(d, After(e, d, fed))
  {
    if fed != [] {
      var n := |fed| - 1;
      MainKept(e, d, fed[..n]);
      MainStep(e, d, After(e, d, fed[..n]), fed[n]);
    }
  }

  lemma MainStep(e: Env, d: Disk, c: Config, ok: bool)
    requires MainAsWas(d, c)
    ensures MainAsWas(d, Step(e, c, ok))
  {
    match c.pc
    case Beside(b) => BesideKeepsMain(e, c, b, ok);
    case Proof(p) => ProofKeepsMain(e, c, p, ok);
    case Undo(u) => UndoKeepsMain(e, c, u, ok);
    case Retire(r) => RetireStays(e, c, r, ok);
    case Last(l) => LastStays(e, c, l, ok);
    case _ =>
  }

  lemma BesideKeepsMain(e: Env, c: Config, b: BesidePc, ok: bool)
    ensures BesideStep(e, c, b, ok).d.sudo == c.d.sudo
  {
  }

  lemma ProofKeepsMain(e: Env, c: Config, p: ProofPc, ok: bool)
    ensures ProofStep(e, c, p, ok).d.sudo == c.d.sudo
  {
  }

  lemma UndoKeepsMain(e: Env, c: Config, u: UndoPc, ok: bool)
    ensures UndoStep(e, c, u, ok).d.sudo == c.d.sudo
  {
  }
}
