/** The switch as the source runs it, on a host whose disk it changes: every
    write and every command is a step of the machine of `Dispatch`, so what
    `DispatchSafety` proves of the machine's runs holds at every write here. */
module DispatchHost {
  import opened Strings
  import opened Dispatch

  class Host {
    const e: Env
    ghost const d0: Disk
    var disk: Disk
    var wrote: bool
    // What the commands still to run answer; true once none is left.
    var answers: seq<bool>
    // The machine this run follows, and the answers it was fed.
    ghost var c: Config
    ghost var fed: seq<bool>

    /** The host is where the machine is after the answers fed so far. */
    ghost predicate Follows()
      reads this
    {
      c == After(e, d0, fed) && c.d == disk && c.wrote == wrote
    }

    constructor (e: Env, d: Disk, answers: seq<bool>)
      ensures this.e == e && d0 == d && disk == d && Follows() && c == Begin(d) && fed == []
    {
      this.e, this.d0, this.answers := e, d, answers;
      disk, wrote, c, fed := d, false, Begin(d), [];
    }

    method Run() returns (ok: bool)
      modifies this`answers
    {
      if answers == [] { return true; }
      ok, answers := answers[0], answers[1..];
    }

    method Write(d: Disk)
      modifies this`disk, this`wrote
      ensures disk == d && wrote
    {
      disk, wrote := d, true;
    }

    ghost method Tick(next: Config, ok: bool)
      requires c == After(e, d0, fed) && next == Step(e, c, ok) && next.d == disk && next.wrote == wrote
      modifies this`c, this`fed
      ensures Follows() && c == next
    {
      assert (fed + [ok])[..|fed|] == fed;
      c, fed := next, fed + [ok];
    }

    ghost method TickBeside(b: BesidePc, ok: bool)
      requires c == After(e, d0, fed) && c.pc == Beside(b)
      requires BesideStep(e, c, b, ok).d == disk && BesideStep(e, c, b, ok).wrote == wrote
      modifies this`c, this`fed
      ensures Follows() && c == BesideStep(e, old(c), b, ok)
    {
      Tick(BesideStep(e, c, b, ok), ok);
    }

    ghost method TickProof(p: ProofPc, ok: bool)
      requires c == After(e, d0, fed) && c.pc == Proof(p)
      requires ProofStep(e, c, p, ok).d == disk && ProofStep(e, c, p, ok).wrote == wrote
      modifies this`c, this`fed
      ensures Follows() && c == ProofStep(e, old(c), p, ok)
    {
      Tick(ProofStep(e, c, p, ok), ok);
    }

    ghost method TickUndo(u: UndoPc, ok: bool)
      requires c == After(e, d0, fed) && c.pc == Undo(u)
      requires UndoStep(e, c, u, ok).d == disk && UndoStep(e, c, u, ok).wrote == wrote
      modifies this`c, this`fed
      ensures Follows() && c == UndoStep(e, old(c), u, ok)
    {
      Tick(UndoStep(e, c, u, ok), ok);
    }

    ghost method TickRetire(r: RetirePc, ok: bool)
      requires c == After(e, d0, fed) && c.pc == Retire(r)
      requires RetireStep(e, c, r, ok).d == disk && RetireStep(e, c, r, ok).wrote == wrote
      modifies this`c, this`fed
      ensures Follows() && c == RetireStep(e, old(c), r, ok)
    {
      Tick(RetireStep(e, c, r, ok), ok);
    }

    ghost method TickLast(l: LastPc, ok: bool)
      requires c == After(e, d0, fed) && c.pc == Last(l)
      requires LastStep(e, c, l, ok).d == disk && LastStep(e, c, l, ok).wrote == wrote
      modifies this`c, this`fed
      ensures Follows() && c == LastStep(e, old(c), l, ok)
    {
      Tick(LastStep(e, c, l, ok), ok);
    }

    // --- BESIDE -------------------------------------------------------------------

    method InstallBeside()
      requires Follows() && c.pc == Beside(Install)
      modifies this
      ensures Follows() && c.pc == Beside(SudoNext) && Same(old(c), c)
    {
      if IsIntact(e, disk) {
        TickBeside(Install, true);
        return;
      }
      if e.gen in disk.dirs {
        Write(disk.(dirs := disk.dirs - {e.gen}));
      }
      TickBeside(Install, true);
      Write(disk.(dirs := disk.dirs[e.gen := Intact]));
      TickBeside(Rename, true);
    }

    /** The locals of the source a step leaves alone. */
    predicate Same(was: Config, now: Config) {
      now.before == was.before && now.touched == was.touched && now.reload == was.reload && now.reloaded == was.reloaded
    }

    method WriteSudoNext() returns (ok: bool)
      requires Follows() && c.pc == Beside(SudoNext)
      modifies this
      ensures Follows() && c.pc == (if ok then Beside(AcceptNext) else Undo(DropDir)) && Same(old(c), c)
    {
      ok := true;
      if disk.sudoNext != Some(e.Rule()) {
        ok := Run();
        if ok {
          Write(disk.(sudoNext := Some(e.Rule())));
        }
      }
      TickBeside(SudoNext, ok);
    }

    method PlaceAcceptNext() returns (ok: bool)
      requires Follows() && c.pc == Beside(AcceptNext)
      modifies this
      ensures Follows() && c.pc == (if ok then Beside(Reload) else Undo(DropDir)) && Same(old(c), c)
    {
      if disk.acceptNext == Some(e.Accept()) {
        TickBeside(AcceptNext, true);
        return true;
      }
      var was := disk.acceptNext;
      Write(disk.(acceptNext := Some(e.Accept())));
      TickBeside(AcceptNext, true);
      ok := Run();
      if !ok {
        Write(disk.(acceptNext := was));
      }
      TickBeside(AcceptTest(was), ok);
    }

    method ReloadBeside() returns (ok: bool)
      requires Follows() && c.pc == Beside(Reload)
      modifies this
      ensures Follows() && c.pc == (if ok then Proof(ProofDir) else Undo(DropDir))
      ensures c.reloaded && Same(old(c).(reloaded := true), c)
    {
      ok := Run();
      if ok {
        disk := disk.(loaded := Texts(disk));
      }
      TickBeside(Reload, ok);
    }

    method AddBeside() returns (ok: bool, reloaded: bool)
      requires Follows() && c.pc == Beside(Install) && !c.reloaded
      modifies this
      ensures Follows() && c.pc == (if ok then Proof(ProofDir) else Undo(DropDir))
      ensures Same(old(c).(reloaded := reloaded), c)
    {
      reloaded := false;
      InstallBeside();
      ok := WriteSudoNext();
      if ok {
        ok := PlaceAcceptNext();
      }
      if ok {
        reloaded := true;
        ok := ReloadBeside();
      }
    }

    // --- PROOF ----------------------------------------------------------------------

    /** The proof key's line beside the panel's, the proof, and the key file back. */
    method ProveWithKey(before: Option<string>) returns (proved: bool)
      requires Follows() && c.pc == Proof(ProofKey) && c.before == before
      modifies this
      ensures Follows() && c.pc == Proof(ProofDirGone(proved)) && Same(old(c), c)
    {
      proved := Run();
      if !proved {
        TickProof(ProofKey, false);
        return;
      }
      Write(disk.(keys := Some(e.withProof(before))));
      TickProof(ProofKey, true);
      proved := Run();
      TickProof(Prove, proved);
      proved := PutKeysBack(before, proved);
    }

    method PutKeysBack(before: Option<string>, was: bool) returns (proved: bool)
      requires Follows() && c.pc == Proof(KeysBack(was)) && c.before == before
      modifies this
      ensures Follows() && c.pc == Proof(ProofDirGone(proved)) && Same(old(c), c)
    {
      var back := Run();
      if back {
        Write(disk.(keys := before));
      }
      TickProof(KeysBack(was), back);
      proved := was && back;
    }

    method ProveBeside(before: Option<string>) returns (proved: bool)
      requires Follows() && c.pc == Proof(ProofDir) && c.before == before
      modifies this
      ensures Follows() && c.pc == (if proved then Proof(SwitchKeys) else Undo(DropDir)) && Same(old(c), c)
    {
      proved := MakeProofKey();
      if proved {
        proved := ProveWithKey(before);
      }
      RemoveProofDir(proved);
    }

    method RemoveProofDir(proved: bool)
      requires Follows() && c.pc == Proof(ProofDirGone(proved))
      modifies this
      ensures Follows() && c.pc == (if proved then Proof(SwitchKeys) else Undo(DropDir)) && Same(old(c), c)
    {
      disk := disk.(proofs := if disk.proofs == 0 then 0 else disk.proofs - 1);
      TickProof(ProofDirGone(proved), true);
    }

    method MakeProofKey() returns (ok: bool)
      requires Follows() && c.pc == Proof(ProofDir)
      modifies this
      ensures Follows() && c.pc == Proof(if ok then ProofKey else ProofDirGone(false)) && Same(old(c), c)
    {
      disk := disk.(proofs := disk.proofs + 1);
      TickProof(ProofDir, true);
      ok := Run();
      TickProof(Keygen, ok);
    }

    // --- SWITCH, and the undo of a move ------------------------------------------------

    method UndoMove(reloaded: bool)
      requires Follows() && c.pc == Undo(DropDir) && c.reloaded == reloaded
      modifies this
      ensures Follows() && c.pc == Ended(Undone)
    {
      if e.gen in disk.dirs {
        Write(disk.(dirs := disk.dirs - {e.gen}));
      }
      TickUndo(DropDir, true);
      if disk.sudoNext.Some? {
        Write(disk.(sudoNext := None));
      }
      TickUndo(DropSudo, true);
      UndoAccept(reloaded);
    }

    method UndoAccept(reloaded: bool)
      requires Follows() && c.pc == Undo(DropAccept) && c.reloaded == reloaded
      modifies this
      ensures Follows() && c.pc == Ended(Undone)
    {
      var removed := disk.acceptNext.Some?;
      if removed {
        Write(disk.(acceptNext := None));
      }
      TickUndo(DropAccept, true);
      if removed || reloaded {
        var ok := Run();
        if ok {
          disk := disk.(loaded := Texts(disk));
        }
        TickUndo(UndoReload, ok);
      }
    }

    /** The panel's line on the new entry, proven with the panel's own key. */
    method SwitchTo(before: Option<string>) returns (moved: bool, stranded: bool)
      requires Follows() && c.pc == Proof(SwitchKeys) && c.before == before
      modifies this
      ensures Follows() && Same(old(c), c)
      ensures c.pc == if moved then Retire(Reinstall) else if stranded then Ended(Stranded) else Undo(DropDir)
    {
      stranded := false;
      moved := Run();
      if moved && disk.keys != Some(e.panelKeys) {
        Write(disk.(keys := Some(e.panelKeys)));
      }
      TickProof(SwitchKeys, moved);
      if moved {
        moved, stranded := ProvePanel(before);
      }
    }

    method ProvePanel(before: Option<string>) returns (moved: bool, stranded: bool)
      requires Follows() && c.pc == Proof(PanelProve) && c.before == before
      modifies this
      ensures Follows() && Same(old(c), c)
      ensures c.pc == if moved then Retire(Reinstall) else if stranded then Ended(Stranded) else Undo(DropDir)
    {
      stranded := false;
      moved := Run();
      TickProof(PanelProve, moved);
      if !moved {
        var back := Run();
        if back {
          Write(disk.(keys := before));
        }
        TickProof(PutBack, back);
        stranded := !back;
      }
    }

    /** The panel's line on the new generation, proven, or all undone. */
    method Move(before: Option<string>) returns (moved: bool)
      requires Follows() && c.pc == Beside(Install) && c.before == before && !c.reloaded
      modifies this
      ensures Follows() && (moved ==> c.touched == old(c.touched) && c.reload == old(c.reload))
      ensures if moved then c.pc == Retire(Reinstall) else c.pc.Ended? && c.pc.how != Done
    {
      var reloaded;
      moved, reloaded := AddBeside();
      if moved {
        moved := ProveBeside(before);
      }
      if !moved {
        UndoMove(reloaded);
        return;
      }
      var stranded;
      moved, stranded := SwitchTo(before);
      if !moved && !stranded {
        UndoMove(reloaded);
      }
    }

    // --- RETIRE -----------------------------------------------------------------------

    method Reinstalls() returns (touched: bool)
      requires Follows() && c.pc == Retire(Reinstall) && !c.touched && !c.reload
      modifies this
      ensures Follows() && c.pc == Retire(Keys) && c.touched == touched && !c.reload
    {
      if IsIntact(e, disk) {
        TickRetire(Reinstall, true);
        return false;
      }
      if e.gen in disk.dirs {
        Write(disk.(dirs := disk.dirs - {e.gen}));
      }
      TickRetire(Reinstall, true);
      Write(disk.(dirs := disk.dirs[e.gen := Intact]));
      TickRetire(Rerename, true);
      return true;
    }

    method WriteKeys(was: bool) returns (ok: bool, touched: bool)
      requires Follows() && c.pc == Retire(Keys) && c.touched == was && !c.reload
      modifies this
      ensures Follows() && c.pc == (if ok then Retire(Sudo) else Ended(Refused)) && c.touched == touched && !c.reload
    {
      ok, touched := true, was;
      if disk.keys != Some(e.panelKeys) {
        ok := Run();
        if ok {
          Write(disk.(keys := Some(e.panelKeys)));
          touched := true;
        }
      }
      TickRetire(Keys, ok);
    }

    method WriteSudo(was: bool) returns (ok: bool, touched: bool)
      requires Follows() && c.pc == Retire(Sudo) && c.touched == was && !c.reload
      modifies this
      ensures Follows() && c.pc == (if ok then Retire(Accept) else Ended(Refused)) && c.touched == touched && !c.reload
    {
      ok, touched := true, was;
      if disk.sudo != Some(e.Rule()) {
        ok := Run();
        if ok {
          Write(disk.(sudo := Some(e.Rule())));
          touched := true;
        }
      }
      TickRetire(Sudo, ok);
    }

    method PlaceAccept(was: bool) returns (ok: bool, touched: bool, reload: bool)
      requires Follows() && c.pc == Retire(Accept) && c.touched == was && !c.reload
      modifies this
      ensures Follows() && c.pc == (if ok then Retire(SudoNextGone) else Ended(Refused))
      ensures ok ==> c.touched == touched && c.reload == reload
    {
      if disk.accept == Some(e.Accept()) {
        TickRetire(Accept, true);
        return true, was, false;
      }
      var old_ := disk.accept;
      Write(disk.(accept := Some(e.Accept())));
      TickRetire(Accept, true);
      ok := Run();
      if !ok {
        Write(disk.(accept := old_));
      }
      TickRetire(AcceptTested(old_), ok);
      return ok, true, true;
    }

    /** The -next files go; sshd reloads when a drop-in changed. */
    method DropNext(touched0: bool, reload0: bool) returns (ok: bool, touched: bool)
      requires Follows() && c.pc == Retire(SudoNextGone) && c.touched == touched0 && c.reload == reload0
      modifies this
      ensures Follows() && c.pc == (if ok then Retire(FinalProve) else Ended(Refused)) && c.touched == touched
    {
      touched := touched0;
      if disk.sudoNext.Some? {
        Write(disk.(sudoNext := None));
        touched := true;
      }
      TickRetire(SudoNextGone, true);
      ok, touched := DropAcceptNext(touched, reload0);
    }

    method DropAcceptNext(touched0: bool, reload0: bool) returns (ok: bool, touched: bool)
      requires Follows() && c.pc == Retire(AcceptNextGone) && c.touched == touched0 && c.reload == reload0
      modifies this
      ensures Follows() && c.pc == (if ok then Retire(FinalProve) else Ended(Refused)) && c.touched == touched
    {
      touched := touched0;
      var reload := reload0;
      if disk.acceptNext.Some? {
        Write(disk.(acceptNext := None));
        touched, reload := true, true;
      }
      TickRetire(AcceptNextGone, true);
      ok := true;
      if reload {
        ok := Run();
        if ok {
          disk := disk.(loaded := Texts(disk));
        }
      }
      TickRetire(Reloading, ok);
    }

    /** The -next rules back in place, after the final proof failed. */
    method PutRulesBack()
      requires Follows() && c.pc == Last(BackSudo)
      modifies this
      ensures Follows() && c.pc == Ended(Refused)
    {
      var ok := true;
      if disk.sudoNext != Some(e.Rule()) {
        ok := Run();
        if ok {
          Write(disk.(sudoNext := Some(e.Rule())));
        }
      }
      TickLast(BackSudo, ok);
      if ok {
        PutAcceptBack();
      }
    }

    method PutAcceptBack()
      requires Follows() && c.pc == Last(BackAccept)
      modifies this
      ensures Follows() && c.pc == Ended(Refused)
    {
      if disk.acceptNext == Some(e.Accept()) {
        TickLast(BackAccept, true);
        return;
      }
      var was := disk.acceptNext;
      Write(disk.(acceptNext := Some(e.Accept())));
      TickLast(BackAccept, true);
      var ok := Run();
      if !ok {
        Write(disk.(acceptNext := was));
      }
      TickLast(BackTest(was), ok);
      if ok {
        ok := Run();
        if ok {
          disk := disk.(loaded := Texts(disk));
        }
        TickLast(BackReload, ok);
      }
    }

    /** The link, then every other generation's directory, then proof keys a killed run left. */
    method Tidy()
      requires Follows() && c.pc == Last(Link)
      modifies this
      ensures Follows() && c.pc == Ended(Done)
    {
      if disk.link != Some(e.linkTo) {
        Write(disk.(link := Some(e.linkTo)));
      }
      TickLast(Link, true);
      RemoveOthers();
      disk := disk.(proofs := 0);
      TickLast(Stale, true);
    }

    method RemoveOthers()
      requires Follows() && c.pc == Last(OthersGone)
      modifies this
      ensures Follows() && c.pc == Last(Stale)
    {
      var others := disk.dirs.Keys - {e.gen};
      while others != {}
        invariant Follows() && c.pc == Last(OthersGone) && others == Others(e, disk)
        decreases |others|
      {
        var other := Least(others);
        RemoveOther(other);
        others := others - {other};
      }
      TickLast(OthersGone, true);
    }

    method RemoveOther(other: string)
      requires Follows() && c.pc == Last(OthersGone) && Others(e, disk) != {} && other == Least(Others(e, disk))
      modifies this
      ensures Follows() && c.pc == Last(OthersGone) && Others(e, disk) == Others(e, old(disk)) - {other}
    {
      assert (disk.dirs - {other}).Keys == disk.dirs.Keys - {other};
      Write(disk.(dirs := disk.dirs - {other}));
      TickLast(OthersGone, true);
    }

    method Retires() returns (ok: bool)
      requires Follows() && c.pc == Retire(Reinstall) && !c.touched && !c.reload
      modifies this
      ensures Follows() && c.pc.Ended? && (ok <==> c.pc == Ended(Done))
    {
      var reload := false;
      var touched := Reinstalls();
      ok, touched := WriteKeys(touched);
      if !ok { return; }
      ok, touched := WriteSudo(touched);
      if !ok { return; }
      ok, touched, reload := PlaceAccept(touched);
      if !ok { return; }
      ok, touched := DropNext(touched, reload);
      if !ok { return; }
      if touched {
        ok := Run();
      }
      TickRetire(FinalProve, ok);
      if ok {
        Tidy();
      } else {
        PutRulesBack();
      }
    }

    /** The whole switch: it ends where the machine does, fed what its commands answered. */
    method Switch() returns (ok: bool)
      requires Follows() && c == Begin(d0)
      modifies this
      ensures Follows() && c.pc.Ended? && (ok <==> c.pc == Ended(Done))
      ensures Renders(e) && StartsWell(e, d0) ==>
        forall i :: 0 <= i <= |fed| ==> Served(e, After(e, d0, fed[..i]).d)
    {
      var before := disk.keys;
      var running := e.running(before);
      Tick(Step(e, c, true), true);
      ok := true;
      if running != Generation(e.gen) {
        ok := Move(before);
      }
      if ok {
        ok := Retires();
      }
      if Renders(e) && StartsWell(e, d0) {
        forall i | 0 <= i <= |fed| ensures Served(e, After(e, d0, fed[..i]).d) {
          InvIter(e, d0, fed[..i]);
          InvServed(e, After(e, d0, fed[..i]));
        }
      }
    }
  }
}
