/** What stands at the end of any interleaving of the store's writers. */
module StoreSafety {
  import opened Strings
  import opened OnboxStore
  import opened StoreConverge
  import opened StoreRuns
  import opened StoreMeaning

  /** A converge that only fills; no writer stores a blank restic password. */
  ghost predicate Ordinary(reg: Registry, ws: seq<Writer>) {
    forall p :: 0 <= p < |ws| ==> OrdinaryJob(reg, ws[p].job)
  }

  ghost predicate OrdinaryJob(reg: Registry, job: Job) {
    match job
    case Converge(_, overwrite, _, draw) => !overwrite && Draws(draw)
    case Rekey(password) => !Blank(Text(password))
    case _ => true
  }

  function Secret(file: File, k: Key): Value {
    if file.Doc? then Get(file.store.secrets, k) else Null
  }

  function Setting(file: File, k: Key): Value {
    if file.Doc? then Get(file.store.config, k) else Null
  }

  /** A text a minter or a client put there. */
  predicate Set(v: Value) {
    v.Text? && !Blank(v)
  }

  lemma SetIsTruthy(v: Value)
    requires Set(v)
    ensures Truthy(v)
  {
  }

  // --- a secret minted on the box --------------------------------------------------------

  lemma ConvergedKeeps(reg: Registry, s: Store, i: Inputs, mint: Mint, draw: Key -> string, k: Key)
    requires k != Tokens && Set(Get(s.secrets, k)) && Converged(reg, s, i, false, mint, draw).Some?
    ensures Get(Converged(reg, s, i, false, mint, draw).value.secrets, k) == Get(s.secrets, k)
  {
    ConvergedIs(reg, s, i, mint, draw);
    GivenKeeps(reg, s, i, k);
    var g := Settled(reg, Given(reg, s, i));
    MintedKeeps(g.secrets, Wanted(reg, g.config, mint), draw, k);
  }

  lemma GivenKeeps(reg: Registry, s: Store, i: Inputs, k: Key)
    requires k != Tokens && Set(Get(s.secrets, k))
    ensures Get(Given(reg, s, i).secrets, k) == Get(s.secrets, k)
  {
    SetIsTruthy(Get(s.secrets, k));
    var a := Adopted(s, i);
    ShownStays(reg, s.secrets, i.adopted, k);
    var p := Preserved(reg, a, i.config);
    PreservedKeeps(reg, a, i.config, k);
    ShownStays(reg, p.secrets, i.secrets, k);
  }

  lemma PreservedKeeps(reg: Registry, s: Store, given: Section, k: Key)
    requires k != Tokens
    ensures Get(Preserved(reg, s, given).secrets, k) == Get(s.secrets, k)
  {
  }

  lemma MintedKeeps(m: Section, keys: set<Key>, draw: Key -> string, k: Key)
    requires Set(Get(m, k))
    ensures Get(Minted(m, keys, draw), k) == Get(m, k)
  {
  }

  lemma AppliedKeeps(reg: Registry, s: Store, secrets: Section, config: Section, k: Key)
    requires k != Tokens && k !in secrets && Applied(reg, s, secrets, config, true).Some?
    ensures Get(Applied(reg, s, secrets, config, true).value.secrets, k) == Get(s.secrets, k)
  {
  }

  /** Whether the job may write the secret `k` over a set one. */
  predicate Writes(job: Job, k: Key) {
    match job
    case Panel(secrets, _) => k in secrets
    case Rekey(_) => k == RESTIC
    case _ => false
  }

  lemma AtomicKeepsSecret(reg: Registry, job: Job, file: File, k: Key)
    requires OrdinaryJob(reg, job) && k != Tokens && !Writes(job, k) && Set(Secret(file, k))
    ensures Secret(Atomic(reg, job, file), k) == Secret(file, k)
  {
    var s := file.store;
    match job
    case Converge(i, _, mint, draw) =>
      if Converged(reg, s, i, false, mint, draw).Some? { ConvergedKeeps(reg, s, i, mint, draw, k); }
    case Panel(secrets, config) =>
      if Applied(reg, s, secrets, config, true).Some? { AppliedKeeps(reg, s, secrets, config, k); }
    case Engine(_, _) =>
    case Rekey(_) =>
  }

  /** The writers of `log` from the `n`-th on leave `k` alone. */
  ghost predicate Untouched(ws: seq<Writer>, log: seq<nat>, n: nat, k: Key)
    requires forall j :: 0 <= j < |log| ==> log[j] < |ws|
  {
    forall j :: n <= j < |log| ==> !Writes(ws[log[j]].job, k)
  }

  lemma {:induction false} FoldKeepsSecret(reg: Registry, ws: seq<Writer>, file: File, log: seq<nat>, n: nat, k: Key)
    requires (forall j :: 0 <= j < |log| ==> log[j] < |ws|) && n <= |log|
    requires Ordinary(reg, ws) && k != Tokens && Untouched(ws, log, n, k) && Set(Secret(Fold(reg, ws, file, log[..n]), k))
    ensures Secret(Fold(reg, ws, file, log), k) == Secret(Fold(reg, ws, file, log[..n]), k)
    decreases |log|
  {
    if |log| == n {
      assert log[..n] == log;
    } else {
      var less := log[..|log| - 1];
      assert less[..n] == log[..n];
      FoldKeepsSecret(reg, ws, file, less, n, k);
      AtomicKeepsSecret(reg, ws[log[|log| - 1]].job, Fold(reg, ws, file, less), k);
    }
  }

  /** A secret the box minted, once it is set, no converge that fills, no panel write and
      no other writer changes, however they interleave and wherever they are killed. */
  lemma MintedSecretNeverChanges(reg: Registry, ws: seq<Writer>, file: File, turns: seq<Turn>, k: Key)
    requires AllLock(ws) && Ordinary(reg, ws)
    requires k !in reg.external && k != Tokens && k != RESTIC && Set(Secret(file, k))
    ensures Secret(After(reg, ws, file, turns).file, k) == Secret(file, k)
  {
    RunsAreSerial(reg, ws, file, turns);
    var log := After(reg, ws, file, turns).log;
    assert log[..0] == [];
    FoldKeepsMinted(reg, ws, file, log, k);
  }

  lemma {:induction false} FoldKeepsMinted(reg: Registry, ws: seq<Writer>, file: File, log: seq<nat>, k: Key)
    requires forall j :: 0 <= j < |log| ==> log[j] < |ws|
    requires Ordinary(reg, ws) && k !in reg.external && k != Tokens && k != RESTIC && Set(Secret(file, k))
    ensures Secret(Fold(reg, ws, file, log), k) == Secret(file, k)
    decreases |log|
  {
    if log != [] {
      var less := log[..|log| - 1];
      FoldKeepsMinted(reg, ws, file, less, k);
      var job, mid := ws[log[|log| - 1]].job, Fold(reg, ws, file, less);
      if Writes(job, k) {
        RefusedWrite(reg, job, mid, k);
      } else {
        AtomicKeepsSecret(reg, job, mid, k);
      }
    }
  }

  /** A panel write that names a key which is not the client's writes nothing at all. */
  lemma RefusedWrite(reg: Registry, job: Job, file: File, k: Key)
    requires job.Panel? && k in job.secrets && k !in reg.external
    ensures Atomic(reg, job, file) == file
  {
    assert !(job.secrets.Keys <= reg.external);
  }

  // --- updates of different keys both stand -------------------------------------------------

  lemma FoldNotMalformed(reg: Registry, ws: seq<Writer>, file: File, log: seq<nat>)
    requires (forall j :: 0 <= j < |log| ==> log[j] < |ws|) && !file.Malformed?
    ensures !Fold(reg, ws, file, log).Malformed?
    decreases |log|
  {
    if log != [] { FoldNotMalformed(reg, ws, file, log[..|log| - 1]); }
  }

  lemma PanelWritesSecret(reg: Registry, file: File, secrets: Section, config: Section, k: Key)
    requires !file.Malformed? && secrets.Keys <= reg.external && k in secrets && !Blank(secrets[k])
    ensures Secret(Atomic(reg, Panel(secrets, config), file), k) == secrets[k]
  {
  }

  lemma SavedByLast(reg: Registry, ws: seq<Writer>, file: File, log: seq<nat>, p: nat, secrets: Section, config: Section, k: Key)
    requires (forall j :: 0 <= j < |log| ==> log[j] < |ws|) && p < |ws| && !file.Malformed?
    requires ws[p].job == Panel(secrets, config) && secrets.Keys <= reg.external && k in secrets && Set(secrets[k])
    ensures Secret(Fold(reg, ws, file, log + [p]), k) == secrets[k]
  {
    FoldNotMalformed(reg, ws, file, log);
    FoldMore(reg, ws, file, log, p);
    PanelWritesSecret(reg, Fold(reg, ws, file, log), secrets, config, k);
  }

  lemma SavedInFold(reg: Registry, ws: seq<Writer>, file: File, log: seq<nat>, n: nat, secrets: Section, config: Section, k: Key)
    requires (forall j :: 0 <= j < |log| ==> log[j] < |ws|) && n < |log| && !file.Malformed?
    requires ws[log[n]].job == Panel(secrets, config) && secrets.Keys <= reg.external && k in secrets && Set(secrets[k])
    ensures Secret(Fold(reg, ws, file, log[..n + 1]), k) == secrets[k]
  {
    assert log[..n + 1] == log[..n] + [log[n]];
    SavedByLast(reg, ws, file, log[..n], log[n], secrets, config, k);
  }

  /** A secret the client saved is there at the end, unless a later save names it too:
      updates of different keys both stand. */
  lemma SavedSecretStands(reg: Registry, ws: seq<Writer>, file: File, turns: seq<Turn>, log: seq<nat>, n: nat,
                          secrets: Section, config: Section, k: Key)
    requires AllLock(ws) && Ordinary(reg, ws) && !file.Malformed? && log == After(reg, ws, file, turns).log
    requires n < |log| && (forall j :: 0 <= j < |log| ==> log[j] < |ws|) && Untouched(ws, log, n + 1, k)
    requires ws[log[n]].job == Panel(secrets, config) && secrets.Keys <= reg.external
    requires k in secrets && Set(secrets[k]) && k != Tokens
    ensures Secret(After(reg, ws, file, turns).file, k) == secrets[k]
  {
    RunsAreSerial(reg, ws, file, turns);
    SavedInFold(reg, ws, file, log, n, secrets, config, k);
    FoldKeepsSecret(reg, ws, file, log, n + 1, k);
  }

  // --- ... and so do settings -----------------------------------------------------------------

  /** The job may write over the setting `k`, `v` being there: a panel write that names it,
      and where `v` is no value, a converge that brings one. */
  predicate Resets(job: Job, k: Key, v: Value) {
    match job
    case Panel(_, config) => k in config
    case Converge(i, _, _, _) => v == Null && k in i.config
    case _ => false
  }

  lemma AtomicKeepsSetting(reg: Registry, job: Job, file: File, k: Key, v: Value)
    requires OrdinaryJob(reg, job) && k != AccessMethod && k != TailnetProvider && !Resets(job, k, v) && Setting(file, k) == v
    ensures Setting(Atomic(reg, job, file), k) == v
  {
    match job
    case Converge(i, _, mint, draw) =>
      if Load(file).Some? && Converged(reg, Load(file).value, i, false, mint, draw).Some? {
        ConvergedSetting(reg, Load(file).value, i, false, mint, draw, k);
      }
    case Panel(secrets, config) =>
      if Load(file).Some? && Applied(reg, Load(file).value, secrets, config, true).Some? {
        WrittenSetting(reg, Load(file).value, secrets, config, k);
      }
    case Engine(_, _) =>
    case Rekey(_) =>
  }

  ghost predicate LeftAlone(ws: seq<Writer>, log: seq<nat>, n: nat, k: Key, v: Value)
    requires forall j :: 0 <= j < |log| ==> log[j] < |ws|
  {
    forall j :: n <= j < |log| ==> !Resets(ws[log[j]].job, k, v)
  }

  lemma {:induction false} FoldKeepsSetting(reg: Registry, ws: seq<Writer>, file: File, log: seq<nat>, n: nat, k: Key, v: Value)
    requires (forall j :: 0 <= j < |log| ==> log[j] < |ws|) && n <= |log|
    requires Ordinary(reg, ws) && k != AccessMethod && k != TailnetProvider && LeftAlone(ws, log, n, k, v)
    requires Setting(Fold(reg, ws, file, log[..n]), k) == v
    ensures Setting(Fold(reg, ws, file, log), k) == v
    decreases |log|
  {
    if |log| == n {
      assert log[..n] == log;
    } else {
      var less := log[..|log| - 1];
      assert less[..n] == log[..n];
      FoldKeepsSetting(reg, ws, file, less, n, k, v);
      AtomicKeepsSetting(reg, ws[log[|log| - 1]].job, Fold(reg, ws, file, less), k, v);
    }
  }

  lemma SettingSaved(reg: Registry, ws: seq<Writer>, file: File, log: seq<nat>, p: nat, secrets: Section, config: Section, k: Key)
    requires (forall j :: 0 <= j < |log| ==> log[j] < |ws|) && p < |ws| && !file.Malformed?
    requires ws[p].job == Panel(secrets, config) && secrets.Keys <= reg.external && k in config
    ensures Setting(Fold(reg, ws, file, log + [p]), k) == config[k]
  {
    FoldNotMalformed(reg, ws, file, log);
    FoldMore(reg, ws, file, log, p);
    var before := Fold(reg, ws, file, log);
    WrittenSetting(reg, Load(before).value, secrets, config, k);
  }

  /** A setting the client saved is there at the end, unless a later save names it too; the
      two that a converge settles are what it settles them to. */
  lemma SavedSettingStands(reg: Registry, ws: seq<Writer>, file: File, turns: seq<Turn>, log: seq<nat>, n: nat,
                           secrets: Section, config: Section, k: Key)
    requires AllLock(ws) && Ordinary(reg, ws) && !file.Malformed? && log == After(reg, ws, file, turns).log
    requires n < |log| && (forall j :: 0 <= j < |log| ==> log[j] < |ws|)
    requires ws[log[n]].job == Panel(secrets, config) && secrets.Keys <= reg.external
    requires k in config && k != AccessMethod && k != TailnetProvider && LeftAlone(ws, log, n + 1, k, config[k])
    ensures Setting(After(reg, ws, file, turns).file, k) == config[k]
  {
    RunsAreSerial(reg, ws, file, turns);
    SettingInFold(reg, ws, file, log, n, secrets, config, k);
    FoldKeepsSetting(reg, ws, file, log, n + 1, k, config[k]);
  }

  lemma SettingInFold(reg: Registry, ws: seq<Writer>, file: File, log: seq<nat>, n: nat, secrets: Section, config: Section, k: Key)
    requires (forall j :: 0 <= j < |log| ==> log[j] < |ws|) && n < |log| && !file.Malformed?
    requires ws[log[n]].job == Panel(secrets, config) && secrets.Keys <= reg.external && k in config
    ensures Setting(Fold(reg, ws, file, log[..n + 1]), k) == config[k]
  {
    assert log[..n + 1] == log[..n] + [log[n]];
    SettingSaved(reg, ws, file, log[..n], log[n], secrets, config, k);
  }

  // --- the blocks of other programs ----------------------------------------------------------

  function Others(file: File): map<string, string> {
    if file.Doc? then file.others else map[]
  }

  /** The engines' own writes among `log`. */
  function Blocks(ws: seq<Writer>, others: map<string, string>, log: seq<nat>): map<string, string>
    requires forall j :: 0 <= j < |log| ==> log[j] < |ws|
  {
    if log == [] then others
    else
      var before := Blocks(ws, others, log[..|log| - 1]);
      match ws[log[|log| - 1]].job
      case Engine(block, content) => before[block := content]
      case _ => before
  }

  lemma {:induction false} FoldKeepsBlocks(reg: Registry, ws: seq<Writer>, file: File, log: seq<nat>)
    requires (forall j :: 0 <= j < |log| ==> log[j] < |ws|) && !file.Malformed?
    ensures Others(Fold(reg, ws, file, log)) == Blocks(ws, Others(file), log)
    decreases |log|
  {
    if log != [] {
      FoldNotMalformed(reg, ws, file, log[..|log| - 1]);
      FoldKeepsBlocks(reg, ws, file, log[..|log| - 1]);
    }
  }

  /** A block of another program is what that program last wrote, whatever the converges
      and the panel do beside it. */
  lemma ForeignBlocksSurvive(reg: Registry, ws: seq<Writer>, file: File, turns: seq<Turn>)
    requires AllLock(ws) && !file.Malformed?
    ensures forall j :: 0 <= j < |After(reg, ws, file, turns).log| ==> After(reg, ws, file, turns).log[j] < |ws|
    ensures Others(After(reg, ws, file, turns).file) == Blocks(ws, Others(file), After(reg, ws, file, turns).log)
  {
    RunsAreSerial(reg, ws, file, turns);
    FoldKeepsBlocks(reg, ws, file, After(reg, ws, file, turns).log);
  }

  // --- without the lock -----------------------------------------------------------------------

  /** The re-key script saves what it loaded, and takes no lock. A panel write that goes
      through in between is gone, whatever it saved and whatever the file held: the file
      is what the re-key alone makes of it, and that is what both writes would have made
      of it exactly when the panel's changed no setting and no other secret. */
  lemma UnlockedSaveLosesAnother(reg: Registry, file: File, password: string, secrets: Section, config: Section)
    requires !file.Malformed? && Applied(reg, Load(file).value, secrets, config, true).Some?
    ensures var ws := [Writer(Rekey(password), false), Writer(Panel(secrets, config), true)];
            var a, b := Turn(0, false), Turn(1, false);
            var y := After(reg, ws, file, [a, a, b, b, b, b, b, a, a]);
            var s, t := Load(file).value, Applied(reg, Load(file).value, secrets, config, true).value;
            && y.stages == [Renamed, Done(true)] && y.log == [1, 0]
            && y.file == Atomic(reg, Rekey(password), file)
            && (y.file == Fold(reg, ws, file, y.log) <==> t.config == s.config && t.secrets - {RESTIC} == s.secrets - {RESTIC})
  {
    var ws := [Writer(Rekey(password), false), Writer(Panel(secrets, config), true)];
    var s, t := Load(file).value, Applied(reg, Load(file).value, secrets, config, true).value;
    var others := Others(file);
    var mid, last := Doc(t, others), Doc(s.(secrets := s.secrets[RESTIC := Text(password)]), others);
    LastSaveWins(reg, ws, file, mid, last);
    BothInTurn(reg, ws, file, mid);
    SameBut(t.secrets, s.secrets, RESTIC, Text(password));
  }

  lemma BothInTurn(reg: Registry, ws: seq<Writer>, file: File, mid: File)
    requires |ws| == 2 && Atomic(reg, ws[1].job, file) == mid
    ensures Fold(reg, ws, file, [1, 0]) == Atomic(reg, ws[0].job, mid)
  {
    assert [1, 0][..1] == [1] && [1][..0] == [];
    assert Fold(reg, ws, file, []) == file;
    assert Fold(reg, ws, file, [1]) == mid;
  }

  lemma SameBut(m: Section, n: Section, k: Key, v: Value)
    ensures m[k := v] == n[k := v] <==> m - {k} == n - {k}
  {
    assert m - {k} == m[k := v] - {k} && n - {k} == n[k := v] - {k};
    assert (m - {k})[k := v] == m[k := v] && (n - {k})[k := v] == n[k := v];
  }

  /** One writer reads, another runs through, and the first one writes. */
  lemma LastSaveWins(reg: Registry, ws: seq<Writer>, file: File, mid: File, last: File)
    requires |ws| == 2 && !ws[0].locks && ws[1].locks && !file.Malformed?
    requires Prepared(reg, ws[1].job, file, file) == Some(mid) && Prepared(reg, ws[0].job, file, mid) == Some(last)
    ensures var a, b := Turn(0, false), Turn(1, false);
            After(reg, ws, file, [a, a, b, b, b, b, b, a, a]) == System(last, None, [Renamed, Done(true)], [1, 0])
  {
    var a, b := Turn(0, false), Turn(1, false);
    var y := System(mid, None, [Read(file), Done(true)], [1]);
    var staged := System(mid, None, [Staged(last), Done(true)], [1]);
    var renamed := System(last, None, [Renamed, Done(true)], [1, 0]);
    QuickRuns(reg, ws, file, mid);
    SlowSaves(reg, ws, file, mid, last);
    TwoMore(reg, ws, file, [a, a, b, b, b, b, b], a, y, staged, renamed);
    assert [a, a, b, b, b, b, b] + [a] + [a] == [a, a, b, b, b, b, b, a, a];
  }

  lemma SlowSaves(reg: Registry, ws: seq<Writer>, file: File, mid: File, last: File)
    requires |ws| == 2 && Prepared(reg, ws[0].job, file, mid) == Some(last)
    ensures var staged := System(mid, None, [Staged(last), Done(true)], [1]);
            && Next(reg, ws, System(mid, None, [Read(file), Done(true)], [1]), Turn(0, false)) == staged
            && Next(reg, ws, staged, Turn(0, false)) == System(last, None, [Renamed, Done(true)], [1, 0])
  {
  }

  lemma QuickSaves(reg: Registry, ws: seq<Writer>, file: File, mid: File)
    requires |ws| == 2 && ws[1].locks
    ensures var staged, renamed := System(file, Some(1), [Read(file), Staged(mid)], []), System(mid, Some(1), [Read(file), Renamed], [1]);
            && Next(reg, ws, staged, Turn(1, false)) == renamed
            && Next(reg, ws, renamed, Turn(1, false)) == System(mid, None, [Read(file), Done(true)], [1])
  {
  }

  lemma QuickReads(reg: Registry, ws: seq<Writer>, file: File, mid: File)
    requires |ws| == 2 && ws[1].locks && !file.Malformed? && Prepared(reg, ws[1].job, file, file) == Some(mid)
    ensures var held, read := System(file, Some(1), [Read(file), Holding], []), System(file, Some(1), [Read(file), Read(file)], []);
            && Next(reg, ws, System(file, None, [Read(file), Idle], []), Turn(1, false)) == held
            && Next(reg, ws, held, Turn(1, false)) == read
            && Next(reg, ws, read, Turn(1, false)) == System(file, Some(1), [Read(file), Staged(mid)], [])
  {
  }

  lemma SlowReads(reg: Registry, ws: seq<Writer>, file: File)
    requires |ws| == 2 && !ws[0].locks && !file.Malformed?
    ensures After(reg, ws, file, [Turn(0, false), Turn(0, false)]) == System(file, None, [Read(file), Idle], [])
  {
    var a := Turn(0, false);
    var y, held := System(file, None, [Idle, Idle], []), System(file, None, [Holding, Idle], []);
    assert After(reg, ws, file, []) == y;
    assert Next(reg, ws, y, a) == held;
    TwoMore(reg, ws, file, [], a, y, held, System(file, None, [Read(file), Idle], []));
    assert [] + [a] + [a] == [a, a];
  }

  lemma QuickRuns(reg: Registry, ws: seq<Writer>, file: File, mid: File)
    requires |ws| == 2 && !ws[0].locks && ws[1].locks && !file.Malformed?
    requires Prepared(reg, ws[1].job, file, file) == Some(mid)
    ensures var a, b := Turn(0, false), Turn(1, false);
            After(reg, ws, file, [a, a, b, b, b, b, b]) == System(mid, None, [Read(file), Done(true)], [1])
  {
    var a, b := Turn(0, false), Turn(1, false);
    var held, read := System(file, Some(1), [Read(file), Holding], []), System(file, Some(1), [Read(file), Read(file)], []);
    var staged, renamed := System(file, Some(1), [Read(file), Staged(mid)], []), System(mid, Some(1), [Read(file), Renamed], [1]);
    SlowReads(reg, ws, file);
    QuickReads(reg, ws, file, mid);
    QuickSaves(reg, ws, file, mid);
    TwoMore(reg, ws, file, [a, a], b, System(file, None, [Read(file), Idle], []), held, read);
    OneMoreTurn(reg, ws, file, [a, a] + [b] + [b], b, read, staged);
    TwoMore(reg, ws, file, [a, a] + [b] + [b] + [b], b, staged, renamed, System(mid, None, [Read(file), Done(true)], [1]));
    assert [a, a] + [b] + [b] + [b] + [b] + [b] == [a, a, b, b, b, b, b];
  }

  lemma OneMoreTurn(reg: Registry, ws: seq<Writer>, file: File, turns: seq<Turn>, turn: Turn, y: System, z: System)
    requires After(reg, ws, file, turns) == y && |y.stages| == |ws| && Next(reg, ws, y, turn) == z
    ensures After(reg, ws, file, turns + [turn]) == z
  {
    Unfold(reg, ws, file, turns, turn);
  }

  lemma TwoMore(reg: Registry, ws: seq<Writer>, file: File, turns: seq<Turn>, turn: Turn, y: System, z: System, x: System)
    requires After(reg, ws, file, turns) == y && |y.stages| == |z.stages| == |ws|
    requires Next(reg, ws, y, turn) == z && Next(reg, ws, z, turn) == x
    ensures After(reg, ws, file, turns + [turn] + [turn]) == x
  {
    OneMoreTurn(reg, ws, file, turns, turn, y, z);
    OneMoreTurn(reg, ws, file, turns + [turn], turn, z, x);
  }

  lemma Unfold(reg: Registry, ws: seq<Writer>, file: File, turns: seq<Turn>, turn: Turn)
    ensures After(reg, ws, file, turns + [turn]) == Next(reg, ws, After(reg, ws, file, turns), turn)
  {
    assert (turns + [turn])[..|turns|] == turns;
  }
}
