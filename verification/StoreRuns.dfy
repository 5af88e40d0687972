/** Writers of the on-box store under its lock: every interleaving, killed or not, is
    some order of whole updates. */
module StoreRuns {
  import opened Strings
  import opened OnboxStore

  /** `others` are the top-level blocks other programs own. */
  datatype File = Absent | Malformed | Doc(store: Store, others: map<string, string>)

  datatype Job =
    | Converge(inputs: Inputs, overwrite: bool, mint: Mint, draw: Key -> string)
    | Panel(secrets: Section, config: Section)
    | Engine(block: string, content: string)
    | Rekey(password: string)

  datatype Writer = Writer(job: Job, locks: bool)

  const RESTIC := Named("backup_restic_password")

  // --- one writer's whole update ------------------------------------------------------

  function Load(file: File): Option<Store> {
    match file case Absent => Some(Store(map[], map[])) case Malformed => None case Doc(s, _) => Some(s)
  }

  /** The two sections over whatever else the file holds now. */
  function Dump(s: Store, now: File): Option<File> {
    match now case Absent => Some(Doc(s, map[])) case Malformed => None case Doc(_, others) => Some(Doc(s, others))
  }

  function Changed(reg: Registry, job: Job, s: Store): Option<Store>
    requires !job.Engine?
  {
    match job
    case Converge(i, overwrite, mint, draw) => Converged(reg, s, i, overwrite, mint, draw)
    case Panel(secrets, config) => Applied(reg, s, secrets, config, true)
    case Rekey(password) => Some(s.(secrets := s.secrets[RESTIC := Text(password)]))
  }

  /** What the writer stages: its change to what it `read`, dumped over what is there `now`. */
  function Prepared(reg: Registry, job: Job, read: File, now: File): Option<File> {
    match job
    case Engine(block, content) =>
      (match Load(read)
       case None => None
       case Some(s) => Some(Doc(s, (if read.Doc? then read.others else map[])[block := content])))
    case _ =>
      match Load(read)
      case None => None
      case Some(s) => match Changed(reg, job, s) case None => None case Some(t) => Dump(t, now)
  }

  /** The update as one step. */
  function Atomic(reg: Registry, job: Job, file: File): File {
    match Prepared(reg, job, file, file) case None => file case Some(doc) => doc
  }

  /** The updates of `log`, one after the other. */
  function Fold(reg: Registry, ws: seq<Writer>, file: File, log: seq<nat>): File
    requires forall k :: 0 <= k < |log| ==> log[k] < |ws|
  {
    if log == [] then file
    else Atomic(reg, ws[log[|log| - 1]].job, Fold(reg, ws, file, log[..|log| - 1]))
  }

  // --- the writers side by side -----------------------------------------------------------

  /** Where a writer stands: before the lock, with it, past its read, with the temporary
      file written, past the rename, gone. */
  datatype Stage = Idle | Holding | Read(file: File) | Staged(doc: File) | Renamed | Done(wrote: bool)

  datatype System = System(file: File, holder: Option<nat>, stages: seq<Stage>, log: seq<nat>)

  /** Whose turn it is, and whether the turn kills it. */
  datatype Turn = Turn(writer: nat, kill: bool)

  function Start(ws: seq<Writer>, file: File): System {
    System(file, None, seq(|ws|, _ => Idle), [])
  }

  function Leave(y: System, p: nat, wrote: bool): System
    requires p < |y.stages|
  {
    y.(holder := if y.holder == Some(p) then None else y.holder, stages := y.stages[p := Done(wrote)])
  }

  /** One turn. A writer that finds the lock held stays where it is. */
  function Next(reg: Registry, ws: seq<Writer>, y: System, turn: Turn): System
    requires |y.stages| == |ws|
  {
    var p := turn.writer;
    if p >= |ws| then y
    else if y.stages[p].Done? then y
    else if turn.kill then Leave(y, p, y.stages[p].Renamed?)
    else
      match y.stages[p]
      case Idle =>
        if !ws[p].locks then y.(stages := y.stages[p := Holding])
        else if y.holder == None then y.(holder := Some(p), stages := y.stages[p := Holding])
        else y
      case Holding => if y.file.Malformed? then Leave(y, p, false) else y.(stages := y.stages[p := Read(y.file)])
      case Read(read) =>
        (match Prepared(reg, ws[p].job, read, y.file)
         case None => Leave(y, p, false)
         case Some(doc) => y.(stages := y.stages[p := Staged(doc)]))
      case Staged(doc) => y.(file := doc, stages := y.stages[p := Renamed], log := y.log + [p])
      case Renamed => Leave(y, p, true)
  }

  function After(reg: Registry, ws: seq<Writer>, file: File, turns: seq<Turn>): (y: System)
    ensures |y.stages| == |ws|
  {
    if turns == [] then Start(ws, file)
    else Next(reg, ws, After(reg, ws, file, turns[..|turns| - 1]), turns[|turns| - 1])
  }

  ghost predicate AllLock(ws: seq<Writer>) {
    forall p :: 0 <= p < |ws| ==> ws[p].locks
  }

  predicate Inside(s: Stage) {
    s.Holding? || s.Read? || s.Staged? || s.Renamed?
  }

  /** What a stage promises of the file while its writer holds the lock. */
  predicate Current(reg: Registry, job: Job, file: File, s: Stage) {
    match s
    case Read(read) => read == file
    case Staged(doc) => Prepared(reg, job, file, file) == Some(doc)
    case _ => true
  }

  ghost predicate Inv(reg: Registry, ws: seq<Writer>, start: File, y: System) {
    && |y.stages| == |ws|
    && (forall p :: 0 <= p < |ws| ==> (Inside(y.stages[p]) ==> y.holder == Some(p)))
    && (forall p :: 0 <= p < |ws| ==> Current(reg, ws[p].job, y.file, y.stages[p]))
    && Logged(ws, y) && y.file == Fold(reg, ws, start, y.log)
  }

  /** The log holds the writers that got to their rename, each once. */
  ghost predicate Logged(ws: seq<Writer>, y: System)
    requires |y.stages| == |ws|
  {
    && (forall p: nat :: p in y.log <==> p < |ws| && (y.stages[p].Renamed? || y.stages[p] == Done(true)))
    && (forall j, k :: 0 <= j < k < |y.log| ==> y.log[j] != y.log[k])
    && (forall k :: 0 <= k < |y.log| ==> y.log[k] < |ws|)
  }

  lemma LogMore(ws: seq<Writer>, y: System, p: nat, doc: File)
    requires |y.stages| == |ws| && Logged(ws, y) && p < |ws| && y.stages[p] == Staged(doc)
    ensures Logged(ws, y.(file := doc, stages := y.stages[p := Renamed], log := y.log + [p]))
  {
    assert p !in y.log;
  }

  lemma FoldMore(reg: Registry, ws: seq<Writer>, file: File, log: seq<nat>, p: nat)
    requires (forall k :: 0 <= k < |log| ==> log[k] < |ws|) && p < |ws|
    ensures Fold(reg, ws, file, log + [p]) == Atomic(reg, ws[p].job, Fold(reg, ws, file, log))
  {
    var more := log + [p];
    assert more[..|more| - 1] == log;
  }

  /** A turn that leaves the file alone. */
  lemma StageKeeps(reg: Registry, ws: seq<Writer>, start: File, y: System, p: nat, s: Stage, holder: Option<nat>)
    requires Inv(reg, ws, start, y) && p < |ws|
    requires Current(reg, ws[p].job, y.file, s) && (Inside(s) ==> holder == Some(p))
    requires holder == y.holder || ((y.holder == None || y.holder == Some(p)) && (holder == None || holder == Some(p)))
    requires (s.Renamed? || s == Done(true)) <==> (y.stages[p].Renamed? || y.stages[p] == Done(true))
    ensures Inv(reg, ws, start, y.(holder := holder, stages := y.stages[p := s]))
  {
  }

  /** Every other writer is outside, so its promise stands. */
  lemma OthersOutside(reg: Registry, ws: seq<Writer>, start: File, y: System, p: nat, doc: File)
    requires Inv(reg, ws, start, y) && p < |ws| && y.stages[p] == Staged(doc)
    ensures y.holder == Some(p) && doc == Atomic(reg, ws[p].job, y.file)
    ensures forall q :: 0 <= q < |ws| && q != p ==> !Inside(y.stages[q])
  {
    assert y.holder == Some(p);
  }

  /** The rename. */
  lemma RenameKeeps(reg: Registry, ws: seq<Writer>, start: File, y: System, p: nat, doc: File)
    requires Inv(reg, ws, start, y) && p < |ws| && y.stages[p] == Staged(doc)
    ensures Inv(reg, ws, start, y.(file := doc, stages := y.stages[p := Renamed], log := y.log + [p]))
  {
    OthersOutside(reg, ws, start, y, p, doc);
    LogMore(ws, y, p, doc);
    FoldMore(reg, ws, start, y.log, p);
  }

  lemma NextKeeps(reg: Registry, ws: seq<Writer>, start: File, y: System, turn: Turn)
    requires AllLock(ws) && Inv(reg, ws, start, y)
    ensures Inv(reg, ws, start, Next(reg, ws, y, turn))
  {
    var p := turn.writer;
    if p < |ws| && !y.stages[p].Done? {
      if turn.kill {
        LeaveKeeps(reg, ws, start, y, p, y.stages[p].Renamed?);
      } else {
        TurnKeeps(reg, ws, start, y, p, y.stages[p]);
      }
    }
  }

  lemma LeaveKeeps(reg: Registry, ws: seq<Writer>, start: File, y: System, p: nat, wrote: bool)
    requires Inv(reg, ws, start, y) && p < |ws| && !y.stages[p].Done? && (wrote <==> y.stages[p].Renamed?)
    ensures Inv(reg, ws, start, Leave(y, p, wrote))
  {
    StageKeeps(reg, ws, start, y, p, Done(wrote), if y.holder == Some(p) then None else y.holder);
  }

  lemma TurnKeeps(reg: Registry, ws: seq<Writer>, start: File, y: System, p: nat, s: Stage)
    requires AllLock(ws) && Inv(reg, ws, start, y) && p < |ws| && s == y.stages[p] && !s.Done?
    ensures Inv(reg, ws, start, Next(reg, ws, y, Turn(p, false)))
  {
    match s
    case Idle => if y.holder == None { StageKeeps(reg, ws, start, y, p, Holding, Some(p)); }
    case Holding =>
      if y.file.Malformed? { LeaveKeeps(reg, ws, start, y, p, false); } else { StageKeeps(reg, ws, start, y, p, Read(y.file), y.holder); }
    case Read(read) =>
      assert Current(reg, ws[p].job, y.file, y.stages[p]);
      match Prepared(reg, ws[p].job, read, y.file) {
        case None => LeaveKeeps(reg, ws, start, y, p, false);
        case Some(doc) => StageKeeps(reg, ws, start, y, p, Staged(doc), y.holder);
      }
    case Staged(doc) => RenameKeeps(reg, ws, start, y, p, doc);
    case Renamed => LeaveKeeps(reg, ws, start, y, p, true);
  }

  lemma {:induction false} AfterKeeps(reg: Registry, ws: seq<Writer>, file: File, turns: seq<Turn>)
    requires AllLock(ws)
    ensures Inv(reg, ws, file, After(reg, ws, file, turns))
    decreases |turns|
  {
    if turns != [] {
      AfterKeeps(reg, ws, file, turns[..|turns| - 1]);
      NextKeeps(reg, ws, file, After(reg, ws, file, turns[..|turns| - 1]), turns[|turns| - 1]);
    }
  }

  /** Under the lock, whatever the order of turns and kills: the file is what the writers
      that got to their rename make of it one after the other, each once, and no other
      writer has left a trace. */
  lemma RunsAreSerial(reg: Registry, ws: seq<Writer>, file: File, turns: seq<Turn>)
    requires AllLock(ws)
    ensures var y := After(reg, ws, file, turns);
            && (forall p: nat :: p in y.log <==> p < |ws| && (y.stages[p].Renamed? || y.stages[p] == Done(true)))
            && (forall j, k :: 0 <= j < k < |y.log| ==> y.log[j] != y.log[k])
            && (forall k :: 0 <= k < |y.log| ==> y.log[k] < |ws|)
            && y.file == Fold(reg, ws, file, y.log)
  {
    AfterKeeps(reg, ws, file, turns);
  }

  /** No writer gets past its read of a file that is no store. */
  predicate Stuck(y: System) {
    y.file == Malformed && forall p :: 0 <= p < |y.stages| ==> y.stages[p] in {Idle, Holding, Done(false)}
  }

  lemma StuckStays(reg: Registry, ws: seq<Writer>, y: System, turn: Turn)
    requires |y.stages| == |ws| && Stuck(y)
    ensures Stuck(Next(reg, ws, y, turn)) && Next(reg, ws, y, turn).log == y.log
  {
  }

  /** A file that is no store is left as it is by any writers, locking or not. */
  lemma {:induction false} MalformedStays(reg: Registry, ws: seq<Writer>, turns: seq<Turn>)
    ensures Stuck(After(reg, ws, Malformed, turns)) && After(reg, ws, Malformed, turns).log == []
    decreases |turns|
  {
    if turns != [] {
      MalformedStays(reg, ws, turns[..|turns| - 1]);
      StuckStays(reg, ws, After(reg, ws, Malformed, turns[..|turns| - 1]), turns[|turns| - 1]);
    }
  }
}
