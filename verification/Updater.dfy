/** The release transaction, one durable write or outside effect per step. A step may succeed, raise or be cut short by
    a crash; a run is any sequence of such fates, across any number of update checks. */
module Updater {
  import opened Wrappers
  import opened Selection

  // ----- the machine

  /** Accepted user rows are only ever appended; everything else a migration may do is `schema`. */
  datatype Database = Database(schema: int, rows: seq<int>)

  datatype Path = ReleaseDir(tag: Tag) | Manual(name: string)

  datatype Checkpoint = Checkpoint(images: map<string, string>, database: Database, config: int)

  datatype Phase = Preparing | ChangingPhase | TrafficCommitted | ManualRecovery

  /** The content of transaction.json. */
  datatype Tx = Tx(tag: Tag, commit: Commit, published: Time, previous: Option<Path>, phase: Phase)

  /** What survives a crash. `serving` is the public ingress with its workers: while it is up, users write. */
  datatype Disk = Disk(
    journal: Option<Tx>, state: State, current: Option<Path>, images: map<string, string>, database: Database,
    config: int, checkpoints: map<Tag, Checkpoint>, manifests: map<Path, Manifest>, serving: bool)

  /** Where the process is: the next step of the updater's methods. */
  datatype Pc =
    // interrupted()
    | Enter | DropFinished | MarkBlocked | MarkInterruptedBefore | MarkInterruptedRestored | DropInterrupted
    // resume_previous() and recover()
    | ResumePoint | ResumeAdmit
    | RecoverVerify | RecoverFence | RecoverPoint | RecoverImages | RecoverDatabase | RecoverConfig | RecoverAdmit
    | RecoverHealth
    // check() and apply()
    | Select | Resolve | Observe | Descend | Stage | OpenJournal | MarkApplying | CheckRunning | Fence | Backup
    | BeginChanging | PointNew | SetImages | Bootstrap | CheckHealth | CommitTraffic | Admit | CheckPublic
    | MarkSuccess | DropDone | Announce
    // the exception handlers of apply() and check()
    | MarkFailedRestored | DropFailed | MarkFailedBefore | MarkManual | WriteManual | CountAttempt | Reject
    // the process ends
    | Exit

  /** The updater process: its memory is lost in a crash. `state` is self.state and `tx` the transaction in memory. */
  datatype Proc =
    | Idle
    | At(pc: Pc, state: State, tx: Tx, applying: bool, recoverOnly: bool, release: Release, manifest: Manifest,
         runtime: map<string, string>)

  /** A durable write or outside effect. */
  datatype Op =
    | Nothing
    | WriteTx(tx: Tx)
    | RemoveTx
    | SaveState(state: State)
    | PointCurrent(target: Option<Path>)
    | WriteImages(images: map<string, string>)
    | CopyImages(images: map<string, string>)
    | StopServing
    | StartServing
    | TakeCheckpoint(tag: Tag)
    | Migrate
    | RestoreDatabase(database: Database)
    | RestoreConfig(config: int)
    | AddRelease(path: Path, manifest: Manifest)

  /** What an effect that is not atomic may leave behind. */
  datatype Mess = Mess(images: map<string, string>, database: Database, config: int, serving: bool)

  /** What the outside world answers. */
  datatype Answer =
    | Quiet
    | Releases(releases: seq<Release>)
    | ResolvesTo(commit: Commit)
    | Bundle(manifest: Manifest, runtime: map<string, string>)

  datatype Fate =
    | Proceed(answer: Answer, mess: Mess)
    | Raise(transient: bool, done: bool, mess: Mess)
    | Crash(done: bool, mess: Mess)
    | Start(only: bool)
    | UserRow(row: int)

  /** One step as it happened: who did what to which disk, for which tag, and how it went. */
  datatype Event = Event(pc: Pc, tag: Tag, op: Op, before: Disk, fate: Fate)

  /** `history` lists the durable success records in the order in which they were first written. */
  datatype Machine = Machine(disk: Disk, proc: Proc, log: seq<Event>, history: seq<Success>)

  /** The repository being deployed: its name, its ancestor relation and the head of its main branch. */
  datatype Repo = Repo(name: string, ancestors: iset<(Commit, Commit)>, main: Commit)

  // ----- effects

  predicate Took(op: Op, f: Fate) {
    f.Proceed? || (f.Crash? && f.done) || (f.Raise? && f.done && op.TakeCheckpoint?)
  }

  // The disk after an effect, piece by piece. File replacements are atomic; copying, stopping, starting, migrating and
  // restoring may leave anything in the piece that they touch.

  function JournalAfter(journal: Option<Tx>, op: Op, f: Fate): Option<Tx> {
    if op.WriteTx? && Took(op, f) then Some(op.tx) else if op.RemoveTx? && Took(op, f) then None else journal
  }

  function StateAfter(s: State, op: Op, f: Fate): State {
    if op.SaveState? && Took(op, f) then op.state else s
  }

  function CurrentAfter(current: Option<Path>, op: Op, f: Fate): Option<Path> {
    if op.PointCurrent? && Took(op, f) then op.target else current
  }

  function ImagesAfter(images: map<string, string>, op: Op, f: Fate): map<string, string>
    requires f.Proceed? || f.Raise? || f.Crash?
  {
    if op.WriteImages? && Took(op, f) then op.images
    else if op.CopyImages? then (if f.Proceed? then op.images else f.mess.images)
    else images
  }

  function DatabaseAfter(database: Database, op: Op, f: Fate): Database
    requires f.Proceed? || f.Raise? || f.Crash?
  {
    if op.Migrate? then f.mess.database
    else if op.RestoreDatabase? then (if f.Proceed? then op.database else f.mess.database)
    else database
  }

  function ConfigAfter(config: int, op: Op, f: Fate): int
    requires f.Proceed? || f.Raise? || f.Crash?
  {
    if op.Migrate? then f.mess.config
    else if op.RestoreConfig? then (if f.Proceed? then op.config else f.mess.config)
    else config
  }

  /** A checkpoint that exists is never overwritten. */
  function CheckpointsAfter(d: Disk, op: Op, f: Fate): map<Tag, Checkpoint> {
    if op.TakeCheckpoint? && Took(op, f) && op.tag !in d.checkpoints then
      d.checkpoints[op.tag := Checkpoint(d.images, d.database, d.config)]
    else
      d.checkpoints
  }

  function ManifestsAfter(manifests: map<Path, Manifest>, op: Op, f: Fate): map<Path, Manifest> {
    if op.AddRelease? && Took(op, f) then manifests[op.path := op.manifest] else manifests
  }

  function ServingAfter(serving: bool, op: Op, f: Fate): bool
    requires f.Proceed? || f.Raise? || f.Crash?
  {
    if op.StopServing? then !f.Proceed? && serving && f.mess.serving
    else if op.StartServing? then f.Proceed? || f.mess.serving
    else if op.Migrate? then serving && f.mess.serving
    else serving
  }

  function Perform(d: Disk, op: Op, f: Fate): Disk
    requires f.Proceed? || f.Raise? || f.Crash?
  {
    Disk(JournalAfter(d.journal, op, f), StateAfter(d.state, op, f), CurrentAfter(d.current, op, f),
         ImagesAfter(d.images, op, f), DatabaseAfter(d.database, op, f), ConfigAfter(d.config, op, f),
         CheckpointsAfter(d, op, f), ManifestsAfter(d.manifests, op, f), ServingAfter(d.serving, op, f))
  }

  // ----- marks

  function Mark(s: State, tag: Tag, commit: Commit, published: Time, status: Status): State {
    s.(seen := s.seen[tag := Seen(commit, status, published)])
  }

  function MarkTx(s: State, tx: Tx, status: Status): State {
    Mark(s, tx.tag, tx.commit, tx.published, status)
  }

  function ObservedCommit(s: State, tag: Tag): Commit {
    if tag in s.observed then s.observed[tag] else "unresolved"
  }

  /** The status that a step records for its transaction. */
  function StatusAt(pc: Pc): Option<Status> {
    match pc
    case MarkBlocked => Some(ManualRecoveryRequired)
    case MarkInterruptedBefore => Some(InterruptedBeforeChange)
    case MarkInterruptedRestored => Some(InterruptedRestored)
    case MarkApplying => Some(Applying)
    case MarkSuccess => Some(Succeeded)
    case MarkFailedRestored => Some(FailedRestored)
    case MarkFailedBefore => Some(FailedBeforeChange)
    case MarkManual => Some(ManualRecoveryRequired)
    case _ => None
  }

  /** self.state as the step has changed it in memory before writing it out. */
  function StateAt(p: Proc): State
    requires p.At?
  {
    var s := if p.pc.MarkSuccess? then p.state.(success := Some(NewSuccess(p))) else p.state;
    if StatusAt(p.pc).Some? then MarkTx(s, p.tx, StatusAt(p.pc).value)
    else match p.pc
         case Observe => s.(observed := s.observed[p.release.tag := p.tx.commit])
         case CountAttempt => s.(attempts := s.attempts[p.release.tag := Attempts(s, p.release.tag) + 1])
         case Reject => Mark(s, p.release.tag, ObservedCommit(s, p.release.tag), p.release.published, Rejected)
         case _ => s
  }

  /** The success record of the release being applied. */
  function NewSuccess(p: Proc): Success
    requires p.At?
  {
    Success(p.tx.tag, p.tx.commit, p.tx.published, p.manifest.images, p.runtime)
  }

  function Attempts(s: State, tag: Tag): nat {
    if tag in s.attempts then s.attempts[tag] else 0
  }

  /** The phase in memory as the step has changed it before writing the transaction out. */
  function PhaseAt(p: Proc): Phase
    requires p.At?
  {
    match p.pc
    case BeginChanging => ChangingPhase
    case CommitTraffic => TrafficCommitted
    case WriteManual => ManualRecovery
    case _ => p.tx.phase
  }

  function TxAt(p: Proc): Tx
    requires p.At?
  {
    p.tx.(phase := PhaseAt(p))
  }

  predicate SavesState(pc: Pc) {
    StatusAt(pc).Some? || pc.Observe? || pc.CountAttempt? || pc.Reject?
  }

  predicate WritesTx(pc: Pc) {
    (pc.OpenJournal? || pc.BeginChanging? || pc.CommitTraffic? || pc.WriteManual?)
  }

  predicate RemovesTx(pc: Pc) {
    (pc.DropFinished? || pc.DropInterrupted? || pc.DropDone? || pc.DropFailed?)
  }

  /** The checkpoint of the transaction, if one was completed. */
  function CheckpointOf(d: Disk, tag: Tag): Checkpoint {
    if tag in d.checkpoints then d.checkpoints[tag] else Checkpoint(d.images, d.database, d.config)
  }

  /** The effect of the step at `pc`. */
  function OpAt(p: Proc, d: Disk): Op
    requires p.At?
  {
    if SavesState(p.pc) then SaveState(StateAt(p))
    else if WritesTx(p.pc) then WriteTx(TxAt(p))
    else if RemovesTx(p.pc) then RemoveTx
    else match p.pc
         case ResumePoint => PointCurrent(p.tx.previous)
         case ResumeAdmit => StartServing
         case RecoverFence => StopServing
         case RecoverPoint => PointCurrent(p.tx.previous)
         case RecoverImages => CopyImages(CheckpointOf(d, p.tx.tag).images)
         case RecoverDatabase => RestoreDatabase(CheckpointOf(d, p.tx.tag).database)
         case RecoverConfig => RestoreConfig(CheckpointOf(d, p.tx.tag).config)
         case RecoverAdmit => StartServing
         case Stage => AddRelease(ReleaseDir(p.release.tag), p.manifest)
         case Fence => StopServing
         case Backup => TakeCheckpoint(p.tx.tag)
         case PointNew => PointCurrent(Some(ReleaseDir(p.tx.tag)))
         case SetImages => WriteImages(p.runtime)
         case Bootstrap => Migrate
         case Admit => StartServing
         case _ => Nothing
  }

  // ----- control flow

  /** Where interrupted() goes when it looks at the journal. */
  function JournalPc(p: Proc, journal: Option<Tx>): Pc
    requires p.At?
  {
    if journal.None? then AfterInterrupted(p)
    else if p.state.success.Some? && p.state.success.value.tag == journal.value.tag then DropFinished
    else match journal.value.phase
         case TrafficCommitted => MarkBlocked
         case ManualRecovery => MarkBlocked
         case Preparing => if journal.value.previous.Some? then ResumePoint else MarkInterruptedBefore
         case ChangingPhase => RecoverVerify
  }

  function AfterInterrupted(p: Proc): Pc
    requires p.At?
  {
    if p.recoverOnly then Exit else Select
  }

  /** Memory after the step's own assignments, whether or not its effect then succeeds. */
  function Updated(p: Proc): Proc
    requires p.At?
  {
    p.(state := StateAt(p), tx := TxAt(p))
  }

  /** What a successful step adds to memory. */
  function Learned(p: Proc, d: Disk, answer: Answer): Proc
    requires p.At?
  {
    if p.pc.Enter? && d.journal.Some? then p.(tx := d.journal.value)
    else if p.pc.Select? && answer.Releases? && Selected(answer.releases, p.state).Some? then
      p.(release := Selected(answer.releases, p.state).value)
    else if p.pc.Resolve? && answer.ResolvesTo? then
      p.(tx := Tx(p.release.tag, answer.commit, p.release.published, None, Preparing))
    else if p.pc.Stage? && answer.Bundle? then
      p.(manifest := answer.manifest, runtime := answer.runtime, tx := p.tx.(previous := d.current))
    else if p.pc.OpenJournal? then p.(applying := true)
    else p
  }

  /** The step after a successful one; `p` is the memory that the step leaves. */
  function DonePc(p: Proc, d: Disk, answer: Answer): Pc
    requires p.At?
  {
    match p.pc
    case Enter => JournalPc(p, d.journal)
    case DropFinished => AfterInterrupted(p)
    case MarkBlocked => Exit
    case ResumePoint => ResumeAdmit
    case ResumeAdmit => if p.applying then MarkFailedBefore else MarkInterruptedBefore
    case MarkInterruptedBefore => DropInterrupted
    case RecoverVerify => RecoverFence
    case RecoverFence => RecoverPoint
    case RecoverPoint => RecoverImages
    case RecoverImages => RecoverDatabase
    case RecoverDatabase => RecoverConfig
    case RecoverConfig => RecoverAdmit
    case RecoverAdmit => RecoverHealth
    case RecoverHealth => if p.applying then MarkFailedRestored else MarkInterruptedRestored
    case MarkInterruptedRestored => DropInterrupted
    case DropInterrupted => AfterInterrupted(p)
    case Select => if answer.Releases? && Selected(answer.releases, p.state).Some? then Resolve else Exit
    case Resolve => Observe
    case Observe => Descend
    case Descend => Stage
    case Stage => OpenJournal
    case OpenJournal => MarkApplying
    case MarkApplying => if p.tx.previous.Some? then CheckRunning else BeginChanging
    case CheckRunning => Fence
    case Fence => Backup
    case Backup => BeginChanging
    case BeginChanging => PointNew
    case PointNew => SetImages
    case SetImages => Bootstrap
    case Bootstrap => CheckHealth
    case CheckHealth => CommitTraffic
    case CommitTraffic => Admit
    case Admit => CheckPublic
    case CheckPublic => MarkSuccess
    case MarkSuccess => DropDone
    case DropDone => Announce
    case Announce => Exit
    case MarkFailedRestored => DropFailed
    case MarkFailedBefore => DropFailed
    case DropFailed => Exit
    case MarkManual => WriteManual
    case WriteManual => Exit
    case CountAttempt => if Attempts(p.state, p.release.tag) < 3 then Exit else Reject
    case Reject => Exit
    case Exit => Exit
  }

  /** The exception handler of apply(), entered with the transaction as it is in memory. */
  function Handler(p: Proc, d: Disk): Pc
    requires p.At?
  {
    if p.tx.phase.TrafficCommitted? then MarkManual
    else if p.tx.previous.Some? && p.tx.tag in d.checkpoints then RecoverVerify
    else if p.tx.phase.Preparing? && p.tx.previous.Some? then ResumePoint
    else MarkManual
  }

  /** The exception handler of check(): a tag that is already marked is left as it is. */
  function CheckHandler(p: Proc, transient: bool): Pc
    requires p.At?
  {
    if p.release.tag in p.state.seen then Exit else if transient then CountAttempt else Reject
  }

  predicate Recovering(pc: Pc) {
    (pc.RecoverVerify? || pc.RecoverFence? || pc.RecoverPoint? || pc.RecoverImages? || pc.RecoverDatabase?
     || pc.RecoverConfig? || pc.RecoverAdmit? || pc.RecoverHealth?)
  }

  predicate Preflight(pc: Pc) {
    (pc.Resolve? || pc.Observe? || pc.Descend? || pc.Stage? || pc.OpenJournal?)
  }

  /** The steps inside the try block of apply(). */
  predicate Trying(pc: Pc) {
    (pc.CheckRunning? || pc.Fence? || pc.Backup? || pc.BeginChanging? || pc.PointNew? || pc.SetImages?
     || pc.Bootstrap? || pc.CheckHealth? || pc.CommitTraffic? || pc.Admit? || pc.CheckPublic? || pc.MarkSuccess?
     || pc.DropDone? || pc.Announce?)
  }

  /** The step that follows an exception. Failed marks and removals of a restored transaction fall back to manual
      recovery; DropFailed also ends a transaction that was only resumed, where an exception just ends the process. */
  function RaisePc(p: Proc, d: Disk, transient: bool): Pc
    requires p.At?
  {
    if Recovering(p.pc) || p.pc.MarkInterruptedRestored? || p.pc.MarkFailedRestored? then MarkManual
    else if p.pc.DropFailed? then (if Restored(p) then MarkManual else Exit)
    else if Preflight(p.pc) then CheckHandler(p, transient && p.pc.Stage?)
    else if Trying(p.pc) then Handler(p, d)
    else Exit
  }

  predicate Restored(p: Proc)
    requires p.At?
  {
    p.tx.tag in p.state.seen && p.state.seen[p.tx.tag].status.FailedRestored?
  }

  function Goto(p: Proc, pc: Pc): Proc
    requires p.At?
  {
    if pc.Exit? then Idle else p.(pc := pc)
  }

  function OnDone(p: Proc, d: Disk, answer: Answer): Proc
    requires p.At?
  {
    Goto(Learned(Updated(p), d, answer), DonePc(Updated(p), d, answer))
  }

  function OnRaise(p: Proc, d: Disk, transient: bool): Proc
    requires p.At?
  {
    Goto(Updated(p), RaisePc(Updated(p), d, transient))
  }

  /** A step whose own checks refuse raises, whatever the world would have done. */
  predicate Refuses(r: Repo, p: Proc, d: Disk, answer: Answer)
    requires p.At?
  {
    match p.pc
    case RecoverVerify => p.tx.previous.None? || p.tx.tag !in d.checkpoints
    case Select => !answer.Releases?
    case Resolve => !answer.ResolvesTo? || !CommitFits(p, answer.commit)
    case Descend => !Descendant(r, p.state, d, p.tx.commit)
    case Stage => !answer.Bundle? || !BundleFits(r, p, d, answer.manifest)
    case Backup => p.tx.tag in d.checkpoints
    case _ => false
  }

  /** The tag's commit is one, and was never seen differently. */
  predicate CommitFits(p: Proc, commit: Commit)
    requires p.At?
  {
    CommitOk(commit) && (p.release.tag in p.state.observed ==> p.state.observed[p.release.tag] == commit)
  }

  /** The manifest of a deployment that no success is recorded for: this repository's, at a proper commit. */
  predicate BaselineOk(r: Repo, d: Disk) {
    && d.current.Some? && d.current.value in d.manifests
    && d.manifests[d.current.value].repo == r.name && CommitOk(d.manifests[d.current.value].commit)
  }

  /** The commit is on the main branch and a descendant of what is deployed. */
  predicate Descendant(r: Repo, s: State, d: Disk, commit: Commit) {
    && (commit, r.main) in r.ancestors
    && (if s.success.Some? then (s.success.value.commit, commit) in r.ancestors
        else d.current.Some? ==> BaselineOk(r, d)
                                 && (d.manifests[d.current.value].commit, commit) in r.ancestors)
  }

  predicate BundleFits(r: Repo, p: Proc, d: Disk, m: Manifest)
    requires p.At?
  {
    && ManifestOk(m, r.name, p.release, p.tx.commit, p.state)
    && ReleaseDir(p.release.tag) !in d.manifests
    && (p.state.success.None? && d.current.Some? ==>
          d.current.value in d.manifests && CORE in d.manifests[d.current.value].images
          && CoreOk(d.manifests[d.current.value].images[CORE], m.images[CORE], m))
  }

  const NoRelease := Release("", false, false, 0)
  const NoManifest := Manifest(0, "", "", "", "", 0, map[], None, [])
  const NoTx := Tx("", "", 0, None, Preparing)

  function NewProcess(d: Disk, only: bool): Proc {
    At(Enter, d.state, NoTx, false, only, NoRelease, NoManifest, map[])
  }

  /** The manifest a bundle brings is written with the release directory. */
  function StepOp(p: Proc, d: Disk, f: Fate): Op
    requires p.At?
  {
    if p.pc.Stage? && f.Proceed? && f.answer.Bundle? then AddRelease(ReleaseDir(p.release.tag), f.answer.manifest)
    else OpAt(p, d)
  }

  function Remember(history: seq<Success>, s: State): seq<Success> {
    if s.success.None? || (history != [] && history[|history| - 1] == s.success.value) then history
    else history + [s.success.value]
  }

  /** One step of the machine. */
  function Next(r: Repo, m: Machine, f: Fate): Machine {
    match f
    case UserRow(row) =>
      if m.disk.serving then m.(disk := m.disk.(database := m.disk.database.(rows := m.disk.database.rows + [row])))
      else m
    case Start(only) => if m.proc.Idle? then m.(proc := NewProcess(m.disk, only)) else m
    case _ => if m.proc.At? then Act(r, m, f) else m
  }

  function Act(r: Repo, m: Machine, f: Fate): Machine
    requires m.proc.At? && (f.Proceed? || f.Raise? || f.Crash?)
  {
    if f.Proceed? && Refuses(r, m.proc, m.disk, f.answer) then
      m.(proc := OnRaise(m.proc, m.disk, false))
    else
      var op := StepOp(m.proc, m.disk, f);
      var disk := Perform(m.disk, op, f);
      Machine(disk,
              if f.Crash? then Idle
              else if f.Raise? then OnRaise(m.proc, disk, f.transient)
              else OnDone(m.proc, disk, f.answer),
              m.log + [Event(m.proc.pc, m.proc.tx.tag, op, m.disk, f)],
              if op.SaveState? && Took(op, f) then Remember(m.history, op.state) else m.history)
  }

  /** A whole run. */
  function Run(r: Repo, m: Machine, fates: seq<Fate>): Machine {
    if fates == [] then m else Next(r, Run(r, m, fates[..|fates| - 1]), fates[|fates| - 1])
  }

  lemma RunExtends(r: Repo, m: Machine, fates: seq<Fate>, f: Fate)
    ensures Run(r, m, fates + [f]) == Next(r, Run(r, m, fates), f)
  {
    hide Next;
    assert (fates + [f])[..|fates|] == fates;
  }

  lemma {:induction false} RunConcat(r: Repo, m: Machine, a: seq<Fate>, b: seq<Fate>)
    ensures Run(r, m, a + b) == Run(r, Run(r, m, a), b)
  {
    hide Next;
    if b == [] {
      assert a + b == a;
    } else {
      var init, f := b[..|b| - 1], b[|b| - 1];
      RunConcat(r, m, a, init);
      assert a + b == (a + init) + [f];
      RunExtends(r, m, a + init, f);
    }
  }

  /** A host on which no update is under way. */
  predicate Quiescent(m: Machine) {
    && m.proc.Idle? && m.log == [] && m.disk.journal.None?
    && m.history == if m.disk.state.success.Some? then [m.disk.state.success.value] else []
  }
}
