/** What the updater does not guard against: for every host that a release suits, a run that ends badly. */
module Hazards {
  import opened Wrappers
  import opened Selection
  import opened Updater
  import opened Transactions
  import opened Safety
  import opened Release
  import opened Early
  import opened Completion
  import opened Outcomes

  // ----- one step each

  lemma Then(r: Repo, m: Machine, before: seq<Fate>, f: Fate) returns (fates: seq<Fate>)
    ensures fates == before + [f] && Run(r, m, fates) == Next(r, Run(r, m, before), f)
  {
    fates := before + [f];
    RunExtends(r, m, before, f);
  }

  lemma NothingYet(r: Repo, m: Machine)
    ensures Run(r, m, []) == m
  {
  }

  predicate Restorable(m: Machine) {
    m.proc.At? && m.proc.tx.previous.Some? && m.proc.tx.tag in m.disk.checkpoints
  }

  /** The disk after a step of a recovery. */
  function RecoverDisk(d: Disk, pc: Pc, tx: Tx): Disk
    requires tx.tag in d.checkpoints
  {
    var c := d.checkpoints[tx.tag];
    match pc
    case RecoverFence => d.(serving := false)
    case RecoverPoint => d.(current := tx.previous)
    case RecoverImages => d.(images := c.images)
    case RecoverDatabase => d.(database := c.database)
    case RecoverConfig => d.(config := c.config)
    case RecoverAdmit => d.(serving := true)
    case _ => d
  }

  lemma RecoverStep(r: Repo, m: Machine, mess: Mess)
    requires Restorable(m) && Recovering(m.proc.pc)
    ensures var n := Next(r, m, Proceed(Quiet, mess));
            && n.disk == RecoverDisk(m.disk, m.proc.pc, m.proc.tx)
            && n.proc == m.proc.(pc := RecoverNext(m.proc.pc, m.proc.applying))
  {
    hide StateAt, TxAt, JournalPc, Perform;
    PlainMemory(m.proc);
    Passing(r, m, mess);
    RecoverPerforms(m.disk, m.proc.pc, m.proc.tx, mess);
    hide Updated, Next, RecoverDisk, RecoverOp;
  }

  lemma RecoverPerforms(d: Disk, pc: Pc, tx: Tx, mess: Mess)
    requires Recovering(pc) && tx.tag in d.checkpoints
    ensures Perform(d, RecoverOp(pc, tx, d.checkpoints), Proceed(Quiet, mess)) == RecoverDisk(d, pc, tx)
  {
    OpPerforms(d, RecoverOp(pc, tx, d.checkpoints), mess);
    hide Perform;
  }

  /** The disk of a recovery that has come as far as the database. */
  function BeforeDatabase(d: Disk, tx: Tx): Disk
    requires tx.tag in d.checkpoints
  {
    d.(serving := false, current := tx.previous, images := d.checkpoints[tx.tag].images)
  }

  lemma RecoversToDatabase(r: Repo, m: Machine, mess: Mess) returns (fates: seq<Fate>)
    requires Restorable(m) && m.proc.pc.RecoverVerify?
    ensures var n := Run(r, m, fates);
            n.disk == BeforeDatabase(m.disk, m.proc.tx) && n.proc == m.proc.(pc := RecoverDatabase)
  {
    var f := Proceed(Quiet, mess);
    NothingYet(r, m);
    hide Next, Run;
    RecoverStep(r, m, mess);
    fates := Then(r, m, [], f);
    RecoverStep(r, Run(r, m, fates), mess);
    fates := Then(r, m, fates, f);
    RecoverStep(r, Run(r, m, fates), mess);
    fates := Then(r, m, fates, f);
    RecoverStep(r, Run(r, m, fates), mess);
    fates := Then(r, m, fates, f);
  }

  lemma RecoversOn(r: Repo, m: Machine, mess: Mess) returns (fates: seq<Fate>)
    requires Restorable(m) && m.proc.pc.RecoverDatabase?
    ensures var n, c := Run(r, m, fates), m.disk.checkpoints[m.proc.tx.tag];
            && n.disk == m.disk.(database := c.database, config := c.config, serving := true)
            && n.proc == m.proc.(pc := RecoverHealth)
  {
    var f := Proceed(Quiet, mess);
    NothingYet(r, m);
    hide Next, Run;
    RecoverStep(r, m, mess);
    fates := Then(r, m, [], f);
    RecoverStep(r, Run(r, m, fates), mess);
    fates := Then(r, m, fates, f);
    RecoverStep(r, Run(r, m, fates), mess);
    fates := Then(r, m, fates, f);
  }

  /** The disk of a recovery that has let users in. */
  function Recovered(d: Disk, tx: Tx): Disk
    requires tx.tag in d.checkpoints
  {
    var c := d.checkpoints[tx.tag];
    d.(serving := true, current := tx.previous, images := c.images, database := c.database, config := c.config)
  }

  lemma Recovers(r: Repo, m: Machine, mess: Mess) returns (fates: seq<Fate>)
    requires Restorable(m) && m.proc.pc.RecoverVerify?
    ensures var n := Run(r, m, fates);
            n.disk == Recovered(m.disk, m.proc.tx) && n.proc == m.proc.(pc := RecoverHealth)
  {
    hide Next, Run;
    fates := RecoversToDatabase(r, m, mess);
    var more := RecoversOn(r, Run(r, m, fates), mess);
    RunConcat(r, m, fates, more);
    fates := fates + more;
  }

  /** A crash in the middle of putting the database back. */
  lemma RestoreIsCut(r: Repo, m: Machine, mess: Mess)
    requires m.proc.At? && m.proc.pc.RecoverDatabase?
    ensures var n := Next(r, m, Crash(false, mess)); n.disk == m.disk.(database := mess.database) && n.proc.Idle?
  {
    hide StateAt, TxAt;
  }

  /** A new process looks at an open journal that is not that of the recorded success. */
  lemma Restarts(r: Repo, m: Machine, mess: Mess) returns (fates: seq<Fate>)
    requires m.proc.Idle? && m.disk.journal.Some? && m.disk.journal.value.previous.Some?
    requires m.disk.state.success.Some? ==> m.disk.state.success.value.tag != m.disk.journal.value.tag
    ensures var n, tx := Run(r, m, fates), m.disk.journal.value;
            && n.disk == m.disk && n.proc.At? && !n.proc.applying && n.proc.tx == tx
            && (tx.phase.Preparing? ==> n.proc.pc.ResumePoint?)
            && (tx.phase.ChangingPhase? ==> n.proc.pc.RecoverVerify?)
  {
    NothingYet(r, m);
    hide Run;
    fates := Then(r, m, [], Start(false));
    Looks(r, Run(r, m, fates), m.disk, mess);
    fates := Then(r, m, fates, Proceed(Quiet, mess));
  }

  lemma Looks(r: Repo, m: Machine, d: Disk, mess: Mess)
    requires m.disk == d && m.proc == NewProcess(d, false) && d.journal.Some? && d.journal.value.previous.Some?
    requires d.state.success.Some? ==> d.state.success.value.tag != d.journal.value.tag
    ensures var n, tx := Next(r, m, Proceed(Quiet, mess)), d.journal.value;
            && n.disk == d && n.proc.At? && !n.proc.applying && n.proc.tx == tx
            && (tx.phase.Preparing? ==> n.proc.pc.ResumePoint?)
            && (tx.phase.ChangingPhase? ==> n.proc.pc.RecoverVerify?)
  {
    Looking(r, m.proc, d, Proceed(Quiet, mess));
    hide Perform, OnDone, OnRaise, Refuses, StepOp;
  }

  lemma ResumeStep(r: Repo, m: Machine, mess: Mess)
    requires m.proc.At? && (m.proc.pc.ResumePoint? || m.proc.pc.ResumeAdmit?)
    ensures var n := Next(r, m, Proceed(Quiet, mess));
            if m.proc.pc.ResumePoint? then
              n.disk == m.disk.(current := m.proc.tx.previous) && n.proc == m.proc.(pc := ResumeAdmit)
            else
              n.disk == m.disk.(serving := true)
              && n.proc == m.proc.(pc := if m.proc.applying then MarkFailedBefore else MarkInterruptedBefore)
  {
    hide StateAt, TxAt, JournalPc;
    PlainMemory(m.proc);
    hide Updated;
    Passing(r, m, mess);
  }

  lemma Resumes(r: Repo, m: Machine, mess: Mess) returns (fates: seq<Fate>)
    requires m.proc.At? && m.proc.pc.ResumePoint?
    ensures var n := Run(r, m, fates);
            && n.disk == m.disk.(current := m.proc.tx.previous, serving := true)
            && n.proc == m.proc.(pc := if m.proc.applying then MarkFailedBefore else MarkInterruptedBefore)
  {
    NothingYet(r, m);
    hide Next, Run;
    ResumeStep(r, m, mess);
    fates := Then(r, m, [], Proceed(Quiet, mess));
    ResumeStep(r, Run(r, m, fates), mess);
    fates := Then(r, m, fates, Proceed(Quiet, mess));
  }

  // ----- into the try block

  function Saved(d: Disk): Checkpoint {
    Checkpoint(d.images, d.database, d.config)
  }

  /** The disk of a host whose update has come as far as an early step, if nothing has failed. */
  function EarlyDisk(d: Disk, o: Offer, pc: Pc): Disk {
    d.(state := Marked(d, o), manifests := Staging(d, o), journal := Some(Transaction(d, o, Preparing)),
       serving := d.serving && (pc.CheckRunning? || pc.Fence?),
       checkpoints := if pc.BeginChanging? then d.checkpoints[o.release.tag := Saved(d)] else d.checkpoints)
  }

  predicate AtEarly(n: Machine, d: Disk, o: Offer, pc: Pc) {
    n.disk == EarlyDisk(d, o, pc) && n.proc == Working(d, o, pc, Marked(d, o), Preparing)
  }

  lemma ReachesTry(r: Repo, m: Machine, o: Offer, mess: Mess) returns (fates: seq<Fate>)
    requires Fits(r, m, o) && m.disk.current.Some?
    ensures AtEarly(Run(r, m, fates), m.disk, o, CheckRunning)
  {
    hide Next, Run, Fits, MarkTx, QuietSteps, Quiets;
    fates := ReachesOpen(r, m, o, mess);
    Marks(r, Run(r, m, fates), m.disk, o, mess);
    RunQuietly(r, m, fates, 2, mess);
    fates := fates + Quiets(2, mess);
  }

  lemma EarlyStep(r: Repo, m: Machine, d: Disk, o: Offer, pc: Pc, mess: Mess)
    requires IsEarly(pc) && !pc.BeginChanging? && AtEarly(m, d, o, pc)
    requires pc.Backup? ==> o.release.tag !in d.checkpoints
    ensures AtEarly(Next(r, m, Proceed(Quiet, mess)), d, o, TryNext(pc))
  {
    hide Next, Marked, Staging;
    match pc
    case CheckRunning => StepCheck(r, m, mess);
    case Fence => StepFence(r, m, mess);
    case Backup => StepBackup(r, m, mess);
  }

  lemma ReachesEarly(r: Repo, m: Machine, o: Offer, pc: Pc, mess: Mess) returns (fates: seq<Fate>)
    requires Fits(r, m, o) && m.disk.current.Some? && IsEarly(pc)
    requires pc.BeginChanging? ==> o.release.tag !in m.disk.checkpoints
    ensures AtEarly(Run(r, m, fates), m.disk, o, pc)
  {
    hide Next, Run, Fits, AtEarly;
    var d, f := m.disk, Proceed(Quiet, mess);
    fates := ReachesTry(r, m, o, mess);
    if !pc.CheckRunning? {
      EarlyStep(r, Run(r, m, fates), d, o, CheckRunning, mess);
      fates := Then(r, m, fates, f);
      if !pc.Fence? {
        EarlyStep(r, Run(r, m, fates), d, o, Fence, mess);
        fates := Then(r, m, fates, f);
        if !pc.Backup? {
          EarlyStep(r, Run(r, m, fates), d, o, Backup, mess);
          fates := Then(r, m, fates, f);
        }
      }
    }
  }

  // ----- a restore while the journal says "preparing"

  /** What goes wrong at an early step. Only the backup has a check of its own that can refuse. */
  function Mishap(d: Disk, o: Offer, pc: Pc, mess: Mess): Fate {
    if pc.Backup? && o.release.tag in d.checkpoints then Proceed(Quiet, mess) else Raise(false, true, mess)
  }

  /** The steps whose failure finds a complete checkpoint of the tag: with one left over, all that are reached; without,
      a backup that fails after its last write, and the step after it. */
  predicate FindsCheckpoint(d: Disk, o: Offer, pc: Pc) {
    if o.release.tag in d.checkpoints then pc.CheckRunning? || pc.Fence? || pc.Backup?
    else pc.Backup? || pc.BeginChanging?
  }

  /** The handler has decided to restore, and the disk says "preparing". */
  predicate RestoringEarly(n: Machine, d: Disk, o: Offer) {
    && Restorable(n) && n.proc.pc.RecoverVerify? && n.proc.tx.tag == o.release.tag && n.proc.tx.previous == d.current
    && n.disk.journal == Some(Transaction(d, o, Preparing)) && n.disk.state == Marked(d, o)
  }

  lemma FailsAt(r: Repo, m: Machine, d: Disk, o: Offer, pc: Pc, mess: Mess)
    requires AtEarly(m, d, o, pc) && d.current.Some? && FindsCheckpoint(d, o, pc)
    ensures FailsEarly(r, m, Mishap(d, o, pc, mess), o.release.tag)
    ensures RestoringEarly(Next(r, m, Mishap(d, o, pc, mess)), d, o)
  {
    hide Marked, Staging, Perform, StepOp, OnRaise, OnDone, Refuses;
    if pc.Backup? && o.release.tag in d.checkpoints {
      BackupChecks(r, m.proc, m.disk, mess);
    } else {
      RaiseWrites(m.proc, m.disk, mess);
    }
    EarlyHandled(m.proc, Act(r, m, Mishap(d, o, pc, mess)).disk);
  }

  lemma BackupChecks(r: Repo, p: Proc, d: Disk, mess: Mess)
    requires p.At? && p.pc.Backup?
    ensures Refuses(r, p, d, Quiet) <==> p.tx.tag in d.checkpoints
  {
  }

  /** What a raising early step leaves on disk. */
  lemma RaiseWrites(p: Proc, d: Disk, mess: Mess)
    requires p.At? && IsEarly(p.pc)
    ensures var e := Perform(d, StepOp(p, d, Raise(false, true, mess)), Raise(false, true, mess));
            && e.journal == d.journal && e.state == d.state && d.checkpoints.Keys <= e.checkpoints.Keys
            && (p.pc.Backup? ==> p.tx.tag in e.checkpoints)
  {
    hide StateAt, TxAt, CheckpointOf;
  }

  lemma EarlyHandled(p: Proc, d: Disk)
    requires p.At? && IsEarly(p.pc) && p.tx.phase.Preparing? && p.tx.previous.Some? && p.tx.tag in d.checkpoints
    ensures var n := OnRaise(p, d, false);
            n.At? && n.pc.RecoverVerify? && n.tx.tag == p.tx.tag && n.tx.previous == p.tx.previous
  {
    hide StateAt;
  }

  lemma FailsEarlyOnce(r: Repo, m: Machine, o: Offer, pc: Pc, mess: Mess) returns (fates: seq<Fate>, k: nat)
    requires Fits(r, m, o) && m.disk.current.Some? && FindsCheckpoint(m.disk, o, pc)
    ensures |fates| == k + 1 && AtEarly(Run(r, m, fates[..k]), m.disk, o, pc)
    ensures FailsEarly(r, Run(r, m, fates[..k]), fates[k], o.release.tag)
    ensures RestoringEarly(Run(r, m, fates), m.disk, o)
  {
    hide Next, Run, Fits, AtEarly, FailsEarly, RestoringEarly;
    fates := ReachesEarly(r, m, o, pc, mess);
    k := |fates|;
    FailsAt(r, Run(r, m, fates), m.disk, o, pc, mess);
    assert (fates + [Mishap(m.disk, o, pc, mess)])[..k] == fates;
    fates := Then(r, m, fates, Mishap(m.disk, o, pc, mess));
  }

  /** Each of the failures after which a restore finds "preparing" can happen: from every host that the release suits,
      with or without a checkpoint left over under its tag, the database is about to be replaced before "changing" was
      written. */
  lemma EveryCauseIsReal(r: Repo, m: Machine, o: Offer, cause: Pc)
    requires Fits(r, m, o) && m.disk.current.Some? && FindsCheckpoint(m.disk, o, cause)
    ensures exists fates, k: nat ::
              && k < |fates| && AtEarly(Run(r, m, fates[..k]), m.disk, o, cause)
              && FailsEarly(r, Run(r, m, fates[..k]), fates[k], o.release.tag)
              && Run(r, m, fates).proc.At? && Run(r, m, fates).proc.pc.RecoverDatabase?
              && Run(r, m, fates).disk.journal == Some(Transaction(m.disk, o, Preparing))
  {
    hide Next, Run, Fits, AtEarly, FailsEarly;
    var mess := Mess(map[], m.disk.database, m.disk.config, false);
    var fates, k := FailsEarlyOnce(r, m, o, cause, mess);
    var more := RecoversToDatabase(r, Run(r, m, fates), mess);
    RunConcat(r, m, fates, more);
    assert (fates + more)[..k] == fates[..k] && (fates + more)[k] == fates[k];
  }

  /** After each of these failures a crash cuts the restore short, and the next check takes the update for one that
      changed nothing and lets users in, on whatever database the cut left. */
  lemma HalfRestoredIsResumed(r: Repo, m: Machine, o: Offer, cause: Pc, left: Database)
    requires Fits(r, m, o) && m.disk.current.Some? && FindsCheckpoint(m.disk, o, cause) && SuccessSeen(m.disk.state)
    ensures exists fates :: var n := Run(r, m, fates);
              && n.disk.serving && n.disk.database == left && n.proc.At? && n.proc.pc.MarkInterruptedBefore?
              && n.disk.journal == Some(Transaction(m.disk, o, Preparing))
  {
    hide Next, Run, AtEarly, FailsEarly, Fits, Marked, RestoringEarly, FindsCheckpoint, SuccessSeen;
    var mess := Mess(map[], left, m.disk.config, false);
    OtherSuccess(r, m, o);
    var fates, k := FailsEarlyOnce(r, m, o, cause, mess);
    var more := IsCutAndResumed(r, Run(r, m, fates), m.disk, o, mess);
    RunConcat(r, m, fates, more);
    fates := fates + more;
  }

  lemma IsCutAndResumed(r: Repo, m: Machine, d: Disk, o: Offer, mess: Mess) returns (fates: seq<Fate>)
    requires RestoringEarly(m, d, o) && d.current.Some?
    requires Marked(d, o).success.Some? ==> Marked(d, o).success.value.tag != o.release.tag
    ensures var n := Run(r, m, fates);
            && n.disk.serving && n.disk.database == mess.database && n.proc.At? && n.proc.pc.MarkInterruptedBefore?
            && n.disk.journal == Some(Transaction(d, o, Preparing))
  {
    hide Next, Run, Marked;
    fates := RecoversToDatabase(r, m, mess);
    RestoreIsCut(r, Run(r, m, fates), mess);
    fates := Then(r, m, fates, Crash(false, mess));
    var more := Restarts(r, Run(r, m, fates), mess);
    RunConcat(r, m, fates, more);
    fates := fates + more;
    more := Resumes(r, Run(r, m, fates), mess);
    RunConcat(r, m, fates, more);
    fates := fates + more;
  }

  lemma OtherSuccess(r: Repo, m: Machine, o: Offer)
    requires Fits(r, m, o) && SuccessSeen(m.disk.state)
    ensures var s := Marked(m.disk, o); s.success.Some? ==> s.success.value.tag != o.release.tag
  {
    hide ManifestOk, Descendant, CoreOk, CommitOk;
  }

  // ----- a checkpoint left over under the tag of a new release

  lemma LeavesTry(r: Repo, m: Machine, mess: Mess) returns (fates: seq<Fate>)
    requires m.proc.At? && m.proc.pc.RecoverHealth? && m.proc.applying && Restorable(m)
    ensures var n := Run(r, m, fates);
            && n.proc.Idle?
            && n.disk == m.disk.(journal := None, state := MarkTx(m.proc.state, m.proc.tx, FailedRestored))
  {
    var f := Proceed(Quiet, mess);
    NothingYet(r, m);
    hide Next, Run, MarkTx;
    RecoverStep(r, m, mess);
    fates := Then(r, m, [], f);
    Completion.Saves(r, Run(r, m, fates), mess);
    fates := Then(r, m, fates, f);
    StepDropFailed(r, Run(r, m, fates), mess);
    fates := Then(r, m, fates, f);
  }

  lemma StepDropFailed(r: Repo, m: Machine, mess: Mess)
    requires m.proc.At? && m.proc.pc.DropFailed?
    ensures var n := Next(r, m, Proceed(Quiet, mess)); n.disk == m.disk.(journal := None) && n.proc.Idle?
  {
    hide StateAt, TxAt, JournalPc;
    PlainMemory(m.proc);
    hide Updated;
    Passing(r, m, mess);
  }

  /** If a complete checkpoint is already there under the new tag, the backup refuses and the handler takes the old
      checkpoint for its own: images, database and configuration are replaced by the old ones, and the tag is recorded
      as restored. */
  lemma LeftOverCheckpointIsRestored(r: Repo, m: Machine, o: Offer)
    requires Fits(r, m, o) && m.disk.current.Some? && o.release.tag in m.disk.checkpoints
    ensures exists fates :: var n, c := Run(r, m, fates), m.disk.checkpoints[o.release.tag];
              && n.proc.Idle? && n.disk.journal.None? && n.disk.serving
              && n.disk.images == c.images && n.disk.database == c.database && n.disk.config == c.config
              && o.release.tag in n.disk.state.seen && n.disk.state.seen[o.release.tag].status.FailedRestored?
  {
    hide Next, Run, Fits;
    var mess := Mess(map[], m.disk.database, m.disk.config, false);
    var fates := ReachesEarly(r, m, o, Backup, mess);
    BackupRefused(r, Run(r, m, fates), mess);
    fates := Then(r, m, fates, Proceed(Quiet, mess));
    var more := Recovers(r, Run(r, m, fates), mess);
    RunConcat(r, m, fates, more);
    fates := fates + more;
    more := LeavesTry(r, Run(r, m, fates), mess);
    RunConcat(r, m, fates, more);
    fates := fates + more;
  }

  lemma BackupRefused(r: Repo, m: Machine, mess: Mess)
    requires Restorable(m) && m.proc.pc.Backup? && m.proc.tx.phase.Preparing?
    ensures var n := Next(r, m, Proceed(Quiet, mess)); n.disk == m.disk && n.proc == m.proc.(pc := RecoverVerify)
  {
    hide StateAt, TxAt, JournalPc;
    PlainMemory(m.proc);
  }

  // ----- rows of a readmission

  /** "changing" is on disk, and the first change fails. */
  lemma FailsToChange(r: Repo, m: Machine, d: Disk, o: Offer, mess: Mess) returns (fates: seq<Fate>)
    requires AtEarly(m, d, o, BeginChanging) && d.current.Some?
    ensures var n := Run(r, m, fates);
            && n.disk == m.disk.(journal := Some(Transaction(d, o, ChangingPhase)))
            && n.proc == Working(d, o, RecoverVerify, Marked(d, o), ChangingPhase)
  {
    NothingYet(r, m);
    hide Next, Run, Marked, Staging;
    WritesPhase(r, m, mess);
    fates := Then(r, m, [], Proceed(Quiet, mess));
    PointFails(r, Run(r, m, fates), mess);
    fates := Then(r, m, fates, Raise(false, false, mess));
  }

  lemma PointFails(r: Repo, m: Machine, mess: Mess)
    requires Restorable(m) && m.proc.pc.PointNew? && m.proc.tx.phase.ChangingPhase?
    ensures var n := Next(r, m, Raise(false, false, mess)); n.disk == m.disk && n.proc == m.proc.(pc := RecoverVerify)
  {
    hide StateAt, TxAt, JournalPc, DonePc;
    PlainMemory(m.proc);
  }

  lemma RowComes(r: Repo, m: Machine, row: int)
    requires m.disk.serving
    ensures Next(r, m, UserRow(row))
         == m.(disk := m.disk.(database := m.disk.database.(rows := m.disk.database.rows + [row])))
  {
  }

  lemma HealthCrashes(r: Repo, m: Machine, mess: Mess)
    requires m.proc.At? && m.proc.pc.RecoverHealth?
    ensures var n := Next(r, m, Crash(false, mess)); n.disk == m.disk && n.proc.Idle?
  {
    hide StateAt, TxAt;
  }

  /** A failed update is put back and users are let in again. */
  lemma Readmits(r: Repo, m: Machine, o: Offer, mess: Mess) returns (fates: seq<Fate>)
    requires Welcome(r, m, o) && m.disk.current.Some?
    ensures var n := Run(r, m, fates);
            && Restorable(n) && n.proc.pc.RecoverHealth? && n.disk.serving && n.disk.database == m.disk.database
            && n.disk.journal == Some(Transaction(m.disk, o, ChangingPhase)) && n.disk.state == Marked(m.disk, o)
            && o.release.tag in n.disk.checkpoints && n.disk.checkpoints[o.release.tag] == Saved(m.disk)
  {
    WelcomeFits(r, m, o);
    hide Next, Run, Fits, Marked;
    fates := ReachesEarly(r, m, o, BeginChanging, mess);
    var more := FailsToChange(r, Run(r, m, fates), m.disk, o, mess);
    RunConcat(r, m, fates, more);
    fates := fates + more;
    more := Recovers(r, Run(r, m, fates), mess);
    RunConcat(r, m, fates, more);
    fates := fates + more;
  }

  /** The process dies before it could mark the recovery, and the next one recovers once more. */
  lemma RestoresAgain(r: Repo, m: Machine, mess: Mess) returns (fates: seq<Fate>)
    requires m.proc.At? && m.proc.pc.RecoverHealth? && m.disk.journal.Some?
    requires var tx := m.disk.journal.value;
             tx.previous.Some? && tx.phase.ChangingPhase? && tx.tag in m.disk.checkpoints
    requires m.disk.state.success.Some? ==> m.disk.state.success.value.tag != m.disk.journal.value.tag
    ensures Run(r, m, fates).disk == Recovered(m.disk, m.disk.journal.value)
  {
    NothingYet(r, m);
    hide Next, Run;
    HealthCrashes(r, m, mess);
    fates := Then(r, m, [], Crash(false, mess));
    var more := Restarts(r, Run(r, m, fates), mess);
    RunConcat(r, m, fates, more);
    fates := fates + more;
    more := Recovers(r, Run(r, m, fates), mess);
    RunConcat(r, m, fates, more);
    fates := fates + more;
  }

  /** A user row is accepted after a recovery has let users in, the process dies before the recovery is marked, and the
      next check restores the same checkpoint again: users are let in to a database without the row. */
  lemma RowsOfReadmissionAreLost(r: Repo, m: Machine, o: Offer, row: int)
    requires Welcome(r, m, o) && m.disk.current.Some? && SuccessSeen(m.disk.state)
    ensures exists fates, k: nat ::
              && k < |fates| && fates[k] == UserRow(row) && Run(r, m, fates[..k]).disk.serving
              && Run(r, m, fates[..k + 1]).disk.database.rows == m.disk.database.rows + [row]
              && Run(r, m, fates).disk.serving && Run(r, m, fates).disk.database == m.disk.database
  {
    WelcomeFits(r, m, o);
    OtherSuccess(r, m, o);
    hide Next, Run, Fits, Welcome, Marked;
    var mess := Mess(map[], m.disk.database, m.disk.config, false);
    var before := Readmits(r, m, o, mess);
    RowComes(r, Run(r, m, before), row);
    var fates := Then(r, m, before, UserRow(row));
    var more := RestoresAgain(r, Run(r, m, fates), mess);
    RunConcat(r, m, fates, more);
    IsThere(before, UserRow(row), more);
    assert (fates + more)[..|before|] == before;
  }

  lemma IsThere(before: seq<Fate>, f: Fate, more: seq<Fate>)
    ensures var all := before + [f] + more;
            all[..|before|] == before && all[|before|] == f && all[..|before| + 1] == before + [f]
  {
  }

  // ----- a success that is also a manual recovery

  /** The new release serves users; its success is about to be recorded. */
  lemma ReachesSuccess(r: Repo, m: Machine, o: Offer, mess: Mess) returns (fates: seq<Fate>)
    requires Welcome(r, m, o)
    ensures Run(r, m, fates).proc == Working(m.disk, o, MarkSuccess, Marked(m.disk, o), TrafficCommitted)
  {
    hide Next, Run, Welcome, Marked, QuietSteps, Quiets;
    fates := ReachesReady(r, m, o, mess);
    TakesOver(r, Run(r, m, fates), mess);
    RunQuietly(r, m, fates, 3, mess);
    fates := fates + Quiets(3, mess);
    Upgrades(r, Run(r, m, fates), mess);
    RunQuietly(r, m, fates, 2, mess);
    fates := fates + Quiets(2, mess);
    Publishes(r, Run(r, m, fates), mess);
    RunQuietly(r, m, fates, 3, mess);
    fates := fates + Quiets(3, mess);
  }

  function Recorded(d: Disk, o: Offer): State {
    StateAt(Working(d, o, MarkSuccess, Marked(d, o), TrafficCommitted))
  }

  lemma Records(r: Repo, m: Machine, d: Disk, o: Offer, mess: Mess)
    requires m.proc == Working(d, o, MarkSuccess, Marked(d, o), TrafficCommitted)
    ensures var n := Next(r, m, Proceed(Quiet, mess));
            n.proc == Working(d, o, DropDone, Recorded(d, o), TrafficCommitted)
  {
    hide Next, StateAt;
    Completion.Saves(r, m, mess);
  }

  lemma FailsAfterRecord(r: Repo, m: Machine, d: Disk, o: Offer, pc: Pc, mess: Mess)
    requires AfterRecord(pc)
    requires m.proc == Working(d, o, pc, if pc.MarkSuccess? then Marked(d, o) else Recorded(d, o), TrafficCommitted)
    ensures Next(r, m, Raise(false, false, mess)).proc == Working(d, o, MarkManual, Recorded(d, o), TrafficCommitted)
  {
    PlainMemory(m.proc);
    hide StateAt, JournalPc, DonePc, Marked;
  }

  /** The handler demands manual recovery, on top of whatever memory holds. */
  lemma DemandsManual(r: Repo, m: Machine, d: Disk, o: Offer, s: State, mess: Mess) returns (fates: seq<Fate>)
    requires m.proc == Working(d, o, MarkManual, s, TrafficCommitted)
    ensures var n, tx := Run(r, m, fates), Transaction(d, o, TrafficCommitted);
            && n.proc.Idle? && n.disk.journal == Some(tx.(phase := ManualRecovery))
            && n.disk.state == MarkTx(s, tx, ManualRecoveryRequired)
  {
    NothingYet(r, m);
    hide Next, Run, MarkTx;
    Completion.Saves(r, m, mess);
    fates := Then(r, m, [], Proceed(Quiet, mess));
    WritesManual(r, Run(r, m, fates), mess);
    fates := Then(r, m, fates, Proceed(Quiet, mess));
  }

  lemma WritesManual(r: Repo, m: Machine, mess: Mess)
    requires m.proc.At? && m.proc.pc.WriteManual?
    ensures var n := Next(r, m, Proceed(Quiet, mess));
            n.disk == m.disk.(journal := Some(m.proc.tx.(phase := ManualRecovery))) && n.proc.Idle?
  {
    hide StateAt, JournalPc;
    PlainMemory(m.proc);
    hide Next;
    Passing(r, m, mess);
  }

  lemma FailsRecorded(r: Repo, m: Machine, o: Offer, cause: Pc, mess: Mess) returns (fates: seq<Fate>)
    requires Welcome(r, m, o) && AfterRecord(cause)
    ensures var n := Run(r, m, fates);
            && n.proc.At? && n.proc.pc == cause
            && Next(r, n, Raise(false, false, mess)).proc
               == Working(m.disk, o, MarkManual, Recorded(m.disk, o), TrafficCommitted)
  {
    hide Next, Run, Welcome, Marked, Recorded;
    fates := ReachesSuccess(r, m, o, mess);
    if !cause.MarkSuccess? {
      Records(r, Run(r, m, fates), m.disk, o, mess);
      fates := Then(r, m, fates, Proceed(Quiet, mess));
    }
    if cause.Announce? {
      StepDrop(r, Run(r, m, fates), mess);
      fates := Then(r, m, fates, Proceed(Quiet, mess));
    }
    FailsAfterRecord(r, Run(r, m, fates), m.disk, o, cause, mess);
  }

  lemma RecordedSuccess(d: Disk, o: Offer)
    ensures var s := MarkTx(Recorded(d, o), Transaction(d, o, TrafficCommitted), ManualRecoveryRequired);
            Both(s, o.release.tag)
  {
  }

  /** If the first write of the success record fails, or the removal of the journal after it, or the announcement after
      that, the handler's own mark leaves the success on disk together with the demand for manual recovery. */
  lemma SuccessAndManualRecovery(r: Repo, m: Machine, o: Offer, cause: Pc)
    requires Welcome(r, m, o) && AfterRecord(cause)
    ensures exists fates: seq<Fate>, k: nat :: var n, tag := Run(r, m, fates), o.release.tag;
              && k < |fates| && fates[k].Raise?
              && Run(r, m, fates[..k]).proc.At? && Run(r, m, fates[..k]).proc.pc == cause
              && n.proc.Idle? && OpenFor(n.disk, tag) && n.disk.journal.value.phase.ManualRecovery?
              && Both(n.disk.state, tag)
  {
    hide Next, Run, Welcome, Recorded, MarkTx;
    var mess := Mess(map[], m.disk.database, m.disk.config, false);
    var f := Raise(false, false, mess);
    var before := FailsRecorded(r, m, o, cause, mess);
    var fates := Then(r, m, before, f);
    var more := DemandsManual(r, Run(r, m, fates), m.disk, o, Recorded(m.disk, o), mess);
    RunConcat(r, m, fates, more);
    IsThere(before, f, more);
    RecordedSuccess(m.disk, o);
  }
}
