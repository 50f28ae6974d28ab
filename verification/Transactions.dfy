/** The write-ahead discipline of the update transaction, over every run. */
module Transactions {
  import opened Wrappers
  import opened Selection
  import opened Updater

  // ----- what memory knows about the disk, step by step

  /** The phase on disk never runs ahead of the phase in memory. */
  predicate Lag(onDisk: Phase, inMemory: Phase) {
    match inMemory
    case Preparing => onDisk.Preparing?
    case ChangingPhase => onDisk.Preparing? || onDisk.ChangingPhase?
    case TrafficCommitted => onDisk.ChangingPhase? || onDisk.TrafficCommitted?
    case ManualRecovery => true
  }

  predicate BeforeTraffic(ph: Phase) {
    ph.Preparing? || ph.ChangingPhase?
  }

  predicate Interrupting(pc: Pc) {
    (pc.DropFinished? || pc.MarkBlocked? || pc.MarkInterruptedBefore? || pc.MarkInterruptedRestored?
     || pc.DropInterrupted?)
  }

  /** interrupted() works on the journal as it found it. */
  predicate InterruptedOk(p: Proc, d: Disk)
    requires p.At?
  {
    && d.journal == Some(p.tx)
    && match p.pc
       case DropFinished => p.tx.tag in d.state.seen
       case MarkBlocked => !BeforeTraffic(p.tx.phase)
       case MarkInterruptedBefore => p.tx.phase.Preparing?
       case ResumePoint => p.tx.phase.Preparing?
       case ResumeAdmit => p.tx.phase.Preparing?
       case DropInterrupted => BeforeTraffic(p.tx.phase) && p.tx.tag in d.state.seen
       case _ => p.tx.phase.ChangingPhase?
  }

  /** The journal is the process's own, with a phase that memory has reached; after its removal the tag stays marked. */
  predicate JournalFits(p: Proc, d: Disk)
    requires p.At?
  {
    match d.journal
    case Some(tx) => tx == p.tx.(phase := tx.phase) && Lag(tx.phase, p.tx.phase) && !p.pc.Announce?
    case None => (p.pc.Announce? || p.pc.MarkManual? || p.pc.WriteManual?) && p.tx.tag in d.state.seen
                 && p.tx.phase.TrafficCommitted?
  }

  /** apply() owns the open journal. */
  predicate ApplyingOk(p: Proc, d: Disk)
    requires p.At?
  {
    && JournalFits(p, d)
    && (!p.pc.MarkApplying? ==> p.tx.tag in p.state.seen)
    && match p.pc
       case MarkApplying => p.tx.phase.Preparing?
       case CheckRunning => p.tx.phase.Preparing?
       case Fence => p.tx.phase.Preparing?
       case Backup => p.tx.phase.Preparing?
       case BeginChanging => p.tx.phase.Preparing?
       case PointNew => p.tx.phase.ChangingPhase? && d.journal.value.phase.ChangingPhase?
       case SetImages => p.tx.phase.ChangingPhase? && d.journal.value.phase.ChangingPhase?
       case Bootstrap => p.tx.phase.ChangingPhase? && d.journal.value.phase.ChangingPhase?
       case CheckHealth => p.tx.phase.ChangingPhase? && d.journal.value.phase.ChangingPhase?
       case CommitTraffic => p.tx.phase.ChangingPhase? && d.journal.value.phase.ChangingPhase?
       case Admit => d.journal.value.phase.TrafficCommitted? && p.tx.phase.TrafficCommitted?
       case CheckPublic => d.journal.value.phase.TrafficCommitted? && p.tx.phase.TrafficCommitted?
       case MarkSuccess => d.journal.value.phase.TrafficCommitted? && p.tx.phase.TrafficCommitted?
       case DropDone => d.journal.value.phase.TrafficCommitted? && p.tx.phase.TrafficCommitted?
                        && p.tx.tag in d.state.seen
       case Announce => p.tx.phase.TrafficCommitted?
       case ResumePoint => p.tx.phase.Preparing?
       case ResumeAdmit => p.tx.phase.Preparing?
       case MarkFailedBefore => p.tx.phase.Preparing?
       case MarkFailedRestored => BeforeTraffic(p.tx.phase)
       case DropFailed => BeforeTraffic(p.tx.phase) && p.tx.tag in d.state.seen
       case MarkManual => !p.tx.phase.ManualRecovery?
       case WriteManual => !p.tx.phase.ManualRecovery?
       case _ => BeforeTraffic(p.tx.phase)
  }

  predicate Idling(pc: Pc) {
    (pc.Select? || pc.Resolve? || pc.Observe? || pc.Descend? || pc.Stage? || pc.OpenJournal? || pc.CountAttempt?
        || pc.Reject?)
  }

  /** check() before it opens a journal: none is open and the candidate is not marked. */
  predicate CheckingOk(p: Proc, d: Disk)
    requires p.At?
  {
    && d.journal.None? && !p.applying
    && (!p.pc.Select? ==> p.release.tag !in p.state.seen)
    && ((p.pc.Observe? || p.pc.Descend? || p.pc.Stage? || p.pc.OpenJournal?) ==>
          p.tx.tag == p.release.tag && p.tx.phase.Preparing?)
  }

  predicate ProcOk(p: Proc, d: Disk) {
    p.At? ==>
      && d.state.seen.Keys <= p.state.seen.Keys
      && (if p.pc.Enter? then !p.applying && p.state == d.state
          else if Idling(p.pc) then CheckingOk(p, d)
          else if p.applying then ApplyingOk(p, d) && !Interrupting(p.pc)
          else InterruptedOk(p, d) && (Interrupting(p.pc) || Recovering(p.pc)
                                       || (p.pc.ResumePoint? || p.pc.ResumeAdmit? || p.pc.MarkManual?
                                        || p.pc.WriteManual?)))
  }

  /** A recorded success is always also marked as seen. */
  predicate SuccessSeen(s: State) {
    s.success.Some? ==> s.success.value.tag in s.seen
  }

  predicate MemorySuccessSeen(p: Proc) {
    p.At? ==> SuccessSeen(p.state)
  }

  predicate LocalOk(m: Machine) {
    ProcOk(m.proc, m.disk) && SuccessSeen(m.disk.state) && MemorySuccessSeen(m.proc)
  }

  /** The families of steps that the proofs go through. */
  datatype Family = EarlySteps | LateSteps | CheckingSteps | RecoverySteps | InterruptedSteps | HandlerSteps

  function FamilyOf(p: Proc): Family
    requires p.At?
  {
    if Recovering(p.pc) then RecoverySteps
    else if Idling(p.pc) then CheckingSteps
    else if !p.applying then InterruptedSteps
    else if p.pc.CheckRunning? || p.pc.Fence? || p.pc.Backup? || p.pc.BeginChanging? then EarlySteps
    else if Trying(p.pc) then LateSteps
    else HandlerSteps
  }

  predicate StepReady(r: Repo, p: Proc, d: Disk) {
    p.At? && ProcOk(p, d) && SuccessSeen(d.state) && SuccessSeen(p.state)
  }

  lemma StateAtSeen(p: Proc)
    requires p.At? && SuccessSeen(p.state)
    ensures SuccessSeen(StateAt(p)) && p.state.seen.Keys <= StateAt(p).seen.Keys
    ensures StatusAt(p.pc).Some? ==> p.tx.tag in StateAt(p).seen
    ensures p.pc.Observe? || p.pc.CountAttempt? || !SavesState(p.pc) ==> StateAt(p).seen == p.state.seen
    ensures !SavesState(p.pc) ==> StateAt(p) == p.state
  {
  }

  lemma EarlyDone(r: Repo, p: Proc, d: Disk, f: Fate)
    requires StepReady(r, p, d) && FamilyOf(p).EarlySteps? && f.Proceed? && !Refuses(r, p, d, f.answer)
    ensures ProcOk(OnDone(p, Perform(d, StepOp(p, d, f), f), f.answer), Perform(d, StepOp(p, d, f), f))
  {
    hide CurrentAfter, ImagesAfter, DatabaseAfter, ConfigAfter, CheckpointsAfter, ManifestsAfter, ServingAfter;
    hide Refuses, CheckpointOf, TagOk, InterruptedOk, CheckingOk, Preflight, JournalPc, RaisePc;
  }

  lemma LateDone(r: Repo, p: Proc, d: Disk, f: Fate)
    requires StepReady(r, p, d) && FamilyOf(p).LateSteps? && f.Proceed? && !Refuses(r, p, d, f.answer)
    ensures ProcOk(OnDone(p, Perform(d, StepOp(p, d, f), f), f.answer), Perform(d, StepOp(p, d, f), f))
  {
    if Public(p.pc) {
      PublicDone(r, p, d, f);
    } else {
      ChangeDone(r, p, d, f);
    }
  }

  /** The steps of the try block after the traffic boundary. */
  predicate Public(pc: Pc) {
    pc.Admit? || pc.CheckPublic? || pc.MarkSuccess? || pc.DropDone? || pc.Announce?
  }

  lemma ChangeDone(r: Repo, p: Proc, d: Disk, f: Fate)
    requires StepReady(r, p, d) && FamilyOf(p).LateSteps? && !Public(p.pc)
    requires f.Proceed? && !Refuses(r, p, d, f.answer)
    ensures ProcOk(OnDone(p, Perform(d, StepOp(p, d, f), f), f.answer), Perform(d, StepOp(p, d, f), f))
  {
    hide CurrentAfter, ImagesAfter, DatabaseAfter, ConfigAfter, CheckpointsAfter, ManifestsAfter, ServingAfter;
    hide Refuses, CheckpointOf, TagOk, InterruptedOk, CheckingOk, Preflight, JournalPc, RaisePc;
    StateAtSeen(p);
    hide Selected, MarkTx, StateAt;
  }

  lemma PublicDone(r: Repo, p: Proc, d: Disk, f: Fate)
    requires StepReady(r, p, d) && p.applying && Public(p.pc) && f.Proceed? && !Refuses(r, p, d, f.answer)
    ensures ProcOk(OnDone(p, Perform(d, StepOp(p, d, f), f), f.answer), Perform(d, StepOp(p, d, f), f))
  {
    hide CurrentAfter, ImagesAfter, DatabaseAfter, ConfigAfter, CheckpointsAfter, ManifestsAfter, ServingAfter;
    hide Refuses, CheckpointOf, TagOk, InterruptedOk, CheckingOk, Preflight, JournalPc, RaisePc;
    StateAtSeen(p);
    hide Selected, MarkTx, StateAt;
  }

  /** An exception leaves journal and state on disk as they were. */
  lemma RaiseLeaves(p: Proc, d: Disk, f: Fate)
    requires p.At? && f.Raise?
    ensures var e := Perform(d, StepOp(p, d, f), f); e.journal == d.journal && e.state == d.state
  {
    hide StateAt, TxAt, CheckpointOf;
  }

  lemma EarlyRaise(r: Repo, p: Proc, d: Disk, f: Fate)
    requires StepReady(r, p, d) && FamilyOf(p).EarlySteps? && f.Raise?
    ensures ProcOk(OnRaise(p, Perform(d, StepOp(p, d, f), f), f.transient), Perform(d, StepOp(p, d, f), f))
  {
    RaiseLeaves(p, d, f);
    StateAtSeen(p);
    hide Perform, StepOp, InterruptedOk, CheckingOk, TagOk, StateAt, MarkTx, SavesState, StatusAt;
  }

  lemma LateRaise(r: Repo, p: Proc, d: Disk, f: Fate)
    requires StepReady(r, p, d) && FamilyOf(p).LateSteps? && f.Raise?
    ensures ProcOk(OnRaise(p, Perform(d, StepOp(p, d, f), f), f.transient), Perform(d, StepOp(p, d, f), f))
  {
    RaiseLeaves(p, d, f);
    StateAtSeen(p);
    hide Perform, StepOp, InterruptedOk, CheckingOk, TagOk, StateAt, MarkTx, SavesState, StatusAt;
  }

  lemma CheckingDone(r: Repo, p: Proc, d: Disk, f: Fate)
    requires StepReady(r, p, d) && FamilyOf(p).CheckingSteps? && f.Proceed? && !Refuses(r, p, d, f.answer)
    ensures ProcOk(OnDone(p, Perform(d, StepOp(p, d, f), f), f.answer), Perform(d, StepOp(p, d, f), f))
  {
    hide CurrentAfter, ImagesAfter, DatabaseAfter, ConfigAfter, CheckpointsAfter, ManifestsAfter, ServingAfter;
    hide CommitFits, Descendant, BundleFits, CheckpointOf, TagOk, InterruptedOk, RaisePc, JournalPc;
    StateAtSeen(p);
    hide Selected, MarkTx, StateAt;
  }

  lemma CheckingRaise(r: Repo, p: Proc, d: Disk, f: Fate)
    requires StepReady(r, p, d) && FamilyOf(p).CheckingSteps? && f.Raise?
    ensures ProcOk(OnRaise(p, Perform(d, StepOp(p, d, f), f), f.transient), Perform(d, StepOp(p, d, f), f))
  {
    hide CurrentAfter, ImagesAfter, DatabaseAfter, ConfigAfter, CheckpointsAfter, ManifestsAfter, ServingAfter;
    hide Refuses, CheckpointOf, TagOk, InterruptedOk;
  }

  lemma RecoveryDone(r: Repo, p: Proc, d: Disk, f: Fate)
    requires StepReady(r, p, d) && FamilyOf(p).RecoverySteps? && f.Proceed? && !Refuses(r, p, d, f.answer)
    ensures ProcOk(OnDone(p, Perform(d, StepOp(p, d, f), f), f.answer), Perform(d, StepOp(p, d, f), f))
  {
    if p.applying {
      OwnRecoveryDone(r, p, d, f);
    } else {
      FoundRecoveryDone(r, p, d, f);
    }
  }

  lemma OwnRecoveryDone(r: Repo, p: Proc, d: Disk, f: Fate)
    requires StepReady(r, p, d) && FamilyOf(p).RecoverySteps? && f.Proceed? && !Refuses(r, p, d, f.answer)
    requires p.applying
    ensures ProcOk(OnDone(p, Perform(d, StepOp(p, d, f), f), f.answer), Perform(d, StepOp(p, d, f), f))
  {
    hide NewSuccess, CommitFits, Descendant, BundleFits;
    hide CurrentAfter, ImagesAfter, DatabaseAfter, ConfigAfter, CheckpointsAfter, ManifestsAfter, ServingAfter;
    hide Refuses, CheckpointOf, TagOk, InterruptedOk, CheckingOk, Preflight, JournalPc, RaisePc, Selected;
    StateAtSeen(p);
    hide StateAt;
  }

  lemma FoundRecoveryDone(r: Repo, p: Proc, d: Disk, f: Fate)
    requires StepReady(r, p, d) && FamilyOf(p).RecoverySteps? && f.Proceed? && !Refuses(r, p, d, f.answer)
    requires !p.applying
    ensures ProcOk(OnDone(p, Perform(d, StepOp(p, d, f), f), f.answer), Perform(d, StepOp(p, d, f), f))
  {
    RecoveryLeads(p, Perform(d, StepOp(p, d, f), f), f.answer);
    RecoveryWritesNoRecord(p, d, f);
    hide OnDone, Perform, StepOp, Refuses, ProcOk;
    StillInterrupted(p, d, OnDone(p, Perform(d, StepOp(p, d, f), f), f.answer), Perform(d, StepOp(p, d, f), f));
  }

  lemma StillInterrupted(p: Proc, d: Disk, n: Proc, e: Disk)
    requires p.At? && ProcOk(p, d) && Recovering(p.pc) && !p.applying && e.journal == d.journal && e.state == d.state
    requires n.At? && n == p.(pc := n.pc) && (Recovering(n.pc) || n.pc.MarkInterruptedRestored?)
    ensures ProcOk(n, e)
  {
    hide ApplyingOk, CheckingOk, TagOk;
  }

  lemma RecoveryLeads(p: Proc, d: Disk, answer: Answer)
    requires p.At? && Recovering(p.pc) && !p.applying
    ensures var n := OnDone(p, d, answer);
            n == p.(pc := n.pc) && (Recovering(n.pc) || n.pc.MarkInterruptedRestored?)
  {
    hide JournalPc, Selected, NewSuccess;
  }

  lemma RecoveryWritesNoRecord(p: Proc, d: Disk, f: Fate)
    requires p.At? && Recovering(p.pc) && f.Proceed?
    ensures var e := Perform(d, StepOp(p, d, f), f); e.journal == d.journal && e.state == d.state
  {
    hide CheckpointOf, StateAt, TxAt;
  }

  lemma RecoveryRaise(r: Repo, p: Proc, d: Disk, f: Fate)
    requires StepReady(r, p, d) && FamilyOf(p).RecoverySteps? && f.Raise?
    ensures ProcOk(OnRaise(p, Perform(d, StepOp(p, d, f), f), f.transient), Perform(d, StepOp(p, d, f), f))
  {
    RaiseLeaves(p, d, f);
    StateAtSeen(p);
    hide Perform, StepOp, CheckingOk, TagOk, StateAt, MarkTx, SavesState, StatusAt;
  }

  lemma InterruptedDone(r: Repo, p: Proc, d: Disk, f: Fate)
    requires StepReady(r, p, d) && FamilyOf(p).InterruptedSteps? && f.Proceed? && !Refuses(r, p, d, f.answer)
    ensures ProcOk(OnDone(p, Perform(d, StepOp(p, d, f), f), f.answer), Perform(d, StepOp(p, d, f), f))
  {
    if p.pc.Enter? {
      LookDone(r, p, d, f);
    } else {
      FoundDone(r, p, d, f);
    }
  }

  lemma LookDone(r: Repo, p: Proc, d: Disk, f: Fate)
    requires StepReady(r, p, d) && p.pc.Enter? && f.Proceed? && !Refuses(r, p, d, f.answer)
    ensures ProcOk(OnDone(p, Perform(d, StepOp(p, d, f), f), f.answer), Perform(d, StepOp(p, d, f), f))
  {
    hide NewSuccess, CommitFits, Descendant, BundleFits, RaisePc;
    hide CurrentAfter, ImagesAfter, DatabaseAfter, ConfigAfter, CheckpointsAfter, ManifestsAfter, ServingAfter;
    hide Refuses, CheckpointOf, TagOk, ApplyingOk, Preflight, Selected, MarkTx;
  }

  lemma FoundDone(r: Repo, p: Proc, d: Disk, f: Fate)
    requires StepReady(r, p, d) && FamilyOf(p).InterruptedSteps? && !p.pc.Enter?
    requires f.Proceed? && !Refuses(r, p, d, f.answer)
    ensures ProcOk(OnDone(p, Perform(d, StepOp(p, d, f), f), f.answer), Perform(d, StepOp(p, d, f), f))
  {
    hide NewSuccess, CommitFits, Descendant, BundleFits, RaisePc;
    hide CurrentAfter, ImagesAfter, DatabaseAfter, ConfigAfter, CheckpointsAfter, ManifestsAfter, ServingAfter;
    hide Refuses, CheckpointOf, TagOk, ApplyingOk, Preflight, JournalPc;
    StateAtSeen(p);
    hide Selected, MarkTx, StateAt;
  }

  lemma InterruptedRaise(r: Repo, p: Proc, d: Disk, f: Fate)
    requires StepReady(r, p, d) && FamilyOf(p).InterruptedSteps? && f.Raise?
    ensures ProcOk(OnRaise(p, Perform(d, StepOp(p, d, f), f), f.transient), Perform(d, StepOp(p, d, f), f))
  {
    hide CurrentAfter, ImagesAfter, DatabaseAfter, ConfigAfter, CheckpointsAfter, ManifestsAfter, ServingAfter;
    hide Refuses, CheckpointOf, TagOk, ApplyingOk;
  }

  lemma HandlerDone(r: Repo, p: Proc, d: Disk, f: Fate)
    requires StepReady(r, p, d) && FamilyOf(p).HandlerSteps? && f.Proceed? && !Refuses(r, p, d, f.answer)
    ensures ProcOk(OnDone(p, Perform(d, StepOp(p, d, f), f), f.answer), Perform(d, StepOp(p, d, f), f))
  {
    hide CurrentAfter, ImagesAfter, DatabaseAfter, ConfigAfter, CheckpointsAfter, ManifestsAfter, ServingAfter;
    hide Refuses, CheckpointOf, TagOk, InterruptedOk, CheckingOk, Preflight, JournalPc, RaisePc;
    StateAtSeen(p);
    hide Selected, MarkTx, StateAt;
  }

  lemma HandlerRaise(r: Repo, p: Proc, d: Disk, f: Fate)
    requires StepReady(r, p, d) && FamilyOf(p).HandlerSteps? && f.Raise?
    ensures ProcOk(OnRaise(p, Perform(d, StepOp(p, d, f), f), f.transient), Perform(d, StepOp(p, d, f), f))
  {
    hide CurrentAfter, ImagesAfter, DatabaseAfter, ConfigAfter, CheckpointsAfter, ManifestsAfter, ServingAfter;
    hide Refuses, CheckpointOf, TagOk, InterruptedOk, CheckingOk;
  }

  /** A step that refuses has no effect of its own; it goes where an exception before the effect goes. */
  lemma RefusalRaises(r: Repo, p: Proc, d: Disk, f: Fate)
    requires StepReady(r, p, d) && f.Proceed? && Refuses(r, p, d, f.answer)
    ensures ProcOk(OnRaise(p, d, false), d)
  {
    hide CommitFits, Descendant, BundleFits, CheckpointOf, TagOk, JournalPc, DonePc;
  }

  /** Whatever comes next, memory holds what the step assigned. */
  lemma NextMemory(p: Proc, d: Disk, answer: Answer, transient: bool)
    requires p.At?
    ensures OnDone(p, d, answer).At? ==> OnDone(p, d, answer).state == StateAt(p)
    ensures OnRaise(p, d, transient).At? ==> OnRaise(p, d, transient).state == StateAt(p)
  {
    hide DonePc, RaisePc, StateAt, TxAt;
  }

  lemma StepSaves(p: Proc, d: Disk, f: Fate)
    requires p.At?
    ensures StepOp(p, d, f).SaveState? ==> StepOp(p, d, f).state == StateAt(p)
  {
    hide StateAt, TxAt, CheckpointOf;
  }

  lemma StatesStaySeen(r: Repo, m: Machine, f: Fate)
    requires LocalOk(m) && m.proc.At? && (f.Proceed? || f.Raise? || f.Crash?)
    ensures SuccessSeen(Act(r, m, f).disk.state) && MemorySuccessSeen(Act(r, m, f).proc)
  {
    hide JournalAfter, CurrentAfter, ImagesAfter, DatabaseAfter, ConfigAfter, CheckpointsAfter, ManifestsAfter;
    hide ServingAfter, ProcOk, OnDone, OnRaise, Refuses, StepOp, StateAt;
    var disk := Perform(m.disk, StepOp(m.proc, m.disk, f), f);
    StateAtSeen(m.proc);
    StepSaves(m.proc, m.disk, f);
    NextMemory(m.proc, m.disk, Quiet, false);
    NextMemory(m.proc, disk, if f.Proceed? then f.answer else Quiet, if f.Raise? then f.transient else false);
  }

  lemma IdleOk(d: Disk)
    ensures ProcOk(Idle, d)
  {
  }

  /** Memory and disk stay in step whatever happens to the process. */
  lemma LocalAct(r: Repo, m: Machine, f: Fate)
    requires LocalOk(m) && m.proc.At? && (f.Proceed? || f.Raise? || f.Crash?)
    ensures LocalOk(Act(r, m, f))
  {
    hide ProcOk, Perform, OnDone, OnRaise, StepOp, Refuses;
    var p, d := m.proc, m.disk;
    StatesStaySeen(r, m, f);
    IdleOk(Perform(d, StepOp(p, d, f), f));
    if f.Proceed? && Refuses(r, p, d, f.answer) {
      RefusalRaises(r, p, d, f);
    } else if f.Proceed? {
      match FamilyOf(p)
      case EarlySteps => EarlyDone(r, p, d, f);
      case LateSteps => LateDone(r, p, d, f);
      case CheckingSteps => CheckingDone(r, p, d, f);
      case RecoverySteps => RecoveryDone(r, p, d, f);
      case InterruptedSteps => InterruptedDone(r, p, d, f);
      case HandlerSteps => HandlerDone(r, p, d, f);
    } else if f.Raise? {
      match FamilyOf(p)
      case EarlySteps => EarlyRaise(r, p, d, f);
      case LateSteps => LateRaise(r, p, d, f);
      case CheckingSteps => CheckingRaise(r, p, d, f);
      case RecoverySteps => RecoveryRaise(r, p, d, f);
      case InterruptedSteps => InterruptedRaise(r, p, d, f);
      case HandlerSteps => HandlerRaise(r, p, d, f);
    }
  }
}
