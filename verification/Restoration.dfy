/** What a failed update leaves behind: exactly what its checkpoint saved, and what the checkpoint saved is what there
    was before the update touched anything. */
module Restoration {
  import opened Wrappers
  import opened Selection
  import opened Updater
  import opened Transactions
  import opened Safety

  // ----- what the next step may assume about the deployment

  /** The deployment is what the tag's complete checkpoint holds. */
  predicate Matches(d: Disk, tag: Tag) {
    && tag in d.checkpoints && d.images == d.checkpoints[tag].images
    && d.database == d.checkpoints[tag].database && d.config == d.checkpoints[tag].config
  }

  /** The same, but for the rows that users added after they were let in again. */
  predicate PutBack(d: Disk, tag: Tag, previous: Option<Path>) {
    && tag in d.checkpoints && d.current == previous && d.images == d.checkpoints[tag].images
    && d.config == d.checkpoints[tag].config && d.database.schema == d.checkpoints[tag].database.schema
    && d.checkpoints[tag].database.rows <= d.database.rows
  }

  predicate ContentOk(p: Proc, d: Disk)
    requires p.At?
  {
    match p.pc
    case OpenJournal => p.tx.previous == d.current
    case MarkApplying => p.tx.previous == d.current
    case CheckRunning => p.tx.previous == d.current
    case Fence => p.tx.previous == d.current
    case Backup => p.tx.previous == d.current && !d.serving
    case BeginChanging => p.tx.previous == d.current && (p.tx.previous.Some? ==> !d.serving && Matches(d, p.tx.tag))
    case PointNew => p.tx.previous == d.current && (p.tx.previous.Some? ==> !d.serving && Matches(d, p.tx.tag))
    case RecoverFence => p.tx.tag in d.checkpoints
    case RecoverPoint => p.tx.tag in d.checkpoints && !d.serving
    case RecoverImages => p.tx.tag in d.checkpoints && !d.serving && d.current == p.tx.previous
    case RecoverDatabase =>
      && p.tx.tag in d.checkpoints && !d.serving && d.current == p.tx.previous
      && d.images == d.checkpoints[p.tx.tag].images
    case RecoverConfig =>
      && p.tx.tag in d.checkpoints && !d.serving && d.current == p.tx.previous
      && d.images == d.checkpoints[p.tx.tag].images && d.database == d.checkpoints[p.tx.tag].database
    case RecoverAdmit => Matches(d, p.tx.tag) && d.current == p.tx.previous && !d.serving
    case RecoverHealth => PutBack(d, p.tx.tag, p.tx.previous)
    case MarkInterruptedRestored => PutBack(d, p.tx.tag, p.tx.previous)
    case MarkFailedRestored => PutBack(d, p.tx.tag, p.tx.previous)
    case _ => true
  }

  predicate ProcContentOk(m: Machine) {
    m.proc.At? ==> ContentOk(m.proc, m.disk)
  }

  lemma RecoveryKeepsContent(r: Repo, p: Proc, d: Disk, f: Fate)
    requires p.At? && ContentOk(p, d) && f.Proceed? && !Refuses(r, p, d, f.answer) && Recovering(p.pc)
    ensures OnDone(p, Perform(d, StepOp(p, d, f), f), f.answer).At? ==>
              ContentOk(OnDone(p, Perform(d, StepOp(p, d, f), f), f.answer), Perform(d, StepOp(p, d, f), f))
  {
    hide JournalAfter, StateAfter, ManifestsAfter, StateAt, RaisePc, JournalPc;
  }

  lemma OthersKeepContent(r: Repo, p: Proc, d: Disk, f: Fate)
    requires p.At? && ContentOk(p, d) && f.Proceed? && !Refuses(r, p, d, f.answer) && !Recovering(p.pc)
    ensures OnDone(p, Perform(d, StepOp(p, d, f), f), f.answer).At? ==>
              ContentOk(OnDone(p, Perform(d, StepOp(p, d, f), f), f.answer), Perform(d, StepOp(p, d, f), f))
  {
    hide CommitFits, Descendant, BundleFits, JournalAfter, StateAfter, ManifestsAfter, StateAt, RaisePc, Selected;
  }

  /** An exception never leads to a step that relies on the deployment. */
  lemma RaiseKeepsContent(p: Proc, before: Disk, d: Disk, transient: bool)
    requires p.At? && OnRaise(p, before, transient).At?
    ensures ContentOk(OnRaise(p, before, transient), d)
  {
    hide StateAt, TxAt, DonePc;
  }

  lemma ActKeepsContent(r: Repo, m: Machine, f: Fate)
    requires m.proc.At? && ProcContentOk(m) && IsAct(f)
    ensures ProcContentOk(Act(r, m, f))
  {
    hide ContentOk, Perform, OnDone, OnRaise, StepOp, Refuses;
    var d := Perform(m.disk, StepOp(m.proc, m.disk, f), f);
    if f.Proceed? && Refuses(r, m.proc, m.disk, f.answer) {
      if OnRaise(m.proc, m.disk, false).At? {
        RaiseKeepsContent(m.proc, m.disk, m.disk, false);
      }
    } else if f.Proceed? {
      if Recovering(m.proc.pc) {
        RecoveryKeepsContent(r, m.proc, m.disk, f);
      } else {
        OthersKeepContent(r, m.proc, m.disk, f);
      }
    } else if f.Raise? && OnRaise(m.proc, d, f.transient).At? {
      RaiseKeepsContent(m.proc, d, d, f.transient);
    }
  }

  // ----- what the log shows

  predicate TookCheckpoint(e: Event) {
    e.op.TakeCheckpoint? && Took(e.op, e.fate)
  }

  predicate MarksRestored(e: Event) {
    e.pc.MarkInterruptedRestored? || e.pc.MarkFailedRestored?
  }

  predicate ContentEventOk(e: Event) {
    && (e.op.TakeCheckpoint? ==>
          && e.op.tag == e.tag && OpenFor(e.before, e.tag) && e.before.journal.value.phase.Preparing?
          && e.before.current == e.before.journal.value.previous && !e.before.serving)
    && (e.pc.PointNew? && OpenFor(e.before, e.tag) && e.before.journal.value.previous.Some? ==>
          e.before.current == e.before.journal.value.previous && !e.before.serving && Matches(e.before, e.tag))
    && (MarksRestored(e) ==>
          OpenFor(e.before, e.tag) && BeforeTraffic(e.before.journal.value.phase)
          && PutBack(e.before, e.tag, e.before.journal.value.previous))
    && (e.op.StartServing? || e.op.RestoreDatabase? ==> OpenFor(e.before, e.tag))
    && (e.op.RestoreDatabase? ==> BeforeTraffic(e.before.journal.value.phase))
    && (e.op.WriteTx? && !e.pc.OpenJournal? ==>
          !e.op.tx.phase.Preparing?
          && (e.before.journal.Some? ==> e.op.tx.previous == e.before.journal.value.previous))
  }

  lemma ContentEventIsOk(p: Proc, d: Disk, f: Fate)
    requires p.At? && ProcOk(p, d) && ContentOk(p, d)
    ensures ContentEventOk(Event(p.pc, p.tx.tag, StepOp(p, d, f), d, f))
  {
    hide StateAt, CheckpointOf;
  }

  /** What a checkpoint saves. */
  function Saved(e: Event): Checkpoint {
    Checkpoint(e.before.images, e.before.database, e.before.config)
  }

  /** A checkpoint was completed where there was none. */
  predicate Saves(e: Event) {
    TookCheckpoint(e) && e.tag !in e.before.checkpoints
  }

  predicate Holds(d: Disk, tag: Tag, c: Checkpoint) {
    tag in d.checkpoints && d.checkpoints[tag] == c
  }

  /** Between events `i` and `j`, users were let in for the tag of event `i`. */
  ghost predicate Readmitted(log: seq<Event>, i: nat, j: nat)
    requires i < j <= |log|
  {
    exists k | i < k < j :: log[k].tag == log[i].tag && log[k].op.StartServing?
  }

  /** At every event after `i` and before `j` the ingress was down. */
  ghost predicate Silent(log: seq<Event>, i: nat, j: nat)
    requires i < j <= |log|
  {
    forall k | i < k < j :: !log[k].before.serving
  }

  /** An open transaction whose deployment has been touched is past its preparation. */
  predicate Begun(d: Disk, tag: Tag) {
    OpenFor(d, tag) ==> !d.journal.value.phase.Preparing?
  }

  predicate Undecided(d: Disk, tag: Tag) {
    OpenFor(d, tag) && BeforeTraffic(d.journal.value.phase)
  }

  /** An undecided transaction leads back to the release that was current when its checkpoint was taken. */
  predicate LeadsBack(d: Disk, tag: Tag, current: Option<Path>) {
    Undecided(d, tag) ==> d.journal.value.previous == current
  }

  ghost predicate ContentLogOk(m: Machine) {
    && (forall i | 0 <= i < |m.log| :: ContentEventOk(m.log[i]))
    && (forall i | 0 <= i < |m.log| && TookCheckpoint(m.log[i]) ::
          Accounted(m.disk, m.log[i].tag) && LeadsBack(m.disk, m.log[i].tag, m.log[i].before.current))
    && (forall i | 0 <= i < |m.log| && Saves(m.log[i]) :: Holds(m.disk, m.log[i].tag, Saved(m.log[i])))
    && (forall i | 0 <= i < |m.log| && Changes(m.log[i]) ::
          Accounted(m.disk, m.log[i].tag) && Begun(m.disk, m.log[i].tag))
    && (forall i | 0 <= i < |m.log| && TookCheckpoint(m.log[i]) && Undecided(m.disk, m.log[i].tag) ::
          Readmitted(m.log, i, |m.log|) || (Silent(m.log, i, |m.log|) && !m.disk.serving))
  }

  /** No update has changed anything of its deployment when its checkpoint is taken. */
  ghost predicate CheckpointsFirst(log: seq<Event>) {
    forall i, j | 0 <= i < j < |log| && Changes(log[i]) && TookCheckpoint(log[j]) :: log[i].tag != log[j].tag
  }

  /** A checkpoint, once complete, is what every later step finds under its tag. */
  ghost predicate CheckpointsKept(log: seq<Event>) {
    forall i, j | 0 <= i < j < |log| && Saves(log[i]) :: Holds(log[j].before, log[i].tag, Saved(log[i]))
  }

  ghost predicate PreviousKept(log: seq<Event>) {
    forall i, j | 0 <= i < j < |log| && TookCheckpoint(log[i]) ::
      LeadsBack(log[j].before, log[i].tag, log[i].before.current)
  }

  /** A restore that follows no readmission follows no user write either: the ingress has been down since the
      checkpoint was taken. */
  ghost predicate FencedRestores(log: seq<Event>) {
    forall i, j | 0 <= i < j < |log| && TookCheckpoint(log[i]) && log[j].op.RestoreDatabase?
                  && log[j].tag == log[i].tag ::
      Readmitted(log, i, j) || Silent(log, i, j + 1)
  }

  ghost predicate HistoryOk(log: seq<Event>) {
    CheckpointsFirst(log) && CheckpointsKept(log) && PreviousKept(log) && FencedRestores(log)
  }

  lemma ContentAccountStep(d: Disk, e: Event, tag: Tag, c: Checkpoint, current: Option<Path>)
    requires EventOk(e) && ContentEventOk(e) && e.before == d && IsAct(e.fate)
    ensures Holds(d, tag, c) ==> Holds(Perform(d, e.op, e.fate), tag, c)
    ensures Saves(e) ==> Holds(Perform(d, e.op, e.fate), e.tag, Saved(e))
    ensures Accounted(d, tag) && Begun(d, tag) ==> Begun(Perform(d, e.op, e.fate), tag)
    ensures Accounted(d, tag) && LeadsBack(d, tag, current) ==> LeadsBack(Perform(d, e.op, e.fate), tag, current)
    ensures TookCheckpoint(e) ==> LeadsBack(Perform(d, e.op, e.fate), e.tag, d.current)
    ensures Changes(e) ==> Accounted(Perform(d, e.op, e.fate), e.tag)
    ensures TookCheckpoint(e) ==> Accounted(d, e.tag) && !Begun(d, e.tag)
    ensures Accounted(d, tag) && Undecided(Perform(d, e.op, e.fate), tag) ==> Undecided(d, tag)
    ensures e.op.StartServing? && OpenFor(d, tag) ==> e.tag == tag
    ensures !e.op.StartServing? && !d.serving ==> !Perform(d, e.op, e.fate).serving
    ensures TookCheckpoint(e) ==> !d.serving && !e.op.StartServing?
    ensures e.op.RestoreDatabase? ==> Undecided(d, e.tag)
  {
    hide CurrentAfter, ImagesAfter, DatabaseAfter, ConfigAfter, ManifestsAfter, Matches, PutBack;
  }

  lemma BegunByChange(d: Disk, e: Event)
    requires EventOk(e) && e.before == d && IsAct(e.fate) && Changes(e)
    requires !e.op.WriteTx? && !e.op.RemoveTx?
    ensures Begun(Perform(d, e.op, e.fate), e.tag)
  {
    hide CurrentAfter, ImagesAfter, DatabaseAfter, ConfigAfter, ManifestsAfter, CheckpointsAfter, ServingAfter;
  }

  lemma ReadmittedStep(log: seq<Event>, e: Event, i: nat)
    requires i < |log|
    ensures Readmitted(log + [e], i, |log| + 1)
       <==> Readmitted(log, i, |log|) || (e.tag == log[i].tag && e.op.StartServing?)
    ensures Silent(log + [e], i, |log| + 1) <==> Silent(log, i, |log|) && !e.before.serving
    ensures forall j | i < j <= |log| :: Readmitted(log + [e], i, j) <==> Readmitted(log, i, j)
    ensures forall j | i < j <= |log| :: Silent(log + [e], i, j) <==> Silent(log, i, j)
  {
    var all := log + [e];
    assert forall k | 0 <= k < |log| :: all[k] == log[k];
    assert all[|log|] == e;
    if Readmitted(log, i, |log|) {
      var k :| i < k < |log| && log[k].tag == log[i].tag && log[k].op.StartServing?;
      assert all[k].op.StartServing?;
    }
    forall j | i < j <= |log| ensures Readmitted(all, i, j) <==> Readmitted(log, i, j) {
      if Readmitted(log, i, j) {
        var k :| i < k < j && log[k].tag == log[i].tag && log[k].op.StartServing?;
        assert all[k].op.StartServing?;
      }
    }
  }

  lemma ContentLogStep(m: Machine, e: Event, d: Disk)
    requires LogOk(m) && ContentLogOk(m) && EventOk(e) && ContentEventOk(e) && e.before == m.disk && IsAct(e.fate)
    requires d == Perform(m.disk, e.op, e.fate)
    requires Changes(e) ==> !e.op.WriteTx? && !e.op.RemoveTx?
    ensures ContentLogOk(m.(disk := d, log := m.log + [e]))
  {
    hide EventOk, ContentEventOk, Perform, Accounted, LeadsBack, Begun, Holds, Undecided, TookCheckpoint, Changes;
    hide Saves, LogOk;
    hide Readmitted, Silent;
    var log := m.log + [e];
    forall i | 0 <= i < |log| && TookCheckpoint(log[i])
      ensures Accounted(d, log[i].tag) && LeadsBack(d, log[i].tag, log[i].before.current)
    {
      AccountStep(m.disk, e, log[i].tag);
      ContentAccountStep(m.disk, e, log[i].tag, Saved(log[i]), log[i].before.current);
    }
    forall i | 0 <= i < |log| && Saves(log[i]) ensures Holds(d, log[i].tag, Saved(log[i])) {
      ContentAccountStep(m.disk, e, log[i].tag, Saved(log[i]), log[i].before.current);
    }
    forall i | 0 <= i < |log| && Changes(log[i]) ensures Accounted(d, log[i].tag) && Begun(d, log[i].tag) {
      AccountStep(m.disk, e, log[i].tag);
      ContentAccountStep(m.disk, e, log[i].tag, Saved(log[i]), log[i].before.current);
      if i == |m.log| {
        BegunByChange(m.disk, e);
      }
    }
    forall i | 0 <= i < |log| && TookCheckpoint(log[i]) && Undecided(d, log[i].tag)
      ensures Readmitted(log, i, |log|) || (Silent(log, i, |log|) && !d.serving)
    {
      ContentAccountStep(m.disk, e, log[i].tag, Saved(log[i]), log[i].before.current);
      UndecidedIsOpen(m.disk, log[i].tag);
      if i < |m.log| {
        ReadmittedStep(m.log, e, i);
      } else {
        NothingSince(log, i);
      }
    }
  }

  lemma UndecidedIsOpen(d: Disk, tag: Tag)
    ensures Undecided(d, tag) ==> OpenFor(d, tag)
  {
  }

  lemma NothingSince(log: seq<Event>, i: nat)
    requires i + 1 == |log|
    ensures Silent(log, i, |log|)
  {
  }

  lemma ContentHistoryStep(m: Machine, e: Event)
    requires LogOk(m) && ContentLogOk(m) && EventOk(e) && ContentEventOk(e) && e.before == m.disk && IsAct(e.fate)
    requires HistoryOk(m.log)
    ensures HistoryOk(m.log + [e])
  {
    hide EventOk, ContentEventOk, Accounted, LeadsBack, Begun, Holds, Undecided, TookCheckpoint, Changes, Saves;
    hide LogOk;
    hide Readmitted, Silent;
    var log := m.log + [e];
    forall i, j | 0 <= i < j < |log| && Changes(log[i]) && TookCheckpoint(log[j]) ensures log[i].tag != log[j].tag {
      ContentAccountStep(m.disk, e, e.tag, Saved(e), None);
    }
    forall i, j | 0 <= i < j < |log| && TookCheckpoint(log[i]) && log[j].op.RestoreDatabase?
                  && log[j].tag == log[i].tag
      ensures Readmitted(log, i, j) || Silent(log, i, j + 1)
    {
      ContentAccountStep(m.disk, e, e.tag, Saved(e), None);
      ReadmittedStep(m.log, e, i);
    }
  }

  // ----- every run

  ghost predicate Sound(m: Machine) {
    Safe(m) && ProcContentOk(m) && ContentLogOk(m) && HistoryOk(m.log)
  }

  lemma ChangesAreNotMarks(p: Proc, d: Disk, f: Fate)
    requires p.At?
    ensures Changes(Event(p.pc, p.tx.tag, StepOp(p, d, f), d, f)) ==>
              !StepOp(p, d, f).WriteTx? && !StepOp(p, d, f).RemoveTx?
  {
  }

  lemma NextIsSound(r: Repo, m: Machine, f: Fate)
    requires Sound(m)
    ensures Sound(Next(r, m, f))
  {
    hide LocalOk, LogOk, ContentLogOk, HistoryOk, TagsJournaledOnce, NoRollback, ContentOk, EventOk, ContentEventOk;
    hide Perform, StepOp, OnDone, OnRaise, Refuses, Changes;
    NextIsSafe(r, m, f);
    if f.UserRow? {
      RowsAreWelcome(m, f.row);
    } else if f.Start? {
      StartNeedsNothing(m.disk, f.only);
      ContentIgnoresProcess(m, Next(r, m, f));
    } else if m.proc.At? {
      var e := Event(m.proc.pc, m.proc.tx.tag, StepOp(m.proc, m.disk, f), m.disk, f);
      ActKeepsContent(r, m, f);
      ActShape(r, m, f);
      assert ProcOk(m.proc, m.disk) by {
        LocalIsProc(m);
      }
      EventIsOk(m.proc, m.disk, f);
      ContentEventIsOk(m.proc, m.disk, f);
      ChangesAreNotMarks(m.proc, m.disk, f);
      if Act(r, m, f).log != m.log {
        ContentLogStep(m, e, Act(r, m, f).disk);
        ContentHistoryStep(m, e);
        ContentIgnoresProcess(m.(disk := Act(r, m, f).disk, log := m.log + [e]), Act(r, m, f));
      } else {
        ContentIgnoresProcess(m, Act(r, m, f));
      }
    }
  }

  lemma ContentIgnoresProcess(m: Machine, n: Machine)
    requires ContentLogOk(m) && n.disk == m.disk && n.log == m.log
    ensures ContentLogOk(n)
  {
    hide ContentEventOk;
  }

  lemma StartNeedsNothing(d: Disk, only: bool)
    ensures ContentOk(NewProcess(d, only), d)
  {
  }

  /** Rows arrive only where the ingress is up, and there they only extend what has been put back. */
  lemma RowsAreWelcome(m: Machine, row: int)
    requires ProcContentOk(m) && ContentLogOk(m)
    ensures var d := m.disk.(database := m.disk.database.(rows := m.disk.database.rows + [row]));
            m.disk.serving ==> ProcContentOk(m.(disk := d)) && ContentLogOk(m.(disk := d))
  {
    hide ContentEventOk;
  }

  lemma QuiescentIsSound(m: Machine)
    requires Quiescent(m) && SuccessSeen(m.disk.state)
    ensures Sound(m)
  {
    QuiescentIsSafe(m);
  }

  lemma {:induction false} EveryRunIsSound(r: Repo, m: Machine, fates: seq<Fate>)
    requires Quiescent(m) && SuccessSeen(m.disk.state)
    ensures Sound(Run(r, m, fates))
  {
    hide Next, Sound;
    if fates == [] {
      QuiescentIsSound(m);
    } else {
      EveryRunIsSound(r, m, fates[..|fates| - 1]);
      NextIsSound(r, Run(r, m, fates[..|fates| - 1]), fates[|fates| - 1]);
    }
  }

  /** Over every run: a tag is recorded as restored only when release, images, configuration and database schema are
      those that its checkpoint found before the update had changed anything, and every row found then is still
      there, even when a first recovery was cut short and run again. */
  lemma RestoredMeansRestored(r: Repo, m: Machine, fates: seq<Fate>, i: nat, j: nat)
    requires Quiescent(m) && SuccessSeen(m.disk.state)
    requires i < j < |Run(r, m, fates).log|
    requires Saves(Run(r, m, fates).log[i]) && MarksRestored(Run(r, m, fates).log[j])
    requires Run(r, m, fates).log[i].tag == Run(r, m, fates).log[j].tag
    ensures var log := Run(r, m, fates).log;
            && log[j].before.current == log[i].before.current
            && log[j].before.images == log[i].before.images
            && log[j].before.config == log[i].before.config
            && log[j].before.database.schema == log[i].before.database.schema
            && log[i].before.database.rows <= log[j].before.database.rows
            && forall k | 0 <= k < i :: Changes(log[k]) ==> log[k].tag != log[i].tag
  {
    hide Run, Safe, ProcContentOk;
    EveryRunIsSound(r, m, fates);
    var log := Run(r, m, fates).log;
    assert Holds(log[j].before, log[i].tag, Saved(log[i]));
    assert LeadsBack(log[j].before, log[i].tag, log[i].before.current);
    assert ContentEventOk(log[j]);
  }

  /** A restore discards no accepted row unless a recovery of the same update has already let users in again: without
      that, the ingress was down at every step since the checkpoint was taken. */
  lemma RestoreLosesNothingUnlessReadmitted(r: Repo, m: Machine, fates: seq<Fate>, i: nat, j: nat)
    requires Quiescent(m) && SuccessSeen(m.disk.state)
    requires i < j < |Run(r, m, fates).log|
    requires TookCheckpoint(Run(r, m, fates).log[i]) && Run(r, m, fates).log[j].op.RestoreDatabase?
    requires Run(r, m, fates).log[i].tag == Run(r, m, fates).log[j].tag
    ensures Readmitted(Run(r, m, fates).log, i, j) || Silent(Run(r, m, fates).log, i, j + 1)
  {
    hide Run, Safe, ProcContentOk, ContentLogOk;
    EveryRunIsSound(r, m, fates);
  }

  /** The user rows that were accepted: those that arrived while the ingress was up. */
  ghost function Accepted(r: Repo, m: Machine, fates: seq<Fate>): seq<int> {
    if fates == [] then []
    else
      var init, f := fates[..|fates| - 1], fates[|fates| - 1];
      Accepted(r, m, init) + if f.UserRow? && Run(r, m, init).disk.serving then [f.row] else []
  }

  /** What one fate adds to the log, and what it does to a tag whose checkpoint was taken. */
  lemma SinceStep(r: Repo, n: Machine, f: Fate, i: nat)
    requires Sound(n) && i < |Next(r, n, f).log| && TookCheckpoint(Next(r, n, f).log[i])
    requires Undecided(Next(r, n, f).disk, Next(r, n, f).log[i].tag)
    requires !Readmitted(Next(r, n, f).log, i, |Next(r, n, f).log|)
    ensures i < |n.log| ==>
              && Next(r, n, f).log[i] == n.log[i] && Undecided(n.disk, n.log[i].tag)
              && !Readmitted(n.log, i, |n.log|) && !(f.UserRow? && n.disk.serving)
    ensures i >= |n.log| ==> i == |n.log| && Next(r, n, f).log[i].before == n.disk && !f.UserRow?
  {
    hide LocalOk, LogOk, HistoryOk, TagsJournaledOnce, NoRollback, ContentOk, EventOk, ContentEventOk;
    hide Perform, StepOp, OnDone, OnRaise, Refuses, Changes, TookCheckpoint, Undecided, Readmitted, Silent, Accounted;
    if f.UserRow? {
      RowsDecideNothing(n.disk, n.disk.(database := Next(r, n, f).disk.database));
    } else if n.proc.At? && IsAct(f) {
      var e := Event(n.proc.pc, n.proc.tx.tag, StepOp(n.proc, n.disk, f), n.disk, f);
      ActShape(r, n, f);
      LocalIsProc(n);
      EventIsOk(n.proc, n.disk, f);
      ContentEventIsOk(n.proc, n.disk, f);
      if i < |n.log| && Act(r, n, f).log != n.log {
        ContentAccountStep(n.disk, e, n.log[i].tag, Saved(e), None);
        ReadmittedStep(n.log, e, i);
      }
    }
  }

  lemma RowsDecideNothing(d: Disk, e: Disk)
    requires e == d.(database := e.database)
    ensures forall tag :: Undecided(e, tag) <==> Undecided(d, tag)
  {
  }

  lemma {:induction false} NoneAcceptedSince(r: Repo, m: Machine, fates: seq<Fate>, i: nat) returns (k: nat)
    requires Quiescent(m) && SuccessSeen(m.disk.state)
    requires i < |Run(r, m, fates).log| && TookCheckpoint(Run(r, m, fates).log[i])
    requires Undecided(Run(r, m, fates).disk, Run(r, m, fates).log[i].tag)
    requires !Readmitted(Run(r, m, fates).log, i, |Run(r, m, fates).log|)
    ensures k < |fates| && |Run(r, m, fates[..k]).log| == i
    ensures Run(r, m, fates[..k]).disk == Run(r, m, fates).log[i].before
    ensures Accepted(r, m, fates) == Accepted(r, m, fates[..k])
  {
    hide Next, Sound, TookCheckpoint, Undecided, Readmitted;
    var init, f := fates[..|fates| - 1], fates[|fates| - 1];
    var n := Run(r, m, init);
    EveryRunIsSound(r, m, init);
    SinceStep(r, n, f, i);
    if i < |n.log| {
      k := NoneAcceptedSince(r, m, init, i);
      assert init[..k] == fates[..k];
    } else {
      k := |init|;
    }
  }

  /** When a database is about to be put back and no recovery of that update has let users in since its checkpoint was
      taken, not one user row has been accepted since: the rows put back are those that were there when the checkpoint
      was taken, and every row accepted so far had been accepted by then. */
  lemma RestoreLosesNoRow(r: Repo, m: Machine, fates: seq<Fate>, i: nat)
    requires Quiescent(m) && SuccessSeen(m.disk.state)
    requires Run(r, m, fates).proc.At? && Run(r, m, fates).proc.pc.RecoverDatabase?
    requires i < |Run(r, m, fates).log| && Saves(Run(r, m, fates).log[i])
    requires Run(r, m, fates).log[i].tag == Run(r, m, fates).proc.tx.tag
    requires !Readmitted(Run(r, m, fates).log, i, |Run(r, m, fates).log|)
    ensures var n := Run(r, m, fates);
            exists k: nat ::
              && k < |fates| && |Run(r, m, fates[..k]).log| == i
              && Accepted(r, m, fates) == Accepted(r, m, fates[..k])
              && OpAt(n.proc, n.disk) == RestoreDatabase(Run(r, m, fates[..k]).disk.database)
  {
    hide Run, Safe, ProcContentOk, HistoryOk, Undecided, Readmitted;
    EveryRunIsSound(r, m, fates);
    var n := Run(r, m, fates);
    RecoveringIsUndecided(n);
    var k := NoneAcceptedSince(r, m, fates, i);
    assert Holds(n.disk, n.log[i].tag, Saved(n.log[i]));
    RestoresCheckpoint(n.proc, n.disk);
  }

  lemma RecoveringIsUndecided(n: Machine)
    requires Sound(n) && n.proc.At? && n.proc.pc.RecoverDatabase?
    ensures Undecided(n.disk, n.proc.tx.tag)
  {
    hide LogOk, ContentLogOk, HistoryOk, TagsJournaledOnce, NoRollback;
  }

  lemma RestoresCheckpoint(p: Proc, d: Disk)
    requires p.At? && p.pc.RecoverDatabase? && p.tx.tag in d.checkpoints
    ensures OpAt(p, d) == RestoreDatabase(d.checkpoints[p.tx.tag].database)
  {
  }
}
