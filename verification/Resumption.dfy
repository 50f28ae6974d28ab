/** When it is right to let users back in without a restore, and when a restore puts back the update's own checkpoint.
    */
module Resumption {
  import opened Selection
  import opened Updater
  import opened Transactions
  import opened Safety
  import opened Restoration
  import opened Early

  /** The effect touches what a checkpoint saves. */
  predicate Touches(op: Op) {
    (op.WriteImages? || op.CopyImages? || op.Migrate? || op.RestoreDatabase? || op.RestoreConfig?)
  }

  predicate TouchEventOk(e: Event) {
    Touches(e.op) ==> Changes(e) || Restores(e)
  }

  lemma TouchEventIsOk(p: Proc, d: Disk, f: Fate)
    requires p.At? && ProcOk(p, d)
    ensures TouchEventOk(Event(p.pc, p.tx.tag, StepOp(p, d, f), d, f))
  {
    hide StateAt, CheckpointOf;
  }

  predicate Deployed(d: Disk, c: Checkpoint) {
    d.images == c.images && d.database == c.database && d.config == c.config
  }

  /** The same, but for rows that users have added. */
  predicate Kept(d: Disk, c: Checkpoint) {
    d.images == c.images && d.config == c.config && d.database.schema == c.database.schema
    && c.database.rows <= d.database.rows
  }

  /** At some step, in whatever process, the update to `tag` failed early. */
  ghost predicate EverFailedEarly(r: Repo, m: Machine, fates: seq<Fate>, tag: Tag) {
    exists k | 0 <= k < |fates| :: FailsEarly(r, Run(r, m, fates[..k]), fates[k], tag)
  }

  lemma EverStep(r: Repo, m: Machine, fates: seq<Fate>, f: Fate, tag: Tag)
    ensures EverFailedEarly(r, m, fates, tag) ==> EverFailedEarly(r, m, fates + [f], tag)
    ensures FailedEarly(r, m, fates, tag) ==> EverFailedEarly(r, m, fates, tag)
  {
    hide Run, FailsEarly, SameProcess;
    var all := fates + [f];
    assert forall k | 0 <= k < |fates| :: all[..k] == fates[..k] && all[k] == fates[k];
  }

  predicate StillPreparing(d: Disk, tag: Tag) {
    OpenFor(d, tag) && d.journal.value.phase.Preparing?
  }

  /** What the checkpoint of event `i` saved is still there, exactly so unless users were let in again. */
  ghost predicate Intact(m: Machine, i: nat)
    requires i < |m.log|
  {
    Kept(m.disk, Saved(m.log[i])) && (Readmitted(m.log, i, |m.log|) || Deployed(m.disk, Saved(m.log[i])))
  }

  ghost predicate IntactOk(r: Repo, m: Machine, fates: seq<Fate>, n: Machine) {
    && (forall i | 0 <= i < |n.log| :: TouchEventOk(n.log[i]))
    && (forall i | 0 <= i < |n.log| && TookCheckpoint(n.log[i]) && StillPreparing(n.disk, n.log[i].tag)
                   && !EverFailedEarly(r, m, fates, n.log[i].tag) :: Intact(n, i))
  }

  lemma IntactDisk(d: Disk, e: Event, tag: Tag, c: Checkpoint)
    requires EventOk(e) && ContentEventOk(e) && TouchEventOk(e) && e.before == d && IsAct(e.fate)
    requires Accounted(d, tag) && StillPreparing(Perform(d, e.op, e.fate), tag)
    ensures StillPreparing(d, tag)
    ensures Kept(d, c) && !(e.tag == tag && Restores(e)) ==> Kept(Perform(d, e.op, e.fate), c)
    ensures Deployed(d, c) && !(e.tag == tag && Restores(e)) ==> Deployed(Perform(d, e.op, e.fate), c)
  {
    hide CurrentAfter, CheckpointsAfter, ManifestsAfter, ServingAfter, Matches, PutBack;
  }

  lemma CheckpointIsDeployed(d: Disk, e: Event)
    requires TookCheckpoint(e) && e.before == d && IsAct(e.fate)
    ensures Deployed(Perform(d, e.op, e.fate), Saved(e)) && Kept(Perform(d, e.op, e.fate), Saved(e))
  {
    hide CurrentAfter, CheckpointsAfter, ManifestsAfter, ServingAfter, JournalAfter, StateAfter;
  }

  /** A piece that is put back while the journal says "preparing" means an early failure. */
  lemma RestoreMeansEarly(r: Repo, m: Machine, fates: seq<Fate>, tag: Tag)
    requires Quiescent(m) && SuccessSeen(m.disk.state)
    requires var n := Run(r, m, fates); n.proc.At? && n.proc.tx.tag == tag && Restoring(n.proc.pc)
                                        && StillPreparing(n.disk, tag)
    ensures FailedEarly(r, m, fates, tag)
  {
    hide Run, FailedEarly;
    RestoresFindPreparing(r, m, fates);
  }

  lemma IntactEvent(r: Repo, m: Machine, fates: seq<Fate>, f: Fate, n: Machine, e: Event, d: Disk)
    requires Quiescent(m) && SuccessSeen(m.disk.state) && n == Run(r, m, fates) && n.proc.At?
    requires ContentLogOk(n) && IntactOk(r, m, fates, n) && EventOk(e) && ContentEventOk(e) && TouchEventOk(e)
    requires e.before == n.disk && IsAct(e.fate) && d == Perform(n.disk, e.op, e.fate)
    requires e.pc == n.proc.pc && e.tag == n.proc.tx.tag
    ensures IntactOk(r, m, fates + [f], n.(disk := d, log := n.log + [e]))
  {
    hide EventOk, ContentEventOk, TouchEventOk, Perform, Accounted, LeadsBack, Begun, Holds, Undecided, TookCheckpoint;
    hide Changes, Saves, Readmitted, Silent, StillPreparing, Deployed, Kept, Run, FailedEarly, EverFailedEarly;
    var log := n.log + [e];
    forall i | 0 <= i < |log| && TookCheckpoint(log[i]) && StillPreparing(d, log[i].tag)
               && !EverFailedEarly(r, m, fates + [f], log[i].tag)
      ensures Intact(n.(disk := d, log := log), i)
    {
      if i < |n.log| {
        EverStep(r, m, fates, f, log[i].tag);
        IntactDisk(n.disk, e, log[i].tag, Saved(log[i]));
        ReadmittedStep(n.log, e, i);
        if e.tag == log[i].tag && Restores(e) {
          RestoreMeansEarly(r, m, fates, e.tag);
        }
      } else {
        CheckpointIsDeployed(n.disk, e);
      }
    }
  }

  /** Rows that users add while the ingress is up. */
  lemma IntactRows(r: Repo, m: Machine, fates: seq<Fate>, f: Fate, n: Machine, row: int)
    requires ContentLogOk(n) && IntactOk(r, m, fates, n) && n.disk.serving
    ensures IntactOk(r, m, fates + [f],
            n.(disk := n.disk.(database := n.disk.database.(rows := n.disk.database.rows + [row]))))
  {
    hide ContentEventOk, TouchEventOk, Readmitted, Silent, TookCheckpoint, LeadsBack, Accounted, Begun, EverFailedEarly;
    hide Holds, Saves, Changes;
    forall i | 0 <= i < |n.log| && TookCheckpoint(n.log[i]) && StillPreparing(n.disk, n.log[i].tag)
               && !EverFailedEarly(r, m, fates + [f], n.log[i].tag)
      ensures Intact(n, i) && Readmitted(n.log, i, |n.log|)
    {
      EverStep(r, m, fates, f, n.log[i].tag);
      assert Undecided(n.disk, n.log[i].tag);
    }
  }

  /** Nothing of what matters moved. */
  lemma IntactStill(r: Repo, m: Machine, fates: seq<Fate>, f: Fate, n: Machine, n': Machine)
    requires IntactOk(r, m, fates, n) && n'.disk == n.disk && n'.log == n.log
    ensures IntactOk(r, m, fates + [f], n')
  {
    hide TouchEventOk, Readmitted, TookCheckpoint, StillPreparing, EverFailedEarly, Kept, Deployed;
    forall i | 0 <= i < |n.log| && TookCheckpoint(n.log[i]) && StillPreparing(n.disk, n.log[i].tag)
               && !EverFailedEarly(r, m, fates + [f], n.log[i].tag)
      ensures Intact(n', i)
    {
      EverStep(r, m, fates, f, n.log[i].tag);
    }
  }

  lemma IntactNext(r: Repo, m: Machine, fates: seq<Fate>, f: Fate, n: Machine)
    requires Quiescent(m) && SuccessSeen(m.disk.state) && n == Run(r, m, fates) && Sound(n) && IntactOk(r, m, fates, n)
    ensures IntactOk(r, m, fates + [f], Next(r, n, f))
  {
    hide LogOk, ContentLogOk, HistoryOk, TagsJournaledOnce, NoRollback, ContentOk, EventOk, ContentEventOk,
        TouchEventOk;
    hide Perform, StepOp, OnDone, OnRaise, Refuses, ProcOk, Run, IntactOk;
    if f.UserRow? && n.disk.serving {
      IntactRows(r, m, fates, f, n, f.row);
    } else if n.proc.At? && IsAct(f) {
      var e := Event(n.proc.pc, n.proc.tx.tag, StepOp(n.proc, n.disk, f), n.disk, f);
      var n' := Act(r, n, f);
      ActShape(r, n, f);
      EventIsOk(n.proc, n.disk, f);
      ContentEventIsOk(n.proc, n.disk, f);
      TouchEventIsOk(n.proc, n.disk, f);
      if n'.log != n.log {
        IntactEvent(r, m, fates, f, n, e, n'.disk);
        IntactStillHere(r, m, fates + [f], n.(disk := n'.disk, log := n.log + [e]), n');
      } else {
        IntactStill(r, m, fates, f, n, n');
      }
    } else {
      IntactStill(r, m, fates, f, n, Next(r, n, f));
    }
  }

  lemma IntactStillHere(r: Repo, m: Machine, fates: seq<Fate>, n: Machine, n': Machine)
    requires IntactOk(r, m, fates, n) && n'.disk == n.disk && n'.log == n.log
    ensures IntactOk(r, m, fates, n')
  {
    hide TouchEventOk, Readmitted, TookCheckpoint, StillPreparing, EverFailedEarly, Kept, Deployed;
  }

  lemma {:induction false} EveryRunIsIntact(r: Repo, m: Machine, fates: seq<Fate>)
    requires Quiescent(m) && SuccessSeen(m.disk.state)
    ensures IntactOk(r, m, fates, Run(r, m, fates))
  {
    hide Next, Sound, EverFailedEarly;
    if fates != [] {
      var init, f := fates[..|fates| - 1], fates[|fates| - 1];
      assert init + [f] == fates;
      EveryRunIsIntact(r, m, init);
      EveryRunIsSound(r, m, init);
      hide IntactOk;
      IntactNext(r, m, init, f, Run(r, m, init));
    }
  }

  /** Over every run: when users are about to be let back in without a restore, images, configuration and schema are
      those of the checkpoint and every row is still there, unless the update had failed early at its complete
      checkpoint. If no recovery of it had let users in before, not one row has been added either. */
  lemma ResumedMeansUntouched(r: Repo, m: Machine, fates: seq<Fate>, i: nat)
    requires Quiescent(m) && SuccessSeen(m.disk.state)
    requires Run(r, m, fates).proc.At? && Run(r, m, fates).proc.pc.ResumeAdmit?
    requires i < |Run(r, m, fates).log| && TookCheckpoint(Run(r, m, fates).log[i])
    requires Run(r, m, fates).log[i].tag == Run(r, m, fates).proc.tx.tag
    requires !EverFailedEarly(r, m, fates, Run(r, m, fates).proc.tx.tag)
    ensures var n := Run(r, m, fates);
            && Kept(n.disk, Saved(n.log[i]))
            && (Readmitted(n.log, i, |n.log|) || Deployed(n.disk, Saved(n.log[i])))
  {
    hide Run, EverFailedEarly, TookCheckpoint;
    EveryRunIsIntact(r, m, fates);
    EveryRunIsSafe(r, m, fates);
    LocalIsProc(Run(r, m, fates));
  }

  // ----- a restore puts back the update's own checkpoint

  ghost predicate SavedBefore(log: seq<Event>, j: nat, tag: Tag)
    requires j <= |log|
  {
    exists i | 0 <= i < j :: Saves(log[i]) && log[i].tag == tag
  }

  /** Every checkpoint is that of a tag which was marked before the run, or was taken in it; an open transaction is
      never that of such a tag. */
  ghost predicate OwnedOk(m: Machine, seen: set<Tag>) {
    && seen <= m.disk.state.seen.Keys
    && (m.disk.journal.Some? ==> m.disk.journal.value.tag !in seen)
    && ProcOwns(m.proc, seen)
    && (forall tag | tag in m.disk.checkpoints && tag !in seen :: SavedBefore(m.log, |m.log|, tag))
  }

  predicate ProcOwns(p: Proc, seen: set<Tag>) {
    p.At? && p.applying ==> p.tx.tag !in seen
  }

  /** A process keeps to its transaction, and begins one only for a tag that is not marked. */
  lemma ProcOwnsDone(p: Proc, d: Disk, e: Disk, answer: Answer, seen: set<Tag>)
    requires p.At? && ProcOk(p, d) && ProcOwns(p, seen) && seen <= d.state.seen.Keys
    ensures ProcOwns(OnDone(p, e, answer), seen)
  {
    hide StateAt, DonePc, ApplyingOk, InterruptedOk, Selected;
  }

  lemma ProcOwnsRaise(p: Proc, d: Disk, transient: bool, seen: set<Tag>)
    requires p.At? && ProcOwns(p, seen)
    ensures ProcOwns(OnRaise(p, d, transient), seen)
  {
    hide StateAt, RaisePc;
  }

  /** The event writes a journal that was already removed only for a tag of this run. */
  predicate ReopensOwn(e: Event, seen: set<Tag>) {
    e.op.WriteTx? && !e.pc.OpenJournal? && e.before.journal.None? ==> e.op.tx.tag !in seen
  }

  lemma EventReopensOwn(p: Proc, d: Disk, f: Fate, seen: set<Tag>)
    requires p.At? && ProcOk(p, d) && ProcOwns(p, seen)
    ensures ReopensOwn(Event(p.pc, p.tx.tag, StepOp(p, d, f), d, f), seen)
  {
    hide StateAt, CheckpointOf;
  }

  ghost predicate RestoresOwn(log: seq<Event>) {
    forall j | 0 <= j < |log| && MarksRestored(log[j]) :: SavedBefore(log, j, log[j].tag)
  }

  lemma SavedStep(log: seq<Event>, e: Event, j: nat, tag: Tag)
    requires j <= |log|
    ensures SavedBefore(log, j, tag) ==> SavedBefore(log + [e], j, tag)
    ensures SavedBefore(log, |log|, tag) || (Saves(e) && e.tag == tag) ==> SavedBefore(log + [e], |log| + 1, tag)
  {
    hide Saves;
    var all := log + [e];
    assert forall k | 0 <= k < |log| :: all[k] == log[k];
    assert all[|log|] == e;
  }

  lemma OwnedDisk(d: Disk, e: Event, seen: set<Tag>)
    requires EventOk(e) && ContentEventOk(e) && e.before == d && IsAct(e.fate)
    requires seen <= d.state.seen.Keys && (d.journal.Some? ==> d.journal.value.tag !in seen) && ReopensOwn(e, seen)
    ensures var n := Perform(d, e.op, e.fate);
            && seen <= n.state.seen.Keys && (n.journal.Some? ==> n.journal.value.tag !in seen)
            && (forall tag | tag in n.checkpoints :: tag in d.checkpoints || (Saves(e) && e.tag == tag))
    ensures MarksRestored(e) ==> e.tag in d.checkpoints && e.tag !in seen
  {
    hide CurrentAfter, ImagesAfter, DatabaseAfter, ConfigAfter, ManifestsAfter, ServingAfter, Matches;
  }

  lemma OwnedStep(m: Machine, e: Event, d: Disk, seen: set<Tag>)
    requires OwnedOk(m, seen) && RestoresOwn(m.log) && EventOk(e) && ContentEventOk(e) && e.before == m.disk
    requires IsAct(e.fate) && d == Perform(m.disk, e.op, e.fate) && ReopensOwn(e, seen)
    ensures OwnedOk(m.(disk := d, log := m.log + [e]), seen) && RestoresOwn(m.log + [e])
  {
    hide EventOk, ContentEventOk, Perform, Saves, SavedBefore, MarksRestored, ReopensOwn, ProcOwns;
    OwnedDisk(m.disk, e, seen);
    var log := m.log + [e];
    forall tag | tag in d.checkpoints && tag !in seen ensures SavedBefore(log, |log|, tag) {
      SavedStep(m.log, e, |m.log|, tag);
    }
    forall j | 0 <= j < |log| && MarksRestored(log[j]) ensures SavedBefore(log, j, log[j].tag) {
      SavedStep(m.log, e, j, log[j].tag);
    }
  }

  lemma NextOwns(r: Repo, m: Machine, f: Fate, seen: set<Tag>)
    requires Sound(m) && OwnedOk(m, seen) && RestoresOwn(m.log)
    ensures OwnedOk(Next(r, m, f), seen) && RestoresOwn(Next(r, m, f).log)
  {
    hide LogOk, ContentLogOk, HistoryOk, TagsJournaledOnce, NoRollback, ContentOk, EventOk, ContentEventOk;
    hide Perform, StepOp, OnDone, OnRaise, Refuses, ProcOk, RestoresOwn, SavedBefore, ReopensOwn;
    if m.proc.At? && IsAct(f) {
      var d := Act(r, m, f).disk;
      ProcOwnsDone(m.proc, m.disk, d, if f.Proceed? then f.answer else Quiet, seen);
      ProcOwnsRaise(m.proc, d, f.Raise? && f.transient, seen);
      EventReopensOwn(m.proc, m.disk, f, seen);
      var e := Event(m.proc.pc, m.proc.tx.tag, StepOp(m.proc, m.disk, f), m.disk, f);
      ActShape(r, m, f);
      EventIsOk(m.proc, m.disk, f);
      ContentEventIsOk(m.proc, m.disk, f);
      if Act(r, m, f).log != m.log {
        OwnedStep(m, e, Act(r, m, f).disk, seen);
      }
    }
  }

  lemma {:induction false} EveryRunOwns(r: Repo, m: Machine, fates: seq<Fate>)
    requires Quiescent(m) && SuccessSeen(m.disk.state) && m.disk.checkpoints.Keys <= m.disk.state.seen.Keys
    ensures OwnedOk(Run(r, m, fates), m.disk.state.seen.Keys) && RestoresOwn(Run(r, m, fates).log)
  {
    hide Next, Sound;
    if fates != [] {
      hide OwnedOk, RestoresOwn;
      EveryRunOwns(r, m, fates[..|fates| - 1]);
      EveryRunIsSound(r, m, fates[..|fates| - 1]);
      NextOwns(r, Run(r, m, fates[..|fates| - 1]), fates[|fates| - 1], m.disk.state.seen.Keys);
    }
  }

  /** If no checkpoint is left over under an unmarked tag, every tag that is recorded as restored was put back from a
      checkpoint taken in this run, before the update had changed anything. */
  lemma EveryRestoreHasItsCheckpoint(r: Repo, m: Machine, fates: seq<Fate>, j: nat)
    requires Quiescent(m) && SuccessSeen(m.disk.state) && m.disk.checkpoints.Keys <= m.disk.state.seen.Keys
    requires j < |Run(r, m, fates).log| && MarksRestored(Run(r, m, fates).log[j])
    ensures exists i | 0 <= i < j :: var log := Run(r, m, fates).log;
              && Saves(log[i]) && log[i].tag == log[j].tag
              && log[j].before.current == log[i].before.current
              && log[j].before.images == log[i].before.images
              && log[j].before.config == log[i].before.config
              && log[j].before.database.schema == log[i].before.database.schema
              && log[i].before.database.rows <= log[j].before.database.rows
  {
    hide Run, Sound, OwnedOk, Saves, MarksRestored;
    EveryRunOwns(r, m, fates);
    var log := Run(r, m, fates).log;
    assert SavedBefore(log, j, log[j].tag);
    var i :| 0 <= i < j && Saves(log[i]) && log[i].tag == log[j].tag;
    RestoredMeansRestored(r, m, fates, i, j);
  }
}
