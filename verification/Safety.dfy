/** What no run of the updater can do: roll traffic back, reuse a tag, overwrite a journal, change before writing
    ahead. */
module Safety {
  import opened Selection
  import opened Updater
  import opened Transactions

  /** The event put a transaction on disk. */
  predicate Wrote(e: Event) {
    e.op.WriteTx? && Took(e.op, e.fate)
  }

  /** The event put on disk that public traffic was about to be admitted to the new release. */
  predicate Crossed(e: Event) {
    Wrote(e) && !BeforeTraffic(e.op.tx.phase)
  }

  /** A step of recover() that puts a piece of the checkpoint back. */
  predicate Restoring(pc: Pc) {
    pc.RecoverPoint? || pc.RecoverImages? || pc.RecoverDatabase? || pc.RecoverConfig?
  }

  predicate Restores(e: Event) {
    Restoring(e.pc)
  }

  /** A step of apply() that changes the deployment. */
  predicate Changes(e: Event) {
    e.pc.PointNew? || e.pc.SetImages? || e.pc.Bootstrap?
  }

  /** The tag of the transaction an event wrote. */
  function TagOf(e: Event): Tag {
    if e.op.WriteTx? then e.op.tx.tag else ""
  }

  predicate OpenFor(d: Disk, tag: Tag) {
    d.journal.Some? && d.journal.value.tag == tag
  }

  /** A journal that was already removed is written anew, as one that demands manual recovery. */
  predicate Reopens(e: Event)
    requires e.op.WriteTx?
  {
    && e.pc.WriteManual? && e.before.journal.None? && e.op.tx.phase.ManualRecovery?
    && e.op.tx.tag in e.before.state.seen
  }

  /** What each step may rely on when it touches the disk. */
  predicate EventOk(e: Event) {
    && (e.op.WriteTx? ==>
          && (e.pc.OpenJournal? ==> e.before.journal.None? && e.op.tx.tag !in e.before.state.seen
                                    && e.op.tx.phase.Preparing?)
          && (!e.pc.OpenJournal? ==> OpenFor(e.before, e.op.tx.tag) || Reopens(e))
          && (!e.pc.OpenJournal? && BeforeTraffic(e.op.tx.phase) ==>
                e.before.journal.Some? && BeforeTraffic(e.before.journal.value.phase)))
    && (e.op.RemoveTx? ==> e.before.journal.Some? && e.before.journal.value.tag in e.before.state.seen)
    && (e.op.SaveState? ==> e.before.state.seen.Keys <= e.op.state.seen.Keys)
    && (Restores(e) ==> OpenFor(e.before, e.tag) && BeforeTraffic(e.before.journal.value.phase))
    && (Changes(e) ==> OpenFor(e.before, e.tag) && e.before.journal.value.phase.ChangingPhase?)
  }

  lemma EventIsOk(p: Proc, d: Disk, f: Fate)
    requires p.At? && ProcOk(p, d)
    ensures EventOk(Event(p.pc, p.tx.tag, StepOp(p, d, f), d, f))
  {
    hide CheckpointOf, MarkTx, Mark;
    StateAtKeeps(p);
    hide StateAt;
  }

  lemma StateAtKeeps(p: Proc)
    requires p.At?
    ensures p.state.seen.Keys <= StateAt(p).seen.Keys
  {
  }

  // ----- the log, as the disk accounts for it

  /** A tag with a transaction behind it is marked as seen, or its transaction is the open one. */
  predicate Accounted(d: Disk, tag: Tag) {
    tag in d.state.seen || OpenFor(d, tag)
  }

  /** Once traffic was committed for a tag, an open transaction of that tag stays past the boundary. */
  predicate PastTraffic(d: Disk, tag: Tag) {
    OpenFor(d, tag) ==> !BeforeTraffic(d.journal.value.phase)
  }

  ghost predicate LogOk(m: Machine) {
    && (forall i | 0 <= i < |m.log| :: EventOk(m.log[i]))
    && (forall i | 0 <= i < |m.log| && Wrote(m.log[i]) :: Accounted(m.disk, TagOf(m.log[i])))
    && (forall i | 0 <= i < |m.log| && Crossed(m.log[i]) :: PastTraffic(m.disk, TagOf(m.log[i])))
  }

  /** No tag is journaled twice. */
  ghost predicate TagsJournaledOnce(log: seq<Event>) {
    forall i, j | 0 <= i < j < |log| && Wrote(log[i]) && Wrote(log[j]) && log[j].pc.OpenJournal? ::
      TagOf(log[i]) != TagOf(log[j])
  }

  /** Once traffic was committed for a tag, nothing of that tag's checkpoint is ever put back. */
  ghost predicate NoRollback(log: seq<Event>) {
    forall i, j | 0 <= i < j < |log| && Crossed(log[i]) && Restores(log[j]) :: log[j].tag != TagOf(log[i])
  }

  ghost predicate Safe(m: Machine) {
    LocalOk(m) && LogOk(m) && TagsJournaledOnce(m.log) && NoRollback(m.log)
  }

  /** What an accounted-for tag and a crossed boundary survive: one effect on the disk. */
  lemma AccountStep(d: Disk, e: Event, tag: Tag)
    requires EventOk(e) && e.before == d && (e.fate.Proceed? || e.fate.Raise? || e.fate.Crash?)
    ensures Accounted(d, tag) ==> Accounted(Perform(d, e.op, e.fate), tag)
    ensures Accounted(d, tag) && PastTraffic(d, tag) ==> PastTraffic(Perform(d, e.op, e.fate), tag)
    ensures Wrote(e) ==> Accounted(Perform(d, e.op, e.fate), TagOf(e))
    ensures Crossed(e) ==> PastTraffic(Perform(d, e.op, e.fate), TagOf(e))
    ensures Wrote(e) && e.pc.OpenJournal? ==> !Accounted(d, TagOf(e))
    ensures Restores(e) ==> !PastTraffic(d, e.tag)
  {
    hide CurrentAfter, ImagesAfter, DatabaseAfter, ConfigAfter, CheckpointsAfter, ManifestsAfter, ServingAfter;
  }

  /** One step keeps every log property. */
  lemma LogStep(m: Machine, e: Event, d: Disk)
    requires LogOk(m) && TagsJournaledOnce(m.log) && NoRollback(m.log)
    requires EventOk(e) && e.before == m.disk && (e.fate.Proceed? || e.fate.Raise? || e.fate.Crash?)
    requires d == Perform(m.disk, e.op, e.fate)
    ensures LogOk(m.(disk := d, log := m.log + [e]))
    ensures TagsJournaledOnce(m.log + [e]) && NoRollback(m.log + [e])
  {
    hide EventOk, Accounted, PastTraffic, Perform, Wrote, Crossed, Restores;
    var log := m.log + [e];
    forall i | 0 <= i < |log| && Wrote(log[i]) ensures Accounted(d, TagOf(log[i])) {
      AccountStep(m.disk, e, TagOf(log[i]));
    }
    forall i | 0 <= i < |log| && Crossed(log[i]) ensures PastTraffic(d, TagOf(log[i])) {
      CrossedWrote(log[i]);
      AccountStep(m.disk, e, TagOf(log[i]));
    }
    forall i, j | 0 <= i < j < |log| && Wrote(log[i]) && Wrote(log[j]) && log[j].pc.OpenJournal?
      ensures TagOf(log[i]) != TagOf(log[j])
    {
      AccountStep(m.disk, e, TagOf(log[i]));
    }
    forall i, j | 0 <= i < j < |log| && Crossed(log[i]) && Restores(log[j])
      ensures log[j].tag != TagOf(log[i])
    {
      AccountStep(m.disk, e, TagOf(log[i]));
    }
  }

  lemma CrossedWrote(e: Event)
    ensures Crossed(e) ==> Wrote(e)
  {
  }

  // ----- every run

  predicate IsAct(f: Fate) {
    f.Proceed? || f.Raise? || f.Crash?
  }

  /** What one step of the process adds to disk and log. */
  lemma ActShape(r: Repo, m: Machine, f: Fate)
    requires m.proc.At? && IsAct(f)
    ensures var e, n := Event(m.proc.pc, m.proc.tx.tag, StepOp(m.proc, m.disk, f), m.disk, f), Act(r, m, f);
            || (n.disk == m.disk && n.log == m.log && n.history == m.history)
            || (n.disk == Perform(m.disk, e.op, f) && n.log == m.log + [e])
  {
    hide Perform, StepOp, OnDone, OnRaise, Refuses;
  }

  /** Looking at the journal changes nothing. */
  lemma Looking(r: Repo, p: Proc, d: Disk, f: Fate)
    requires p.At? && p.pc.Enter? && IsAct(f)
    ensures Perform(d, StepOp(p, d, f), f) == d
    ensures f.Proceed? ==> !Refuses(r, p, d, f.answer)
    ensures f.Proceed? ==> var q := if d.journal.Some? then p.(tx := d.journal.value) else p;
                           OnDone(p, d, f.answer) == Goto(q, JournalPc(q, d.journal))
    ensures f.Raise? ==> OnRaise(p, d, f.transient) == Idle
  {
    hide Selected;
  }

  lemma NextIsSafe(r: Repo, m: Machine, f: Fate)
    requires Safe(m)
    ensures Safe(Next(r, m, f))
  {
    hide ProcOk, EventOk, Accounted, PastTraffic, Perform, StepOp, OnDone, OnRaise, Refuses;
    if f.UserRow? {
      RowsAside(m, Next(r, m, f));
    } else if f.Start? {
      StartOk(m.disk, f.only);
    } else if m.proc.At? {
      LocalAct(r, m, f);
      ActShape(r, m, f);
      EventIsOk(m.proc, m.disk, f);
      if Act(r, m, f).log != m.log {
        LogStep(m, Event(m.proc.pc, m.proc.tx.tag, StepOp(m.proc, m.disk, f), m.disk, f), Act(r, m, f).disk);
      }
    }
  }

  lemma StartOk(d: Disk, only: bool)
    ensures ProcOk(NewProcess(d, only), d) && NewProcess(d, only).At? && NewProcess(d, only).state == d.state
  {
  }

  lemma LocalIsProc(m: Machine)
    requires LocalOk(m)
    ensures ProcOk(m.proc, m.disk)
  {
  }

  lemma RowsLeaveLocal(m: Machine, n: Machine)
    requires LocalOk(m) && n == m.(disk := m.disk.(database := n.disk.database))
    ensures LocalOk(n)
  {
  }

  /** User rows change nothing the discipline speaks about. */
  lemma RowsAside(m: Machine, n: Machine)
    requires Safe(m)
    requires n == m.(disk := m.disk.(database := n.disk.database))
    ensures Safe(n)
  {
    hide EventOk;
    forall i | 0 <= i < |m.log| && Wrote(m.log[i]) ensures Accounted(n.disk, TagOf(m.log[i])) {
      assert Accounted(m.disk, TagOf(m.log[i]));
    }
    forall i | 0 <= i < |m.log| && Crossed(m.log[i]) ensures PastTraffic(n.disk, TagOf(m.log[i])) {
      assert PastTraffic(m.disk, TagOf(m.log[i]));
    }
  }

  /** Over every run, with crashes and exceptions at any step: no tag is journaled twice, an open transaction is only
      ever replaced by one of the same tag, nothing is changed before "changing" is on disk, and once traffic has been
      committed for a tag no later step puts its checkpoint back. */
  lemma {:induction false} EveryRunIsSafe(r: Repo, m: Machine, fates: seq<Fate>)
    requires Quiescent(m) && SuccessSeen(m.disk.state)
    ensures Safe(Run(r, m, fates))
    ensures var log := Run(r, m, fates).log;
            && TagsJournaledOnce(log) && NoRollback(log)
            && (forall i | 0 <= i < |log| && Wrote(log[i]) && log[i].before.journal.Some? ::
                  log[i].before.journal.value.tag == TagOf(log[i]))
            && (forall i | 0 <= i < |log| && Changes(log[i]) ::
                  OpenFor(log[i].before, log[i].tag) && log[i].before.journal.value.phase.ChangingPhase?)
  {
    hide Next, LocalOk;
    if fates == [] {
      IdleOk(m.disk);
      QuiescentIsSafe(m);
    } else {
      EveryRunIsSafe(r, m, fates[..|fates| - 1]);
      NextIsSafe(r, Run(r, m, fates[..|fates| - 1]), fates[|fates| - 1]);
    }
  }

  lemma QuiescentIsSafe(m: Machine)
    requires Quiescent(m) && SuccessSeen(m.disk.state)
    ensures Safe(m)
  {
  }
}
