/** When a recovery finds a journal that still says "preparing": exactly after a failure before the change was begun. */
module Early {
  import opened Wrappers
  import opened Selection
  import opened Updater
  import opened Transactions
  import opened Safety

  /** The steps of the try block up to and including the one that writes "changing". */
  predicate IsEarly(pc: Pc) {
    pc.CheckRunning? || pc.Fence? || pc.Backup? || pc.BeginChanging?
  }

  /** The step of `tag` raises or is refused, and when it has, the tag's checkpoint is complete. */
  predicate FailsEarly(r: Repo, m: Machine, f: Fate, tag: Tag) {
    && m.proc.At? && IsEarly(m.proc.pc) && m.proc.tx.tag == tag
    && (f.Raise? || (f.Proceed? && Refuses(r, m.proc, m.disk, f.answer)))
    && tag in Act(r, m, f).disk.checkpoints
  }

  /** From fate `k` on, one process has been running. */
  ghost predicate SameProcess(r: Repo, m: Machine, fates: seq<Fate>, k: nat)
    requires k <= |fates|
  {
    forall l | k <= l <= |fates| :: Run(r, m, fates[..l]).proc.At?
  }

  /** The running process has failed early at `tag`. */
  ghost predicate FailedEarly(r: Repo, m: Machine, fates: seq<Fate>, tag: Tag) {
    exists k | 0 <= k < |fates| ::
      FailsEarly(r, Run(r, m, fates[..k]), fates[k], tag) && SameProcess(r, m, fates, k + 1)
  }

  lemma FailedEarlyStep(r: Repo, m: Machine, fates: seq<Fate>, f: Fate, tag: Tag)
    ensures FailedEarly(r, m, fates + [f], tag)
       <==> && Run(r, m, fates + [f]).proc.At?
            && (FailsEarly(r, Run(r, m, fates), f, tag) || FailedEarly(r, m, fates, tag))
  {
    hide Run, FailsEarly, FailedEarly;
    if FailedEarly(r, m, fates + [f], tag) {
      FailedThen(r, m, fates, f, tag);
    } else if Run(r, m, fates + [f]).proc.At?
              && (FailsEarly(r, Run(r, m, fates), f, tag) || FailedEarly(r, m, fates, tag)) {
      FailedBefore(r, m, fates, f, tag);
    }
  }

  lemma Prefixes(fates: seq<Fate>, f: Fate)
    ensures var all := fates + [f];
            && all[..|all|] == all && fates[..|fates|] == fates && all[|fates|] == f
            && (forall k | 0 <= k <= |fates| :: all[..k] == fates[..k])
            && (forall k | 0 <= k < |fates| :: all[k] == fates[k])
  {
  }

  lemma FailedThen(r: Repo, m: Machine, fates: seq<Fate>, f: Fate, tag: Tag)
    requires FailedEarly(r, m, fates + [f], tag)
    ensures Run(r, m, fates + [f]).proc.At?
    ensures FailsEarly(r, Run(r, m, fates), f, tag) || FailedEarly(r, m, fates, tag)
  {
    hide Run, FailsEarly;
    var all := fates + [f];
    Prefixes(fates, f);
    var k :| 0 <= k < |all| && FailsEarly(r, Run(r, m, all[..k]), all[k], tag) && SameProcess(r, m, all, k + 1);
    assert Run(r, m, all[..|all|]).proc.At?;
    if k < |fates| {
      forall l | k + 1 <= l <= |fates| ensures Run(r, m, fates[..l]).proc.At? {
        assert Run(r, m, all[..l]).proc.At?;
      }
    }
  }

  lemma FailedBefore(r: Repo, m: Machine, fates: seq<Fate>, f: Fate, tag: Tag)
    requires Run(r, m, fates + [f]).proc.At?
    requires FailsEarly(r, Run(r, m, fates), f, tag) || FailedEarly(r, m, fates, tag)
    ensures FailedEarly(r, m, fates + [f], tag)
  {
    hide Run, FailsEarly;
    var all := fates + [f];
    Prefixes(fates, f);
    if FailsEarly(r, Run(r, m, fates), f, tag) {
      assert SameProcess(r, m, all, |fates| + 1);
    } else {
      var k :| 0 <= k < |fates| && FailsEarly(r, Run(r, m, fates[..k]), fates[k], tag)
               && SameProcess(r, m, fates, k + 1);
      forall l | k + 1 <= l <= |all| ensures Run(r, m, all[..l]).proc.At? {
        if l <= |fates| {
          assert Run(r, m, fates[..l]).proc.At?;
        }
      }
    }
  }

  /** Where a process can be once it has failed early. */
  predicate Aftermath(pc: Pc) {
    Recovering(pc) || pc.MarkFailedRestored? || pc.DropFailed? || pc.MarkManual? || pc.WriteManual?
  }

  /** `failed` tells whether the running process has failed early at `tag`. */
  predicate EarlyOk(p: Proc, d: Disk, tag: Tag, failed: bool) {
    && (failed ==> p.At? && p.applying && Aftermath(p.pc) && p.tx.tag == tag)
    && (p.At? && p.applying && Recovering(p.pc) && p.tx.tag == tag ==>
          d.journal.Some? && (d.journal.value.phase.Preparing? <==> failed))
  }

  lemma JournalLeads(p: Proc, journal: Option<Tx>)
    requires p.At?
    ensures var pc := JournalPc(p, journal); Recovering(pc) ==> pc.RecoverVerify?
    ensures !IsEarly(JournalPc(p, journal))
  {
  }

  /** Only a recovery leads on to another step of a recovery that belongs to apply(). */
  lemma DoneAftermath(p: Proc, d: Disk, answer: Answer)
    requires p.At? && OnDone(p, d, answer).At? && (p.pc.Enter? ==> !p.applying)
    ensures var n := OnDone(p, d, answer);
            && (n.applying && Recovering(n.pc) ==> p.applying && Recovering(p.pc))
            && (p.applying && Aftermath(p.pc) ==> n.applying && Aftermath(n.pc) && n.tx.tag == p.tx.tag)
            && (Recovering(p.pc) ==> n.tx.tag == p.tx.tag)
  {
    hide StateAt, Selected;
    JournalLeads(Updated(p), d.journal);
    hide JournalPc;
  }

  lemma RecoveryKeepsJournal(p: Proc, d: Disk, f: Fate)
    requires p.At? && Recovering(p.pc) && IsAct(f)
    ensures Perform(d, StepOp(p, d, f), f).journal == d.journal
  {
    hide StateAt, TxAt, CheckpointOf;
  }

  lemma EarlyDone(r: Repo, p: Proc, d: Disk, f: Fate, tag: Tag, failed: bool)
    requires p.At? && ProcOk(p, d) && EarlyOk(p, d, tag, failed) && f.Proceed? && !Refuses(r, p, d, f.answer)
    ensures var e := Perform(d, StepOp(p, d, f), f); var n := OnDone(p, e, f.answer);
            EarlyOk(n, e, tag, n.At? && failed)
  {
    hide Perform, StepOp, OnDone, Refuses, ApplyingOk, InterruptedOk, CheckingOk;
    var e := Perform(d, StepOp(p, d, f), f);
    if OnDone(p, e, f.answer).At? {
      DoneAftermath(p, e, f.answer);
      if Recovering(p.pc) {
        RecoveryKeepsJournal(p, d, f);
      }
    }
  }

  /** Where an exception leads, by where it happens. */
  lemma RaiseAftermath(p: Proc, d: Disk, transient: bool)
    requires p.At? && OnRaise(p, d, transient).At?
    ensures var n := OnRaise(p, d, transient);
            && n.tx.tag == p.tx.tag && n.applying == p.applying
            && (Recovering(n.pc) ==> Trying(p.pc) && p.tx.tag in d.checkpoints)
            && (Aftermath(p.pc) ==> Aftermath(n.pc) && !Recovering(n.pc))
            && (p.pc.Announce? && p.tx.phase.TrafficCommitted? ==> !Recovering(n.pc))
            && (IsEarly(p.pc) && p.tx.phase.Preparing? && p.tx.tag in d.checkpoints ==> Aftermath(n.pc))
  {
    hide StateAt, DonePc;
  }

  lemma TryingPhases(p: Proc, d: Disk)
    requires p.At? && ProcOk(p, d) && Trying(p.pc)
    ensures p.applying && !Aftermath(p.pc)
    ensures d.journal.None? ==> p.pc.Announce? && p.tx.phase.TrafficCommitted?
    ensures IsEarly(p.pc) ==> p.tx.phase.Preparing? && d.journal.value.phase.Preparing?
    ensures !IsEarly(p.pc) && d.journal.Some? ==> !d.journal.value.phase.Preparing?
  {
  }

  /** An exception: `d` is the disk before it and `e` the disk after it. */
  lemma EarlyRaise(p: Proc, d: Disk, e: Disk, transient: bool, tag: Tag, failed: bool, fails: bool)
    requires p.At? && ProcOk(p, d) && EarlyOk(p, d, tag, failed) && e.journal == d.journal
    requires fails <==> IsEarly(p.pc) && p.tx.tag == tag && tag in e.checkpoints
    ensures var n := OnRaise(p, e, transient); EarlyOk(n, e, tag, n.At? && (fails || failed))
  {
    if Trying(p.pc) {
      TryingPhases(p, d);
    }
    hide OnRaise, ApplyingOk, InterruptedOk, CheckingOk;
    if OnRaise(p, e, transient).At? {
      RaiseAftermath(p, e, transient);
    }
  }

  lemma EarlyAct(r: Repo, m: Machine, f: Fate, tag: Tag, failed: bool)
    requires m.proc.At? && LocalOk(m) && EarlyOk(m.proc, m.disk, tag, failed) && IsAct(f)
    ensures var n := Act(r, m, f);
            EarlyOk(n.proc, n.disk, tag, n.proc.At? && (FailsEarly(r, m, f, tag) || failed))
  {
    LocalIsProc(m);
    hide ProcOk, Perform, StepOp, OnDone, OnRaise, Refuses, IsEarly, Aftermath, Recovering;
    var p, d := m.proc, m.disk;
    if f.Proceed? && Refuses(r, p, d, f.answer) {
      EarlyRaise(p, d, d, false, tag, failed, FailsEarly(r, m, f, tag));
    } else if f.Proceed? {
      EarlyDone(r, p, d, f, tag, failed);
    } else if f.Raise? {
      RaiseLeaves(p, d, f);
      EarlyRaise(p, d, Act(r, m, f).disk, f.transient, tag, failed, FailsEarly(r, m, f, tag));
    }
  }

  lemma {:induction false} EveryRunIsEarlyOk(r: Repo, m: Machine, fates: seq<Fate>, tag: Tag)
    requires Quiescent(m) && SuccessSeen(m.disk.state)
    ensures EarlyOk(Run(r, m, fates).proc, Run(r, m, fates).disk, tag, FailedEarly(r, m, fates, tag))
  {
    hide Next, FailedEarly, EarlyOk;
    if fates == [] {
      NothingFailed(r, m, tag);
    } else {
      var init, f := fates[..|fates| - 1], fates[|fates| - 1];
      assert init + [f] == fates;
      EveryRunIsEarlyOk(r, m, init, tag);
      EveryRunIsSafe(r, m, init);
      FailedEarlyStep(r, m, init, f, tag);
      EarlyNext(r, Run(r, m, init), f, tag, FailedEarly(r, m, init, tag));
    }
  }

  lemma NothingFailed(r: Repo, m: Machine, tag: Tag)
    requires Quiescent(m)
    ensures EarlyOk(m.proc, m.disk, tag, FailedEarly(r, m, [], tag))
  {
  }

  lemma EarlyNext(r: Repo, m: Machine, f: Fate, tag: Tag, failed: bool)
    requires Safe(m) && EarlyOk(m.proc, m.disk, tag, failed)
    ensures var n := Next(r, m, f);
            EarlyOk(n.proc, n.disk, tag, n.proc.At? && (FailsEarly(r, m, f, tag) || failed))
  {
    hide Act, LocalOk;
    if m.proc.At? && IsAct(f) {
      EarlyAct(r, m, f, tag, failed);
    }
  }

  /** Over every run: a step that puts a piece of a checkpoint back finds "preparing" on disk if and only if, in the
      same process, a step of the try block up to and including the one that writes "changing" raised or was refused
      while the tag's checkpoint was complete. */
  lemma RestoresFindPreparing(r: Repo, m: Machine, fates: seq<Fate>)
    requires Quiescent(m) && SuccessSeen(m.disk.state)
    requires Run(r, m, fates).proc.At? && Restoring(Run(r, m, fates).proc.pc)
    ensures var n := Run(r, m, fates);
            && OpenFor(n.disk, n.proc.tx.tag)
            && (n.disk.journal.value.phase.Preparing? <==> FailedEarly(r, m, fates, n.proc.tx.tag))
  {
    hide Run, FailedEarly;
    var n := Run(r, m, fates);
    EveryRunIsEarlyOk(r, m, fates, n.proc.tx.tag);
    EveryRunIsSafe(r, m, fates);
    LocalIsProc(n);
  }
}
