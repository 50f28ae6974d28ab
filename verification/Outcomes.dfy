/** When a recorded success coexists with a demand for manual recovery of the same release. */
module Outcomes {
  import opened Wrappers
  import opened Selection
  import opened Updater
  import opened Transactions
  import opened Safety
  import Retries

  /** The tag is the recorded success, and is marked as requiring manual recovery. */
  predicate Both(s: State, tag: Tag) {
    && s.success.Some? && s.success.value.tag == tag
    && tag in s.seen && s.seen[tag].status.ManualRecoveryRequired?
  }

  /** The success of the process's own transaction is in memory. */
  predicate Own(p: Proc)
    requires p.At?
  {
    p.state.success.Some? && p.state.success.value.tag == p.tx.tag
  }

  /** The steps of apply() that can raise with the success record already in memory: its write, the removal of the
      journal, and what comes after that inside the try block. */
  predicate AfterRecord(pc: Pc) {
    pc.MarkSuccess? || pc.DropDone? || pc.Announce?
  }

  /** A step of apply() raised at a point where the success record was already in memory. */
  predicate FailedRecorded(e: Event, tag: Tag) {
    AfterRecord(e.pc) && e.fate.Raise? && e.tag == tag
  }

  /** The last thing that happened is such a failure. */
  predicate JustFailed(log: seq<Event>, tag: Tag) {
    log != [] && FailedRecorded(log[|log| - 1], tag)
  }

  /** What the process's memory says about its own success; `failed` is whether it has just failed to record it. */
  predicate OwnOk(p: Proc, failed: bool)
    requires p.At?
  {
    && (failed ==> p.pc.Enter? || p.pc.MarkManual?)
    && match p.pc
       case Enter => true
       case DropFinished => true
       case WriteManual => true
       case DropDone => Own(p)
       case Announce => Own(p)
       case MarkManual => Own(p) <==> failed
       case _ => Idling(p.pc) || !Own(p)
  }

  predicate OutcomeOk(m: Machine, tag: Tag) {
    m.proc.At? ==>
      && OwnOk(m.proc, JustFailed(m.log, m.proc.tx.tag))
      && (Both(m.proc.state, tag) ==> Both(m.disk.state, tag))
  }

  // ----- one step

  /** What a step does to the success in memory, and to the mark of a tag. */
  lemma MemoryStep(p: Proc, tag: Tag)
    requires p.At?
    ensures p.pc.MarkSuccess? ==> StateAt(p).success.Some? && StateAt(p).success.value.tag == p.tx.tag
    ensures !p.pc.MarkSuccess? ==> StateAt(p).success == p.state.success
    ensures Both(StateAt(p), tag) ==>
              Both(p.state, tag) || ((p.pc.MarkManual? || p.pc.MarkBlocked?) && p.tx.tag == tag && Own(p))
    ensures p.pc.MarkManual? && p.tx.tag == tag && Own(p) ==> Both(StateAt(p), tag)
    ensures TxAt(p).tag == p.tx.tag
  {
  }

  lemma JournalIsOwn(p: Proc, journal: Option<Tx>)
    requires p.At?
    ensures var pc := JournalPc(p, journal);
            && (journal.Some? ==> pc.DropFinished? || !Own(p.(tx := journal.value)))
            && (journal.None? ==> pc.Exit? || pc.Select?)
            && !pc.DropDone? && !pc.Announce? && !pc.MarkManual? && !pc.Enter?
  {
  }

  /** Where a success leads, as far as the process's own success matters. */
  lemma DoneLeads(p: Proc, d: Disk, answer: Answer)
    requires p.At? && OnDone(p, d, answer).At?
    ensures var n := OnDone(p, d, answer);
            && (n.pc.DropDone? <==> p.pc.MarkSuccess?) && (n.pc.Announce? <==> p.pc.DropDone?)
            && !n.pc.MarkManual? && !n.pc.Enter? && !p.pc.Announce?
            && (p.pc.DropFinished? || p.pc.WriteManual? ==> n.pc.Select?)
            && (p.pc.MarkManual? ==> n.pc.WriteManual?)
            && (Idling(p.pc) && !p.pc.OpenJournal? ==> Idling(n.pc))
  {
    DoneGoes(p, d, answer);
    JournalIsOwn(Updated(p), d.journal);
    hide JournalPc, OnDone, Own, Updated;
  }

  lemma DoneGoes(p: Proc, d: Disk, answer: Answer)
    requires p.At? && OnDone(p, d, answer).At?
    ensures OnDone(p, d, answer).pc == DonePc(Updated(p), d, answer) && Updated(p).pc == p.pc
    ensures !DonePc(Updated(p), d, answer).Exit?
  {
    hide StateAt, TxAt, DonePc, Selected;
  }

  /** What a success leaves in memory. */
  lemma DoneOwns(p: Proc, d: Disk, answer: Answer)
    requires p.At? && OnDone(p, d, answer).At?
    ensures var n := OnDone(p, d, answer);
            && (p.pc.MarkSuccess? ==> Own(n))
            && (!p.pc.MarkSuccess? && !p.pc.Enter? && !Idling(p.pc) ==> Own(n) == Own(p))
            && (p.pc.OpenJournal? ==> Own(n) == Own(p))
            && (p.pc.Enter? ==> n.pc.DropFinished? || n.pc.Select? || !Own(n))
  {
    hide StateAt, TxAt, Selected;
    MemoryStep(p, "");
    JournalIsOwn(Updated(p), d.journal);
    hide JournalPc, Both;
  }

  lemma OwnDone(p: Proc, d: Disk, answer: Answer, failed: bool)
    requires p.At? && OwnOk(p, failed) && (p.pc.OpenJournal? ==> !Own(p)) && OnDone(p, d, answer).At?
    ensures OwnOk(OnDone(p, d, answer), false)
  {
    hide OnDone, Own;
    DoneLeads(p, d, answer);
    DoneOwns(p, d, answer);
  }

  lemma OwnRaise(p: Proc, d: Disk, transient: bool, failed: bool)
    requires p.At? && OwnOk(p, failed) && OnRaise(p, d, transient).At?
    requires AfterRecord(p.pc) ==> p.tx.phase.TrafficCommitted?
    ensures OwnOk(OnRaise(p, d, transient), AfterRecord(p.pc))
  {
    hide StateAt, TxAt;
    MemoryStep(p, "");
    PlainTx(p);
    hide Both;
  }

  lemma PlainTx(p: Proc)
    requires p.At?
    ensures AfterRecord(p.pc) ==> TxAt(p) == p.tx
  {
  }

  /** When a step makes success and manual recovery coincide on disk. */
  predicate Coincides(p: Proc, f: Fate, failed: bool, tag: Tag)
    requires p.At?
  {
    p.pc.MarkManual? && p.tx.tag == tag && failed && (f.Proceed? || (f.Crash? && f.done))
  }

  lemma DiskStep(p: Proc, d: Disk, f: Fate, failed: bool, tag: Tag)
    requires p.At? && OwnOk(p, failed) && IsAct(f) && (Both(p.state, tag) ==> Both(d.state, tag))
    ensures var s := Perform(d, StepOp(p, d, f), f).state;
            && (!Both(d.state, tag) ==> (Both(s, tag) <==> Coincides(p, f, failed, tag)))
            && (Both(StateAt(p), tag) && (p.pc.MarkManual? ==> f.Proceed?) ==> Both(s, tag))
  {
    hide Perform, StepOp, StateAt, TxAt, Both;
    Retries.StateOnDisk(p, d, f);
    MemoryStep(p, tag);
  }

  /** A step that refuses touches nothing, and is none of those that record a success. */
  lemma RefusalIsElsewhere(r: Repo, p: Proc, d: Disk, answer: Answer)
    requires p.At? && Refuses(r, p, d, answer)
    ensures !p.pc.MarkManual? && !p.pc.Enter? && !AfterRecord(p.pc) && StateAt(p) == p.state
  {
    hide Descendant, CommitFits, BundleFits;
    PlainMemoryOf(p);
    hide StateAt;
  }

  lemma PlainMemoryOf(p: Proc)
    requires p.At?
    ensures !SavesState(p.pc) ==> StateAt(p) == p.state
  {
  }

  lemma FailedPhase(p: Proc, d: Disk)
    requires p.At? && ProcOk(p, d)
    ensures AfterRecord(p.pc) ==> p.tx.phase.TrafficCommitted?
  {
  }

  lemma RaiseEnds(p: Proc, d: Disk, transient: bool)
    requires p.At? && OnRaise(p, d, transient).At?
    ensures !p.pc.MarkManual? && OnRaise(p, d, transient).tx.tag == p.tx.tag
  {
    hide StateAt;
  }

  lemma JustFailedStep(log: seq<Event>, e: Event, tag: Tag)
    ensures JustFailed(log + [e], tag) <==> FailedRecorded(e, tag)
  {
  }

  lemma OutcomeAct(r: Repo, m: Machine, f: Fate, tag: Tag)
    requires m.proc.At? && IsAct(f) && LocalOk(m) && OutcomeOk(m, tag)
    ensures OutcomeOk(Act(r, m, f), tag)
    ensures !Both(m.disk.state, tag) ==>
              (Both(Act(r, m, f).disk.state, tag) <==> Coincides(m.proc, f, JustFailed(m.log, tag), tag))
  {
    var p, d, failed := m.proc, m.disk, JustFailed(m.log, m.proc.tx.tag);
    LocalIsProc(m);
    FailedPhase(p, d);
    OpeningIsNew(m);
    hide Perform, StepOp, OnDone, OnRaise, Refuses, ProcOk, Own, Both, StateAt, LocalOk;
    var op := StepOp(p, d, f);
    var d' := Perform(d, op, f);
    DiskStep(p, d, f, failed, tag);
    hide JustFailed;
    if f.Proceed? && Refuses(r, p, d, f.answer) {
      RefusalIsElsewhere(r, p, d, f.answer);
      NextMemory(p, d, f.answer, false);
      if OnRaise(p, d, false).At? {
        OwnRaise(p, d, false, failed);
        RaiseEnds(p, d, false);
      }
    } else {
      if f.Proceed? {
        NextMemory(p, d', f.answer, false);
        if OnDone(p, d', f.answer).At? {
          JustFailedStep(m.log, Event(p.pc, p.tx.tag, op, d, f), OnDone(p, d', f.answer).tx.tag);
          OwnDone(p, d', f.answer, failed);
        }
      } else if f.Raise? {
        NextMemory(p, d', Quiet, f.transient);
        if OnRaise(p, d', f.transient).At? {
          JustFailedStep(m.log, Event(p.pc, p.tx.tag, op, d, f), p.tx.tag);
          OwnRaise(p, d', f.transient, failed);
          RaiseEnds(p, d', f.transient);
        }
      }
    }
  }

  lemma OpeningIsNew(m: Machine)
    requires LocalOk(m) && m.proc.At?
    ensures m.proc.pc.OpenJournal? ==> !Own(m.proc)
  {
    hide ApplyingOk, InterruptedOk;
  }

  lemma OutcomeNext(r: Repo, m: Machine, f: Fate, tag: Tag)
    requires LocalOk(m) && OutcomeOk(m, tag)
    ensures OutcomeOk(Next(r, m, f), tag)
    ensures !Both(m.disk.state, tag) ==>
              (Both(Next(r, m, f).disk.state, tag)
               <==> m.proc.At? && IsAct(f) && Coincides(m.proc, f, JustFailed(m.log, tag), tag))
  {
    if m.proc.At? && IsAct(f) {
      hide Act, LocalOk, Both, OwnOk, Coincides;
      OutcomeAct(r, m, f, tag);
    } else {
      hide ProcOk;
    }
  }

  lemma {:induction false} EveryRunIsOutcomeOk(r: Repo, m: Machine, fates: seq<Fate>, tag: Tag)
    requires Quiescent(m) && SuccessSeen(m.disk.state)
    ensures OutcomeOk(Run(r, m, fates), tag) && LocalOk(Run(r, m, fates))
  {
    hide Next, OutcomeOk;
    EveryRunIsSafe(r, m, fates);
    if fates == [] {
      NothingFailed(m, tag);
    } else {
      EveryRunIsOutcomeOk(r, m, fates[..|fates| - 1], tag);
      OutcomeNext(r, Run(r, m, fates[..|fates| - 1]), fates[|fates| - 1], tag);
    }
  }

  lemma NothingFailed(m: Machine, tag: Tag)
    requires Quiescent(m)
    ensures OutcomeOk(m, tag)
  {
  }

  /** Over every run: a step makes a success coincide on disk with a demand for manual recovery of the same tag if and
      only if it is the handler's mark, reaching the disk, right after the write of the success, the removal of the
      journal or a step after that raised. */
  lemma CoincideExactly(r: Repo, m: Machine, fates: seq<Fate>, f: Fate, tag: Tag)
    requires Quiescent(m) && SuccessSeen(m.disk.state)
    requires !Both(Run(r, m, fates).disk.state, tag)
    ensures var n := Run(r, m, fates);
            Both(Run(r, m, fates + [f]).disk.state, tag)
            <==> && n.proc.At? && n.proc.pc.MarkManual? && n.proc.tx.tag == tag && JustFailed(n.log, tag)
                 && (f.Proceed? || (f.Crash? && f.done))
  {
    hide Next, Run, OutcomeOk, LocalOk, Both, JustFailed;
    EveryRunIsOutcomeOk(r, m, fates, tag);
    RunExtends(r, m, fates, f);
    OutcomeNext(r, Run(r, m, fates), f, tag);
  }

  lemma LogGrows(r: Repo, m: Machine, f: Fate)
    ensures m.log <= Next(r, m, f).log
  {
    hide StepOp, Perform, OnDone, OnRaise, Refuses;
  }

  /** So the two coincide only in a run in which one of these three steps has raised for that tag. */
  lemma {:induction false} CoincideOnlyAfterFailure(r: Repo, m: Machine, fates: seq<Fate>, tag: Tag)
    requires Quiescent(m) && SuccessSeen(m.disk.state)
    requires !Both(m.disk.state, tag) && Both(Run(r, m, fates).disk.state, tag)
    ensures exists i | 0 <= i < |Run(r, m, fates).log| :: FailedRecorded(Run(r, m, fates).log[i], tag)
  {
    hide Next, Both, FailedRecorded;
    var init, f := fates[..|fates| - 1], fates[|fates| - 1];
    assert init + [f] == fates;
    var n := Run(r, m, init);
    LogGrows(r, n, f);
    if Both(n.disk.state, tag) {
      CoincideOnlyAfterFailure(r, m, init, tag);
      var i :| 0 <= i < |n.log| && FailedRecorded(n.log[i], tag);
      assert Run(r, m, fates).log[i] == n.log[i];
    } else {
      CoincideExactly(r, m, init, f, tag);
      assert Run(r, m, fates).log[|n.log| - 1] == n.log[|n.log| - 1];
    }
  }
}
