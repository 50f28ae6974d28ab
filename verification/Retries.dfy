/** How often a release is tried again after a transient download failure. */
module Retries {
  import opened Wrappers
  import opened Selection
  import opened Updater
  import opened Transactions
  import opened Safety

  /** What the log is searched for. */
  datatype Kind =
    | Failure   // a download failed transiently
    | Count     // such a failure was counted on disk
    | Loss      // its count did not reach the disk
    | Cut       // the process ended between the third count, or a later one, and the mark that rejects the tag

  predicate Is(e: Event, kind: Kind, tag: Tag) {
    match kind
    case Failure => e.pc.Stage? && e.fate.Raise? && e.fate.transient && e.tag == tag
    case Count => Counts(e, tag) && Took(e.op, e.fate)
    case Loss => Counts(e, tag) && !Took(e.op, e.fate)
    case Cut =>
      && e.op.SaveState? && Attempts(e.op.state, tag) >= 3 && tag !in e.before.state.seen
      && (if e.pc.Reject? then tag in e.op.state.seen && !Took(e.op, e.fate)
          else Counts(e, tag) && e.fate.Crash? && Took(e.op, e.fate))
  }

  /** The step that counts a failure of `tag`. */
  predicate Counts(e: Event, tag: Tag) {
    e.pc.CountAttempt? && e.op.SaveState? && Attempts(e.op.state, tag) != Attempts(e.before.state, tag)
  }

  function Number(log: seq<Event>, kind: Kind, tag: Tag): nat {
    if log == [] then 0
    else Number(log[..|log| - 1], kind, tag) + if Is(log[|log| - 1], kind, tag) then 1 else 0
  }

  lemma NumberStep(log: seq<Event>, e: Event, kind: Kind, tag: Tag)
    ensures Number(log + [e], kind, tag) == Number(log, kind, tag) + if Is(e, kind, tag) then 1 else 0
  {
    hide Is;
    assert (log + [e])[..|log|] == log;
  }

  /** Memory counts attempts as the disk does, and only for tags that are not marked. */
  predicate CountsAgree(p: Proc, d: Disk)
    requires p.At?
  {
    p.state.attempts == d.state.attempts && (p.pc.CountAttempt? || p.pc.Reject? ==> p.release.tag !in p.state.seen)
  }

  /** A failure that is waiting to be counted. */
  function Waiting(p: Proc, tag: Tag): nat {
    if p.At? && p.pc.CountAttempt? && p.release.tag == tag then 1 else 0
  }

  predicate Rejecting(p: Proc, tag: Tag) {
    p.At? && p.pc.Reject? && p.release.tag == tag
  }

  /** The third count is the last one, but for processes that were cut short; a tag that was is past its third count. */
  predicate Bounded(p: Proc, s: State, tag: Tag, cuts: nat) {
    && Attempts(s, tag) <= 3 + cuts
    && (tag !in s.seen && !Rejecting(p, tag) ==> Attempts(s, tag) <= 2 + cuts)
    && (cuts > 0 ==> Attempts(s, tag) >= 3)
  }

  ghost predicate RetriesOk(m: Machine, tag: Tag) {
    && (m.proc.At? ==> CountsAgree(m.proc, m.disk))
    && Attempts(m.disk.state, tag) == Number(m.log, Count, tag)
    && Number(m.log, Failure, tag) == Number(m.log, Count, tag) + Number(m.log, Loss, tag) + Waiting(m.proc, tag)
    && Bounded(m.proc, m.disk.state, tag, Number(m.log, Cut, tag))
  }

  lemma StateOnDisk(p: Proc, d: Disk, f: Fate)
    requires p.At? && IsAct(f)
    ensures var op := StepOp(p, d, f);
            && (op.SaveState? <==> SavesState(p.pc)) && (op.SaveState? ==> op.state == StateAt(p))
            && (op.SaveState? ==> (Took(op, f) <==> f.Proceed? || (f.Crash? && f.done)))
            && Perform(d, op, f).state == if op.SaveState? && Took(op, f) then StateAt(p) else d.state
  {
    hide CheckpointOf, StateAt, TxAt;
  }

  lemma AttemptsInMemory(p: Proc)
    requires p.At?
    ensures !p.pc.CountAttempt? ==> StateAt(p).attempts == p.state.attempts
    ensures p.pc.CountAttempt? ==>
              var count := Attempts(p.state, p.release.tag) + 1;
              StateAt(p) == p.state.(attempts := p.state.attempts[p.release.tag := count])
    ensures p.pc.Reject? ==> StateAt(p).seen.Keys == p.state.seen.Keys + {p.release.tag}
    ensures p.state.seen.Keys <= StateAt(p).seen.Keys
  {
  }

  lemma CountsAgreeDone(r: Repo, p: Proc, d: Disk, f: Fate)
    requires p.At? && CountsAgree(p, d) && f.Proceed? && !Refuses(r, p, d, f.answer)
    ensures var d' := Perform(d, StepOp(p, d, f), f); var n := OnDone(p, d', f.answer);
            n.At? ==> CountsAgree(n, d') && (n.pc.Reject? ==> n.release == p.release && p.pc.CountAttempt?)
    ensures var d' := Perform(d, StepOp(p, d, f), f); var n := OnDone(p, d', f.answer);
            p.pc.CountAttempt? && Attempts(StateAt(p), p.release.tag) >= 3 ==> n.At? && n.pc.Reject?
  {
    var d' := Perform(d, StepOp(p, d, f), f);
    CountLeads(p, d', f.answer);
    hide Refuses, Perform, StepOp, StateAt, OnDone;
    StateOnDisk(p, d, f);
    AttemptsInMemory(p);
    NextMemory(p, d', f.answer, false);
  }

  /** Only a count that is too many leads to a rejection, and no success leads to a count. */
  lemma CountLeads(p: Proc, d: Disk, answer: Answer)
    requires p.At?
    ensures var n := OnDone(p, d, answer);
            && (n.At? ==> !n.pc.CountAttempt? && (n.pc.Reject? ==> n.release == p.release && p.pc.CountAttempt?))
            && (p.pc.CountAttempt? && Attempts(StateAt(p), p.release.tag) >= 3 ==> n.At? && n.pc.Reject?)
  {
    hide StateAt, TxAt, Selected;
    JournalLeadsNoCount(Updated(p), d.journal);
    hide JournalPc;
  }

  lemma JournalLeadsNoCount(p: Proc, journal: Option<Tx>)
    requires p.At?
    ensures var pc := JournalPc(p, journal); !(pc.CountAttempt? || pc.Reject?)
  {
  }

  lemma CountsAgreeRaise(p: Proc, before: Disk, d: Disk, transient: bool)
    requires p.At? && d.state.attempts == p.state.attempts && CountsAgree(p, before)
    ensures var n := OnRaise(p, before, transient);
            n.At? ==> CountsAgree(n, d) && !p.pc.CountAttempt? && !p.pc.Reject?
  {
    hide StateAt, TxAt, Handler, Restored;
    AttemptsInMemory(p);
    HandlerLeadsNoCount(Updated(p), before);
  }

  lemma HandlerLeadsNoCount(p: Proc, d: Disk)
    requires p.At?
    ensures !(Handler(p, d).CountAttempt? || Handler(p, d).Reject?)
  {
  }

  /** Where a step leads that waits to count, or stops waiting. */
  lemma WaitingDone(r: Repo, p: Proc, d: Disk, f: Fate, tag: Tag)
    requires p.At? && f.Proceed? && !Refuses(r, p, d, f.answer)
    ensures var d' := Perform(d, StepOp(p, d, f), f);
            Waiting(OnDone(p, d', f.answer), tag) == 0
  {
    hide Refuses, Perform, StepOp, StateAt, TxAt, Selected;
    JournalLeadsNoCount(Updated(p), Perform(d, StepOp(p, d, f), f).journal);
    hide JournalPc;
  }

  lemma WaitingRaise(p: Proc, d: Disk, before: Disk, transient: bool, tag: Tag)
    requires p.At? && ProcOk(p, d)
    ensures Waiting(OnRaise(p, before, transient), tag) == if p.pc.Stage? && transient && p.tx.tag == tag then 1 else 0
  {
    hide Handler, Restored, ApplyingOk, InterruptedOk;
    HandlerLeadsNoCount(Updated(p), before);
  }

  /** One step keeps the bound. */
  lemma BoundStep(p: Proc, d: Disk, f: Fate, n: Proc, tag: Tag, cuts: nat)
    requires p.At? && CountsAgree(p, d) && IsAct(f) && d.state.seen.Keys <= p.state.seen.Keys
    requires Bounded(p, d.state, tag, cuts)
    requires f.Proceed? && p.pc.CountAttempt? && Attempts(StateAt(p), p.release.tag) >= 3 ==>
               n.At? && n.pc.Reject? && n.release == p.release
    ensures var e := Event(p.pc, p.tx.tag, StepOp(p, d, f), d, f);
            Bounded(n, Perform(d, StepOp(p, d, f), f).state, tag, cuts + if Is(e, Cut, tag) then 1 else 0)
  {
    hide StepOp, Perform, StateAt;
    StateOnDisk(p, d, f);
    AttemptsInMemory(p);
  }

  /** One step keeps the books: what was waiting is counted or lost. */
  lemma CountedStep(p: Proc, d: Disk, f: Fate, tag: Tag)
    requires p.At? && CountsAgree(p, d) && IsAct(f)
    ensures var e, d' := Event(p.pc, p.tx.tag, StepOp(p, d, f), d, f), Perform(d, StepOp(p, d, f), f);
            && Attempts(d'.state, tag) == Attempts(d.state, tag) + (if Is(e, Count, tag) then 1 else 0)
            && (if Is(e, Count, tag) then 1 else 0) + (if Is(e, Loss, tag) then 1 else 0) == Waiting(p, tag)
  {
    hide StepOp, Perform, StateAt;
    StateOnDisk(p, d, f);
    AttemptsInMemory(p);
  }

  lemma Agreeing(p: Proc, d: Disk)
    requires p.At? && CountsAgree(p, d)
    ensures p.state.attempts == d.state.attempts
  {
  }

  lemma RaisedState(p: Proc, d: Disk, f: Fate)
    requires p.At? && CountsAgree(p, d) && f.Raise?
    ensures CountsAgree(p, Perform(d, StepOp(p, d, f), f))
    ensures Perform(d, StepOp(p, d, f), f).state == d.state
  {
    hide StepOp, Perform, StateAt;
    StateOnDisk(p, d, f);
  }

  lemma RefusalMarksNothing(r: Repo, p: Proc, d: Disk, f: Fate, tag: Tag, cuts: nat)
    requires p.At? && f.Proceed? && Refuses(r, p, d, f.answer) && Bounded(p, d.state, tag, cuts)
    ensures Bounded(OnRaise(p, d, false), d.state, tag, cuts) && Waiting(p, tag) == 0
  {
    hide CommitFits, Descendant, BundleFits, OnRaise;
  }

  lemma SeenInMemory(m: Machine)
    requires LocalOk(m) && m.proc.At?
    ensures m.disk.state.seen.Keys <= m.proc.state.seen.Keys
  {
    hide ApplyingOk, InterruptedOk, CheckingOk;
  }

  /** Where a step leads that was not refused. */
  function Leads(p: Proc, d: Disk, f: Fate): Proc
    requires p.At? && IsAct(f)
  {
    if f.Crash? then Idle else if f.Raise? then OnRaise(p, d, f.transient) else OnDone(p, d, f.answer)
  }

  lemma Leading(r: Repo, p: Proc, d: Disk, f: Fate, tag: Tag)
    requires p.At? && IsAct(f) && CountsAgree(p, d) && ProcOk(p, d)
    requires f.Proceed? ==> !Refuses(r, p, d, f.answer)
    ensures var e := Perform(d, StepOp(p, d, f), f); var n := Leads(p, e, f);
            && (n.At? ==> CountsAgree(n, e))
            && Waiting(n, tag) == (if p.pc.Stage? && f.Raise? && f.transient && p.tx.tag == tag then 1 else 0)
            && (f.Proceed? && p.pc.CountAttempt? && Attempts(StateAt(p), p.release.tag) >= 3 ==>
                  n.At? && n.pc.Reject? && n.release == p.release)
  {
    hide Perform, StepOp, OnDone, OnRaise, Refuses, CountsAgree, StateAt, ProcOk;
    Agreeing(p, d);
    var e := Perform(d, StepOp(p, d, f), f);
    if f.Proceed? {
      CountsAgreeDone(r, p, d, f);
      WaitingDone(r, p, d, f, tag);
    } else if f.Raise? {
      RaisedState(p, d, f);
      CountsAgreeRaise(p, e, e, f.transient);
      WaitingRaise(p, d, e, f.transient, tag);
    }
  }

  lemma RetriesRefused(r: Repo, m: Machine, f: Fate, tag: Tag)
    requires m.proc.At? && f.Proceed? && Refuses(r, m.proc, m.disk, f.answer) && LocalOk(m) && RetriesOk(m, tag)
    ensures RetriesOk(m.(proc := OnRaise(m.proc, m.disk, false)), tag)
  {
    LocalIsProc(m);
    hide OnRaise, Refuses, CountsAgree, Bounded, Waiting, ProcOk, Number;
    var p, d := m.proc, m.disk;
    Agreeing(p, d);
    CountsAgreeRaise(p, d, d, false);
    RefusalMarksNothing(r, p, d, f, tag, Number(m.log, Cut, tag));
    WaitingRaise(p, d, d, false, tag);
  }

  lemma RetriesAct(r: Repo, m: Machine, f: Fate, tag: Tag)
    requires m.proc.At? && IsAct(f) && LocalOk(m) && RetriesOk(m, tag)
    ensures RetriesOk(Act(r, m, f), tag)
  {
    LocalIsProc(m);
    SeenInMemory(m);
    hide Perform, StepOp, OnDone, OnRaise, Refuses, CountsAgree, Is, StateAt, Bounded, Waiting, ProcOk, Number, LocalOk;
    var p, d := m.proc, m.disk;
    if f.Proceed? && Refuses(r, p, d, f.answer) {
      RetriesRefused(r, m, f, tag);
    } else {
      var op := StepOp(p, d, f);
      var e := Event(p.pc, p.tx.tag, op, d, f);
      NumberStep(m.log, e, Count, tag);
      NumberStep(m.log, e, Loss, tag);
      NumberStep(m.log, e, Failure, tag);
      NumberStep(m.log, e, Cut, tag);
      CountedStep(p, d, f, tag);
      FailureIs(e, tag);
      Leading(r, p, d, f, tag);
      BoundStep(p, d, f, Leads(p, Perform(d, op, f), f), tag, Number(m.log, Cut, tag));
    }
  }

  lemma FailureIs(e: Event, tag: Tag)
    ensures Is(e, Failure, tag) <==> e.pc.Stage? && e.fate.Raise? && e.fate.transient && e.tag == tag
  {
  }

  lemma NextKeepsRetries(r: Repo, m: Machine, f: Fate, tag: Tag)
    requires LocalOk(m) && RetriesOk(m, tag)
    ensures LocalOk(Next(r, m, f)) && RetriesOk(Next(r, m, f), tag)
  {
    hide Act, ProcOk, Number;
    if f.UserRow? {
      RowsLeaveLocal(m, Next(r, m, f));
    } else if f.Start? {
      StartOk(m.disk, f.only);
    } else if m.proc.At? {
      RetriesAct(r, m, f, tag);
      LocalAct(r, m, f);
    }
  }

  lemma {:induction false} EveryRunCountsRetries(r: Repo, m: Machine, fates: seq<Fate>, tag: Tag)
    requires Quiescent(m) && SuccessSeen(m.disk.state) && Attempts(m.disk.state, tag) == 0
    ensures LocalOk(Run(r, m, fates)) && RetriesOk(Run(r, m, fates), tag)
  {
    hide Next, LocalOk, RetriesOk;
    if fates == [] {
      NothingCounted(m, tag);
    } else {
      EveryRunCountsRetries(r, m, fates[..|fates| - 1], tag);
      NextKeepsRetries(r, Run(r, m, fates[..|fates| - 1]), fates[|fates| - 1], tag);
    }
  }

  lemma NothingCounted(m: Machine, tag: Tag)
    requires Quiescent(m) && SuccessSeen(m.disk.state) && Attempts(m.disk.state, tag) == 0
    ensures LocalOk(m) && RetriesOk(m, tag)
  {
  }

  /** Over every run: each transient failure of a tag is counted on disk, lost, or still to be counted; there are at
      most three of them beyond the lost ones and the cuts, and at most two while the updater is idle and the tag
      unmarked. */
  lemma FailuresAreBounded(r: Repo, m: Machine, fates: seq<Fate>, tag: Tag)
    requires Quiescent(m) && SuccessSeen(m.disk.state) && Attempts(m.disk.state, tag) == 0
    ensures var n := Run(r, m, fates);
            var failures, lost, cuts := Number(n.log, Failure, tag), Number(n.log, Loss, tag), Number(n.log, Cut, tag);
            && failures == Attempts(n.disk.state, tag) + lost + Waiting(n.proc, tag)
            && failures <= 3 + lost + cuts
            && (n.proc.Idle? && tag !in n.disk.state.seen ==> failures <= 2 + lost + cuts)
            && (n.proc.Idle? && tag !in n.disk.state.seen ==> (cuts > 0 <==> Attempts(n.disk.state, tag) >= 3))
  {
    hide Run, LocalOk, Number;
    EveryRunCountsRetries(r, m, fates, tag);
    var n := Run(r, m, fates);
    if Waiting(n.proc, tag) == 1 {
      WaitingIsOpen(n, tag);
    }
  }

  /** A tag whose failure is to be counted is not marked. */
  lemma WaitingIsOpen(m: Machine, tag: Tag)
    requires LocalOk(m) && Waiting(m.proc, tag) == 1
    ensures tag !in m.disk.state.seen && !Rejecting(m.proc, tag)
  {
  }
}
