/** Past the traffic boundary an unfinished update stays where it is until somebody repairs it. */
module Boundary {
  import opened Wrappers
  import opened Selection
  import opened Updater
  import opened Transactions
  import opened Safety

  /** The open transaction crossed the boundary and its tag is not the recorded success. */
  predicate Stuck(d: Disk) {
    && d.journal.Some? && !BeforeTraffic(d.journal.value.phase)
    && !(d.state.success.Some? && d.state.success.value.tag == d.journal.value.tag)
  }

  /** No process is beyond the point where it finds out. */
  predicate Blocked(m: Machine) {
    && Stuck(m.disk)
    && (m.proc.At? ==>
          && m.proc.state.success == m.disk.state.success
          && (m.proc.pc.Enter? || (m.proc.pc.MarkBlocked? && m.disk.journal == Some(m.proc.tx))))
  }

  /** Nothing of the deployment moved, except rows that users of the new release added. */
  predicate Untouched(d: Disk, e: Disk) {
    && e.journal == d.journal && e.state.success == d.state.success && e.current == d.current && e.images == d.images
    && e.config == d.config && e.database.schema == d.database.schema && d.database.rows <= e.database.rows
    && e.checkpoints == d.checkpoints && e.manifests == d.manifests && e.serving == d.serving
  }

  lemma MarkStep(r: Repo, p: Proc, d: Disk, f: Fate)
    requires p.At? && p.pc.MarkBlocked? && IsAct(f)
    ensures Perform(d, StepOp(p, d, f), f) == d.(state := Perform(d, StepOp(p, d, f), f).state)
    ensures Perform(d, StepOp(p, d, f), f).state.success in {d.state.success, p.state.success}
    ensures f.Proceed? ==> OnDone(p, Perform(d, StepOp(p, d, f), f), f.answer) == Idle
    ensures OnRaise(p, Perform(d, StepOp(p, d, f), f), f.Raise? && f.transient) == Idle
    ensures !(f.Proceed? && Refuses(r, p, d, f.answer))
  {
    hide CheckpointOf, Selected, JournalPc, Handler, CheckHandler, CommitFits, Descendant, BundleFits;
  }

  lemma BlockedStep(r: Repo, m: Machine, f: Fate)
    requires Blocked(m)
    ensures Blocked(Next(r, m, f)) && Untouched(m.disk, Next(r, m, f).disk)
  {
    hide Perform, StepOp, OnDone, OnRaise, Refuses;
    if m.proc.At? && IsAct(f) {
      if m.proc.pc.Enter? {
        Looking(r, m.proc, m.disk, f);
      } else {
        MarkStep(r, m.proc, m.disk, f);
      }
    }
  }

  /** While a journal is past the traffic boundary and its tag is not the recorded success, no later check, whatever
      happens to it, changes release, images, configuration, schema, checkpoints or the journal itself. */
  lemma {:induction false} BlocksEveryLaterCheck(r: Repo, m: Machine, fates: seq<Fate>)
    requires Blocked(m)
    ensures Blocked(Run(r, m, fates)) && Untouched(m.disk, Run(r, m, fates).disk)
  {
    hide Next, Blocked;
    if fates != [] {
      var before := Run(r, m, fates[..|fates| - 1]);
      BlocksEveryLaterCheck(r, m, fates[..|fates| - 1]);
      BlockedStep(r, before, fates[|fates| - 1]);
      UntouchedTransitive(m.disk, before.disk, Run(r, m, fates).disk);
    }
  }

  lemma UntouchedTransitive(a: Disk, b: Disk, c: Disk)
    requires Untouched(a, b) && Untouched(b, c)
    ensures Untouched(a, c)
  {
  }

  /** The exception: when the tag is the recorded success, the next look at the journal is followed by its removal,
      and nothing else changes. */
  lemma FinishedJournalIsDropped(r: Repo, m: Machine, only: bool, quiet: Mess)
    requires m.proc.Idle? && m.disk.journal.Some?
    requires m.disk.state.success.Some? && m.disk.state.success.value.tag == m.disk.journal.value.tag
    ensures var n := Next(r, Next(r, Next(r, m, Start(only)), Proceed(Quiet, quiet)), Proceed(Quiet, quiet));
            n.disk == m.disk.(journal := None) && n.proc.At? != only
  {
    hide Perform, StepOp, OnDone, OnRaise, Refuses;
    var f := Proceed(Quiet, quiet);
    var p := NewProcess(m.disk, only);
    Looking(r, p, m.disk, f);
    DropStep(r, p.(pc := DropFinished, tx := m.disk.journal.value), m.disk, f);
  }

  lemma DropStep(r: Repo, p: Proc, d: Disk, f: Fate)
    requires p.At? && p.pc.DropFinished? && f.Proceed?
    ensures Perform(d, StepOp(p, d, f), f) == d.(journal := None)
    ensures OnDone(p, d.(journal := None), f.answer) == Goto(p, AfterInterrupted(p))
    ensures !Refuses(r, p, d, f.answer)
  {
    hide CheckpointOf, Selected;
  }
}
