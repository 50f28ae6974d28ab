/** How many transient failures a tag can have, and why: a lost count or a process that is cut short. */
module Attempts {
  import opened Wrappers
  import opened Selection
  import opened Updater
  import opened Transactions
  import opened Safety
  import opened Release
  import opened Completion
  import opened Retries

  /** The host is idle and may take the release, as far as its tag and commit tell. */
  predicate Offered(r: Repo, m: Machine, rel: Selection.Release, commit: Commit) {
    && m.proc.Idle? && m.disk.journal.None? && Candidate(rel, m.disk.state) && CommitOk(commit)
    && (rel.tag in m.disk.state.observed ==> m.disk.state.observed[rel.tag] == commit)
    && Descendant(r, m.disk.state, m.disk, commit)
  }

  /** The release's download has failed transiently and the failure is about to be counted. */
  predicate Failing(m: Machine, rel: Selection.Release) {
    m.proc.At? && m.proc.pc.CountAttempt? && m.proc.release == rel && m.proc.state == m.disk.state
  }

  predicate SameBooks(m: Machine, n: Machine, tag: Tag) {
    && Number(n.log, Loss, tag) == Number(m.log, Loss, tag)
    && Number(n.log, Cut, tag) == Number(m.log, Cut, tag)
  }

  /** No other step loses a count or cuts one short. */
  lemma BooksKept(r: Repo, m: Machine, f: Fate, tag: Tag)
    requires !(m.proc.At? && (m.proc.pc.CountAttempt? || m.proc.pc.Reject?))
    ensures SameBooks(m, Next(r, m, f), tag)
  {
    hide Number, Perform, StepOp, OnDone, OnRaise, Refuses;
    if m.proc.At? && IsAct(f) {
      var e := Event(m.proc.pc, m.proc.tx.tag, StepOp(m.proc, m.disk, f), m.disk, f);
      ActShape(r, m, f);
      NumberStep(m.log, e, Loss, tag);
      NumberStep(m.log, e, Cut, tag);
    }
  }

  // ----- one failure

  lemma DownloadFails(r: Repo, m: Machine, mess: Mess)
    requires m.proc.At? && m.proc.pc.Stage? && m.proc.release.tag !in m.proc.state.seen
    ensures var n := Next(r, m, Raise(true, false, mess));
            n.disk == m.disk && n.proc == m.proc.(pc := CountAttempt)
  {
    hide BundleFits, Perform, StepOp, OnDone, OnRaise, Refuses;
    Staged(r, m.proc, m.disk, Raise(true, false, mess));
    NothingAdded(m.disk, StepOp(m.proc, m.disk, Raise(true, false, mess)), mess);
  }

  lemma NothingAdded(d: Disk, op: Op, mess: Mess)
    requires op.AddRelease? || op.SaveState?
    ensures Perform(d, op, Raise(true, false, mess)) == d && Perform(d, op, Raise(false, false, mess)) == d
  {
  }

  /** The release is taken up to its commit. */
  lemma TakenUp(r: Repo, m: Machine, rel: Selection.Release, commit: Commit, mess: Mess) returns (fates: seq<Fate>)
    requires Offered(r, m, rel, commit)
    ensures var n := Run(r, m, fates);
            && n.disk == m.disk && SameBooks(m, n, rel.tag)
            && n.proc == At(Observe, m.disk.state, Tx(rel.tag, commit, rel.published, None, Preparing),
                            false, false, rel, NoManifest, map[])
  {
    var o, f := Offer(rel, commit, NoManifest, map[]), Proceed(Quiet, mess);
    assert Run(r, m, []) == m;
    hide Next, Run, Candidate, Descendant, SameBooks;
    fates := Step(r, m, [], Start(false), rel.tag);
    fates := Step(r, m, fates, f, rel.tag);
    Begins(r, m, mess);
    Selects(r, Run(r, m, fates), o, mess);
    fates := Step(r, m, fates, Proceed(Releases([rel]), mess), rel.tag);
    Resolves(r, Run(r, m, fates), o, mess);
    fates := Step(r, m, fates, Proceed(ResolvesTo(commit), mess), rel.tag);
  }

  /** One more fate of a process that is not counting. */
  lemma Step(r: Repo, m: Machine, before: seq<Fate>, f: Fate, tag: Tag) returns (fates: seq<Fate>)
    requires var n := Run(r, m, before); !(n.proc.At? && (n.proc.pc.CountAttempt? || n.proc.pc.Reject?))
    requires SameBooks(m, Run(r, m, before), tag)
    ensures fates == before + [f] && Run(r, m, fates) == Next(r, Run(r, m, before), f)
    ensures SameBooks(m, Run(r, m, fates), tag)
  {
    hide Next, Run, Number;
    fates := before + [f];
    RunExtends(r, m, before, f);
    BooksKept(r, Run(r, m, before), f, tag);
  }

  function Remembered(s: State, tag: Tag, commit: Commit): State {
    s.(observed := s.observed[tag := commit])
  }

  /** The release's download fails transiently. */
  lemma FailsOnce(r: Repo, m: Machine, rel: Selection.Release, commit: Commit, mess: Mess) returns (fates: seq<Fate>)
    requires Offered(r, m, rel, commit)
    ensures var n := Run(r, m, fates);
            && Failing(n, rel) && SameBooks(m, n, rel.tag)
            && n.disk == m.disk.(state := Remembered(m.disk.state, rel.tag, commit))
  {
    var o, f := Offer(rel, commit, NoManifest, map[]), Proceed(Quiet, mess);
    fates := TakenUp(r, m, rel, commit, mess);
    assert rel.tag !in m.disk.state.seen;
    RememberedDescends(r, m, rel, commit);
    hide Next, Run, Candidate, Descendant, SameBooks, Offered;
    Observes(r, Run(r, m, fates), o, mess);
    fates := Step(r, m, fates, f, rel.tag);
    Descends(r, Run(r, m, fates), mess);
    fates := Step(r, m, fates, f, rel.tag);
    DownloadFails(r, Run(r, m, fates), mess);
    fates := Step(r, m, fates, Raise(true, false, mess), rel.tag);
  }

  lemma RememberedDescends(r: Repo, m: Machine, rel: Selection.Release, commit: Commit)
    requires Offered(r, m, rel, commit)
    ensures var s := Remembered(m.disk.state, rel.tag, commit); Descendant(r, s, m.disk.(state := s), commit)
  {
  }

  // ----- after the failure

  function Counted(s: State, tag: Tag): State {
    s.(attempts := s.attempts[tag := Attempts(s, tag) + 1])
  }

  /** Nothing has moved but the commit remembered for the tag, and attempts. */
  predicate OnlyCounted(m: Machine, n: Machine, tag: Tag, commit: Commit) {
    && n.disk == m.disk.(state := n.disk.state)
    && n.disk.state == Remembered(m.disk.state, tag, commit).(attempts := n.disk.state.attempts)
  }

  lemma OnlyCountedAdds(m: Machine, n: Machine, o: Machine, tag: Tag, commit: Commit)
    requires OnlyCounted(m, n, tag, commit) && OnlyCounted(n, o, tag, commit)
    ensures OnlyCounted(m, o, tag, commit)
  {
    assert Remembered(Remembered(m.disk.state, tag, commit), tag, commit) == Remembered(m.disk.state, tag, commit);
  }

  /** What is offered stays offered meanwhile. */
  lemma StillOffered(r: Repo, m: Machine, n: Machine, rel: Selection.Release, commit: Commit)
    requires Offered(r, m, rel, commit) && n.proc.Idle? && OnlyCounted(m, n, rel.tag, commit)
    ensures Offered(r, n, rel, commit)
  {
    hide CommitOk;
  }

  /** A failure is counted, and the tag may be tried again unless it was the third one. */
  lemma Counts(r: Repo, m: Machine, rel: Selection.Release, mess: Mess)
    requires Failing(m, rel)
    ensures var n := Next(r, m, Proceed(Quiet, mess));
            && n.disk == m.disk.(state := Counted(m.disk.state, rel.tag)) && SameBooks(m, n, rel.tag)
            && (Attempts(m.disk.state, rel.tag) < 2 ==> n.proc.Idle?)
  {
    hide Next, Number;
    Saves(r, m, mess);
    CountKeepsBooks(r, m, mess, rel.tag);
  }

  lemma CountKeepsBooks(r: Repo, m: Machine, mess: Mess, tag: Tag)
    requires m.proc.At? && m.proc.pc.CountAttempt?
    ensures SameBooks(m, Next(r, m, Proceed(Quiet, mess)), tag)
  {
    hide Number, Perform, OnDone, OnRaise, StepOp;
    var f := Proceed(Quiet, mess);
    var e := Event(CountAttempt, m.proc.tx.tag, StepOp(m.proc, m.disk, f), m.disk, f);
    NumberStep(m.log, e, Loss, tag);
    NumberStep(m.log, e, Cut, tag);
  }

  /** The write of the count fails, and the failure is forgotten. */
  lemma Forgets(r: Repo, m: Machine, rel: Selection.Release, mess: Mess)
    requires Failing(m, rel)
    ensures var n := Next(r, m, Raise(false, false, mess)); n.disk == m.disk && n.proc.Idle?
    ensures var n := Next(r, m, Raise(false, false, mess));
            Number(n.log, Loss, rel.tag) == Number(m.log, Loss, rel.tag) + 1
  {
    var f := Raise(false, false, mess);
    var op := StepOp(m.proc, m.disk, f);
    NothingAdded(m.disk, op, mess);
    NumberStep(m.log, Event(CountAttempt, m.proc.tx.tag, op, m.disk, f), Loss, rel.tag);
    hide Number, Perform, OnDone, JournalPc;
  }

  /** The process dies right after the count. */
  lemma IsCutShort(r: Repo, m: Machine, rel: Selection.Release, mess: Mess)
    requires Failing(m, rel)
    ensures var n := Next(r, m, Crash(true, mess));
            n.disk == m.disk.(state := Counted(m.disk.state, rel.tag)) && n.proc.Idle?
    ensures var n := Next(r, m, Crash(true, mess)); Number(n.log, Loss, rel.tag) == Number(m.log, Loss, rel.tag)
  {
    hide Number, OnDone, OnRaise, StepOp, Perform, StateAt, Is;
    var f := Crash(true, mess);
    var e := Event(CountAttempt, m.proc.tx.tag, StepOp(m.proc, m.disk, f), m.disk, f);
    StateOnDisk(m.proc, m.disk, f);
    AttemptsInMemory(m.proc);
    CrashSaves(m.disk, e.op, mess);
    NumberStep(m.log, e, Loss, rel.tag);
    CutIsNoLoss(e, rel.tag);
  }

  lemma CrashSaves(d: Disk, op: Op, mess: Mess)
    requires op.SaveState?
    ensures Perform(d, op, Crash(true, mess)) == d.(state := op.state)
  {
  }

  lemma CutIsNoLoss(e: Event, tag: Tag)
    requires e.fate.Crash? && e.fate.done
    ensures !Is(e, Loss, tag)
  {
  }

  lemma LossesSame(m: Machine, n: Machine, tag: Tag)
    requires SameBooks(m, n, tag)
    ensures Number(n.log, Loss, tag) == Number(m.log, Loss, tag)
  {
  }

  lemma NoneYet(m: Machine, tag: Tag)
    requires Quiescent(m)
    ensures Number(m.log, Loss, tag) == 0
  {
  }

  // ----- as many failures as one likes

  /** One failure that is counted, while it is not the third. */
  lemma CleanRound(r: Repo, m: Machine, rel: Selection.Release, commit: Commit, mess: Mess) returns (fates: seq<Fate>)
    requires Offered(r, m, rel, commit) && Attempts(m.disk.state, rel.tag) < 2
    ensures var n := Run(r, m, fates);
            && Offered(r, n, rel, commit) && SameBooks(m, n, rel.tag) && OnlyCounted(m, n, rel.tag, commit)
            && Attempts(n.disk.state, rel.tag) == Attempts(m.disk.state, rel.tag) + 1
  {
    hide Next, Run, SameBooks, Offered;
    var f := Proceed(Quiet, mess);
    fates := FailsOnce(r, m, rel, commit, mess);
    var n := Run(r, m, fates);
    Counts(r, n, rel, mess);
    RunExtends(r, m, fates, f);
    fates := fates + [f];
    BooksAdd(m, n, Run(r, m, fates), rel.tag);
    StillOffered(r, m, Run(r, m, fates), rel, commit);
  }

  lemma BooksAdd(m: Machine, n: Machine, o: Machine, tag: Tag)
    requires SameBooks(m, n, tag) && SameBooks(n, o, tag)
    ensures SameBooks(m, o, tag)
  {
  }

  /** Without losing or cutting short any count, the tag fails until it has failed a third time, and always once more.
      */
  lemma {:induction false} FailsOn(r: Repo, m: Machine, rel: Selection.Release, commit: Commit, mess: Mess)
    returns (fates: seq<Fate>)
    requires Offered(r, m, rel, commit)
    ensures var n, c := Run(r, m, fates), Attempts(m.disk.state, rel.tag);
            && Failing(n, rel) && SameBooks(m, n, rel.tag) && OnlyCounted(m, n, rel.tag, commit)
            && Attempts(n.disk.state, rel.tag) == if c < 2 then 2 else c
    decreases 2 - Attempts(m.disk.state, rel.tag)
  {
    hide Next, Run, SameBooks, Offered;
    if Attempts(m.disk.state, rel.tag) < 2 {
      fates := CleanRound(r, m, rel, commit, mess);
      var n := Run(r, m, fates);
      var rest := FailsOn(r, n, rel, commit, mess);
      RunConcat(r, m, fates, rest);
      fates := fates + rest;
      BooksAdd(m, n, Run(r, m, fates), rel.tag);
      OnlyCountedAdds(m, n, Run(r, m, fates), rel.tag, commit);
    } else {
      fates := FailsOnce(r, m, rel, commit, mess);
    }
  }

  /** Some future of `n` fails more than three times in all, without any further count being lost or cut short. */
  ghost predicate MayFailOften(r: Repo, n: Machine, tag: Tag) {
    exists future :: SameBooks(n, Run(r, n, future), tag) && Number(Run(r, n, future).log, Failure, tag) > 3
  }

  /** A release that is on offer, after any run, can go on to fail more than three times if and only if a count of it
      has been lost or a third count was cut short before its mark. */
  lemma MoreThanThreeExactly(r: Repo, m: Machine, past: seq<Fate>, rel: Selection.Release, commit: Commit)
    requires Quiescent(m) && SuccessSeen(m.disk.state) && Attempts(m.disk.state, rel.tag) == 0
    requires Offered(r, Run(r, m, past), rel, commit)
    ensures var n := Run(r, m, past);
            MayFailOften(r, n, rel.tag) <==> Number(n.log, Loss, rel.tag) + Number(n.log, Cut, rel.tag) > 0
  {
    hide Run, Number;
    var n, tag, mess := Run(r, m, past), rel.tag, Mess(map[], m.disk.database, m.disk.config, false);
    FailuresAreBounded(r, m, past, tag);
    forall future | SameBooks(n, Run(r, n, future), tag)
      ensures Number(Run(r, n, future).log, Failure, tag) <= 3 + Number(n.log, Loss, tag) + Number(n.log, Cut, tag)
    {
      RunConcat(r, m, past, future);
      FailuresAreBounded(r, m, past + future, tag);
    }
    assert tag !in n.disk.state.seen;
    hide Offered;
    var future := FailsOn(r, n, rel, commit, mess);
    RunConcat(r, m, past, future);
    FailuresAreBounded(r, m, past + future, tag);
    assert Waiting(Run(r, n, future).proc, tag) == 1;
  }

  /** One failure whose count is lost. */
  lemma LostRound(r: Repo, m: Machine, rel: Selection.Release, commit: Commit, mess: Mess) returns (fates: seq<Fate>)
    requires Offered(r, m, rel, commit)
    ensures var n := Run(r, m, fates);
            && Offered(r, n, rel, commit) && Number(n.log, Loss, rel.tag) == Number(m.log, Loss, rel.tag) + 1
            && Attempts(n.disk.state, rel.tag) == Attempts(m.disk.state, rel.tag)
  {
    hide Next, Run, Offered, Number;
    fates := FailsOnce(r, m, rel, commit, mess);
    Forgets(r, Run(r, m, fates), rel, mess);
    RunExtends(r, m, fates, Raise(false, false, mess));
    fates := fates + [Raise(false, false, mess)];
    StillOffered(r, m, Run(r, m, fates), rel, commit);
  }

  lemma {:induction false} LosesAgain(r: Repo, m: Machine, rel: Selection.Release, commit: Commit, k: nat, mess: Mess)
    returns (fates: seq<Fate>)
    requires Offered(r, m, rel, commit)
    ensures var n := Run(r, m, fates);
            && Offered(r, n, rel, commit) && Number(n.log, Loss, rel.tag) == Number(m.log, Loss, rel.tag) + k
            && Attempts(n.disk.state, rel.tag) == Attempts(m.disk.state, rel.tag)
  {
    if k == 0 {
      fates := [];
    } else {
      hide Run, Next, Offered, Number;
      fates := LosesAgain(r, m, rel, commit, k - 1, mess);
      var more := LostRound(r, Run(r, m, fates), rel, commit, mess);
      RunConcat(r, m, fates, more);
      fates := fates + more;
    }
  }

  /** If the write of the count fails each time, there is no bound: the release fails `k` times and is still on offer,
      with no attempt on record. */
  lemma LostCountsAreForgotten(r: Repo, m: Machine, rel: Selection.Release, commit: Commit, k: nat)
    requires Quiescent(m) && SuccessSeen(m.disk.state) && Attempts(m.disk.state, rel.tag) == 0
    requires Offered(r, m, rel, commit)
    ensures exists fates :: var n := Run(r, m, fates);
              && Number(n.log, Failure, rel.tag) == k && Attempts(n.disk.state, rel.tag) == 0
              && Offered(r, n, rel, commit)
  {
    NoneYet(m, rel.tag);
    var fates := LosesAgain(r, m, rel, commit, k, Mess(map[], m.disk.database, m.disk.config, false));
    hide Run, Number;
    FailuresAreBounded(r, m, fates, rel.tag);
  }

  /** If the process dies right after the third count, the release is tried a fourth time, with no count lost. */
  lemma CutCountAllowsAFourth(r: Repo, m: Machine, rel: Selection.Release, commit: Commit)
    requires Quiescent(m) && SuccessSeen(m.disk.state) && Attempts(m.disk.state, rel.tag) == 0
    requires Offered(r, m, rel, commit)
    ensures exists fates :: var n := Run(r, m, fates);
              Number(n.log, Failure, rel.tag) == 4 && Number(n.log, Loss, rel.tag) == 0
  {
    hide Run, Next, Offered, Number, SameBooks;
    var mess := Mess(map[], m.disk.database, m.disk.config, false);
    NoneYet(m, rel.tag);
    var fates := FailsOn(r, m, rel, commit, mess);
    LossesSame(m, Run(r, m, fates), rel.tag);
    IsCutShort(r, Run(r, m, fates), rel, mess);
    RunExtends(r, m, fates, Crash(true, mess));
    fates := fates + [Crash(true, mess)];
    var n := Run(r, m, fates);
    StillOffered(r, m, n, rel, commit);
    var more := FailsOnce(r, n, rel, commit, mess);
    RunConcat(r, m, fates, more);
    fates := fates + more;
    LossesSame(n, Run(r, m, fates), rel.tag);
    FailuresAreBounded(r, m, fates, rel.tag);
  }
}
