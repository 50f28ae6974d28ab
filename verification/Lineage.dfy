/** The chain of recorded successes: later, descending from one another, and on one Nextcloud core. */
module Lineage {
  import opened Wrappers
  import opened Selection
  import opened Updater
  import opened Transactions
  import opened Safety
  import opened Formats
  import opened OfferFaults

  predicate HasCore(s: Success) {
    CORE in s.images
  }

  /** From one success to the next the core image stays, or makes the reviewed change. */
  predicate CoreStep(a: Success, b: Success) {
    && HasCore(a) && HasCore(b) && b.images[CORE].source == TO_SOURCE
    && (a.images[CORE].id == b.images[CORE].id || a.images[CORE].source == FROM_SOURCE)
  }

  /** A reviewed release: a production tag, a proper commit that is merged into the main branch, and the five images,
      each pinned and for this platform, with the reviewed core. */
  ghost predicate Reviewed(r: Repo, n: Success) {
    && ProductionTag(n.tag) && Drawn(n.commit, HEX, 40, 40) && (n.commit, r.main) in r.ancestors
    && n.images.Keys == {"nextcloud", "postgres", "redis", "office", "proxy"}
    && (forall name | name in n.images :: !ImageFaulty(n.images[name]))
    && n.images["nextcloud"].source == "ghcr.io/liugang926/nextcloud-production-core:34.0.4-php8.5.12-r1"
  }

  /** `n` may be recorded after `last`. */
  ghost predicate Fits(r: Repo, last: Option<Success>, n: Success) {
    && Reviewed(r, n)
    && HasCore(n) && n.images[CORE].source == TO_SOURCE
    && (last.Some? ==>
          last.value.published < n.published && (last.value.commit, n.commit) in r.ancestors && CoreStep(last.value, n))
  }

  /** What memory holds about the success on disk and the one that is being prepared. */
  ghost predicate Prepared(r: Repo, p: Proc, success: Option<Success>)
    requires p.At?
  {
    if p.applying then
      && (p.state.success == success || p.state.success == Some(NewSuccess(p)))
      && (Fits(r, success, NewSuccess(p)) || success == Some(NewSuccess(p)))
    else
      && p.state.success == success
      && (p.pc.OpenJournal? ==> Fits(r, success, NewSuccess(p)))
      && (p.pc.Observe? || p.pc.Descend? || p.pc.Stage? ==> p.tx.published == p.release.published)
      && (p.pc.Resolve? || p.pc.Observe? || p.pc.Descend? || p.pc.Stage? ==> ProductionTag(p.release.tag))
      && (p.pc.Observe? || p.pc.Descend? || p.pc.Stage? ==> p.tx.tag == p.release.tag)
      && (p.pc.Stage? ==> (p.tx.commit, r.main) in r.ancestors)
      && (p.pc.Stage? && success.Some? ==> (success.value.commit, p.tx.commit) in r.ancestors)
  }

  /** The success on disk after a step. */
  function SuccessAfter(p: Proc, d: Disk, f: Fate): Option<Success>
    requires p.At?
  {
    if !SavesState(p.pc) || !(f.Proceed? || (f.Crash? && f.done)) then d.state.success
    else if p.pc.MarkSuccess? then Some(NewSuccess(p))
    else p.state.success
  }

  lemma SuccessOnDisk(p: Proc, d: Disk, f: Fate)
    requires p.At? && IsAct(f)
    ensures Perform(d, StepOp(p, d, f), f).state.success == SuccessAfter(p, d, f)
  {
    hide CheckpointOf, Mark;
    SuccessInMemory(p);
    hide StateAt;
  }

  lemma SuccessInMemory(p: Proc)
    requires p.At?
    ensures StateAt(p).success == if p.pc.MarkSuccess? then Some(NewSuccess(p)) else p.state.success
  {
  }

  /** An accepted bundle makes the release fit to follow the recorded success. */
  lemma BundleMakesFit(r: Repo, p: Proc, d: Disk, m: Manifest, runtime: map<string, string>)
    requires p.At? && BundleFits(r, p, d, m) && p.pc.Stage? && Prepared(r, p, d.state.success) && !p.applying
    ensures Fits(r, d.state.success, Success(p.tx.tag, p.tx.commit, p.tx.published, m.images, runtime))
  {
    ManifestExactly(m, r.name, p.release, p.tx.commit, p.state);
    hide ImagesOk, AssetsOk, CommitOk, ImageFaulty, AssetsFaulty, ProductionTag, Drawn;
    assert FROM_SOURCE != TO_SOURCE;
  }

  /** Which steps belong to apply() once its journal is open. */
  predicate ModeOk(p: Proc)
    requires p.At?
  {
    if p.applying then !Idling(p.pc) && !p.pc.Enter? && !Interrupting(p.pc)
    else !Trying(p.pc) && !p.pc.MarkApplying?
  }

  lemma ModeIsOk(p: Proc, d: Disk)
    requires p.At? && ProcOk(p, d)
    ensures ModeOk(p)
  {
    hide ApplyingOk, InterruptedOk;
  }

  lemma JournalLeadsAside(p: Proc, journal: Option<Tx>)
    requires p.At?
    ensures var pc := JournalPc(p, journal);
            !(pc.OpenJournal? || pc.Resolve? || pc.Observe? || pc.Descend? || pc.Stage?)
  {
  }

  lemma PreparedDone(r: Repo, p: Proc, d: Disk, f: Fate)
    requires p.At? && ModeOk(p) && Prepared(r, p, d.state.success) && f.Proceed? && !Refuses(r, p, d, f.answer)
    ensures var d' := Perform(d, StepOp(p, d, f), f);
            OnDone(p, d', f.answer).At? ==> Prepared(r, OnDone(p, d', f.answer), SuccessAfter(p, d, f))
  {
    hide Perform, StepOp, OnDone, Refuses, Fits, Prepared, SuccessAfter, ModeOk;
    if Idling(p.pc) {
      CheckedDone(r, p, d, Perform(d, StepOp(p, d, f), f), f);
    } else {
      OthersDone(r, p, d, Perform(d, StepOp(p, d, f), f), f);
    }
  }

  lemma SelectedTag(releases: seq<Selection.Release>, s: State)
    ensures Selected(releases, s).Some? ==> ProductionTag(Selected(releases, s).value.tag)
  {
    if Selected(releases, s).Some? {
      CandidateExactly(Selected(releases, s).value, s);
    }
  }

  /** The steps before the journal is opened. */
  lemma CheckedDone(r: Repo, p: Proc, d: Disk, d': Disk, f: Fate)
    requires p.At? && ModeOk(p) && Prepared(r, p, d.state.success) && Idling(p.pc)
    requires f.Proceed? && !Refuses(r, p, d, f.answer)
    ensures OnDone(p, d', f.answer).At? ==> Prepared(r, OnDone(p, d', f.answer), SuccessAfter(p, d, f))
  {
    if p.pc.Stage? {
      StagedDone(r, p, d, d', f);
    } else if p.pc.Select? {
      SelectDone(r, p, d, d', f);
    } else {
      hide BundleFits, Fits, StateAt, Selected, JournalPc, ProductionTag, CommitOk, BaselineOk;
      SuccessInMemory(p);
    }
  }

  lemma SelectDone(r: Repo, p: Proc, d: Disk, d': Disk, f: Fate)
    requires p.At? && p.pc.Select? && !p.applying && Prepared(r, p, d.state.success)
    requires f.Proceed? && !Refuses(r, p, d, f.answer)
    ensures OnDone(p, d', f.answer).At? ==> Prepared(r, OnDone(p, d', f.answer), SuccessAfter(p, d, f))
  {
    hide BundleFits, Fits, StateAt, Selected, JournalPc, ProductionTag, CommitOk, BaselineOk;
    SuccessInMemory(p);
    SelectedTag(f.answer.releases, Updated(p).state);
  }

  lemma StagedDone(r: Repo, p: Proc, d: Disk, d': Disk, f: Fate)
    requires p.At? && p.pc.Stage? && !p.applying && Prepared(r, p, d.state.success)
    requires f.Proceed? && !Refuses(r, p, d, f.answer)
    ensures OnDone(p, d', f.answer).At? ==> Prepared(r, OnDone(p, d', f.answer), SuccessAfter(p, d, f))
  {
    BundleMakesFit(r, p, d, f.answer.manifest, f.answer.runtime);
    hide BundleFits, Fits, StateAt, Selected, JournalPc, ProductionTag;
    SuccessInMemory(p);
  }

  lemma OthersDone(r: Repo, p: Proc, d: Disk, d': Disk, f: Fate)
    requires p.At? && ModeOk(p) && Prepared(r, p, d.state.success) && !Idling(p.pc) && f.Proceed?
    ensures OnDone(p, d', f.answer).At? ==> Prepared(r, OnDone(p, d', f.answer), SuccessAfter(p, d, f))
  {
    hide Fits, StateAt, Selected, JournalPc, Refuses;
    SuccessInMemory(p);
    JournalLeadsAside(Updated(p), d'.journal);
  }

  lemma PreparedRaise(r: Repo, p: Proc, d: Disk, before: Disk, f: Fate, transient: bool)
    requires p.At? && ModeOk(p) && Prepared(r, p, d.state.success) && !(f.Proceed? || (f.Crash? && f.done))
    ensures OnRaise(p, before, transient).At? ==>
              Prepared(r, OnRaise(p, before, transient), d.state.success)
  {
    hide Fits, StateAt;
    SuccessInMemory(p);
  }

  // ----- the recorded history

  ghost predicate Transitive(r: Repo) {
    forall a, b, c | (a, b) in r.ancestors && (b, c) in r.ancestors :: (a, c) in r.ancestors
  }

  /** Publication times rise, commits descend, and the core changes as reviewed. */
  ghost predicate Descends(r: Repo, history: seq<Success>) {
    && (forall i, j | 0 <= i < j < |history| ::
          history[i].published < history[j].published && (history[i].commit, history[j].commit) in r.ancestors)
    && (forall k | 0 < k < |history| :: CoreStep(history[k - 1], history[k]))
  }

  /** Every success after the first `known` ones is that of a reviewed release. */
  ghost predicate ReviewedSince(r: Repo, history: seq<Success>, known: nat) {
    forall k | known <= k < |history| :: Reviewed(r, history[k])
  }

  ghost predicate LineageOk(r: Repo, m: Machine, known: nat) {
    && Descends(r, m.history) && ReviewedSince(r, m.history, known)
    && m.disk.state.success == (if m.history == [] then None else Some(m.history[|m.history| - 1]))
    && (m.proc.At? ==> Prepared(r, m.proc, m.disk.state.success))
  }

  lemma DescendsStep(r: Repo, history: seq<Success>, n: Success)
    requires Transitive(r) && Descends(r, history)
    requires Fits(r, if history == [] then None else Some(history[|history| - 1]), n)
    ensures Descends(r, history + [n]) && Reviewed(r, n)
  {
    hide CoreStep, Reviewed;
    var all := history + [n];
    assert forall i | 0 <= i < |history| :: all[i] == history[i];
    if history != [] {
      var last := history[|history| - 1];
      assert Descends(r, history) && Fits(r, Some(last), n);
    }
  }

  lemma LineageAct(r: Repo, m: Machine, f: Fate, known: nat)
    requires Transitive(r) && LineageOk(r, m, known) && LocalOk(m) && m.proc.At? && IsAct(f)
    ensures LineageOk(r, Act(r, m, f), known)
  {
    hide ProcOk, Perform, StepOp, OnDone, OnRaise, Refuses, Fits, Descends, StateAt, Reviewed;
    var p, d, n := m.proc, m.disk, Act(r, m, f);
    ModeIsOk(p, d) by {
      LocalIsProc(m);
    }
    if f.Proceed? && Refuses(r, p, d, f.answer) {
      PreparedRaise(r, p, d, d, Raise(false, false, f.mess), false);
    } else {
      SuccessOnDisk(p, d, f);
      SavedSuccess(p, d, f);
      if f.Proceed? {
        PreparedDone(r, p, d, f);
      } else if f.Raise? {
        PreparedRaise(r, p, d, n.disk, f, f.transient);
      }
      if n.history != m.history {
        DescendsStep(r, m.history, NewSuccess(p));
      }
    }
  }

  /** A success reaches the history exactly when a state that carries it reaches the disk. */
  lemma SavedSuccess(p: Proc, d: Disk, f: Fate)
    requires p.At? && IsAct(f)
    ensures var op := StepOp(p, d, f);
            && (op.SaveState? <==> SavesState(p.pc))
            && (op.SaveState? ==> op.state.success == (if p.pc.MarkSuccess? then Some(NewSuccess(p))
                                                      else p.state.success))
            && (op.SaveState? ==> (Took(op, f) <==> f.Proceed? || (f.Crash? && f.done)))
  {
    hide CheckpointOf;
    SuccessInMemory(p);
    hide StateAt;
  }

  /** Over every run: each success that the run records is that of a reviewed release, merged into the main branch;
      recorded successes have strictly increasing publication times and descend from one another, and
      the core image changes at most once, away from the image that the reviewed transition starts from. */
  lemma {:induction false} SuccessesDescend(r: Repo, m: Machine, fates: seq<Fate>)
    requires Transitive(r) && Quiescent(m) && SuccessSeen(m.disk.state)
    ensures LineageOk(r, Run(r, m, fates), |m.history|) && LocalOk(Run(r, m, fates))
  {
    hide Next;
    if fates == [] {
      IdleOk(m.disk);
    } else {
      var before, f := Run(r, m, fates[..|fates| - 1]), fates[|fates| - 1];
      SuccessesDescend(r, m, fates[..|fates| - 1]);
      NextKeepsLineage(r, before, f, |m.history|);
    }
  }

  lemma NextKeepsLineage(r: Repo, m: Machine, f: Fate, known: nat)
    requires Transitive(r) && LineageOk(r, m, known) && LocalOk(m)
    ensures LineageOk(r, Next(r, m, f), known) && LocalOk(Next(r, m, f))
  {
    hide Act, ProcOk, Descends, Reviewed;
    if f.UserRow? {
      RowsLeaveLocal(m, Next(r, m, f));
    } else if f.Start? {
      StartOk(m.disk, f.only);
    } else if m.proc.At? {
      LineageAct(r, m, f, known);
      LocalAct(r, m, f);
    }
  }

  /** In a descending history all cores after the first are one image, and it is the first one's too unless the first
      still ran the old source. */
  lemma {:induction false} CoreChangesAtMostOnce(r: Repo, history: seq<Success>, i: nat, j: nat)
    requires Descends(r, history) && i < j < |history|
    ensures CoreStep(history[i], history[j])
    ensures i > 0 ==> history[i].images[CORE].id == history[j].images[CORE].id
    decreases j
  {
    assert FROM_SOURCE != TO_SOURCE;
    assert CoreStep(history[j - 1], history[j]);
    if i > 0 {
      assert CoreStep(history[i - 1], history[i]);
    }
    if i + 1 < j {
      CoreChangesAtMostOnce(r, history, i, j - 1);
    }
  }
}
