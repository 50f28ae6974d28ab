/** Where a release must come from before the updater stages it, and that nothing more is asked of it. */
module Provenance {
  import opened Wrappers
  import opened Formats
  import opened Selection
  import opened Updater
  import opened Safety
  import opened Release
  import opened OfferFaults
  import opened Completion

  /** What has been established about the release that the process has in hand. */
  ghost predicate Vetted(r: Repo, p: Proc, d: Disk) {
    p.At? ==>
      && (p.pc.Resolve? || p.pc.Observe? || p.pc.Descend? || p.pc.Stage? || p.pc.OpenJournal? ==>
            ReleaseFault(p.release, p.state).NoFault?)
      && (p.pc.Observe? || p.pc.Descend? || p.pc.Stage? || p.pc.OpenJournal? ==>
            && p.tx.tag == p.release.tag && Drawn(p.tx.commit, HEX, 40, 40)
            && (p.tx.tag in p.state.observed ==> p.state.observed[p.tx.tag] == p.tx.commit))
      && (p.pc.Stage? || p.pc.OpenJournal? ==> AncestryFault(r, p.state, d, p.tx.commit).NoFault?)
      && (p.pc.OpenJournal? ==>
            && ManifestFault(p.manifest, r.name, p.release, p.tx.commit, p.state).NoFault?
            && p.tx.previous == d.current
            && ReleaseDir(p.tx.tag) in d.manifests && d.manifests[ReleaseDir(p.tx.tag)] == p.manifest)
  }

  predicate Vetting(pc: Pc) {
    pc.Resolve? || pc.Observe? || pc.Descend? || pc.Stage? || pc.OpenJournal?
  }

  lemma JournalLeadsElsewhere(p: Proc, journal: Option<Tx>)
    requires p.At?
    ensures !Vetting(JournalPc(p, journal))
  {
  }

  /** Only the vetting steps and the selection lead to a vetting step. */
  lemma OthersLeadElsewhere(p: Proc, d: Disk, answer: Answer)
    requires p.At? && !p.pc.Select? && !Vetting(p.pc) && OnDone(p, d, answer).At?
    ensures !Vetting(OnDone(p, d, answer).pc)
  {
    hide StateAt, TxAt, Selected;
    JournalLeadsElsewhere(Updated(p), d.journal);
    hide JournalPc;
  }

  lemma RaiseLeadsElsewhere(p: Proc, d: Disk, transient: bool)
    requires p.At? && OnRaise(p, d, transient).At?
    ensures !Vetting(OnRaise(p, d, transient).pc)
  {
    hide StateAt, TxAt;
  }

  lemma SelectVets(r: Repo, p: Proc, d: Disk, f: Fate)
    requires p.At? && p.pc.Select? && f.Proceed? && !Refuses(r, p, d, f.answer)
    ensures var e := Perform(d, StepOp(p, d, f), f); Vetted(r, OnDone(p, e, f.answer), e)
  {
    hide Perform, StepOp, OnDone, Refuses, Selected, Candidate, ReleaseFault;
    SelectAnswered(r, p, d, f);
    if Selected(f.answer.releases, p.state).Some? {
      CandidateExactly(Selected(f.answer.releases, p.state).value, p.state);
    }
  }

  lemma ResolveVets(r: Repo, p: Proc, d: Disk, e: Disk, answer: Answer)
    requires p.At? && p.pc.Resolve? && Vetted(r, p, d) && !Refuses(r, p, d, answer)
    ensures Vetted(r, OnDone(p, e, answer), e)
  {
    CommitExactly(answer.commit);
    hide ReleaseFault, CommitOk, Drawn;
  }

  lemma ObserveVets(r: Repo, p: Proc, d: Disk, e: Disk, answer: Answer)
    requires p.At? && p.pc.Observe? && Vetted(r, p, d)
    ensures Vetted(r, OnDone(p, e, answer), e)
  {
    hide Drawn, ProductionTag;
  }

  lemma DescendVets(r: Repo, p: Proc, d: Disk, e: Disk, answer: Answer)
    requires p.At? && p.pc.Descend? && Vetted(r, p, d) && !Refuses(r, p, d, answer)
    requires e.current == d.current && e.manifests == d.manifests
    ensures Vetted(r, OnDone(p, e, answer), e)
  {
    AncestryExactly(r, p.state, d, p.tx.commit);
    AncestryOf(r, p.state, d, e, p.tx.commit);
    hide ReleaseFault, Drawn, Descendant, AncestryFault;
  }

  /** Ancestry depends on nothing but the deployed release and the manifests. */
  lemma AncestryOf(r: Repo, s: State, d: Disk, e: Disk, commit: Commit)
    requires e.current == d.current
    requires forall path | path in d.manifests :: path in e.manifests && e.manifests[path] == d.manifests[path]
    requires AncestryFault(r, s, d, commit).NoFault?
    ensures AncestryFault(r, s, e, commit).NoFault?
  {
    hide Drawn;
  }

  lemma StageVets(r: Repo, p: Proc, d: Disk, f: Fate)
    requires p.At? && p.pc.Stage? && Vetted(r, p, d) && f.Proceed? && !Refuses(r, p, d, f.answer)
    ensures var e := Perform(d, StepOp(p, d, f), f); Vetted(r, OnDone(p, e, f.answer), e)
  {
    hide Perform, StepOp, OnDone, ReleaseFault, ManifestFault, ManifestOk, Drawn, AncestryFault, CoreOk;
    var e := Perform(d, StepOp(p, d, f), f);
    VettingDisk(r, p, d, f);
    Staged(r, p, d, f);
    hide Refuses;
    ManifestExactly(f.answer.manifest, r.name, p.release, p.tx.commit, p.state);
    assert ReleaseDir(p.release.tag) !in d.manifests;
    AncestryOf(r, p.state, d, e, p.tx.commit);
  }

  /** What a vetting step leaves of the disk. */
  lemma VettingDisk(r: Repo, p: Proc, d: Disk, f: Fate)
    requires p.At? && (p.pc.Descend? || p.pc.Stage?) && f.Proceed? && !Refuses(r, p, d, f.answer)
    ensures var e := Perform(d, StepOp(p, d, f), f);
            && e.current == d.current
            && (p.pc.Descend? ==> e.manifests == d.manifests)
            && (p.pc.Stage? ==> f.answer.Bundle?
                                && e.manifests == d.manifests[ReleaseDir(p.release.tag) := f.answer.manifest])
  {
    hide Descendant, BundleFits, StateAt, TxAt;
  }

  lemma VettedAct(r: Repo, m: Machine, f: Fate)
    requires m.proc.At? && IsAct(f) && Vetted(r, m.proc, m.disk)
    ensures Vetted(r, Act(r, m, f).proc, Act(r, m, f).disk)
  {
    hide Perform, StepOp, OnDone, OnRaise, Refuses;
    var p, d := m.proc, m.disk;
    var e := Perform(d, StepOp(p, d, f), f);
    if f.Proceed? && !Refuses(r, p, d, f.answer) {
      if p.pc.Select? {
        SelectVets(r, p, d, f);
      } else if p.pc.Resolve? {
        ResolveVets(r, p, d, e, f.answer);
      } else if p.pc.Observe? {
        ObserveVets(r, p, d, e, f.answer);
      } else if p.pc.Descend? {
        VettingDisk(r, p, d, f);
        DescendVets(r, p, d, e, f.answer);
      } else if p.pc.Stage? {
        StageVets(r, p, d, f);
      } else {
        OpensOn(p, e, f.answer);
      }
    } else if f.Proceed? && OnRaise(p, d, false).At? {
      RaiseLeadsElsewhere(p, d, false);
    } else if f.Raise? && OnRaise(p, e, f.transient).At? {
      RaiseLeadsElsewhere(p, e, f.transient);
    }
  }

  /** Opening the journal ends the vetting. */
  lemma OpensOn(p: Proc, d: Disk, answer: Answer)
    requires p.At? && !p.pc.Select? && (Vetting(p.pc) ==> p.pc.OpenJournal?)
    ensures OnDone(p, d, answer).At? ==> !Vetting(OnDone(p, d, answer).pc)
  {
    hide StateAt, TxAt, Selected;
    if !p.pc.OpenJournal? && OnDone(p, d, answer).At? {
      OthersLeadElsewhere(p, d, answer);
    }
  }

  lemma {:induction false} EveryRunIsVetted(r: Repo, m: Machine, fates: seq<Fate>)
    requires m.proc.Idle?
    ensures Vetted(r, Run(r, m, fates).proc, Run(r, m, fates).disk)
  {
    hide Next, Vetted;
    if fates == [] {
      IdleIsVetted(r, m.disk);
    } else {
      EveryRunIsVetted(r, m, fates[..|fates| - 1]);
      NextIsVetted(r, Run(r, m, fates[..|fates| - 1]), fates[|fates| - 1]);
    }
  }

  lemma IdleIsVetted(r: Repo, d: Disk)
    ensures Vetted(r, Idle, d)
  {
  }

  lemma NextIsVetted(r: Repo, m: Machine, f: Fate)
    requires Vetted(r, m.proc, m.disk)
    ensures Vetted(r, Next(r, m, f).proc, Next(r, m, f).disk)
  {
    hide Act, ReleaseFault, ManifestFault, Drawn;
    if m.proc.At? && IsAct(f) {
      VettedAct(r, m, f);
    }
  }

  /** Over every run: whenever a release is about to be staged or its journal opened, the release is an unseen
      production release newer than the last success, and its commit is a proper one, the one first observed for the
      tag, merged into the main branch and descending from what is deployed; the journal is opened only for a manifest
      without a fault. */
  lemma OnlyReviewedIsStaged(r: Repo, m: Machine, fates: seq<Fate>)
    requires m.proc.Idle?
    requires Run(r, m, fates).proc.At? && (Run(r, m, fates).proc.pc.Stage? || Run(r, m, fates).proc.pc.OpenJournal?)
    ensures var n := Run(r, m, fates); var p := n.proc;
            && ReleaseFault(p.release, p.state).NoFault? && p.tx.tag == p.release.tag
            && CommitFault(r, p.state, n.disk, p.tx.tag, p.tx.commit).NoFault?
            && (p.pc.OpenJournal? ==>
                  && ManifestFault(p.manifest, r.name, p.release, p.tx.commit, p.state).NoFault?
                  && p.tx.previous == n.disk.current && ReleaseDir(p.tx.tag) in n.disk.manifests
                  && n.disk.manifests[ReleaseDir(p.tx.tag)] == p.manifest)
  {
    hide Run, ReleaseFault, ManifestFault, AncestryFault, Drawn;
    EveryRunIsVetted(r, m, fates);
  }

  // ----- and nothing more is asked

  /** The offer has no fault on this host, and its directory is free. */
  ghost predicate Faultless(r: Repo, m: Machine, o: Offer) {
    && m.proc.Idle? && m.disk.journal.None?
    && ReleaseFault(o.release, m.disk.state).NoFault?
    && CommitFault(r, m.disk.state, m.disk, o.release.tag, o.commit).NoFault?
    && ManifestFault(o.manifest, r.name, o.release, o.commit, m.disk.state).NoFault?
    && ReleaseDir(o.release.tag) !in m.disk.manifests && o.release.tag !in m.disk.checkpoints
    && (m.disk.state.success.None? && m.disk.current.Some? ==>
          && "nextcloud" in m.disk.manifests[m.disk.current.value].images
          && !CoreChanged(m.disk.manifests[m.disk.current.value].images["nextcloud"], o.manifest.images["nextcloud"]))
  }

  lemma FaultlessIsFit(r: Repo, m: Machine, o: Offer)
    requires Faultless(r, m, o)
    ensures Candidate(o.release, m.disk.state) && CommitOk(o.commit) && Descendant(r, m.disk.state, m.disk, o.commit)
    ensures ManifestOk(o.manifest, r.name, o.release, o.commit, m.disk.state)
  {
    hide Candidate, ReleaseFault, Descendant, AncestryFault, ManifestOk, ManifestFault, CommitOk, Drawn, CoreChanged;
    CandidateExactly(o.release, m.disk.state);
    CommitExactly(o.commit);
    AncestryExactly(r, m.disk.state, m.disk, o.commit);
    ManifestExactly(o.manifest, r.name, o.release, o.commit, m.disk.state);
  }

  lemma CoreFits(r: Repo, m: Machine, o: Offer)
    requires Faultless(r, m, o) && m.disk.state.success.None? && m.disk.current.Some?
    ensures m.disk.current.value in m.disk.manifests && CORE in m.disk.manifests[m.disk.current.value].images
    ensures CORE in o.manifest.images
    ensures CoreOk(m.disk.manifests[m.disk.current.value].images[CORE], o.manifest.images[CORE], o.manifest)
  {
    hide ReleaseFault, Drawn, ImageFaulty, AssetsFaulty;
  }

  lemma FaultlessIsWelcome(r: Repo, m: Machine, o: Offer)
    requires Faultless(r, m, o)
    ensures Welcome(r, m, o)
  {
    FaultlessIsFit(r, m, o);
    if m.disk.state.success.None? && m.disk.current.Some? {
      CoreFits(r, m, o);
    }
    hide Candidate, ReleaseFault, Descendant, AncestryFault, ManifestOk, ManifestFault, CommitOk, Drawn, CoreOk;
    hide CoreChanged;
  }

  /** From every idle host, a release without a fault can be installed. */
  lemma FaultlessOfferIsInstalled(r: Repo, m: Machine, o: Offer, mess: Mess)
    requires Faultless(r, m, o)
    ensures exists fates :: Installed(Run(r, m, fates), m.disk, o, mess)
  {
    hide Faultless, Welcome, Run, Installed;
    FaultlessIsWelcome(r, m, o);
    WelcomeOfferIsInstalled(r, m, o, mess);
  }
}
