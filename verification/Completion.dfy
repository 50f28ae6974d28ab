/** The run in which nothing goes wrong: a release that fits is installed. */
module Completion {
  import opened Wrappers
  import opened Selection
  import opened Updater
  import opened Safety
  import opened Release

  /** A release and everything the world answers about it. */
  datatype Offer = Offer(
    release: Selection.Release, commit: Commit, manifest: Manifest, runtime: map<string, string>)

  /** The host is idle and the offer passes every check that is made before the journal is opened. */
  predicate Fits(r: Repo, m: Machine, o: Offer) {
    && m.proc.Idle? && m.disk.journal.None? && Candidate(o.release, m.disk.state)
    && CommitOk(o.commit)
    && (o.release.tag in m.disk.state.observed ==> m.disk.state.observed[o.release.tag] == o.commit)
    && Descendant(r, m.disk.state, m.disk, o.commit)
    && ManifestOk(o.manifest, r.name, o.release, o.commit, m.disk.state)
    && ReleaseDir(o.release.tag) !in m.disk.manifests
    && (m.disk.state.success.None? && m.disk.current.Some? ==>
          m.disk.current.value in m.disk.manifests && CORE in m.disk.manifests[m.disk.current.value].images
          && CoreOk(m.disk.manifests[m.disk.current.value].images[CORE], o.manifest.images[CORE], o.manifest))
  }

  /** The offer also passes the one after it: there is no checkpoint under its tag. */
  predicate Welcome(r: Repo, m: Machine, o: Offer) {
    Fits(r, m, o) && o.release.tag !in m.disk.checkpoints
  }

  lemma WelcomeFits(r: Repo, m: Machine, o: Offer)
    requires Welcome(r, m, o)
    ensures Fits(r, m, o) && o.release.tag !in m.disk.checkpoints
  {
    hide Fits;
  }

  function Transaction(d: Disk, o: Offer, phase: Phase): Tx {
    Tx(o.release.tag, o.commit, o.release.published, d.current, phase)
  }

  function Observed(s: State, o: Offer): State {
    s.(observed := s.observed[o.release.tag := o.commit])
  }

  /** Memory inside apply(), at the given step. */
  function Working(d: Disk, o: Offer, pc: Pc, s: State, phase: Phase): (p: Proc)
    ensures p.At?
  {
    At(pc, s, Transaction(d, o, phase), true, false, o.release, o.manifest, o.runtime)
  }

  lemma Passing(r: Repo, m: Machine, mess: Mess)
    requires m.proc.At? && !Asks(m.proc.pc) && Passes(r, m.proc, m.disk)
    ensures var n := Next(r, m, Proceed(Quiet, mess));
            n.disk == Perform(m.disk, OpAt(m.proc, m.disk), Proceed(Quiet, mess)) && n.proc == After(m.proc, m.disk)
  {
    hide Perform, OnDone, Refuses, OpAt, Passes, After;
    RefusesWhen(r, m.proc, m.disk, Quiet);
    var d := Perform(m.disk, OpAt(m.proc, m.disk), Proceed(Quiet, mess));
    Moves(m.proc, d, Quiet, false);
    AfterIgnoresDisk(m.proc, d, m.disk);
  }

  lemma AfterIgnoresDisk(p: Proc, d: Disk, e: Disk)
    requires p.At? && !Asks(p.pc)
    ensures After(p, d) == After(p, e)
  {
    hide StateAt, TxAt;
  }

  /** The disk after a step of the try block that changes nothing in memory. */
  function TryDisk(d: Disk, pc: Pc, tx: Tx, runtime: map<string, string>, mess: Mess): Disk
    requires Trying(pc)
  {
    match pc
    case Fence => d.(serving := false)
    case Backup =>
      if tx.tag in d.checkpoints then d
      else d.(checkpoints := d.checkpoints[tx.tag := Checkpoint(d.images, d.database, d.config)])
    case PointNew => d.(current := Some(ReleaseDir(tx.tag)))
    case SetImages => d.(images := runtime)
    case Bootstrap => d.(database := mess.database, config := mess.config, serving := d.serving && mess.serving)
    case Admit => d.(serving := true)
    case DropDone => d.(journal := None)
    case _ => d
  }

  lemma TryPerforms(d: Disk, pc: Pc, tx: Tx, runtime: map<string, string>, mess: Mess)
    requires Trying(pc)
    ensures Perform(d, TryOp(pc, tx, runtime), Proceed(Quiet, mess)) == TryDisk(d, pc, tx, runtime, mess)
  {
    OpPerforms(d, TryOp(pc, tx, runtime), mess);
    hide Perform;
  }

  /** The disk after an effect that succeeds. */
  function Performed(d: Disk, op: Op, mess: Mess): Disk {
    match op
    case Nothing => d
    case WriteTx(tx) => d.(journal := Some(tx))
    case RemoveTx => d.(journal := None)
    case SaveState(s) => d.(state := s)
    case PointCurrent(target) => d.(current := target)
    case WriteImages(images) => d.(images := images)
    case CopyImages(images) => d.(images := images)
    case StopServing => d.(serving := false)
    case StartServing => d.(serving := true)
    case TakeCheckpoint(tag) =>
      if tag in d.checkpoints then d
      else d.(checkpoints := d.checkpoints[tag := Checkpoint(d.images, d.database, d.config)])
    case Migrate => d.(database := mess.database, config := mess.config, serving := d.serving && mess.serving)
    case RestoreDatabase(database) => d.(database := database)
    case RestoreConfig(config) => d.(config := config)
    case AddRelease(path, manifest) => d.(manifests := d.manifests[path := manifest])
  }

  lemma OpPerforms(d: Disk, op: Op, mess: Mess)
    ensures Perform(d, op, Proceed(Quiet, mess)) == Performed(d, op, mess)
  {
  }

  /** A step of the try block that changes nothing in memory. */
  lemma TryStep(r: Repo, m: Machine, mess: Mess)
    requires m.proc.At? && Trying(m.proc.pc) && Plain(m.proc.pc)
    requires m.proc.pc.Backup? ==> m.proc.tx.tag !in m.disk.checkpoints
    ensures var n := Next(r, m, Proceed(Quiet, mess));
            && n.disk == TryDisk(m.disk, m.proc.pc, m.proc.tx, m.proc.runtime, mess)
            && n.proc == Goto(m.proc, TryNext(m.proc.pc))
  {
    hide Perform, StateAt, TxAt, JournalPc, TryDisk;
    PlainMemory(m.proc);
    TryPerforms(m.disk, m.proc.pc, m.proc.tx, m.proc.runtime, mess);
    hide Updated;
    Passing(r, m, mess);
  }

  lemma WritesPhase(r: Repo, m: Machine, mess: Mess)
    requires m.proc.At? && (m.proc.pc.BeginChanging? || m.proc.pc.CommitTraffic?)
    ensures var n, tx := Next(r, m, Proceed(Quiet, mess)), TxAt(m.proc);
            && n.disk == m.disk.(journal := Some(tx))
            && n.proc == m.proc.(tx := tx, pc := if m.proc.pc.BeginChanging? then PointNew else Admit)
  {
    hide StateAt, JournalPc;
    PlainMemory(m.proc);
    Passing(r, m, mess);
  }

  lemma Saves(r: Repo, m: Machine, mess: Mess)
    requires m.proc.At? && SavesState(m.proc.pc)
    ensures var n, s := Next(r, m, Proceed(Quiet, mess)), StateAt(m.proc);
            && n.disk == m.disk.(state := s)
            && n.proc == Goto(m.proc.(state := s), DonePc(m.proc.(state := s), m.disk, Quiet))
  {
    hide StateAt, DonePc;
    PlainMemory(m.proc);
    SavingPasses(r, m.proc, m.disk);
    hide Passes, OpAt;
    Passing(r, m, mess);
  }

  // ----- before the journal is open

  lemma Begins(r: Repo, m: Machine, mess: Mess)
    requires m.proc.Idle? && m.disk.journal.None?
    ensures var n := Next(r, Next(r, m, Start(false)), Proceed(Quiet, mess));
            && n.disk == m.disk && n.log == m.log + [Event(Enter, "", Nothing, m.disk, Proceed(Quiet, mess))]
            && n.proc == At(Select, m.disk.state, NoTx, false, false, NoRelease, NoManifest, map[])
  {
    hide CheckpointOf, Selected;
    Looking(r, NewProcess(m.disk, false), m.disk, Proceed(Quiet, mess));
    hide Perform, OnDone, OnRaise, Refuses;
  }

  lemma Selects(r: Repo, m: Machine, o: Offer, mess: Mess)
    requires m.proc.At? && m.proc.pc.Select? && Candidate(o.release, m.proc.state)
    ensures var n := Next(r, m, Proceed(Releases([o.release]), mess));
            n.disk == m.disk && n.proc == m.proc.(pc := Resolve, release := o.release)
  {
    hide Candidate;
    assert [o.release][..0] == [];
    SelectAnswered(r, m.proc, m.disk, Proceed(Releases([o.release]), mess));
    assert Selected([o.release], m.proc.state) == Some(o.release);
    hide Perform, StepOp, OnDone, OnRaise, Refuses, Selected;
  }

  lemma Resolves(r: Repo, m: Machine, o: Offer, mess: Mess)
    requires m.proc.At? && m.proc.pc.Resolve? && m.proc.release == o.release && CommitFits(m.proc, o.commit)
    ensures var n := Next(r, m, Proceed(ResolvesTo(o.commit), mess));
            && n.disk == m.disk
            && n.proc == m.proc.(pc := Observe, tx := Tx(o.release.tag, o.commit, o.release.published, None, Preparing))
  {
    ResolveAnswered(r, m.proc, m.disk, Proceed(ResolvesTo(o.commit), mess));
    hide Perform, StepOp, OnDone, OnRaise, Refuses, CommitFits;
  }

  lemma Descends(r: Repo, m: Machine, mess: Mess)
    requires m.proc.At? && m.proc.pc.Descend? && Descendant(r, m.proc.state, m.disk, m.proc.tx.commit)
    ensures var n := Next(r, m, Proceed(Quiet, mess)); n.disk == m.disk && n.proc == m.proc.(pc := Pc.Stage)
  {
    hide StateAt, TxAt, JournalPc, Descendant;
    PlainMemory(m.proc);
    hide Updated;
    Passing(r, m, mess);
  }

  lemma Stages(r: Repo, m: Machine, o: Offer, mess: Mess)
    requires m.proc.At? && m.proc.pc.Stage? && m.proc.release == o.release && BundleFits(r, m.proc, m.disk, o.manifest)
    ensures var n := Next(r, m, Proceed(Bundle(o.manifest, o.runtime), mess));
            && n.disk == m.disk.(manifests := m.disk.manifests[ReleaseDir(o.release.tag) := o.manifest])
            && n.proc == m.proc.(pc := OpenJournal, manifest := o.manifest, runtime := o.runtime,
                                 tx := m.proc.tx.(previous := m.disk.current))
  {
    hide BundleFits;
    Staged(r, m.proc, m.disk, Proceed(Bundle(o.manifest, o.runtime), mess));
    hide StepOp, OnDone, OnRaise, Refuses;
  }

  lemma Opens(r: Repo, m: Machine, mess: Mess)
    requires m.proc.At? && m.proc.pc.OpenJournal?
    ensures var n := Next(r, m, Proceed(Quiet, mess));
            n.disk == m.disk.(journal := Some(m.proc.tx)) && n.proc == m.proc.(pc := MarkApplying, applying := true)
  {
    Journaled(r, m.proc, m.disk, Proceed(Quiet, mess));
    hide StepOp, OnDone, OnRaise, Refuses;
  }

  // ----- quiet stretches

  function QuietSteps(r: Repo, m: Machine, k: nat, mess: Mess): Machine {
    if k == 0 then m else Next(r, QuietSteps(r, m, k - 1, mess), Proceed(Quiet, mess))
  }

  function Quiets(k: nat, mess: Mess): seq<Fate> {
    if k == 0 then [] else Quiets(k - 1, mess) + [Proceed(Quiet, mess)]
  }

  lemma {:induction false} RunQuietly(r: Repo, m: Machine, fates: seq<Fate>, k: nat, mess: Mess)
    ensures Run(r, m, fates + Quiets(k, mess)) == QuietSteps(r, Run(r, m, fates), k, mess)
  {
    hide Next;
    if k == 0 {
      assert fates + [] == fates;
    } else {
      RunQuietly(r, m, fates, k - 1, mess);
      RunExtends(r, m, fates + Quiets(k - 1, mess), Proceed(Quiet, mess));
      assert fates + Quiets(k, mess) == fates + Quiets(k - 1, mess) + [Proceed(Quiet, mess)];
    }
  }

  lemma FirstSteps(r: Repo, m: Machine, mess: Mess)
    ensures QuietSteps(r, m, 1, mess) == Next(r, m, Proceed(Quiet, mess))
    ensures QuietSteps(r, m, 2, mess) == Next(r, QuietSteps(r, m, 1, mess), Proceed(Quiet, mess))
    ensures QuietSteps(r, m, 3, mess) == Next(r, QuietSteps(r, m, 2, mess), Proceed(Quiet, mess))
  {
    hide Next;
    assert QuietSteps(r, m, 0, mess) == m;
  }

  // ----- one step each

  lemma StepCheck(r: Repo, m: Machine, mess: Mess)
    requires m.proc.At? && (m.proc.pc.CheckRunning? || m.proc.pc.CheckHealth? || m.proc.pc.CheckPublic?
                            || m.proc.pc.Announce?)
    ensures var n := Next(r, m, Proceed(Quiet, mess));
            n.disk == m.disk && n.proc == Goto(m.proc, TryNext(m.proc.pc))
  {
    hide Next;
    TryStep(r, m, mess);
  }

  lemma StepFence(r: Repo, m: Machine, mess: Mess)
    requires m.proc.At? && m.proc.pc.Fence?
    ensures var n := Next(r, m, Proceed(Quiet, mess));
            n.disk == m.disk.(serving := false) && n.proc == Goto(m.proc, Backup)
  {
    hide Next;
    TryStep(r, m, mess);
  }

  lemma StepBackup(r: Repo, m: Machine, mess: Mess)
    requires m.proc.At? && m.proc.pc.Backup? && m.proc.tx.tag !in m.disk.checkpoints
    ensures var n := Next(r, m, Proceed(Quiet, mess));
            var saved := Checkpoint(m.disk.images, m.disk.database, m.disk.config);
            && n.disk == m.disk.(checkpoints := m.disk.checkpoints[m.proc.tx.tag := saved])
            && n.proc == Goto(m.proc, BeginChanging)
  {
    hide Next;
    TryStep(r, m, mess);
  }

  lemma StepPoint(r: Repo, m: Machine, mess: Mess)
    requires m.proc.At? && m.proc.pc.PointNew?
    ensures var n := Next(r, m, Proceed(Quiet, mess));
            n.disk == m.disk.(current := Some(ReleaseDir(m.proc.tx.tag))) && n.proc == Goto(m.proc, SetImages)
  {
    hide Next;
    TryStep(r, m, mess);
  }

  lemma StepImages(r: Repo, m: Machine, mess: Mess)
    requires m.proc.At? && m.proc.pc.SetImages?
    ensures var n := Next(r, m, Proceed(Quiet, mess));
            n.disk == m.disk.(images := m.proc.runtime) && n.proc == Goto(m.proc, Bootstrap)
  {
    hide Next;
    TryStep(r, m, mess);
  }

  lemma StepMigrate(r: Repo, m: Machine, mess: Mess)
    requires m.proc.At? && m.proc.pc.Bootstrap?
    ensures var n := Next(r, m, Proceed(Quiet, mess));
            n.disk == m.disk.(database := mess.database, config := mess.config,
                              serving := m.disk.serving && mess.serving) && n.proc == Goto(m.proc, CheckHealth)
  {
    hide Next;
    TryStep(r, m, mess);
  }

  lemma StepAdmit(r: Repo, m: Machine, mess: Mess)
    requires m.proc.At? && m.proc.pc.Admit?
    ensures var n := Next(r, m, Proceed(Quiet, mess));
            n.disk == m.disk.(serving := true) && n.proc == Goto(m.proc, CheckPublic)
  {
    hide Next;
    TryStep(r, m, mess);
  }

  lemma StepDrop(r: Repo, m: Machine, mess: Mess)
    requires m.proc.At? && m.proc.pc.DropDone?
    ensures var n := Next(r, m, Proceed(Quiet, mess));
            n.disk == m.disk.(journal := None) && n.proc == Goto(m.proc, Announce)
  {
    hide Next;
    TryStep(r, m, mess);
  }

  /** The previous release is taken out of service and saved. */
  lemma Prepares(r: Repo, m: Machine, mess: Mess)
    requires m.proc.At? && m.proc.pc.CheckRunning? && m.proc.tx.tag !in m.disk.checkpoints
    ensures var n, saved := QuietSteps(r, m, 3, mess), Checkpoint(m.disk.images, m.disk.database, m.disk.config);
            && n.disk == m.disk.(serving := false, checkpoints := m.disk.checkpoints[m.proc.tx.tag := saved])
            && n.proc == m.proc.(pc := BeginChanging)
  {
    FirstSteps(r, m, mess);
    hide Next, QuietSteps;
    StepCheck(r, m, mess);
    StepFence(r, QuietSteps(r, m, 1, mess), mess);
    StepBackup(r, QuietSteps(r, m, 2, mess), mess);
  }

  /** The new release takes its place. */
  lemma TakesOver(r: Repo, m: Machine, mess: Mess)
    requires m.proc.At? && m.proc.pc.BeginChanging?
    ensures var n, tx := QuietSteps(r, m, 3, mess), m.proc.tx.(phase := ChangingPhase);
            && n.disk == m.disk.(journal := Some(tx), current := Some(ReleaseDir(tx.tag)), images := m.proc.runtime)
            && n.proc == m.proc.(pc := Bootstrap, tx := tx)
  {
    FirstSteps(r, m, mess);
    hide Next, QuietSteps;
    WritesPhase(r, m, mess);
    StepPoint(r, QuietSteps(r, m, 1, mess), mess);
    StepImages(r, QuietSteps(r, m, 2, mess), mess);
  }

  lemma Upgrades(r: Repo, m: Machine, mess: Mess)
    requires m.proc.At? && m.proc.pc.Bootstrap?
    ensures var n := QuietSteps(r, m, 2, mess);
            && n.disk == m.disk.(database := mess.database, config := mess.config,
                                 serving := m.disk.serving && mess.serving)
            && n.proc == m.proc.(pc := CommitTraffic)
  {
    FirstSteps(r, m, mess);
    hide Next, QuietSteps;
    StepMigrate(r, m, mess);
    StepCheck(r, QuietSteps(r, m, 1, mess), mess);
  }

  lemma Publishes(r: Repo, m: Machine, mess: Mess)
    requires m.proc.At? && m.proc.pc.CommitTraffic?
    ensures var n, tx := QuietSteps(r, m, 3, mess), m.proc.tx.(phase := TrafficCommitted);
            && n.disk == m.disk.(journal := Some(tx), serving := true)
            && n.proc == m.proc.(pc := MarkSuccess, tx := tx)
  {
    FirstSteps(r, m, mess);
    hide Next, QuietSteps;
    WritesPhase(r, m, mess);
    StepAdmit(r, QuietSteps(r, m, 1, mess), mess);
    StepCheck(r, QuietSteps(r, m, 2, mess), mess);
  }

  lemma Finishes(r: Repo, m: Machine, mess: Mess)
    requires m.proc.At? && m.proc.pc.MarkSuccess?
    ensures var n, s := QuietSteps(r, m, 3, mess), StateAt(m.proc);
            n.disk == m.disk.(state := s, journal := None) && n.proc.Idle?
  {
    FirstSteps(r, m, mess);
    hide Next, QuietSteps, StateAt;
    Saves(r, m, mess);
    StepDrop(r, QuietSteps(r, m, 1, mess), mess);
    StepCheck(r, QuietSteps(r, m, 2, mess), mess);
  }

  // ----- the whole run

  function Staging(d: Disk, o: Offer): map<Path, Manifest> {
    d.manifests[ReleaseDir(o.release.tag) := o.manifest]
  }

  /** The machine right after the release is staged. */
  predicate AtOpen(n: Machine, d: Disk, o: Offer) {
    && n.disk == d.(state := Observed(d.state, o), manifests := Staging(d, o))
    && n.proc == At(OpenJournal, Observed(d.state, o), Transaction(d, o, Preparing),
                    false, false, o.release, o.manifest, o.runtime)
  }

  lemma ReachesObserve(r: Repo, m: Machine, o: Offer, mess: Mess) returns (fates: seq<Fate>)
    requires Fits(r, m, o)
    ensures var n := Run(r, m, fates);
            && n.disk == m.disk
            && n.proc == At(Observe, m.disk.state,
                            Tx(o.release.tag, o.commit, o.release.published, None, Preparing), false, false, o.release,
                            NoManifest, map[])
  {
    Begins(r, m, mess);
    RunExtends(r, m, [], Start(false));
    assert Run(r, m, []) == m;
    hide Next, Run, Candidate, ManifestOk, CoreOk, Descendant;
    fates := [] + [Start(false)];
    RunExtends(r, m, fates, Proceed(Quiet, mess));
    fates := fates + [Proceed(Quiet, mess)];
    Selects(r, Run(r, m, fates), o, mess);
    RunExtends(r, m, fates, Proceed(Releases([o.release]), mess));
    fates := fates + [Proceed(Releases([o.release]), mess)];
    Resolves(r, Run(r, m, fates), o, mess);
    RunExtends(r, m, fates, Proceed(ResolvesTo(o.commit), mess));
    fates := fates + [Proceed(ResolvesTo(o.commit), mess)];
  }

  lemma Observes(r: Repo, m: Machine, o: Offer, mess: Mess)
    requires m.proc.At? && m.proc.pc.Observe? && m.proc.release == o.release && m.proc.tx.commit == o.commit
    requires m.proc.state == m.disk.state
    ensures var n := Next(r, m, Proceed(Quiet, mess));
            && n.disk == m.disk.(state := Observed(m.disk.state, o))
            && n.proc == m.proc.(pc := Descend, state := Observed(m.disk.state, o))
  {
    hide Next;
    Saves(r, m, mess);
  }

  lemma StillFits(r: Repo, m: Machine, o: Offer, p: Proc)
    requires Fits(r, m, o)
    requires p.At? && p.release == o.release && p.tx.commit == o.commit && p.state == Observed(m.disk.state, o)
    ensures var d := m.disk.(state := Observed(m.disk.state, o));
            Descendant(r, p.state, d, o.commit) && BundleFits(r, p, d, o.manifest)
  {
    hide ImagesOk, AssetsOk, CoreOk, CommitOk;
  }

  lemma ReachesOpen(r: Repo, m: Machine, o: Offer, mess: Mess) returns (fates: seq<Fate>)
    requires Fits(r, m, o)
    ensures AtOpen(Run(r, m, fates), m.disk, o)
  {
    fates := ReachesObserve(r, m, o, mess);
    var f := Proceed(Quiet, mess);
    hide Next, Run, Descendant, BundleFits;
    Observes(r, Run(r, m, fates), o, mess);
    RunExtends(r, m, fates, f);
    fates := fates + [f];
    StillFits(r, m, o, Run(r, m, fates).proc);
    hide Fits;
    Descends(r, Run(r, m, fates), mess);
    RunExtends(r, m, fates, f);
    fates := fates + [f];
    StillFits(r, m, o, Run(r, m, fates).proc);
    Stages(r, Run(r, m, fates), o, mess);
    RunExtends(r, m, fates, Proceed(Bundle(o.manifest, o.runtime), mess));
    fates := fates + [Proceed(Bundle(o.manifest, o.runtime), mess)];
  }

  /** What is remembered once the release is marked as being applied. */
  function Marked(d: Disk, o: Offer): State {
    MarkTx(Observed(d.state, o), Transaction(d, o, Preparing), Applying)
  }

  /** The journal is open and the tag is marked; what is next depends on whether there is a previous release. */
  lemma Marks(r: Repo, m: Machine, d: Disk, o: Offer, mess: Mess)
    requires AtOpen(m, d, o)
    ensures var n, s := QuietSteps(r, m, 2, mess), Marked(d, o);
            && n.disk == m.disk.(journal := Some(Transaction(d, o, Preparing)), state := s)
            && n.proc == Working(d, o, if d.current.Some? then CheckRunning else BeginChanging, s, Preparing)
  {
    FirstSteps(r, m, mess);
    hide Next, QuietSteps;
    Opens(r, m, mess);
    Saves(r, QuietSteps(r, m, 1, mess), mess);
  }

  /** What an installed release leaves behind. */
  predicate Installed(n: Machine, d: Disk, o: Offer, mess: Mess) {
    && n.proc.Idle? && n.disk.journal.None? && n.disk.serving
    && n.disk.state.success == Some(Success(o.release.tag, o.commit, o.release.published, o.manifest.images, o.runtime))
    && o.release.tag in n.disk.state.seen && n.disk.state.seen[o.release.tag].status.Succeeded?
    && n.disk.current == Some(ReleaseDir(o.release.tag)) && n.disk.images == o.runtime
    && n.disk.database == mess.database && n.disk.config == mess.config
    && (d.current.Some? ==>
          o.release.tag in n.disk.checkpoints
          && n.disk.checkpoints[o.release.tag] == Checkpoint(d.images, d.database, d.config))
  }

  lemma SuccessState(d: Disk, o: Offer, s: State)
    ensures var t := StateAt(Working(d, o, MarkSuccess, s, TrafficCommitted));
            && t.success == Some(Success(o.release.tag, o.commit, o.release.published, o.manifest.images, o.runtime))
            && o.release.tag in t.seen && t.seen[o.release.tag].status.Succeeded?
  {
  }

  lemma InstallsFrom(r: Repo, m: Machine, d: Disk, o: Offer, s: State, mess: Mess)
    requires m.proc == Working(d, o, BeginChanging, s, Preparing)
    requires d.current.Some? ==> o.release.tag in m.disk.checkpoints
                                 && m.disk.checkpoints[o.release.tag] == Checkpoint(d.images, d.database, d.config)
    ensures Installed(QuietSteps(r, QuietSteps(r, QuietSteps(r, QuietSteps(r, m, 3, mess), 2, mess), 3, mess), 3, mess),
                      d, o, mess)
  {
    hide Next, QuietSteps, StateAt;
    SuccessState(d, o, s);
    var a := QuietSteps(r, m, 3, mess);
    var b := QuietSteps(r, a, 2, mess);
    var c := QuietSteps(r, b, 3, mess);
    TakesOver(r, m, mess);
    Upgrades(r, a, mess);
    Publishes(r, b, mess);
    Finishes(r, c, mess);
  }

  /** The previous release, if there is one, is saved; everything is ready for the change. */
  predicate Ready(n: Machine, d: Disk, o: Offer, s: State) {
    && n.proc == Working(d, o, BeginChanging, s, Preparing)
    && (d.current.Some? ==> o.release.tag in n.disk.checkpoints
                            && n.disk.checkpoints[o.release.tag] == Checkpoint(d.images, d.database, d.config))
  }

  lemma RunsToTheEnd(r: Repo, m: Machine, fates: seq<Fate>, d: Disk, o: Offer, s: State, mess: Mess)
    requires Ready(Run(r, m, fates), d, o, s)
    ensures Installed(Run(r, m, fates + Quiets(3, mess) + Quiets(2, mess) + Quiets(3, mess) + Quiets(3, mess)), d, o,
            mess)
  {
    hide Next, QuietSteps, Installed, Run, Quiets;
    InstallsFrom(r, Run(r, m, fates), d, o, s, mess);
    RunQuietly(r, m, fates, 3, mess);
    RunQuietly(r, m, fates + Quiets(3, mess), 2, mess);
    RunQuietly(r, m, fates + Quiets(3, mess) + Quiets(2, mess), 3, mess);
    RunQuietly(r, m, fates + Quiets(3, mess) + Quiets(2, mess) + Quiets(3, mess), 3, mess);
  }

  lemma SavesPrevious(r: Repo, m: Machine, d: Disk, o: Offer, s: State, mess: Mess)
    requires d.current.Some? && m.proc == Working(d, o, CheckRunning, s, Preparing)
    requires o.release.tag !in m.disk.checkpoints
    requires m.disk.images == d.images && m.disk.database == d.database && m.disk.config == d.config
    ensures Ready(QuietSteps(r, m, 3, mess), d, o, s)
  {
    Prepares(r, m, mess);
    hide Next, QuietSteps;
  }

  lemma BecomesReady(r: Repo, m: Machine, d: Disk, o: Offer, mess: Mess)
    requires AtOpen(m, d, o) && o.release.tag !in d.checkpoints
    ensures var s := Marked(d, o);
            if d.current.Some? then Ready(QuietSteps(r, QuietSteps(r, m, 2, mess), 3, mess), d, o, s)
            else Ready(QuietSteps(r, m, 2, mess), d, o, s)
  {
    Marks(r, m, d, o, mess);
    hide Next, QuietSteps, Marked;
    if d.current.Some? {
      SavesPrevious(r, QuietSteps(r, m, 2, mess), d, o, Marked(d, o), mess);
    }
  }

  lemma ReachesReady(r: Repo, m: Machine, o: Offer, mess: Mess) returns (fates: seq<Fate>)
    requires Welcome(r, m, o)
    ensures Ready(Run(r, m, fates), m.disk, o, Marked(m.disk, o))
  {
    hide *;
    WelcomeFits(r, m, o);
    fates := ReachesOpen(r, m, o, mess);
    BecomesReady(r, Run(r, m, fates), m.disk, o, mess);
    RunQuietly(r, m, fates, 2, mess);
    RunQuietly(r, m, fates + Quiets(2, mess), 3, mess);
    fates := fates + Quiets(2, mess);
    if m.disk.current.Some? {
      fates := fates + Quiets(3, mess);
    }
  }

  /** From every idle host, an offer that passes the checks can be installed: the release becomes current with its
      images, users are let in, the success is recorded, the journal is gone, and the previous deployment is in the
      checkpoint. */
  lemma WelcomeOfferIsInstalled(r: Repo, m: Machine, o: Offer, mess: Mess)
    requires Welcome(r, m, o)
    ensures exists fates :: Installed(Run(r, m, fates), m.disk, o, mess)
  {
    hide *;
    var fates := ReachesReady(r, m, o, mess);
    RunsToTheEnd(r, m, fates, m.disk, o, Marked(m.disk, o), mess);
  }
}
