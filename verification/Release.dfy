/** The updater as its program is written: methods with try and except around them, one primitive for every durable
    write or outside effect. Proved to take exactly the steps of the machine in `Updater`. */
module Release {
  import opened Wrappers
  import opened Selection
  import opened Updater
  import opened Safety

  /** How a method ends: normally, with an exception, or not at all because the process died or nothing more happens. */
  datatype Outcome = Done | Raised(transient: bool) | Gone {

    predicate IsFailure() {
      !Done?
    }

    function PropagateFailure(): Outcome
      requires !Done?
    {
      this
    }
  }

  // ----- what a step does to memory, by kind of step

  predicate Asks(pc: Pc) {
    pc.Enter? || pc.Select? || pc.Resolve? || pc.Stage? || pc.OpenJournal?
  }

  /** A recovery step relies on a checkpoint that is there. */
  predicate Steady(p: Proc, d: Disk)
    requires p.At?
  {
    Recovering(p.pc) && !p.pc.RecoverVerify? ==> p.tx.tag in d.checkpoints
  }

  predicate SameButRows(d: Disk, e: Disk) {
    e == d.(database := e.database)
  }

  lemma OpIgnoresRows(p: Proc, d: Disk, e: Disk)
    requires p.At? && Steady(p, d) && SameButRows(d, e)
    ensures OpAt(p, e) == OpAt(p, d)
  {
    hide StateAt, TxAt;
  }

  lemma StepOpIs(p: Proc, d: Disk, f: Fate)
    requires p.At? && !p.pc.Stage?
    ensures StepOp(p, d, f) == OpAt(p, d)
  {
    hide OpAt;
  }

  /** The check that a step makes before its effect. */
  predicate Passes(r: Repo, p: Proc, d: Disk)
    requires p.At?
  {
    match p.pc
    case RecoverVerify => p.tx.previous.Some? && p.tx.tag in d.checkpoints
    case Descend => Descendant(r, p.state, d, p.tx.commit)
    case Backup => p.tx.tag !in d.checkpoints
    case _ => true
  }

  lemma RefusesWhen(r: Repo, p: Proc, d: Disk, answer: Answer)
    requires p.At? && !Asks(p.pc)
    ensures Refuses(r, p, d, answer) <==> !Passes(r, p, d)
  {
    hide Descendant;
  }

  lemma PassesIgnoresRows(r: Repo, p: Proc, d: Disk, e: Disk)
    requires p.At? && SameButRows(d, e)
    ensures Passes(r, p, e) == Passes(r, p, d)
  {
  }

  lemma SavingPasses(r: Repo, p: Proc, d: Disk)
    requires p.At? && (SavesState(p.pc) || WritesTx(p.pc))
    ensures Passes(r, p, d) && Steady(p, d) && (Asks(p.pc) ==> p.pc.OpenJournal?)
    ensures SavesState(p.pc) ==> !WritesTx(p.pc) && !Asks(p.pc) && OpAt(p, d) == SaveState(StateAt(p))
    ensures WritesTx(p.pc) ==> OpAt(p, d) == WriteTx(TxAt(p))
  {
    hide StateAt, TxAt;
  }

  /** A step that changes nothing in memory. */
  predicate Plain(pc: Pc) {
    !Asks(pc) && !SavesState(pc) && !WritesTx(pc)
  }

  /** Memory after a step that succeeded. */
  function After(p: Proc, d: Disk): Proc
    requires p.At?
  {
    Goto(Updated(p), DonePc(Updated(p), d, Quiet))
  }

  /** Memory after a step that raised. */
  function AfterRaise(p: Proc, d: Disk, transient: bool): Proc
    requires p.At?
  {
    Goto(Updated(p), RaisePc(Updated(p), d, transient))
  }

  /** Where a step that asks nothing of the world leads. */
  lemma Moves(p: Proc, d: Disk, answer: Answer, transient: bool)
    requires p.At? && !Asks(p.pc)
    ensures OnDone(p, d, answer) == After(p, d)
    ensures OnRaise(p, d, transient) == AfterRaise(p, d, transient)
  {
    hide StateAt, TxAt, RaisePc, JournalPc;
  }

  lemma PlainMemory(p: Proc)
    requires p.At?
    ensures !SavesState(p.pc) ==> StateAt(p) == p.state
    ensures !WritesTx(p.pc) ==> TxAt(p) == p.tx
    ensures !SavesState(p.pc) && !WritesTx(p.pc) ==> Updated(p) == p
  {
  }

  /** The effects of a recovery, and what follows each. */
  function RecoverOp(pc: Pc, tx: Tx, checkpoints: map<Tag, Checkpoint>): Op
    requires Recovering(pc) && (pc.RecoverVerify? || tx.tag in checkpoints)
  {
    match pc
    case RecoverFence => StopServing
    case RecoverPoint => PointCurrent(tx.previous)
    case RecoverImages => CopyImages(checkpoints[tx.tag].images)
    case RecoverDatabase => RestoreDatabase(checkpoints[tx.tag].database)
    case RecoverConfig => RestoreConfig(checkpoints[tx.tag].config)
    case RecoverAdmit => StartServing
    case _ => Nothing
  }

  function RecoverNext(pc: Pc, applying: bool): Pc
    requires Recovering(pc)
  {
    match pc
    case RecoverVerify => RecoverFence
    case RecoverFence => RecoverPoint
    case RecoverPoint => RecoverImages
    case RecoverImages => RecoverDatabase
    case RecoverDatabase => RecoverConfig
    case RecoverConfig => RecoverAdmit
    case RecoverAdmit => RecoverHealth
    case _ => if applying then MarkFailedRestored else MarkInterruptedRestored
  }

  /** The effects inside the try block of apply(), and what follows each. */
  function TryOp(pc: Pc, tx: Tx, runtime: map<string, string>): Op
    requires Trying(pc)
  {
    match pc
    case Fence => StopServing
    case Backup => TakeCheckpoint(tx.tag)
    case PointNew => PointCurrent(Some(ReleaseDir(tx.tag)))
    case SetImages => WriteImages(runtime)
    case Bootstrap => Migrate
    case Admit => StartServing
    case DropDone => RemoveTx
    case _ => Nothing
  }

  function TryNext(pc: Pc): Pc
    requires Trying(pc)
  {
    match pc
    case CheckRunning => Fence
    case Fence => Backup
    case Backup => BeginChanging
    case PointNew => SetImages
    case SetImages => Bootstrap
    case Bootstrap => CheckHealth
    case CheckHealth => CommitTraffic
    case Admit => CheckPublic
    case CheckPublic => MarkSuccess
    case DropDone => Announce
    case _ => Exit
  }

  /** The steps that ask the world something: what they do with its answer. */
  lemma SelectAnswered(r: Repo, p: Proc, d: Disk, f: Fate)
    requires p.At? && p.pc.Select? && IsAct(f)
    ensures Perform(d, StepOp(p, d, f), f) == d
    ensures f.Proceed? ==>
              && (Refuses(r, p, d, f.answer) <==> !f.answer.Releases?)
              && (f.answer.Releases? ==>
                    OnDone(p, d, f.answer) == (if Selected(f.answer.releases, p.state).None? then Idle
                                               else p.(pc := Resolve,
                                                       release := Selected(f.answer.releases, p.state).value)))
    ensures OnRaise(p, d, f.Raise? && f.transient) == OnRaise(p, d, false) == Idle
  {
    hide Selected, CheckpointOf;
  }

  lemma ResolveAnswered(r: Repo, p: Proc, d: Disk, f: Fate)
    requires p.At? && p.pc.Resolve? && IsAct(f)
    ensures Perform(d, StepOp(p, d, f), f) == d
    ensures f.Proceed? ==>
              && (Refuses(r, p, d, f.answer) <==> !f.answer.ResolvesTo? || !CommitFits(p, f.answer.commit))
              && (f.answer.ResolvesTo? ==>
                    OnDone(p, d, f.answer) == p.(pc := Observe, tx := Tx(p.release.tag, f.answer.commit,
                                                                        p.release.published, None, Preparing)))
    ensures OnRaise(p, d, f.Raise? && f.transient) == OnRaise(p, d, false) == Goto(p, CheckHandler(p, false))
  {
    hide Selected, CommitFits, CheckpointOf;
  }

  lemma Staged(r: Repo, p: Proc, d: Disk, f: Fate)
    requires p.At? && p.pc.Stage? && IsAct(f)
    ensures f.Proceed? && Refuses(r, p, d, f.answer) <==>
              f.Proceed? && (!f.answer.Bundle? || !BundleFits(r, p, d, f.answer.manifest))
    ensures f.Proceed? && f.answer.Bundle? ==>
              && StepOp(p, d, f) == AddRelease(ReleaseDir(p.release.tag), f.answer.manifest)
              && OnDone(p, Perform(d, StepOp(p, d, f), f), f.answer)
                 == p.(pc := OpenJournal, manifest := f.answer.manifest, runtime := f.answer.runtime,
                       tx := p.tx.(previous := d.current))
    ensures !f.Proceed? ==> StepOp(p, d, f) == AddRelease(ReleaseDir(p.release.tag), p.manifest)
    ensures OnRaise(p, d, false) == Goto(p, CheckHandler(p, false))
    ensures f.Raise? ==>
              OnRaise(p, Perform(d, StepOp(p, d, f), f), f.transient) == Goto(p, CheckHandler(p, f.transient))
  {
    hide Selected, BundleFits, CheckpointOf;
  }

  /** What a step of the try block that changes nothing in memory does, and where it leads. */
  lemma TryLeads(r: Repo, p: Proc, d: Disk)
    requires p.At? && Trying(p.pc) && Plain(p.pc)
    ensures OpAt(p, d) == TryOp(p.pc, p.tx, p.runtime) && Steady(p, d)
    ensures Passes(r, p, d) <==> (p.pc.Backup? ==> p.tx.tag !in d.checkpoints)
    ensures forall e :: DonePc(p, e, Quiet) == TryNext(p.pc)
    ensures forall e, transient :: RaisePc(p, e, transient) == Handler(p, e)
  {
    hide StateAt, TxAt, JournalPc, Handler;
  }

  /** What recording the success does to memory, and where it leads. */
  lemma RecordLeads(p: Proc)
    requires p.At? && p.pc.MarkSuccess?
    ensures StateAt(p) == MarkTx(p.state.(success := Some(NewSuccess(p))), p.tx, Succeeded)
    ensures p.state.seen.Keys <= StateAt(p).seen.Keys
    ensures var q := p.(state := StateAt(p));
            && (forall d :: DonePc(q, d, Quiet) == DropDone)
            && (forall d, transient :: RaisePc(q, d, transient) == Handler(q, d))
  {
    MarksMore(p.state.(success := Some(NewSuccess(p))), p.tx);
    hide MarkTx, Handler, JournalPc;
  }

  lemma MarksMore(s: State, tx: Tx)
    ensures s.seen.Keys <= MarkTx(s, tx, Succeeded).seen.Keys
  {
  }

  /** Memory after the staging step. */
  function AfterStage(r: Repo, p: Proc, d: Disk, f: Fate): Proc
    requires p.At? && IsAct(f)
  {
    match f
    case Crash(_, _) => Idle
    case Raise(transient, _, _) => Goto(p, CheckHandler(p, transient))
    case Proceed(Bundle(manifest, runtime), _) =>
      if !BundleFits(r, p, d, manifest) then Goto(p, CheckHandler(p, false))
      else p.(pc := OpenJournal, manifest := manifest, runtime := runtime, tx := p.tx.(previous := d.current))
    case _ => Goto(p, CheckHandler(p, false))
  }

  lemma StageMoves(r: Repo, m: Machine, f: Fate)
    requires m.proc.At? && m.proc.pc.Stage? && IsAct(f)
    ensures Next(r, m, f).proc == AfterStage(r, m.proc, m.disk, f)
    ensures f.Proceed? && (!f.answer.Bundle? || !BundleFits(r, m.proc, m.disk, f.answer.manifest)) ==>
              Refuses(r, m.proc, m.disk, f.answer) && Next(r, m, f).disk == m.disk
    ensures f.Proceed? && f.answer.Bundle? && BundleFits(r, m.proc, m.disk, f.answer.manifest) ==>
              !Refuses(r, m.proc, m.disk, f.answer)
              && StepOp(m.proc, m.disk, f) == AddRelease(ReleaseDir(m.proc.release.tag), f.answer.manifest)
    ensures !f.Proceed? ==> StepOp(m.proc, m.disk, f) == AddRelease(ReleaseDir(m.proc.release.tag), m.proc.manifest)
  {
    hide BundleFits, Perform, StepOp, OnDone, OnRaise, Refuses, CheckHandler;
    Staged(r, m.proc, m.disk, f);
  }

  lemma Journaled(r: Repo, p: Proc, d: Disk, f: Fate)
    requires p.At? && p.pc.OpenJournal? && IsAct(f)
    ensures f.Proceed? ==> !Refuses(r, p, d, f.answer)
    ensures StepOp(p, d, f) == WriteTx(p.tx)
    ensures f.Proceed? ==>
              OnDone(p, Perform(d, StepOp(p, d, f), f), f.answer) == p.(pc := MarkApplying, applying := true)
    ensures f.Raise? ==> OnRaise(p, Perform(d, StepOp(p, d, f), f), f.transient) == Goto(p, CheckHandler(p, false))
  {
    hide Selected, CheckpointOf, JournalPc, Handler, CommitFits, Descendant, BundleFits;
  }

  class UpdaterProcess {
    const repo: Repo
    /** What survives the process. */
    var disk: Disk
    /** self.state */
    var state: State
    /** What is still going to happen. */
    var world: seq<Fate>

    ghost const origin: Machine
    ghost const schedule: seq<Fate>
    ghost var machine: Machine
    ghost var past: seq<Fate>

    /** A host on which no update is under way, and everything that is going to happen to it. */
    constructor (repo: Repo, disk: Disk, schedule: seq<Fate>)
      ensures Valid() && machine.proc.Idle? && world == schedule && this.schedule == schedule && this.repo == repo
      ensures origin == Machine(disk, Idle, [], if disk.state.success.Some? then [disk.state.success.value] else [])
    {
      this.repo, this.disk, this.state, this.world := repo, disk, disk.state, schedule;
      this.schedule, this.past := schedule, [];
      origin := Machine(disk, Idle, [], if disk.state.success.Some? then [disk.state.success.value] else []);
      machine := Machine(disk, Idle, [], if disk.state.success.Some? then [disk.state.success.value] else []);
    }

    /** The program and the machine have seen the same past. */
    ghost predicate Valid()
      reads this
    {
      machine == Run(repo, origin, past) && past + world == schedule && disk == machine.disk
    }

    /** The process is under way, and the machine's memory is the program's. */
    ghost predicate InStep()
      reads this
    {
      machine.proc.At? && machine.proc.state == state
    }

    ghost predicate Over()
      reads this
    {
      machine.proc.Idle? || world == []
    }

    /** Lets the next thing happen to the machine. */
    ghost method Happen()
      requires Valid() && world != []
      modifies this`machine, this`past
      ensures machine == Next(repo, old(machine), world[0]) && past == old(past) + [world[0]]
      ensures machine == Run(repo, origin, past) && past + world[1..] == schedule
    {
      hide Next, Run;
      RunExtends(repo, origin, past, world[0]);
      machine := Next(repo, machine, world[0]);
      past := past + [world[0]];
      assert (old(past) + [world[0]]) + world[1..] == old(past) + world;
    }

    /** Passes over user rows until something happens to the process. */
    method Wait() returns (f: Option<Fate>)
      requires Valid() && machine.proc.At?
      modifies this`disk, this`world, this`machine, this`past
      ensures Valid() && machine.proc == old(machine.proc) && SameButRows(old(disk), disk) && |world| <= old(|world|)
      ensures f.None? ==> world == []
      ensures f.Some? ==> world != [] && world[0] == f.value && IsAct(f.value)
    {
      hide Run, Act;
      while world != []
        invariant Valid() && machine.proc == old(machine.proc) && SameButRows(old(disk), disk)
        invariant |world| <= old(|world|)
        decreases |world|
      {
        var f := world[0];
        if IsAct(f) {
          return Some(f);
        }
        var next := disk;
        if f.UserRow? && disk.serving {
          next := disk.(database := disk.database.(rows := disk.database.rows + [f.row]));
        }
        Happen();
        disk, world := next, world[1..];
      }
      f := None;
    }

    /** One durable write or outside effect. If its own check does not pass it raises, whatever would have happened. */
    method Do(op: Op, passes: bool := true) returns (out: Outcome)
      requires Valid() && machine.proc.At? && Steady(machine.proc, disk) && op == OpAt(machine.proc, disk)
      requires !Asks(machine.proc.pc) && passes == Passes(repo, machine.proc, disk)
      modifies this`disk, this`world, this`machine, this`past
      ensures Valid() && |world| <= old(|world|) && old(disk.checkpoints.Keys) <= disk.checkpoints.Keys
      ensures out.Done? ==> passes && machine.proc == After(old(machine.proc), disk)
      ensures out.Raised? ==> machine.proc == AfterRaise(old(machine.proc), disk, out.transient)
      ensures out.Gone? ==> Over()
    {
      hide Run, OpAt, OnDone, OnRaise, Refuses, StepOp, Passes, After, AfterRaise;
      var next := Wait();
      if next.None? {
        return Gone;
      }
      var f := next.value;
      OpIgnoresRows(machine.proc, old(disk), disk);
      StepOpIs(machine.proc, disk, f);
      PassesIgnoresRows(repo, machine.proc, old(disk), disk);
      if f.Proceed? {
        RefusesWhen(repo, machine.proc, disk, f.answer);
      }
      var after := if f.Proceed? && !passes then disk else Perform(disk, op, f);
      Moves(machine.proc, after, if f.Proceed? then f.answer else Quiet, f.Raise? && f.transient);
      Happen();
      disk, world := after, world[1..];
      out := if f.Crash? then Gone else if f.Raise? then Raised(f.transient) else if passes then Done
             else Raised(false);
    }

    /** A step that only touches the deployment. */
    method Effect(op: Op, passes: bool := true) returns (out: Outcome)
      requires Valid() && InStep() && Plain(machine.proc.pc) && Steady(machine.proc, disk)
      requires op == OpAt(machine.proc, disk) && passes == Passes(repo, machine.proc, disk)
      modifies this`disk, this`world, this`machine, this`past
      ensures Valid() && |world| <= old(|world|) && old(disk.checkpoints.Keys) <= disk.checkpoints.Keys
      ensures out.Done? ==> passes && machine.proc == Goto(old(machine.proc), DonePc(old(machine.proc), disk, Quiet))
      ensures out.Raised? ==>
                machine.proc == Goto(old(machine.proc), RaisePc(old(machine.proc), disk, out.transient))
      ensures out.Gone? ==> Over()
    {
      hide Run, OpAt, DonePc, RaisePc, Passes;
      PlainMemory(machine.proc);
      hide Updated;
      out := Do(op, passes);
    }

    /** Writes self.state, as the step has changed it in memory. */
    method Save(s: State) returns (out: Outcome)
      requires Valid() && machine.proc.At? && SavesState(machine.proc.pc) && s == StateAt(machine.proc)
      modifies this
      ensures Valid() && |world| <= old(|world|) && old(disk.checkpoints.Keys) <= disk.checkpoints.Keys && state == s
      ensures var p := old(machine.proc).(state := s);
              && (out.Done? ==> machine.proc == Goto(p, DonePc(p, disk, Quiet)))
              && (out.Raised? ==> machine.proc == Goto(p, RaisePc(p, disk, out.transient)))
      ensures out.Gone? ==> Over()
    {
      hide Run, DonePc, RaisePc, StateAt;
      PlainMemory(machine.proc);
      SavingPasses(repo, machine.proc, disk);
      hide Passes;
      state := s;
      out := Do(SaveState(s));
    }

    /** Writes transaction.json. */
    method WriteJournal(tx: Tx) returns (out: Outcome)
      requires Valid() && machine.proc.At? && WritesTx(machine.proc.pc) && !machine.proc.pc.OpenJournal?
      requires tx == TxAt(machine.proc)
      modifies this`disk, this`world, this`machine, this`past
      ensures Valid() && |world| <= old(|world|) && old(disk.checkpoints.Keys) <= disk.checkpoints.Keys
      ensures var p := old(machine.proc).(tx := tx);
              && (out.Done? ==> machine.proc == Goto(p, DonePc(p, disk, Quiet)))
              && (out.Raised? ==> machine.proc == Goto(p, RaisePc(p, disk, out.transient)))
      ensures out.Gone? ==> Over()
    {
      hide Run, DonePc, RaisePc, StateAt;
      PlainMemory(machine.proc);
      SavingPasses(repo, machine.proc, disk);
      hide Passes;
      out := Do(WriteTx(tx));
    }

    // ----- recover(), resume_previous() and the marks

    method MarkAs(tx: Tx, status: Status) returns (out: Outcome)
      requires Valid() && InStep() && machine.proc.tx == tx && StatusAt(machine.proc.pc) == Some(status)
      requires !machine.proc.pc.MarkSuccess?
      modifies this
      ensures Valid() && |world| <= old(|world|) && old(disk.checkpoints.Keys) <= disk.checkpoints.Keys
      ensures state == MarkTx(old(state), tx, status)
      ensures var p := old(machine.proc).(state := state);
              && (out.Done? ==> machine.proc == Goto(p, DonePc(p, disk, Quiet)))
              && (out.Raised? ==> machine.proc == Goto(p, RaisePc(p, disk, out.transient)))
      ensures out.Gone? ==> Over()
    {
      hide Run, DonePc, RaisePc;
      out := Save(MarkTx(state, tx, status));
    }

    /** A step of a recovery: after an exception there, only a person can help. */
    method RecoverStep(op: Op, passes: bool := true) returns (out: Outcome)
      requires Valid() && InStep() && Recovering(machine.proc.pc)
      requires machine.proc.pc.RecoverVerify? || machine.proc.tx.tag in disk.checkpoints
      requires op == RecoverOp(machine.proc.pc, machine.proc.tx, disk.checkpoints)
      requires machine.proc.pc.RecoverVerify? ==>
                 passes == (machine.proc.tx.previous.Some? && machine.proc.tx.tag in disk.checkpoints)
      requires !machine.proc.pc.RecoverVerify? ==> passes
      modifies this`disk, this`world, this`machine, this`past
      ensures Valid() && |world| <= old(|world|) && old(disk.checkpoints.Keys) <= disk.checkpoints.Keys
      ensures out.Done? ==> passes && machine.proc == old(machine.proc).(
                                        pc := RecoverNext(old(machine.proc).pc, old(machine.proc).applying))
      ensures out.Raised? ==> machine.proc == old(machine.proc).(pc := MarkManual)
      ensures out.Gone? ==> Over()
    {
      hide Run, JournalPc, Valid, StateAt, TxAt;
      out := Effect(op, passes);
    }

    /** Checks the checkpoint, then stops web, office and ingress. */
    method FenceForRecovery(tx: Tx) returns (out: Outcome)
      requires Valid() && InStep() && machine.proc.pc.RecoverVerify? && machine.proc.tx == tx
      modifies this`disk, this`world, this`machine, this`past
      ensures Valid() && |world| <= old(|world|)
      ensures out.Done? ==> machine.proc == old(machine.proc).(pc := RecoverPoint) && tx.tag in disk.checkpoints
      ensures out.Raised? ==> machine.proc == old(machine.proc).(pc := MarkManual)
      ensures out.Gone? ==> Over()
    {
      hide Run, Valid;
      :- RecoverStep(Nothing, tx.previous.Some? && tx.tag in disk.checkpoints);
      :- RecoverStep(StopServing);
      out := Done;
    }

    /** The previous release and its images. */
    method PutReleaseBack(tx: Tx) returns (out: Outcome)
      requires Valid() && InStep() && machine.proc.pc.RecoverPoint? && machine.proc.tx == tx
      requires tx.tag in disk.checkpoints
      modifies this`disk, this`world, this`machine, this`past
      ensures Valid() && |world| <= old(|world|)
      ensures out.Done? ==> machine.proc == old(machine.proc).(pc := RecoverDatabase) && tx.tag in disk.checkpoints
      ensures out.Raised? ==> machine.proc == old(machine.proc).(pc := MarkManual)
      ensures out.Gone? ==> Over()
    {
      hide Run, Valid;
      :- RecoverStep(PointCurrent(tx.previous));
      :- RecoverStep(CopyImages(disk.checkpoints[tx.tag].images));
      out := Done;
    }

    /** Database and configuration of the checkpoint. */
    method PutDataBack(tx: Tx) returns (out: Outcome)
      requires Valid() && InStep() && machine.proc.pc.RecoverDatabase? && machine.proc.tx == tx
      requires tx.tag in disk.checkpoints
      modifies this`disk, this`world, this`machine, this`past
      ensures Valid() && |world| <= old(|world|)
      ensures out.Done? ==> machine.proc == old(machine.proc).(pc := RecoverAdmit) && tx.tag in disk.checkpoints
      ensures out.Raised? ==> machine.proc == old(machine.proc).(pc := MarkManual)
      ensures out.Gone? ==> Over()
    {
      hide Run, Valid;
      :- RecoverStep(RestoreDatabase(disk.checkpoints[tx.tag].database));
      :- RecoverStep(RestoreConfig(disk.checkpoints[tx.tag].config));
      out := Done;
    }

    /** Lets users in again and looks at the health of the result. */
    method AdmitAfterRecovery(tx: Tx) returns (out: Outcome)
      requires Valid() && InStep() && machine.proc.pc.RecoverAdmit? && machine.proc.tx == tx
      requires tx.tag in disk.checkpoints
      modifies this`disk, this`world, this`machine, this`past
      ensures Valid() && |world| <= old(|world|)
      ensures out.Done? ==> machine.proc == old(machine.proc).(
                              pc := if old(machine.proc).applying then MarkFailedRestored else MarkInterruptedRestored)
      ensures out.Raised? ==> machine.proc == old(machine.proc).(pc := MarkManual)
      ensures out.Gone? ==> Over()
    {
      hide Run, Valid;
      :- RecoverStep(StartServing);
      :- RecoverStep(Nothing);
      out := Done;
    }

    /** recover(): puts the whole checkpoint back. */
    method Recover(tx: Tx) returns (out: Outcome)
      requires Valid() && InStep() && machine.proc.pc.RecoverVerify? && machine.proc.tx == tx
      modifies this`disk, this`world, this`machine, this`past
      ensures Valid() && |world| <= old(|world|)
      ensures out.Done? ==> machine.proc == old(machine.proc).(
                              pc := if old(machine.proc).applying then MarkFailedRestored else MarkInterruptedRestored)
      ensures out.Raised? ==> machine.proc == old(machine.proc).(pc := MarkManual)
      ensures out.Gone? ==> Over()
    {
      hide Run, Valid;
      :- FenceForRecovery(tx);
      :- PutReleaseBack(tx);
      :- PutDataBack(tx);
      :- AdmitAfterRecovery(tx);
      out := Done;
    }

    method ResumeStep(op: Op) returns (out: Outcome)
      requires Valid() && InStep() && (machine.proc.pc.ResumePoint? || machine.proc.pc.ResumeAdmit?)
      requires op == if machine.proc.pc.ResumePoint? then PointCurrent(machine.proc.tx.previous) else StartServing
      modifies this`disk, this`world, this`machine, this`past
      ensures Valid() && |world| <= old(|world|)
      ensures out.Done? ==> machine.proc == old(machine.proc).(
                              pc := if old(machine.proc).pc.ResumePoint? then ResumeAdmit
                                    else if old(machine.proc).applying then MarkFailedBefore else MarkInterruptedBefore)
      ensures out.Raised? ==> machine.proc.Idle?
      ensures out.Gone? ==> Over()
    {
      hide Run, Updated, StateAt, TxAt, JournalPc, Handler, Valid;
      out := Effect(op);
    }

    /** Lets users back in to the previous release. */
    method ResumePrevious(tx: Tx) returns (out: Outcome)
      requires Valid() && InStep() && machine.proc.pc.ResumePoint? && machine.proc.tx == tx
      modifies this`disk, this`world, this`machine, this`past
      ensures Valid() && |world| <= old(|world|)
      ensures out.Done? ==> machine.proc == old(machine.proc).(
                              pc := if old(machine.proc).applying then MarkFailedBefore else MarkInterruptedBefore)
      ensures out.Raised? ==> machine.proc.Idle?
      ensures out.Gone? ==> Over()
    {
      hide Run, Valid;
      :- ResumeStep(PointCurrent(tx.previous));
      :- ResumeStep(StartServing);
      out := Done;
    }

    /** Hands the update over to a person. */
    method GiveUp(tx: Tx) returns (out: Outcome)
      requires Valid() && InStep() && machine.proc.pc.MarkManual? && machine.proc.tx == tx
      modifies this
      ensures Valid() && |world| <= old(|world|) && old(state.seen.Keys) <= state.seen.Keys
      ensures !out.Done? && (out.Raised? ==> machine.proc.Idle?)
      ensures out.Gone? ==> Over()
    {
      hide Run, Updated, StateAt, JournalPc, Handler, Valid;
      :- MarkAs(tx, ManualRecoveryRequired);
      :- WriteJournal(tx.(phase := ManualRecovery));
      out := Raised(false);
    }

    // ----- interrupted()

    /** Looks at transaction.json. */
    method ReadJournal() returns (out: Outcome, journal: Option<Tx>)
      requires Valid() && InStep() && machine.proc.pc.Enter?
      modifies this`disk, this`world, this`machine, this`past
      ensures Valid() && |world| <= old(|world|)
      ensures out.Done? ==>
                var p := if journal.Some? then old(machine.proc).(tx := journal.value) else old(machine.proc);
                machine.proc == Goto(p, JournalPc(p, journal))
      ensures out.Raised? ==> machine.proc.Idle?
      ensures out.Gone? ==> Over()
    {
      hide Run, Perform, Refuses, OnDone, OnRaise, StepOp, JournalPc;
      var next := Wait();
      if next.None? {
        return Gone, None;
      }
      var f := next.value;
      Looking(repo, machine.proc, disk, f);
      journal := disk.journal;
      Happened();
      out := if f.Proceed? then Done else if f.Raise? then Raised(f.transient) else Gone;
    }

    /** What is up next happens to the process, with this effect. */
    method Take(op: Op)
      requires Valid() && machine.proc.At? && world != [] && IsAct(world[0])
      requires op == StepOp(machine.proc, disk, world[0])
      requires !(world[0].Proceed? && Refuses(repo, machine.proc, disk, world[0].answer))
      modifies this`disk, this`world, this`machine, this`past
      ensures Valid() && |world| < old(|world|) && machine == Next(repo, old(machine), old(world[0]))
      ensures disk == Perform(old(disk), op, old(world[0]))
    {
      hide Run, StepOp, Refuses, Perform, OnDone, OnRaise;
      var f := world[0];
      Happen();
      disk, world := Perform(disk, op, f), world[1..];
    }

    /** Something happened to the process that has no effect. */
    method Happened()
      requires Valid() && world != [] && Next(repo, machine, world[0]).disk == disk
      modifies this`world, this`machine, this`past
      ensures Valid() && |world| < old(|world|) && machine == Next(repo, old(machine), old(world[0]))
    {
      hide Next, Run;
      Happen();
      world := world[1..];
    }

    /** Nothing was changed yet: lets the previous release go on. */
    method EndPreparing(tx: Tx) returns (out: Outcome)
      requires Valid() && InStep() && !machine.proc.applying && machine.proc.tx == tx
      requires if tx.previous.Some? then machine.proc.pc.ResumePoint? else machine.proc.pc.MarkInterruptedBefore?
      modifies this
      ensures Valid() && |world| <= old(|world|)
      ensures out.Done? ==> InStep() && machine.proc == old(machine.proc).(pc := DropInterrupted, state := state)
      ensures out.Raised? ==> machine.proc.Idle?
      ensures out.Gone? ==> Over()
    {
      hide Run, Valid;
      if tx.previous.Some? {
        :- ResumePrevious(tx);
      }
      out := MarkUnchanged(tx);
    }

    method MarkUnchanged(tx: Tx) returns (out: Outcome)
      requires Valid() && InStep() && machine.proc.tx == tx && machine.proc.pc.MarkInterruptedBefore?
      modifies this
      ensures Valid() && |world| <= old(|world|)
      ensures out.Done? ==> InStep() && machine.proc == old(machine.proc).(pc := DropInterrupted, state := state)
      ensures out.Raised? ==> machine.proc.Idle?
      ensures out.Gone? ==> Over()
    {
      hide Run, Valid, Updated, StateAt, TxAt, Handler;
      out := MarkAs(tx, InterruptedBeforeChange);
    }

    /** Something may have been changed: puts the checkpoint back, or gives up. */
    method EndChanging(tx: Tx) returns (out: Outcome)
      requires Valid() && InStep() && !machine.proc.applying && machine.proc.tx == tx
      requires machine.proc.pc.RecoverVerify?
      modifies this
      ensures Valid() && |world| <= old(|world|)
      ensures out.Done? ==> InStep() && machine.proc == old(machine.proc).(pc := DropInterrupted, state := state)
      ensures out.Raised? ==> machine.proc.Idle?
      ensures out.Gone? ==> Over()
    {
      hide Run, Valid, Updated, StateAt, TxAt, Handler;
      out := Recover(tx);
      if out.Done? {
        out := MarkAs(tx, InterruptedRestored);
      }
      if out.Raised? {
        out := GiveUp(tx);
      }
    }

    /** interrupted(): deals with a transaction that an earlier process left open. */
    method Interrupted() returns (out: Outcome)
      requires Valid() && InStep() && machine.proc.pc.Enter? && !machine.proc.applying
      modifies this
      ensures Valid() && |world| <= old(|world|)
      ensures out.Done? && old(machine.proc).recoverOnly ==> machine.proc.Idle?
      ensures out.Done? && !old(machine.proc).recoverOnly ==>
                InStep() && machine.proc == old(machine.proc).(pc := Select, tx := machine.proc.tx, state := state)
      ensures out.Raised? ==> machine.proc.Idle?
      ensures out.Gone? ==> Over()
    {
      hide Run, Valid, Updated, StateAt, TxAt, Handler, RaisePc;
      var journal;
      out, journal := ReadJournal();
      if !out.Done? || journal.None? {
        return;
      }
      var tx := journal.value;
      if state.success.Some? && state.success.value.tag == tx.tag {
        out := Drop();
        return;
      }
      if tx.phase.TrafficCommitted? || tx.phase.ManualRecovery? {
        out := Refuse(tx);
        return;
      }
      if tx.phase.Preparing? {
        :- EndPreparing(tx);
      } else {
        :- EndChanging(tx);
      }
      out := Drop();
    }

    /** Past the traffic boundary nothing is done but a mark. */
    method Refuse(tx: Tx) returns (out: Outcome)
      requires Valid() && InStep() && machine.proc.pc.MarkBlocked? && machine.proc.tx == tx
      modifies this
      ensures Valid() && |world| <= old(|world|)
      ensures !out.Done? && (out.Raised? ==> machine.proc.Idle?)
      ensures out.Gone? ==> Over()
    {
      hide Run, Valid, Updated, StateAt, TxAt, Handler;
      :- MarkAs(tx, ManualRecoveryRequired);
      out := Raised(false);
    }

    /** Removes the journal at the end of interrupted(). */
    method Drop() returns (out: Outcome)
      requires Valid() && InStep() && (machine.proc.pc.DropFinished? || machine.proc.pc.DropInterrupted?)
      modifies this`disk, this`world, this`machine, this`past
      ensures Valid() && |world| <= old(|world|)
      ensures out.Done? ==> machine.proc == Goto(old(machine.proc), AfterInterrupted(old(machine.proc)))
      ensures out.Raised? ==> machine.proc.Idle?
      ensures out.Gone? ==> Over()
    {
      hide Run, Valid, Updated, StateAt, TxAt, Handler, CheckHandler, JournalPc, AfterInterrupted, Over;
      out := Effect(RemoveTx);
    }

    // ----- apply()

    /** An exception was thrown inside the try block; the handler is next, with `tx` as it is in memory. */
    ghost predicate Thrown(before: Proc, tx: Tx)
      requires before.At?
      reads this
    {
      && InStep() && machine.proc == before.(pc := machine.proc.pc, tx := tx, state := state)
      && machine.proc.pc == Handler(machine.proc, disk)
    }

    method TryEffect(op: Op, passes: bool := true) returns (out: Outcome)
      requires Valid() && InStep() && Trying(machine.proc.pc) && Plain(machine.proc.pc)
      requires op == TryOp(machine.proc.pc, machine.proc.tx, machine.proc.runtime)
      requires passes == (machine.proc.pc.Backup? ==> machine.proc.tx.tag !in disk.checkpoints)
      modifies this`disk, this`world, this`machine, this`past
      ensures Valid() && |world| <= old(|world|)
      ensures out.Done? ==> machine.proc == Goto(old(machine.proc), TryNext(old(machine.proc).pc))
      ensures out.Raised? ==> Thrown(old(machine.proc), old(machine.proc).tx)
      ensures out.Gone? ==> Over()
    {
      hide Run, Valid, OpAt, DonePc, RaisePc, Passes, TryOp, TryNext;
      TryLeads(repo, machine.proc, disk);
      out := Effect(op, passes);
    }

    /** Checks what is running and takes it out of service. */
    method TakeOut(tx: Tx) returns (out: Outcome)
      requires Valid() && InStep() && machine.proc.pc.CheckRunning? && machine.proc.tx == tx
      modifies this`disk, this`world, this`machine, this`past
      ensures Valid() && |world| <= old(|world|)
      ensures out.Done? ==> machine.proc == old(machine.proc).(pc := Backup)
      ensures out.Raised? ==> Thrown(old(machine.proc), tx)
      ensures out.Gone? ==> Over()
    {
      hide Run, Valid, Handler;
      :- TryEffect(Nothing);
      :- TryEffect(StopServing);
      out := Done;
    }

    /** Takes the previous release out of service and saves it. */
    method Prepare(tx: Tx) returns (out: Outcome)
      requires Valid() && InStep() && machine.proc.pc.CheckRunning? && machine.proc.tx == tx
      modifies this`disk, this`world, this`machine, this`past
      ensures Valid() && |world| <= old(|world|)
      ensures out.Done? ==> machine.proc == old(machine.proc).(pc := BeginChanging)
      ensures out.Raised? ==> Thrown(old(machine.proc), tx)
      ensures out.Gone? ==> Over()
    {
      hide Run, Valid, Handler;
      :- TakeOut(tx);
      :- TryEffect(TakeCheckpoint(tx.tag), tx.tag !in disk.checkpoints);
      out := Done;
    }

    /** Switches to the new release. */
    method Change(tx: Tx, runtime: map<string, string>) returns (out: Outcome)
      requires Valid() && InStep() && machine.proc.pc.PointNew? && machine.proc.tx == tx
      requires machine.proc.runtime == runtime
      modifies this`disk, this`world, this`machine, this`past
      ensures Valid() && |world| <= old(|world|)
      ensures out.Done? ==> machine.proc == old(machine.proc).(pc := Bootstrap)
      ensures out.Raised? ==> Thrown(old(machine.proc), tx)
      ensures out.Gone? ==> Over()
    {
      hide Run, Valid, Handler;
      :- TryEffect(PointCurrent(Some(ReleaseDir(tx.tag))));
      :- TryEffect(WriteImages(runtime));
      out := Done;
    }

    /** Migrates and looks at the health of the result. */
    method Upgrade(tx: Tx) returns (out: Outcome)
      requires Valid() && InStep() && machine.proc.pc.Bootstrap? && machine.proc.tx == tx
      modifies this`disk, this`world, this`machine, this`past
      ensures Valid() && |world| <= old(|world|)
      ensures out.Done? ==> machine.proc == old(machine.proc).(pc := CommitTraffic)
      ensures out.Raised? ==> Thrown(old(machine.proc), tx)
      ensures out.Gone? ==> Over()
    {
      hide Run, Valid, Handler;
      :- TryEffect(Migrate);
      :- TryEffect(Nothing);
      out := Done;
    }

    /** Lets users in to the new release. */
    method Publish(tx: Tx) returns (out: Outcome)
      requires Valid() && InStep() && machine.proc.pc.Admit? && machine.proc.tx == tx
      modifies this`disk, this`world, this`machine, this`past
      ensures Valid() && |world| <= old(|world|)
      ensures out.Done? ==> machine.proc == old(machine.proc).(pc := MarkSuccess)
      ensures out.Raised? ==> Thrown(old(machine.proc), tx)
      ensures out.Gone? ==> Over()
    {
      hide Run, Valid, Handler;
      :- TryEffect(StartServing);
      :- TryEffect(Nothing);
      out := Done;
    }

    /** Sets the phase of the open transaction. */
    method Enter(tx: Tx) returns (out: Outcome)
      requires Valid() && InStep() && (machine.proc.pc.BeginChanging? || machine.proc.pc.CommitTraffic?)
      requires tx == TxAt(machine.proc)
      modifies this`disk, this`world, this`machine, this`past
      ensures Valid() && |world| <= old(|world|)
      ensures out.Done? ==> machine.proc == old(machine.proc).(tx := tx, pc := if old(machine.proc).pc.BeginChanging?
                                                                               then PointNew else Admit)
      ensures out.Raised? ==> Thrown(old(machine.proc), tx)
      ensures out.Gone? ==> Over()
    {
      hide Run, Valid, Updated, StateAt, JournalPc;
      out := WriteJournal(tx);
    }

    /** Records the success. */
    method Record(tx: Tx, manifest: Manifest, runtime: map<string, string>) returns (out: Outcome)
      requires Valid() && InStep() && machine.proc.pc.MarkSuccess? && machine.proc.tx == tx
      requires machine.proc.manifest == manifest && machine.proc.runtime == runtime
      modifies this
      ensures Valid() && |world| <= old(|world|) && old(state.seen.Keys) <= state.seen.Keys
      ensures out.Done? ==> machine.proc == old(machine.proc).(pc := DropDone, state := state)
      ensures out.Raised? ==> Thrown(old(machine.proc), tx)
      ensures out.Gone? ==> Over()
    {
      hide Run, Valid, Updated, JournalPc, StateAt, DonePc, RaisePc, MarkTx;
      RecordLeads(machine.proc);
      var success := Success(tx.tag, tx.commit, tx.published, manifest.images, runtime);
      out := Save(MarkTx(state.(success := Some(success)), tx, Succeeded));
    }

    /** What an exception looks like to a caller that has only advanced to another step. */
    lemma StillThrown(before: Proc, later: Proc, tx: Tx)
      requires before.At? && later.At? && later == before.(pc := later.pc, tx := later.tx, state := later.state)
      requires Thrown(later, tx)
      ensures Thrown(before, tx)
    {
    }

    /** From the checkpoint to the traffic boundary. */
    method TryChange(preparing: Tx, runtime: map<string, string>) returns (out: Outcome, tx: Tx)
      requires Valid() && InStep() && machine.proc.tx == preparing && machine.proc.runtime == runtime
      requires if preparing.previous.Some? then machine.proc.pc.CheckRunning? else machine.proc.pc.BeginChanging?
      modifies this`disk, this`world, this`machine, this`past
      ensures Valid() && |world| <= old(|world|)
      ensures out.Done? ==> tx == preparing.(phase := ChangingPhase)
                            && machine.proc == old(machine.proc).(pc := CommitTraffic, tx := tx)
      ensures out.Raised? ==> Thrown(old(machine.proc), tx)
      ensures out.Gone? ==> Over()
    {
      hide Run, Valid, Handler, Thrown, Over;
      ghost var before := machine.proc;
      tx, out := preparing, Done;
      if tx.previous.Some? {
        out := Prepare(tx);
      }
      if out.Done? {
        tx := tx.(phase := ChangingPhase);
        before := machine.proc;
        out := Enter(tx);
      }
      if out.Done? {
        before := machine.proc;
        out := Change(tx, runtime);
      }
      if out.Done? {
        before := machine.proc;
        out := Upgrade(tx);
      }
      if out.Raised? {
        StillThrown(old(machine.proc), before, tx);
      }
    }

    /** Removes the journal and announces the success. */
    method Close(tx: Tx) returns (out: Outcome)
      requires Valid() && InStep() && machine.proc.pc.DropDone? && machine.proc.tx == tx
      modifies this`disk, this`world, this`machine, this`past
      ensures Valid() && |world| <= old(|world|)
      ensures out.Done? ==> machine.proc.Idle?
      ensures out.Raised? ==> Thrown(old(machine.proc), tx)
      ensures out.Gone? ==> Over()
    {
      hide Run, Valid, Handler;
      :- TryEffect(RemoveTx);
      :- TryEffect(Nothing);
      out := Done;
    }

    /** Records the success, closes the transaction and announces it. */
    method Complete(tx: Tx, manifest: Manifest, runtime: map<string, string>) returns (out: Outcome)
      requires Valid() && InStep() && machine.proc.pc.MarkSuccess? && machine.proc.tx == tx
      requires machine.proc.manifest == manifest && machine.proc.runtime == runtime
      modifies this
      ensures Valid() && |world| <= old(|world|) && old(state.seen.Keys) <= state.seen.Keys
      ensures out.Done? ==> machine.proc.Idle?
      ensures out.Raised? ==> Thrown(old(machine.proc), tx)
      ensures out.Gone? ==> Over()
    {
      hide Run, Valid, Handler, Thrown, Over;
      ghost var before := machine.proc;
      out := Record(tx, manifest, runtime);
      if out.Done? {
        before := machine.proc;
        out := Close(tx);
      }
      if out.Raised? {
        StillThrown(old(machine.proc), before, tx);
      }
    }

    /** From the traffic boundary to the end. */
    method TryPublish(changing: Tx, manifest: Manifest, runtime: map<string, string>) returns (out: Outcome, tx: Tx)
      requires Valid() && InStep() && machine.proc.pc.CommitTraffic? && machine.proc.tx == changing
      requires machine.proc.manifest == manifest && machine.proc.runtime == runtime
      modifies this
      ensures Valid() && |world| <= old(|world|) && old(state.seen.Keys) <= state.seen.Keys
      ensures out.Done? ==> machine.proc.Idle?
      ensures out.Raised? ==> Thrown(old(machine.proc), tx)
      ensures out.Gone? ==> Over()
    {
      hide Run, Valid, Handler, Thrown, Over;
      ghost var before := machine.proc;
      tx := changing.(phase := TrafficCommitted);
      out := Enter(tx);
      if out.Done? {
        before := machine.proc;
        out := Publish(tx);
      }
      if out.Done? {
        before := machine.proc;
        out := Complete(tx, manifest, runtime);
      }
      if out.Raised? {
        StillThrown(old(machine.proc), before, tx);
      }
    }

    /** The exception handler of apply(). It ends by raising again. */
    method Handle(tx: Tx) returns (out: Outcome)
      requires Valid() && InStep() && machine.proc.applying && machine.proc.tx == tx
      requires machine.proc.pc == Handler(machine.proc, disk)
      modifies this
      ensures Valid() && |world| <= old(|world|) && old(state.seen.Keys) <= state.seen.Keys
      ensures !out.Done? && (out.Raised? ==> machine.proc.Idle?)
      ensures out.Gone? ==> Over()
    {
      hide Run, Valid, Updated, StateAt, TxAt, JournalPc;
      if tx.phase.TrafficCommitted? {
        out := GiveUp(tx);
      } else if tx.previous.Some? && tx.tag in disk.checkpoints {
        out := RecoverFailed(tx);
      } else if tx.phase.Preparing? && tx.previous.Some? {
        out := ResumeFailed(tx);
      } else {
        out := GiveUp(tx);
      }
    }

    /** Puts the previous release back and marks the new one as failed, or gives up. */
    method RecoverFailed(tx: Tx) returns (out: Outcome)
      requires Valid() && InStep() && machine.proc.applying && machine.proc.tx == tx && machine.proc.pc.RecoverVerify?
      modifies this
      ensures Valid() && |world| <= old(|world|) && old(state.seen.Keys) <= state.seen.Keys
      ensures !out.Done? && (out.Raised? ==> machine.proc.Idle?)
      ensures out.Gone? ==> Over()
    {
      hide Run, Valid, Updated, StateAt, TxAt, JournalPc, Handler;
      out := Recover(tx);
      if out.Done? {
        out := MarkAs(tx, FailedRestored);
      }
      if out.Done? {
        out := DropFailedJournal();
        if out.Done? {
          return Raised(false);
        }
      }
      if out.Raised? {
        out := GiveUp(tx);
      }
    }

    /** Nothing was changed: lets the previous release go on and marks the new one as failed. */
    method ResumeFailed(tx: Tx) returns (out: Outcome)
      requires Valid() && InStep() && machine.proc.applying && machine.proc.tx == tx && machine.proc.pc.ResumePoint?
      modifies this
      ensures Valid() && |world| <= old(|world|) && old(state.seen.Keys) <= state.seen.Keys
      ensures !out.Done? && (out.Raised? ==> machine.proc.Idle?)
      ensures out.Gone? ==> Over()
    {
      hide Run, Valid, Updated, StateAt, TxAt, JournalPc, Handler;
      :- ResumePrevious(tx);
      :- MarkAs(tx, FailedBeforeChange);
      :- DropFailedJournal();
      out := Raised(false);
    }

    method DropFailedJournal() returns (out: Outcome)
      requires Valid() && InStep() && machine.proc.pc.DropFailed?
      modifies this`disk, this`world, this`machine, this`past
      ensures Valid() && |world| <= old(|world|)
      ensures out.Done? ==> machine.proc.Idle?
      ensures out.Raised? ==> machine.proc == Goto(old(machine.proc),
                                                   if Restored(old(machine.proc)) then MarkManual else Exit)
      ensures out.Gone? ==> Over()
    {
      hide Run, Valid, Updated, StateAt, TxAt, JournalPc, Handler, Restored;
      out := Effect(RemoveTx);
    }

    // ----- the part of apply() before its journal is open

    /** An exception outside the try block of apply(): the handler of check() is next. */
    ghost predicate Escaped(before: Proc, transient: bool)
      requires before.At?
      reads this
    {
      if before.release.tag in state.seen then machine.proc.Idle?
      else InStep() && machine.proc.release == before.release
           && machine.proc.pc == if transient then CountAttempt else Reject
    }

    /** The releases that there are, and the one to take. */
    method SelectStep() returns (out: Outcome, best: Option<Release>)
      requires Valid() && InStep() && machine.proc.pc.Select?
      modifies this`disk, this`world, this`machine, this`past
      ensures Valid() && |world| <= old(|world|)
      ensures out.Done? && best.None? ==> machine.proc.Idle?
      ensures out.Done? && best.Some? ==> machine.proc == old(machine.proc).(pc := Resolve, release := best.value)
                                          && best.value.tag !in state.seen
      ensures out.Raised? ==> machine.proc.Idle?
      ensures out.Gone? ==> Over()
    {
      hide Run, Perform, Refuses, OnDone, OnRaise, StepOp, Selected;
      var next := Wait();
      if next.None? {
        return Gone, None;
      }
      var f := next.value;
      SelectAnswered(repo, machine.proc, disk, f);
      Happened();
      if f.Crash? {
        return Gone, None;
      }
      if f.Raise? || !f.answer.Releases? {
        return Raised(false), None;
      }
      best := SelectRelease(f.answer.releases, state);
      out := Done;
    }

    method ResolveStep(rel: Release) returns (out: Outcome, tx: Tx)
      requires Valid() && InStep() && machine.proc.pc.Resolve? && machine.proc.release == rel
      modifies this`disk, this`world, this`machine, this`past
      ensures Valid() && |world| <= old(|world|)
      ensures out.Done? ==> machine.proc == old(machine.proc).(pc := Observe, tx := tx) && tx.tag == rel.tag
                            && tx.previous.None? && tx.phase.Preparing?
      ensures out.Raised? ==> Escaped(old(machine.proc), false)
      ensures out.Gone? ==> Over()
    {
      hide Run, Perform, Refuses, OnDone, OnRaise, StepOp;
      tx := NoTx;
      var next := Wait();
      if next.None? {
        return Gone, tx;
      }
      var f := next.value;
      ResolveAnswered(repo, machine.proc, disk, f);
      Happened();
      if f.Crash? {
        return Gone, tx;
      }
      if f.Raise? || !f.answer.ResolvesTo? || !CommitOk(f.answer.commit)
         || (rel.tag in state.observed && state.observed[rel.tag] != f.answer.commit) {
        return Raised(false), tx;
      }
      out, tx := Done, Tx(rel.tag, f.answer.commit, rel.published, None, Preparing);
    }

    /** Remembers the commit that the tag resolves to. */
    method ObserveStep(tx: Tx) returns (out: Outcome)
      requires Valid() && InStep() && machine.proc.pc.Observe? && machine.proc.tx == tx
      requires machine.proc.release.tag == tx.tag
      modifies this
      ensures Valid() && |world| <= old(|world|) && state.seen == old(state).seen
      ensures out.Done? ==> InStep() && machine.proc == old(machine.proc).(pc := Descend, state := state)
      ensures out.Raised? ==> Escaped(old(machine.proc), false) && !out.transient
      ensures out.Gone? ==> Over()
    {
      hide Run, Valid, Updated, TxAt, JournalPc, Handler;
      out := Save(state.(observed := state.observed[tx.tag := tx.commit]));
      if out.Raised? {
        out := Raised(false);
      }
    }

    /** Asks whether the commit descends from what is deployed. */
    method DescendStep(tx: Tx) returns (out: Outcome)
      requires Valid() && InStep() && machine.proc.pc.Descend? && machine.proc.tx == tx
      modifies this`disk, this`world, this`machine, this`past
      ensures Valid() && |world| <= old(|world|)
      ensures out.Done? ==> machine.proc == old(machine.proc).(pc := Pc.Stage)
      ensures out.Raised? ==> Escaped(old(machine.proc), false) && !out.transient
      ensures out.Gone? ==> Over()
    {
      hide Run, Valid, Updated, TxAt, StateAt, JournalPc, Handler, Descendant;
      out := Effect(Nothing, Descendant(repo, state, disk, tx.commit));
      if out.Raised? {
        out := Raised(false);
      }
    }

    /** The bundle is not one, or does not fit the release. */
    method StageRefuses()
      requires Valid() && InStep() && machine.proc.pc.Stage? && world != [] && world[0].Proceed?
      requires !world[0].answer.Bundle? || !BundleFits(repo, machine.proc, disk, world[0].answer.manifest)
      modifies this`world, this`machine, this`past
      ensures Valid() && |world| < old(|world|)
      ensures Escaped(old(machine.proc), false)
    {
      hide Run, Next, Perform, Refuses, StepOp, BundleFits;
      StageMoves(repo, machine, world[0]);
      Happened();
    }

    /** Staging raises, or the process dies in it. */
    method StageFails(rel: Release) returns (out: Outcome)
      requires Valid() && InStep() && machine.proc.pc.Stage? && machine.proc.release == rel
      requires machine.proc.manifest == NoManifest && world != [] && IsAct(world[0]) && !world[0].Proceed?
      modifies this`disk, this`world, this`machine, this`past
      ensures Valid() && |world| < old(|world|) && !out.Done?
      ensures out.Raised? ==> Escaped(old(machine.proc), out.transient)
      ensures out.Gone? ==> Over()
    {
      hide Run, Next, Perform, Refuses, StepOp, BundleFits;
      var f := world[0];
      StageMoves(repo, machine, f);
      Take(AddRelease(ReleaseDir(rel.tag), NoManifest));
      out := if f.Raise? then Raised(f.transient) else Gone;
    }

    /** The bundle is staged. */
    method StageTakes(rel: Release, tx: Tx, manifest: Manifest, runtime: map<string, string>) returns (preparing: Tx)
      requires Valid() && InStep() && machine.proc.pc.Stage? && machine.proc.tx == tx && machine.proc.release == rel
      requires world != [] && world[0].Proceed? && world[0].answer == Bundle(manifest, runtime)
      requires BundleFits(repo, machine.proc, disk, manifest)
      modifies this`disk, this`world, this`machine, this`past
      ensures Valid() && |world| < old(|world|)
      ensures machine.proc == old(machine.proc).(pc := OpenJournal, manifest := manifest, runtime := runtime,
                                                 tx := preparing)
      ensures preparing == tx.(previous := preparing.previous)
    {
      hide Run, Next, Perform, Refuses, StepOp, BundleFits;
      StageMoves(repo, machine, world[0]);
      preparing := tx.(previous := disk.current);
      Take(AddRelease(ReleaseDir(rel.tag), manifest));
    }

    /** Downloads and checks the bundle, and unpacks it into its release directory. */
    method StageStep(rel: Release, tx: Tx) returns (out: Outcome, manifest: Manifest, runtime: map<string, string>,
                                                    preparing: Tx)
      requires Valid() && InStep() && machine.proc.pc.Stage? && machine.proc.tx == tx && machine.proc.release == rel
      requires machine.proc.manifest == NoManifest
      modifies this`disk, this`world, this`machine, this`past
      ensures Valid() && |world| <= old(|world|)
      ensures out.Done? ==> machine.proc == old(machine.proc).(pc := OpenJournal, manifest := manifest,
                                                               runtime := runtime, tx := preparing)
                            && preparing == tx.(previous := preparing.previous)
      ensures out.Raised? ==> Escaped(old(machine.proc), out.transient)
      ensures out.Gone? ==> Over()
    {
      hide Run, Next, Perform, Refuses, StepOp, Accepts, BundleFits, Escaped;
      manifest, runtime, preparing := NoManifest, map[], tx;
      var next := Wait();
      if next.None? {
        return Gone, manifest, runtime, preparing;
      }
      var f := next.value;
      if !f.Proceed? {
        out := StageFails(rel);
      } else if !f.answer.Bundle? || !Accepts(rel, tx.commit, f.answer.manifest) {
        AcceptsWhatFits(if f.answer.Bundle? then f.answer.manifest else NoManifest);
        StageRefuses();
        out := Raised(false);
      } else {
        AcceptsWhatFits(f.answer.manifest);
        manifest, runtime := f.answer.manifest, f.answer.runtime;
        preparing := StageTakes(rel, tx, manifest, runtime);
        out := Done;
      }
    }

    /** The checks on a downloaded bundle. */
    predicate Accepts(rel: Release, commit: Commit, m: Manifest)
      reads this
    {
      && ManifestOk(m, repo.name, rel, commit, state)
      && ReleaseDir(rel.tag) !in disk.manifests
      && (state.success.None? && disk.current.Some? ==>
            disk.current.value in disk.manifests && CORE in disk.manifests[disk.current.value].images
            && CoreOk(disk.manifests[disk.current.value].images[CORE], m.images[CORE], m))
    }

    lemma AcceptsWhatFits(m: Manifest)
      requires InStep()
      ensures Accepts(machine.proc.release, machine.proc.tx.commit, m) <==> BundleFits(repo, machine.proc, disk, m)
    {
      hide ManifestOk, CoreOk;
    }

    /** Opens the journal; from here on the transaction is in the hands of apply(). */
    method OpenStep(tx: Tx) returns (out: Outcome)
      requires Valid() && InStep() && machine.proc.pc.OpenJournal? && machine.proc.tx == tx
      modifies this`disk, this`world, this`machine, this`past
      ensures Valid() && |world| <= old(|world|)
      ensures out.Done? ==> machine.proc == old(machine.proc).(pc := MarkApplying, applying := true)
      ensures out.Raised? ==> Escaped(old(machine.proc), false) && !out.transient
      ensures out.Gone? ==> Over()
    {
      hide Run, Perform, Refuses, OnDone, OnRaise, StepOp;
      var next := Wait();
      if next.None? {
        return Gone;
      }
      var f := next.value;
      Journaled(repo, machine.proc, disk, f);
      Take(WriteTx(tx));
      out := if f.Proceed? then Done else if f.Raise? then Raised(false) else Gone;
    }

    /** apply() up to its try block. */
    method PrepareRelease(rel: Release) returns (out: Outcome, tx: Tx, manifest: Manifest, runtime: map<string, string>)
      requires Valid() && InStep() && machine.proc.pc.Resolve? && machine.proc.release == rel
      requires machine.proc.manifest == NoManifest && rel.tag !in state.seen
      modifies this
      ensures Valid() && |world| <= old(|world|)
      ensures out.Done? ==>
                && InStep() && machine.proc.pc.MarkApplying? && machine.proc.applying && machine.proc.tx == tx
                && machine.proc.manifest == manifest && machine.proc.runtime == runtime
                && tx.tag == rel.tag && tx.phase.Preparing?
      ensures out.Raised? ==> Escaped(old(machine.proc), out.transient)
      ensures out.Gone? ==> Over()
      ensures rel.tag !in state.seen
    {
      hide Run, Valid, Over, Escaped;
      ghost var begin := machine.proc;
      manifest, runtime := NoManifest, map[];
      out, tx := ResolveStep(rel);
      ghost var before := begin;
      if out.Done? {
        before := machine.proc;
        out := ObserveStep(tx);
        if out.Done? {
          before := machine.proc;
          out := DescendStep(tx);
        }
      } else if out.Raised? {
        out := Raised(false);
      }
      if out.Done? {
        before := machine.proc;
        out, manifest, runtime, tx := StageStep(rel, tx);
      }
      if out.Done? {
        before := machine.proc;
        out := OpenStep(tx);
      }
      if out.Raised? {
        StillEscaped(begin, before, out.transient);
      }
    }

    lemma StillEscaped(before: Proc, later: Proc, transient: bool)
      requires before.At? && later.At? && later.release == before.release && Escaped(later, transient)
      ensures Escaped(before, transient)
    {
    }

    /** The try block of apply() with its handler. */
    method Transact(preparing: Tx, manifest: Manifest, runtime: map<string, string>) returns (out: Outcome)
      requires Valid() && InStep() && machine.proc.applying && machine.proc.tx == preparing
      requires machine.proc.manifest == manifest && machine.proc.runtime == runtime
      requires if preparing.previous.Some? then machine.proc.pc.CheckRunning? else machine.proc.pc.BeginChanging?
      modifies this
      ensures Valid() && |world| <= old(|world|) && old(state.seen.Keys) <= state.seen.Keys
      ensures out.Done? || out.Raised? ==> machine.proc.Idle?
      ensures out.Gone? ==> Over()
    {
      hide Run, Valid, Handler, Over;
      var tx: Tx;
      out, tx := TryChange(preparing, runtime);
      if out.Done? {
        out, tx := TryPublish(tx, manifest, runtime);
      }
      if out.Raised? {
        out := Handle(tx);
      }
    }

    /** apply(): the whole update to one release. */
    method Apply(rel: Release) returns (out: Outcome)
      requires Valid() && InStep() && machine.proc.pc.Resolve? && machine.proc.release == rel
      requires machine.proc.manifest == NoManifest && rel.tag !in state.seen
      modifies this
      ensures Valid() && |world| <= old(|world|)
      ensures out.Done? ==> machine.proc.Idle?
      ensures out.Raised? ==> Escaped(old(machine.proc), out.transient)
      ensures out.Gone? ==> Over()
    {
      hide Run, Valid, Over, Updated, StateAt, TxAt, JournalPc, Handler;
      var tx, manifest, runtime;
      out, tx, manifest, runtime := PrepareRelease(rel);
      if !out.Done? {
        return;
      }
      out := MarkAs(tx, Applying);
      if out.Done? {
        hide DonePc, RaisePc;
        out := Transact(tx, manifest, runtime);
      }
    }

    /** The exception handler of check(): counts a transient failure, or rejects the release for good. */
    method Dismiss(rel: Release, transient: bool) returns (out: Outcome)
      requires Valid() && InStep() && machine.proc.release == rel && rel.tag !in state.seen
      requires machine.proc.pc == if transient then CountAttempt else Reject
      modifies this
      ensures Valid() && |world| <= old(|world|)
      ensures !out.Done? && (out.Raised? ==> machine.proc.Idle?)
      ensures out.Gone? ==> Over()
    {
      hide Run, Valid, Over, Attempts;
      if transient {
        :- CountFailure(rel);
        if Attempts(state, rel.tag) < 3 {
          return Raised(false);
        }
      }
      out := RejectRelease(rel);
    }

    method CountFailure(rel: Release) returns (out: Outcome)
      requires Valid() && InStep() && machine.proc.release == rel && machine.proc.pc.CountAttempt?
      modifies this
      ensures Valid() && |world| <= old(|world|) && state.seen == old(state).seen
      ensures out.Done? ==> if Attempts(state, rel.tag) < 3 then machine.proc.Idle?
                            else InStep() && machine.proc.release == rel && machine.proc.pc.Reject?
      ensures out.Raised? ==> machine.proc.Idle?
      ensures out.Gone? ==> Over()
    {
      hide Run, Valid, Over, Updated, TxAt, JournalPc, Handler;
      out := Save(state.(attempts := state.attempts[rel.tag := Attempts(state, rel.tag) + 1]));
    }

    method RejectRelease(rel: Release) returns (out: Outcome)
      requires Valid() && InStep() && machine.proc.release == rel && machine.proc.pc.Reject?
      modifies this
      ensures Valid() && |world| <= old(|world|)
      ensures !out.Done? && (out.Raised? ==> machine.proc.Idle?)
      ensures out.Gone? ==> Over()
    {
      hide Run, Valid, Over, Updated, TxAt, JournalPc, Handler;
      :- Save(Mark(state, rel.tag, ObservedCommit(state, rel.tag), rel.published, Rejected));
      out := Raised(false);
    }

    /** check(): one run of the timer. */
    method Check() returns (out: Outcome)
      requires Valid() && InStep() && machine.proc.pc.Enter? && !machine.proc.applying && !machine.proc.recoverOnly
      requires machine.proc.manifest == NoManifest
      modifies this
      ensures Valid() && |world| <= old(|world|)
      ensures Over()
    {
      hide Run, Valid;
      :- Interrupted();
      var best: Option<Release>;
      out, best := SelectStep();
      if !out.Done? || best.None? {
        return;
      }
      out := Apply(best.value);
      if out.Raised? && best.value.tag !in state.seen {
        out := Dismiss(best.value, out.transient);
      }
    }

    /** Starts processes as the timer, or the operator with --recover-only, does, until nothing more happens: the disk
        is in the end exactly what the machine makes of the same history. */
    method Serve()
      requires Valid() && machine.proc.Idle?
      modifies this
      ensures world == [] && machine == Run(repo, origin, schedule) && disk == machine.disk
    {
      hide Run;
      while world != []
        invariant Valid() && Over()
        decreases |world|
      {
        var f := world[0];
        if f.Start? {
          state := disk.state;
          Happened();
          var _ := Process(f.only);
        } else {
          Ignore();
        }
      }
      assert past + [] == past;
    }

    /** One process, from its start to its end. */
    method Process(only: bool) returns (out: Outcome)
      requires Valid() && machine.proc == NewProcess(disk, only) && state == disk.state
      modifies this
      ensures Valid() && |world| <= old(|world|) && Over()
    {
      hide Run, Valid;
      if only {
        out := Interrupted();
      } else {
        out := Check();
      }
    }

    /** While no process runs, only user rows matter. */
    method Ignore()
      requires Valid() && machine.proc.Idle? && world != [] && !world[0].Start?
      modifies this
      ensures Valid() && |world| < old(|world|) && machine.proc.Idle?
    {
      hide Run, Act;
      var f, next := world[0], disk;
      if f.UserRow? && disk.serving {
        next := disk.(database := disk.database.(rows := disk.database.rows + [f.row]));
      }
      Happen();
      disk, world := next, world[1..];
    }
  }
}
