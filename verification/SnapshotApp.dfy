/** The methods of app/ipnx/Machine.swift as the main actor runs them when nothing
    goes wrong in between, tied to the steps of Snapshot: whatever a method leaves
    behind, a run of steps does, and so the app may die at any place in it. */
module SnapshotApp {

  import opened Basics
  import opened Snapshot
  import opened SnapshotRuns

  // ---- stretches of steps ----

  function Rank(pc: Pc): nat {
    match pc
    case Begin => 19
    case ResetCheck => 18
    case ResetDisk => 17
    case ResetMarker => 16
    case ResetDrop => 15
    case ImportCheck => 14
    case ImportDisk => 13
    case ImportMove => 12
    case ImportDrop => 11
    case ImageCheck => 10
    case ImageDisk => 9
    case ImageDrop => 8
    case DiskCheck => 7
    case Copy => 6
    case Check => 5
    case ColdMark => 4
    case StaleDrop => 4
    case StaleMark => 3
    case Mark => 3
    case Launch(_) => 2
    case _ => 1
  }

  predicate Midway(pc: Pc) { Provisions(pc) && pc != Begin && pc != Copy }

  predicate InProvision(s: State) { s.mem.actor == InMain && Midway(s.mem.main) }

  /** provision() and the launch, as far as the next await. */
  function Provisioned(s: State, newer: bool): State
    decreases Rank(s.mem.main)
  {
    if InProvision(s) then ProvisionLowers(s, newer); Provisioned(Provision(s, newer), newer) else s
  }

  function JobRank(job: Job): nat {
    match job
    case StageImport => 5
    case ImportCopied => 4
    case ImportCleared => 3
    case StageReset => 4
    case ResetCreated => 3
    case Drop(_) => 2
    case Cancel => 2
    case _ => 1
  }

  function ActorRank(a: Actor): nat { if a.InJob? then JobRank(a.job) else 0 }

  /** A job to its end. */
  function Settled(s: State, ok: bool): State
    decreases ActorRank(s.mem.actor)
  {
    if s.mem.actor.InJob? then Settled(DoJob(s, s.mem.actor.job, ok), ok) else s
  }

  /** Each is some run of single steps. */
  lemma {:induction false} ProvisionedRuns(s: State, newer: bool) returns (es: seq<Event>)
    ensures Run(s, es) == Provisioned(s, newer)
    decreases Rank(s.mem.main)
  {
    hide Provision;
    if InProvision(s) {
      ProvisionLowers(s, newer);
      var rest := ProvisionedRuns(Provision(s, newer), newer);
      es := [MainStep(newer)] + rest;
      assert es[1..] == rest && Step(s, es[0]) == Provision(s, newer);
    } else {
      es := [];
    }
  }

  lemma MediaLowers(s: State, newer: bool)
    requires InProvision(s) && InMedia(s.mem.main)
    ensures Rank(Provision(s, newer).mem.main) < Rank(s.mem.main)
  {
    hide NewDisk, SetFiles, DropSnapshot, SetAttempt;
  }

  lemma MarksLower(s: State, newer: bool)
    requires InProvision(s) && !InMedia(s.mem.main)
    ensures Rank(Provision(s, newer).mem.main) < Rank(s.mem.main)
  {
    hide NewDisk, SetFiles, DropSnapshot, SetAttempt;
  }

  lemma ProvisionLowers(s: State, newer: bool)
    requires InProvision(s)
    ensures Rank(Provision(s, newer).mem.main) < Rank(s.mem.main)
  {
    hide Provision, Rank, InMedia, Midway;
    if InMedia(s.mem.main) { MediaLowers(s, newer); } else { MarksLower(s, newer); }
  }

  lemma {:induction false} SettledRuns(s: State, ok: bool) returns (es: seq<Event>)
    ensures Run(s, es) == Settled(s, ok)
    decreases ActorRank(s.mem.actor)
  {
    hide DoJob;
    if s.mem.actor.InJob? {
      JobLowers(s, ok);
      var rest := SettledRuns(DoJob(s, s.mem.actor.job, ok), ok);
      es := [JobStep(ok)] + rest;
      assert es[1..] == rest && Step(s, es[0]) == DoJob(s, s.mem.actor.job, ok);
    } else {
      es := [];
    }
  }

  lemma JobLowers(s: State, ok: bool)
    requires s.mem.actor.InJob?
    ensures ActorRank(DoJob(s, s.mem.actor.job, ok).mem.actor) < ActorRank(s.mem.actor)
  {
  }

  // ---- provision(), block by block ----

  lemma Once(s: State, newer: bool)
    requires InProvision(s)
    ensures Provisioned(s, newer) == Provisioned(Provision(s, newer), newer)
  {
  }

  lemma Done(s: State, newer: bool)
    requires !InProvision(s)
    ensures Provisioned(s, newer) == s
  {
  }

  /** The main actor in provision(), at one of its steps. */
  function In(v: State, pc: Pc): State { Take(To(v, pc)) }

  lemma OnceIn(v: State, pc: Pc, newer: bool, w: State, next: Pc)
    requires Midway(pc) && Provision(In(v, pc), newer) == In(w, next)
    ensures Provisioned(In(v, pc), newer) == Provisioned(In(w, next), newer)
  {
    hide Provisioned, Provision;
    Once(In(v, pc), newer);
  }

  function AfterReset(v: State): State {
    if !v.files.reset then v else DropSnapshot(Unreset(NewDisk(v, false)))
  }

  function Unreset(v: State): State { SetFiles(v, v.files.(reset := false)) }

  lemma ResetBlock(v: State, newer: bool)
    ensures Provisioned(In(v, ResetCheck), newer) == Provisioned(In(AfterReset(v), ImportCheck), newer)
  {
    hide Provisioned;
    if v.files.reset {
      var w := NewDisk(v, false);
      OnceIn(v, ResetCheck, newer, v, ResetDisk);
      OnceIn(v, ResetDisk, newer, w, ResetMarker);
      OnceIn(w, ResetMarker, newer, Unreset(w), ResetDrop);
      OnceIn(Unreset(w), ResetDrop, newer, DropSnapshot(Unreset(w)), ImportCheck);
    } else {
      OnceIn(v, ResetCheck, newer, v, ImportCheck);
    }
  }

  function AfterImport(v: State): State {
    if !v.files.pending then v else DropSnapshot(Moved(NewDisk(v, false)))
  }

  function Moved(v: State): State { NewDisk(SetFiles(v, v.files.(pending := false)), true) }

  lemma ImportBlock(v: State, newer: bool)
    ensures Provisioned(In(v, ImportCheck), newer) == Provisioned(In(AfterImport(v), ImageCheck), newer)
  {
    hide Provisioned;
    if v.files.pending {
      var w := NewDisk(v, false);
      OnceIn(v, ImportCheck, newer, v, ImportDisk);
      OnceIn(v, ImportDisk, newer, w, ImportMove);
      OnceIn(w, ImportMove, newer, Moved(w), ImportDrop);
      OnceIn(Moved(w), ImportDrop, newer, DropSnapshot(Moved(w)), ImageCheck);
    } else {
      OnceIn(v, ImportCheck, newer, v, ImageCheck);
    }
  }

  function AfterImage(v: State, newer: bool): State {
    if newer && v.files.present then DropSnapshot(NewDisk(v, false)) else v
  }

  lemma ImageSteps(v: State, newer: bool)
    ensures Provision(In(v, ImageCheck), newer) == In(v, if newer && v.files.present then ImageDisk else DiskCheck)
    ensures Provision(In(v, ImageDisk), newer) == In(NewDisk(v, false), ImageDrop)
    ensures Provision(In(v, ImageDrop), newer) == In(DropSnapshot(v), DiskCheck)
  {
  }

  lemma ImageTaken(v: State, newer: bool)
    requires newer && v.files.present
    ensures Provisioned(In(v, ImageCheck), newer) == Provisioned(In(DropSnapshot(NewDisk(v, false)), DiskCheck), newer)
  {
    hide In, Provisioned, Provision, NewDisk, DropSnapshot;
    var w := NewDisk(v, false);
    ImageSteps(v, newer);
    ImageSteps(w, newer);
    OnceIn(v, ImageCheck, newer, v, ImageDisk);
    OnceIn(v, ImageDisk, newer, w, ImageDrop);
    OnceIn(w, ImageDrop, newer, DropSnapshot(w), DiskCheck);
  }

  lemma ImageBlock(v: State, newer: bool)
    ensures Provisioned(In(v, ImageCheck), newer) == Provisioned(In(AfterImage(v, newer), DiskCheck), newer)
  {
    hide Provisioned, Provision, NewDisk, DropSnapshot;
    if newer && v.files.present {
      ImageTaken(v, newer);
    } else {
      ImageSteps(v, newer);
      OnceIn(v, ImageCheck, newer, v, DiskCheck);
    }
  }

  predicate Tries(f: Files) { f.snapshot.Some? && !f.attempt }

  /** The guard on the snapshot and the attempt marker. */
  function Guarded(v: State): State {
    if Tries(v.files) then SetAttempt(v, true)
    else SetAttempt(if v.files.snapshot.None? then v else DropSnapshot(v), false)
  }

  function Launched(v: State): State {
    SetPhase(To(Guarded(v), Connect(Tries(v.files))), Starting).(sim := On(Tries(v.files), false, []))
  }

  lemma CheckStep(v: State, newer: bool)
    ensures Provision(In(v, Check), newer)
         == In(v, if v.files.snapshot.None? then ColdMark else if v.files.attempt then StaleDrop else Mark)
  {
  }

  lemma MarkSteps(v: State, newer: bool)
    ensures Provision(In(v, ColdMark), newer) == In(SetAttempt(v, false), Launch(false))
    ensures Provision(In(v, Mark), newer) == In(SetAttempt(v, true), Launch(true))
  {
  }

  lemma StaleSteps(v: State, newer: bool)
    ensures Provision(In(v, StaleDrop), newer) == In(DropSnapshot(v), StaleMark)
    ensures Provision(In(v, StaleMark), newer) == In(SetAttempt(v, false), Launch(false))
  {
  }

  lemma GuardTried(v: State, newer: bool)
    requires Tries(v.files)
    ensures Provisioned(In(v, Check), newer) == Provisioned(In(SetAttempt(v, true), Launch(true)), newer)
  {
    hide In, Provisioned, Provision, SetAttempt;
    CheckStep(v, newer);
    MarkSteps(v, newer);
    OnceIn(v, Check, newer, v, Mark);
    OnceIn(v, Mark, newer, SetAttempt(v, true), Launch(true));
  }

  lemma GuardCold(v: State, newer: bool)
    requires v.files.snapshot.None?
    ensures Provisioned(In(v, Check), newer) == Provisioned(In(SetAttempt(v, false), Launch(false)), newer)
  {
    hide In, Provisioned, Provision, SetAttempt;
    CheckStep(v, newer);
    MarkSteps(v, newer);
    OnceIn(v, Check, newer, v, ColdMark);
    OnceIn(v, ColdMark, newer, SetAttempt(v, false), Launch(false));
  }

  lemma GuardStale(v: State, newer: bool)
    requires v.files.snapshot.Some? && v.files.attempt
    ensures Provisioned(In(v, Check), newer) == Provisioned(In(SetAttempt(DropSnapshot(v), false), Launch(false)), newer)
  {
    hide In, Provisioned, Provision, SetAttempt, DropSnapshot;
    var w := DropSnapshot(v);
    CheckStep(v, newer);
    StaleSteps(v, newer);
    StaleSteps(w, newer);
    OnceIn(v, Check, newer, v, StaleDrop);
    OnceIn(v, StaleDrop, newer, w, StaleMark);
    OnceIn(w, StaleMark, newer, SetAttempt(w, false), Launch(false));
  }

  lemma LaunchBlock(v: State, newer: bool)
    requires v.mem.actor == Free
    ensures Provisioned(In(v, Check), newer) == Launched(v)
  {
    hide Provisioned, Provision, DropSnapshot, SetAttempt, In;
    GuardedFree(v);
    if Tries(v.files) { GuardTried(v, newer); } else if v.files.snapshot.None? { GuardCold(v, newer); } else { GuardStale(v, newer); }
    LaunchStep(Guarded(v), Tries(v.files), newer);
  }

  lemma GuardedFree(v: State)
    ensures Guarded(v).mem.actor == v.mem.actor
  {
  }

  lemma LaunchStep(w: State, resuming: bool, newer: bool)
    requires w.mem.actor == Free
    ensures Provisioned(In(w, Launch(resuming)), newer)
         == SetPhase(To(w, Connect(resuming)), Starting).(sim := On(resuming, false, []))
  {
    hide Provisioned;
    var t := In(w, Launch(resuming));
    Once(t, newer);
    Done(Provision(t, newer), newer);
  }

  lemma DiskBlock(v: State, newer: bool)
    requires v.mem.actor == Free
    ensures Provisioned(In(v, DiskCheck), newer) == if v.files.present then Launched(v) else To(v, Copy)
  {
    hide Provisioned, Launched;
    if v.files.present {
      OnceIn(v, DiskCheck, newer, v, Check);
      LaunchBlock(v, newer);
    } else {
      Once(In(v, DiskCheck), newer);
      Done(To(v, Copy), newer);
    }
  }

  // ---- jobs ----

  lemma JobOnce(s: State, ok: bool)
    requires s.mem.actor.InJob?
    ensures Settled(s, ok) == Settled(DoJob(s, s.mem.actor.job, ok), ok)
  {
  }

  lemma JobDone(s: State, ok: bool)
    requires !s.mem.actor.InJob?
    ensures Settled(s, ok) == s
  {
  }

  function Consumed(s: State): State { SetFiles(s, s.files.(snapshot := None, attempt := false)) }

  lemma DropSettles(s: State, next: Next, ok: bool)
    ensures Settled(Hold(s, Drop(next)), ok) == After(Consumed(s), next)
  {
    hide Settled;
    var t := Hold(s, Drop(next));
    JobOnce(t, ok);
    t := DoJob(t, Drop(next), ok);
    JobOnce(t, ok);
    JobDone(After(Consumed(s), next), ok);
  }

  lemma BeginStep(v: State, newer: bool)
    requires v.mem.actor == Free && v.mem.main == Begin
    ensures Step(v, MainStep(newer)) == In(SetPhase(v, Provisioning), ResetCheck)
  {
  }

  lemma OutputStep(v: State, ok: bool)
    requires v.mem.actor == Free && v.mem.main == Output
    ensures Step(v, MainStep(ok)) == Hold(To(v, Ended), Drop(if Answers(v, ok) then GoUp else GoFailed))
  {
  }

  predicate TriesAgain(s: State) {
    (s.mem.phase == Restoring || s.mem.phase == Starting) && !s.mem.restarted && s.files.snapshot.Some?
  }

  lemma ExitStarts(v: State)
    requires v.mem.actor == Free && v.mem.exited && TriesAgain(v)
    ensures Settled(Step(v, ExitStep), true)
         == After(Consumed(v.(mem := v.mem.(exited := false, restarted := true))), Restart)
  {
    hide Settled, After, Consumed;
    DropSettles(v.(mem := v.mem.(exited := false, restarted := true)), Restart, true);
  }

  lemma ExitFails(v: State)
    requires v.mem.actor == Free && v.mem.exited && !TriesAgain(v)
    ensures Settled(Step(v, ExitStep), true) == SetPhase(v.(mem := v.mem.(exited := false)), Failed)
  {
    hide Settled;
    JobDone(Step(v, ExitStep), true);
  }

  /** foreground()'s task is over: the machine runs, or is told to. */
  function Continued(s: State, i: nat, ok: bool): State
    requires i < |s.mem.tasks|
  {
    var t := s.(mem := s.mem.(tasks := Without(s.mem.tasks, i)));
    if ok then t else Send(t, Continue)
  }

  lemma RunningStep(v: State, i: nat, ok: bool)
    requires v.mem.actor == Free && i < |v.mem.tasks| && v.mem.tasks[i] == AwaitRunning
    ensures Step(v, TaskStep(i, ok)) == Hold(Continued(v, i, ok), Drop(GoUp))
  {
    hide Send, Without;
  }

  // ---- the class ----

  /** Between its methods the main actor is free.  The last three fields stand for
      what is on disk and what was restored from it. */
  class Machine {
    var files: Files
    var phase: Phase
    var started: bool
    var restarted: bool
    var main: Pc
    var earlier: Pc
    var tasks: seq<Task>
    var exited: bool
    var sim: Sim
    var nextSnap: nat
    var nextDisk: nat
    var handed: seq<Handed>

    ghost function View(): State
      reads this
    {
      State(files, Memory(phase, started, restarted, main, earlier, tasks, exited, Free), sim, nextSnap, nextDisk, handed)
    }

    constructor ()
      ensures View() == INITIAL
    {
      files := Files(None, false, false, false, 0, false);
      phase, started, restarted, main, earlier, tasks, exited := Idle, false, false, Absent, Absent, [], false;
      sim, nextSnap, nextDisk, handed := Off, 0, 1, [];
    }

    method ChangeDisk(there: bool)
      modifies this`files, this`nextDisk
      ensures View() == NewDisk(old(View()), there)
    {
      files := files.(disk := nextDisk, present := there);
      nextDisk := nextDisk + 1;
    }

    /** start() */
    method Start()
      modifies this`started, this`main
      ensures View() == Step(old(View()), UiStart)
    {
      if started { return; }
      started := true;
      main := Begin;
    }

    /** bringUp() from its start: provision() as far as the copy it awaits, or all
        of it and the launch.  newer says that the bundled image is another one. */
    method BringUp(newer: bool)
      requires main == Begin
      modifies this
      ensures View() == Provisioned(Step(old(View()), MainStep(newer)), newer)
    {
      hide Provisioned, Provision, Launched, Step, In;
      BeginStep(View(), newer);
      phase := Provisioning;
      Freshen(newer);
      DiskBlock(View(), newer);
      if files.present { Launch(); } else { main := Copy; }
    }

    /** What is staged, and a newer image, before the disk is looked at. */
    method Freshen(newer: bool)
      modifies this`files, this`nextDisk
      ensures Provisioned(In(old(View()), ResetCheck), newer) == Provisioned(In(View(), DiskCheck), newer)
    {
      hide Provisioned, AfterReset, AfterImport, AfterImage, In;
      ResetBlock(View(), newer);
      ApplyReset();
      ImportBlock(View(), newer);
      ApplyImport();
      ImageBlock(View(), newer);
      ApplyImage(newer);
    }

    method ApplyReset()
      modifies this`files, this`nextDisk
      ensures View() == AfterReset(old(View()))
    {
      if files.reset {
        ChangeDisk(false);
        files := files.(reset := false);
        files := files.(snapshot := None);
      }
    }

    method ApplyImport()
      modifies this`files, this`nextDisk
      ensures View() == AfterImport(old(View()))
    {
      if files.pending {
        ChangeDisk(false);
        files := files.(pending := false);
        ChangeDisk(true);
        files := files.(snapshot := None);
      }
    }

    method ApplyImage(newer: bool)
      modifies this`files, this`nextDisk
      ensures View() == AfterImage(old(View()), newer)
    {
      if newer && files.present {
        ChangeDisk(false);
        files := files.(snapshot := None);
      }
    }

    /** The end of provision(): a snapshot is tried once, and the simulator starts. */
    method Launch()
      modifies this`files, this`phase, this`main, this`sim
      ensures View() == Launched(old(View()))
    {
      var resuming := Resuming();
      phase := Starting;
      main := Connect(resuming);
      sim := On(resuming, false, []);
    }

    method Resuming() returns (resuming: bool)
      modifies this`files
      ensures resuming == Tries(old(files)) && View() == Guarded(old(View()))
    {
      if files.snapshot.None? {
        files := files.(attempt := false);
        return false;
      }
      if files.attempt {
        files := files.(snapshot := None);
        files := files.(attempt := false);
        return false;
      }
      files := files.(attempt := true);
      return true;
    }

    /** provision() after the copy of the bundled disk, which may have failed. */
    method AfterCopy(ok: bool)
      requires main == Copy
      modifies this
      ensures View() == Provisioned(Step(old(View()), MainStep(ok)), ok)
    {
      hide Provisioned, Provision;
      if !ok {
        phase, main := Failed, Ended;
        Done(View(), ok);
        return;
      }
      ChangeDisk(true);
      assert Step(old(View()), MainStep(ok)) == In(View(), Check);
      LaunchBlock(View(), ok);
      Launch();
    }

    /** bringUp() after console and control are connected, or are not. */
    method AfterConnect(ok: bool)
      requires main.Connect?
      modifies this`phase, this`main
      ensures View() == Step(old(View()), MainStep(ok))
    {
      if !(ok && sim.On?) {
        phase, main := Failed, Ended;
      } else if main.resuming {
        phase, main := Restoring, Output;
      } else {
        phase, main := Booting, Login;
      }
    }

    /** bringUp() after a restored machine said something, or did not. */
    method AfterOutput(ok: bool)
      requires main == Output
      modifies this`phase, this`main, this`files
      ensures View() == Settled(Step(old(View()), MainStep(ok)), ok)
    {
      hide Settled, DoJob, Step, Consumed;
      OutputStep(View(), ok);
      var spoke := ok && sim.On?;
      main := Ended;
      DropSettles(View(), if spoke then GoUp else GoFailed, ok);
      ConsumeSnapshot();
      phase := if spoke then Up else Failed;
    }

    /** bringUp() after the login prompt, or its timeout. */
    method AfterLogin(ok: bool)
      requires main == Login
      modifies this`phase, this`main
      ensures View() == Step(old(View()), MainStep(ok))
    {
      hide NewDisk, Simulate, ResumeOld, Hold, Ui, ResumeTask, Provision, Take, DoJob;
      main := Ended;
      phase := if ok && sim.On? then Up else Failed;
    }

    /** consumeSnapshot() */
    method ConsumeSnapshot()
      modifies this`files
      ensures View() == Settled(Step(old(View()), UiDiscard), true)
      ensures View() == Consumed(old(View()))
    {
      hide Settled, DoJob, Provision;
      DropSettles(View(), Nothing, true);
      files := files.(snapshot := None);
      files := files.(attempt := false);
    }

    /** stageImport(); the copy may fail. */
    method StageDisk(copied: bool)
      modifies this`files
      ensures View() == Settled(Step(old(View()), UiImport), copied)
    {
      hide Settled, DoJob, Provision;
      var s := files;
      ImportSettles(View(), copied);
      files := files.(pending := false);
      if !copied { return; }
      files := files.(pending := true);
      files := files.(reset := false);
      ConsumeSnapshot();
    }

    /** stageReset() */
    method StageFresh()
      modifies this`files
      ensures View() == Settled(Step(old(View()), UiReset), true)
    {
      hide Settled, DoJob, Provision;
      ResetSettles(View());
      files := files.(pending := false);
      files := files.(reset := true);
      ConsumeSnapshot();
    }

    /** cancelStagedChanges() */
    method CancelStaged()
      modifies this`files
      ensures View() == Settled(Step(old(View()), UiCancel), true)
    {
      hide Settled, DoJob, Provision;
      CancelSettles(View());
      files := files.(pending := false);
      files := files.(reset := false);
    }

    /** simhExited() */
    method SimhExited()
      requires exited
      modifies this
      ensures View() == Settled(Step(old(View()), ExitStep), true)
    {
      hide Settled, Step, After, Consumed;
      if TriesAgain(View()) { ExitStarts(View()); } else { ExitFails(View()); }
      exited := false;
      if (phase == Restoring || phase == Starting) && !restarted && files.snapshot.Some? {
        restarted := true;
        ConsumeSnapshot();
        StartAgain();
        return;
      }
      phase := Failed;
    }

    method StartAgain()
      modifies this
      ensures View() == After(old(View()), Restart)
    {
      phase := Idle;
      started := false;
      earlier := main;
      Start();
    }

    /** A line to the control console. */
    method Tell(o: Order)
      modifies this`sim
      ensures View() == Send(old(View()), o)
    {
      if sim.On? { sim := sim.(inbox := sim.inbox + [o]); }
    }

    /** background() to its first wait, for the simulator's prompt. */
    method Background()
      modifies this`phase, this`tasks, this`sim
      ensures View() == Step(old(View()), UiBackground)
    {
      if phase != Up { return; }
      phase := Pausing;
      tasks := tasks + [AwaitPrompt];
      Tell(Stop);
    }

    /** background() after the prompt, or its timeout: the save is asked for. */
    method AfterPrompt(i: nat, ok: bool)
      requires i < |tasks| && tasks[i] == AwaitPrompt
      modifies this`phase, this`tasks, this`sim
      ensures View() == Step(old(View()), TaskStep(i, ok))
    {
      tasks := Without(tasks, i);
      if ok && sim.On? && sim.stopped {
        tasks := tasks + [AwaitSaved];
        Tell(Save);
      } else {
        phase := Up;
      }
    }

    /** background() after the save, or when it gives up on it and lets the machine
        go on. */
    method AfterSave(i: nat, ok: bool)
      requires i < |tasks| && tasks[i] == AwaitSaved
      modifies this`phase, this`tasks, this`sim
      ensures View() == Step(old(View()), TaskStep(i, ok))
    {
      hide Without, Exited, Resume, Send, Provision, DoJob, ResumeOld, AddTask, Simulate, Prompted;
      tasks := Without(tasks, i);
      if ok && sim.On? && Save !in sim.inbox {
        phase := Paused;
      } else {
        Tell(Continue);
        phase := Up;
      }
    }

    /** foreground() */
    method Foreground()
      modifies this`tasks
      ensures View() == Step(old(View()), UiForeground)
    {
      if phase == Paused { tasks := tasks + [Scheduled]; }
    }

    /** foreground()'s task, to its wait. */
    method GoOn(i: nat, ok: bool)
      requires i < |tasks| && tasks[i] == Scheduled
      modifies this`tasks, this`sim
      ensures View() == Step(old(View()), TaskStep(i, ok))
    {
      tasks := Without(tasks, i) + [AwaitRunning];
      Tell(Continue);
    }

    method TrustToRun(i: nat, ok: bool)
      requires i < |tasks|
      modifies this`tasks, this`sim
      ensures View() == Continued(old(View()), i, ok)
    {
      hide Send, Without;
      tasks := Without(tasks, i);
      if !ok { Tell(Continue); }
    }

    /** foreground() once the machine runs, or is trusted to. */
    method AfterContinue(i: nat, ok: bool)
      requires i < |tasks| && tasks[i] == AwaitRunning
      modifies this`phase, this`tasks, this`files, this`sim
      ensures View() == Settled(Step(old(View()), TaskStep(i, ok)), true)
    {
      hide Settled, Step, Consumed, Continued;
      RunningStep(View(), i, ok);
      TrustToRun(i, ok);
      DropSettles(View(), GoUp, true);
      ConsumeSnapshot();
      phase := Up;
    }
  }

  lemma ImportSettles(s: State, copied: bool)
    requires s.mem.actor == Free
    ensures Settled(Step(s, UiImport), copied)
         == if copied then Settled(Step(SetFiles(s, s.files.(pending := true, reset := false)), UiDiscard), true)
            else SetFiles(s, s.files.(pending := false))
  {
    hide Settled;
    var t := Step(s, UiImport);
    JobOnce(t, copied);
    t := DoJob(t, t.mem.actor.job, copied);
    JobOnce(t, copied);
    t := DoJob(t, t.mem.actor.job, copied);
    if copied {
      JobOnce(t, copied);
      t := DoJob(t, t.mem.actor.job, copied);
      assert t == Step(SetFiles(s, s.files.(pending := true, reset := false)), UiDiscard);
    } else {
      JobDone(t, copied);
    }
  }

  lemma ResetSettles(s: State)
    requires s.mem.actor == Free
    ensures Settled(Step(s, UiReset), true)
         == Settled(Step(SetFiles(s, s.files.(pending := false, reset := true)), UiDiscard), true)
  {
    hide Settled;
    var t := Step(s, UiReset);
    JobOnce(t, true);
    t := DoJob(t, t.mem.actor.job, true);
    JobOnce(t, true);
    t := DoJob(t, t.mem.actor.job, true);
    assert t == Step(SetFiles(s, s.files.(pending := false, reset := true)), UiDiscard);
  }

  lemma CancelSettles(s: State)
    requires s.mem.actor == Free
    ensures Settled(Step(s, UiCancel), true) == SetFiles(s, s.files.(pending := false, reset := false))
  {
    hide Settled;
    var t := Step(s, UiCancel);
    JobOnce(t, true);
    t := DoJob(t, t.mem.actor.job, true);
    JobOnce(t, true);
    t := DoJob(t, t.mem.actor.job, true);
    JobDone(t, true);
  }
}
