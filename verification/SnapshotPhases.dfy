/** What the phase on the screen tells of where the launch is, and what a launch left
    behind by the cold restart still makes of it. */
module SnapshotPhases {
  import opened Basics
  import opened Snapshot
  import opened SnapshotRuns
  import opened SnapshotTheorems

  predicate Ending(a: Actor) { SnapshotRuns.Next(a, GoUp) || SnapshotRuns.Next(a, GoFailed) }

  /** Before the first restart: the phase follows the launch from step to step, a failure
      may show at any time after it, and only a machine that came up is up or suspended. */
  predicate Tells(m: Memory) {
    match m.main
    case Absent => m.phase == Idle
    case Begin => m.phase == Idle
    case Connect(_) => m.phase == Starting || m.phase == Failed
    case Output => m.phase == Restoring || m.phase == Failed
    case Login => m.phase == Booting || m.phase == Failed
    case Ended => m.phase == Failed || Running(m.phase) || (m.phase == Restoring && Ending(m.actor))
    case _ => m.phase == Provisioning
  }

  predicate Told(s: State) { !s.mem.restarted ==> Tells(s.mem) }

  lemma ProvisionTold(s: State, ok: bool)
    requires Told(s) && Provisions(s.mem.main) && !Suspended(s.mem.main)
    ensures Told(Provision(s, ok))
  {
    hide NewDisk, DropSnapshot, SetAttempt, SetFiles;
    FilesOnly(s);
  }

  /** None of these changes what the app remembers. */
  lemma FilesOnly(s: State)
    ensures forall b :: NewDisk(s, b).mem == s.mem && SetAttempt(s, b).mem == s.mem
    ensures DropSnapshot(s).mem == s.mem && forall f :: SetFiles(s, f).mem == s.mem && forall b :: NewDisk(SetFiles(s, f), b).mem == s.mem
  {
  }

  lemma ResumeTold(s: State, ok: bool)
    requires Told(s) && s.mem.actor == Free && Suspended(s.mem.main)
    ensures Told(Resume(s, ok))
  {
    hide NewDisk, Running, Tells;
    FilesOnly(s);
    UpRuns();
    if !s.mem.restarted {
      var t := Resume(s, ok);
      ResumeIs(s, ok);
      TellsSo(t.mem);
    }
  }

  predicate Ready(main: Pc, phase: Phase, actor: Actor) {
    (main == ResetCheck && phase == Provisioning) || (main == Check && phase == Provisioning) || (main == Ended && phase == Failed)
    || (main == Output && phase == Restoring) || (main == Login && phase == Booting) || (main == Ended && phase == Up)
    || (main == Ended && (phase == Restoring || phase == Failed) && Ending(actor))
  }

  lemma TellsSo(m: Memory)
    requires Ready(m.main, m.phase, m.actor)
    ensures Tells(m)
  {
  }

  lemma ResumeIs(s: State, ok: bool)
    requires Tells(s.mem) && s.mem.actor == Free && Suspended(s.mem.main)
    ensures var m := Resume(s, ok).mem; m.restarted == s.mem.restarted && Ready(m.main, m.phase, m.actor)
  {
    hide NewDisk, Running;
    FilesOnly(s);
  }

  lemma InMainIs(s: State)
    requires Inv(s)
    ensures s.mem.actor == InMain <==> Provisions(s.mem.main) && !Suspended(s.mem.main)
  {
    hide Safe, HandingOk, TailOk, ProvisionOk, LivelyOk, Suspended;
  }

  lemma MainTold(s: State, ok: bool)
    requires Inv(s) && Told(s)
    ensures Told(Step(s, MainStep(ok)))
  {
    hide Inv, Told, Provision, Resume, Provisions, Suspended;
    InMainIs(s);
    if s.mem.actor == InMain {
      ProvisionTold(s, ok);
    } else if s.mem.actor == Free && Suspended(s.mem.main) {
      ResumeTold(s, ok);
    }
  }

  /** The launch is over when its last job is. */
  lemma EndingEnded(s: State)
    requires Inv(s) && !s.mem.restarted
    ensures Ending(s.mem.actor) ==> s.mem.main == Ended
    ensures !SnapshotRuns.Next(s.mem.actor, Restart)
    ensures s.mem.tasks != [] ==> s.mem.main == Ended
  {
    hide Safe, HandingOk, ActorOk, ProvisionOk;
  }

  lemma JobTold(s: State, ok: bool)
    requires Inv(s) && Told(s)
    ensures Told(Step(s, JobStep(ok)))
  {
    hide Inv, Told, DoJob;
    if s.mem.actor.InJob? {
      if !s.mem.restarted { EndingEnded(s); }
      var job := s.mem.actor.job;
      if job.Unmark? { FinishTold(s, job.next, ok); } else { HoldTold(s, job, ok); }
    }
  }

  /** Between the pieces of a job nothing shows. */
  lemma HoldTold(s: State, job: Job, ok: bool)
    requires Told(s) && s.mem.actor == InJob(job) && !job.Unmark?
    ensures Told(DoJob(s, job, ok))
  {
    hide Running, DropSnapshot, SetFiles;
    FilesOnly(s);
    var t := DoJob(s, job, ok);
    assert t.mem == s.mem.(actor := t.mem.actor);
  }

  lemma FinishTold(s: State, next: Snapshot.Next, ok: bool)
    requires Told(s) && s.mem.actor == InJob(Unmark(next)) && (!s.mem.restarted ==> next != Restart && (next != Nothing ==> s.mem.main == Ended))
    ensures Told(DoJob(s, Unmark(next), ok))
  {
    hide Running, SetAttempt;
    FilesOnly(s);
    UpRuns();
  }

  lemma UpRuns()
    ensures Running(Up) && Running(Pausing) && Running(Paused)
  {
  }

  lemma TaskTold(s: State, i: nat, ok: bool)
    requires Inv(s) && Told(s)
    ensures Told(Step(s, TaskStep(i, ok)))
  {
    hide Inv, Prompted, Saved, Without, Running, Tells;
    if s.mem.actor == Free && i < |s.mem.tasks| {
      if !s.mem.restarted {
        EndingEnded(s);
        EndedTells(s.mem, ResumeTask(s, i, ok).mem);
      }
    }
  }

  lemma EndedTells(m: Memory, n: Memory)
    requires Tells(m) && m.main == n.main == Ended && m.actor == Free && (n.phase == Up || n.phase == Paused || n.phase == m.phase)
    ensures Tells(n)
  {
    hide Running;
    UpRuns();
  }

  /** A simulator that is gone was launched. */
  lemma ExitedLaunched(s: State)
    requires Inv(s) && !s.mem.restarted && s.mem.exited
    ensures s.mem.main.Connect? || s.mem.main == Output || s.mem.main == Login || s.mem.main == Ended
  {
    hide Safe, HandingOk, LivelyOk;
  }

  lemma Unlaunched(s: State)
    requires Inv(s)
    ensures s.mem.main != Absent ==> s.mem.started
    ensures s.mem.earlier != Absent ==> s.mem.restarted
  {
    hide Safe, HandingOk, LivelyOk, TailOk, ProvisionOk;
  }

  lemma UiTold(s: State, e: Event)
    requires Inv(s) && Told(s) && s.mem.actor == Free
    ensures Told(Ui(s, e))
  {
    hide Inv, Running;
    UpRuns();
    Unlaunched(s);
  }

  lemma ExitTold(s: State)
    requires Inv(s) && Told(s) && s.mem.actor == Free && s.mem.exited
    ensures Told(Exited(s))
  {
    hide Inv, Running;
    if !s.mem.restarted { ExitedLaunched(s); }
  }

  lemma OldTold(s: State, ok: bool)
    requires Inv(s) && Told(s)
    ensures Told(ResumeOld(s, ok))
  {
    hide Inv, Running, Tells;
    Unlaunched(s);
  }

  lemma SimulatorTold(s: State, e: Event)
    requires Told(s) && (e == SimRestore || e == SimObey || e == SimWrite || e == SimExit)
    ensures Told(Simulate(s, e))
  {
    hide Running, NewDisk, Tells;
    FilesOnly(s);
    var t := Simulate(s, e);
    assert t.mem == s.mem.(exited := t.mem.exited);
    SameTold(s.mem, t.mem);
  }

  lemma SameTold(m: Memory, n: Memory)
    requires n == m.(exited := n.exited)
    ensures Tells(n) <==> Tells(m)
  {
    hide Running;
  }

  lemma OthersTold(s: State, e: Event)
    requires Inv(s) && Told(s) && !e.MainStep? && !e.JobStep? && !e.TaskStep?
    ensures Told(Step(s, e))
  {
    hide Inv, Simulate, Exited, ResumeOld, Ui, Running;
    match e
    case Crash =>
    case OldStep(ok) => OldTold(s, ok);
    case ExitStep => if s.mem.actor == Free && s.mem.exited { ExitTold(s); }
    case SimRestore => SimulatorTold(s, e);
    case SimObey => SimulatorTold(s, e);
    case SimWrite => SimulatorTold(s, e);
    case SimExit => SimulatorTold(s, e);
    case _ => if s.mem.actor == Free { UiTold(s, e); }
  }

  lemma StepTold(s: State, e: Event)
    requires Inv(s) && Told(s)
    ensures Told(Step(s, e))
  {
    hide Inv, Told, Step;
    match e
    case MainStep(ok) => MainTold(s, ok);
    case JobStep(ok) => JobTold(s, ok);
    case TaskStep(i, ok) => TaskTold(s, i, ok);
    case _ => OthersTold(s, e);
  }

  lemma {:induction false} RunTold(s: State, es: seq<Event>)
    requires Inv(s) && Told(s)
    ensures Told(Run(s, es))
    decreases |es|
  {
    hide Inv, Told, Step;
    if es != [] {
      StepKeeps(s, es[0]);
      StepTold(s, es[0]);
      RunTold(Step(s, es[0]), es[1..]);
    }
  }

  /** Over every run, as long as no restore has been given up for a cold restart since the
      app began. */
  lemma PhaseTells(es: seq<Event>)
    requires !Run(INITIAL, es).mem.restarted
    ensures Tells(Run(INITIAL, es).mem)
  {
    hide Run, Inv, Tells;
    InitialHolds();
    InitialTold();
    RunTold(INITIAL, es);
  }

  lemma InitialTold()
    ensures Told(INITIAL)
  {
  }

  /** The cold restart begins again as if nothing had been, and leaves the wait it was in
      behind. */
  lemma RestartBegins(s: State, ok: bool)
    requires s.mem.actor == InJob(Unmark(Restart))
    ensures var t := Step(s, JobStep(ok));
            t.mem == s.mem.(phase := Idle, started := true, earlier := s.mem.main, main := Begin, actor := Free)
            && t.files == s.files.(attempt := false) && t.sim == s.sim
  {
  }

  /** That wait goes on: if the new simulator answers it, the phase says that a session is
      being restored though the machine boots cold, and if it does not, that it failed. */
  lemma LeftBehind(s: State, ok: bool)
    requires s.mem.actor == Free && s.mem.earlier.Connect?
    ensures var t := Step(s, OldStep(ok));
            var answered := ok && s.sim.On?;
            t == s.(mem := s.mem.(phase := if answered then Restoring else Failed, earlier := if answered then Output else Ended))
  {
  }

  // ---- suspending and going on ----

  /** What is sent to the simulator after each wait: a save at its prompt, to go on when the
      save came too late or the user is back, and again when it does not say that it runs. */
  function Sent(sim: Sim, t: Task, ok: bool): seq<Order>
    requires sim.On?
  {
    match t
    case AwaitPrompt => if ok && sim.stopped then [Save] else []
    case AwaitSaved => if ok && Save !in sim.inbox then [] else [Continue]
    case Scheduled => [Continue]
    case AwaitRunning => if ok then [] else [Continue]
  }

  /** And what is shown: up again if it was no use, suspended once saved. */
  function Shown(was: Phase, sim: Sim, t: Task, ok: bool): Phase
    requires sim.On?
  {
    match t
    case AwaitPrompt => if ok && sim.stopped then was else Up
    case AwaitSaved => if ok && Save !in sim.inbox then Paused else Up
    case _ => was
  }

  /** What is waited for next. */
  function Waits(sim: Sim, t: Task, ok: bool): multiset<Task>
    requires sim.On?
  {
    match t
    case AwaitPrompt => if ok && sim.stopped then multiset{AwaitSaved} else multiset{}
    case Scheduled => multiset{AwaitRunning}
    case _ => multiset{}
  }

  lemma WithoutIs(ts: seq<Task>, i: nat, more: seq<Task>)
    requires i < |ts|
    ensures multiset(Without(ts, i) + more) == multiset(ts) - multiset{ts[i]} + multiset(more)
  {
    assert ts == ts[..i] + [ts[i]] + ts[i + 1..];
  }

  predicate Does(s: State, t: State, task: Task, ok: bool)
    requires s.sim.On?
  {
    t.sim == s.sim.(inbox := s.sim.inbox + Sent(s.sim, task, ok)) && t.mem.phase == Shown(s.mem.phase, s.sim, task, ok)
    && multiset(t.mem.tasks) == multiset(s.mem.tasks) - multiset{task} + Waits(s.sim, task, ok)
    && t.mem.actor == (if task == AwaitRunning then InJob(Drop(GoUp)) else s.mem.actor) && t.files == s.files
  }

  lemma PromptDoes(s: State, i: nat, ok: bool)
    requires i < |s.mem.tasks| && s.sim.On? && s.mem.tasks[i] == AwaitPrompt
    ensures Does(s, ResumeTask(s, i, ok), AwaitPrompt, ok)
  {
    hide Without;
    NothingSent(s);
    WithoutIs(s.mem.tasks, i, []);
    WithoutIs(s.mem.tasks, i, [AwaitSaved]);
  }

  lemma SavedDoes(s: State, i: nat, ok: bool)
    requires i < |s.mem.tasks| && s.sim.On? && s.mem.tasks[i] == AwaitSaved
    ensures Does(s, ResumeTask(s, i, ok), AwaitSaved, ok)
  {
    hide Without;
    NothingSent(s);
    WithoutIs(s.mem.tasks, i, []);
  }

  lemma BackDoes(s: State, i: nat, ok: bool)
    requires i < |s.mem.tasks| && s.sim.On? && (s.mem.tasks[i] == Scheduled || s.mem.tasks[i] == AwaitRunning)
    ensures Does(s, ResumeTask(s, i, ok), s.mem.tasks[i], ok)
  {
    hide Without;
    NothingSent(s);
    WithoutIs(s.mem.tasks, i, []);
    WithoutIs(s.mem.tasks, i, [AwaitRunning]);
  }

  lemma NothingSent(s: State)
    requires s.sim.On?
    ensures s.sim == s.sim.(inbox := s.sim.inbox + []) && forall ts: seq<Task> :: ts + [] == ts
  {
    assert s.sim.inbox + [] == s.sim.inbox;
  }

  /** background() and foreground() after each wait. */
  lemma TaskDoes(s: State, i: nat, ok: bool)
    requires s.mem.actor == Free && i < |s.mem.tasks| && s.sim.On?
    ensures Does(s, Step(s, TaskStep(i, ok)), s.mem.tasks[i], ok)
  {
    hide ResumeTask, Does;
    match s.mem.tasks[i]
    case AwaitPrompt => PromptDoes(s, i, ok);
    case AwaitSaved => SavedDoes(s, i, ok);
    case _ => BackDoes(s, i, ok);
  }
}
