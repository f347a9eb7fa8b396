/** The saved session of app/ipnx/Machine.swift: marker files, launches, suspends
    and staged media, one file operation at a time.  The app may die between any
    two steps; the simulator runs beside it. */
module Snapshot {

  import opened Basics

  /** state.sav: which save it is, and the disk as it was then. */
  datatype Snap = Snap(id: nat, disk: nat)

  /** The support directory.  disk counts the changes to the working disk. */
  datatype Files = Files(snapshot: Option<Snap>, attempt: bool, reset: bool, pending: bool, disk: nat, present: bool)

  datatype Phase = Idle | Provisioning | Starting | Booting | Restoring | Up | Pausing | Paused | Failed

  /** Where bringUp() is: the steps of provision() in order, then the launch, then
      what it waits for. */
  datatype Pc =
    | Absent
    | Begin                                              // scheduled by start()
    | ResetCheck | ResetDisk | ResetMarker | ResetDrop
    | ImportCheck | ImportDisk | ImportMove | ImportDrop
    | ImageCheck | ImageDisk | ImageDrop
    | DiskCheck
    | Copy                                               // awaits the copy of the bundled disk
    | Check | ColdMark | StaleDrop | StaleMark | Mark
    | Launch(resuming: bool)
    | Connect(resuming: bool)                            // awaits console and control
    | Output                                             // awaits any output
    | Login                                              // awaits the login prompt
    | Ended

  /** What follows consumeSnapshot(). */
  datatype Next = Nothing | GoUp | GoFailed | Restart

  /** Short stretches that hold the main actor to their end. */
  datatype Job =
    | Drop(next: Next)                                   // remove the snapshot...
    | Unmark(next: Next)                                 // ...then the attempt marker
    | StageImport | ImportCopied | ImportCleared
    | StageReset | ResetCreated
    | Cancel | CancelReset

  /** background() and foreground() where they await; foreground()'s task is first
      scheduled. */
  datatype Task = AwaitPrompt | AwaitSaved | Scheduled | AwaitRunning

  /** What is sent to the simulator's control console. */
  datatype Order = Stop | Save | Continue

  /** The main actor is free, in provision(), or in a job. */
  datatype Actor = Free | InMain | InJob(job: Job)

  /** Still to restore; stopped at its prompt; what it has been sent and not yet
      obeyed. */
  datatype Sim = Off | On(restore: bool, stopped: bool, inbox: seq<Order>)

  /** What dies with the app. */
  datatype Memory = Memory(phase: Phase, started: bool, restarted: bool, main: Pc, earlier: Pc, tasks: seq<Task>, exited: bool, actor: Actor)

  const FRESH := Memory(Idle, false, false, Absent, Absent, [], false, Free)

  /** A snapshot handed to restore, and the disk it was restored over. */
  datatype Handed = Handed(snap: Snap, disk: nat)

  datatype State = State(files: Files, mem: Memory, sim: Sim, nextSnap: nat, nextDisk: nat, handed: seq<Handed>)

  const INITIAL := State(Files(None, false, false, false, 0, false), FRESH, Off, 0, 1, [])

  datatype Event =
    | UiStart | UiImport | UiReset | UiCancel | UiDiscard | UiBackground | UiForeground
    | MainStep(ok: bool)          // ok: how what it waited for came out
    | OldStep(ok: bool)
    | JobStep(ok: bool)
    | TaskStep(i: nat, ok: bool)
    | ExitStep                    // simhExited()
    | SimRestore | SimObey | SimWrite | SimExit
    | Crash

  // ---- file operations ----

  function SetFiles(s: State, f: Files): State { s.(files := f) }

  /** The working disk is now another one, or gone. */
  function NewDisk(s: State, present: bool): State {
    s.(files := s.files.(disk := s.nextDisk, present := present), nextDisk := s.nextDisk + 1)
  }

  function DropSnapshot(s: State): State { SetFiles(s, s.files.(snapshot := None)) }

  function SetAttempt(s: State, on: bool): State { SetFiles(s, s.files.(attempt := on)) }

  function To(s: State, pc: Pc): State { s.(mem := s.mem.(main := pc)) }

  function Hold(s: State, job: Job): State { s.(mem := s.mem.(actor := InJob(job))) }

  function Release(s: State): State { s.(mem := s.mem.(actor := Free)) }

  function Take(s: State): State { s.(mem := s.mem.(actor := InMain)) }

  function SetPhase(s: State, p: Phase): State { s.(mem := s.mem.(phase := p)) }

  // ---- bringUp() ----

  predicate Suspended(pc: Pc) { pc == Begin || pc == Copy || pc.Connect? || pc == Output || pc == Login }

  /** provision() has it, from start() to the launch. */
  predicate Provisions(pc: Pc) {
    pc != Absent && !pc.Connect? && pc != Output && pc != Login && pc != Ended
  }

  /** One step of provision() and the launch; ok answers the outside questions: a
      newer image is bundled, the copy succeeded. */
  function Provision(s: State, ok: bool): State {
    var f := s.files;
    match s.mem.main
    case ResetCheck => To(s, if f.reset then ResetDisk else ImportCheck)
    case ResetDisk => To(NewDisk(s, false), ResetMarker)
    case ResetMarker => To(SetFiles(s, f.(reset := false)), ResetDrop)
    case ResetDrop => To(DropSnapshot(s), ImportCheck)
    case ImportCheck => To(s, if f.pending then ImportDisk else ImageCheck)
    case ImportDisk => To(NewDisk(s, false), ImportMove)
    case ImportMove => To(NewDisk(SetFiles(s, f.(pending := false)), true), ImportDrop)
    case ImportDrop => To(DropSnapshot(s), ImageCheck)
    case ImageCheck => To(s, if ok && f.present then ImageDisk else DiskCheck)
    case ImageDisk => To(NewDisk(s, false), ImageDrop)
    case ImageDrop => To(DropSnapshot(s), DiskCheck)
    case DiskCheck => if f.present then To(s, Check) else Release(To(s, Copy))
    case Check => To(s, if f.snapshot.None? then ColdMark else if f.attempt then StaleDrop else Mark)
    case ColdMark => To(SetAttempt(s, false), Launch(false))
    case StaleDrop => To(DropSnapshot(s), StaleMark)
    case StaleMark => To(SetAttempt(s, false), Launch(false))
    case Mark => To(SetAttempt(s, true), Launch(true))
    case Launch(resuming) =>
      var t := SetPhase(Release(To(s, Connect(resuming))), Starting);
      t.(sim := On(resuming, false, []))
    case _ => s
  }

  /** A wait can only end well if a simulator is there to answer. */
  predicate Answers(s: State, ok: bool) { ok && s.sim.On? }

  function Fail(s: State): State { SetPhase(To(s, Ended), Failed) }

  /** bringUp() after an await. */
  function Resume(s: State, ok: bool): State {
    match s.mem.main
    case Begin => SetPhase(Take(To(s, ResetCheck)), Provisioning)
    case Copy => if ok then Take(To(NewDisk(s, true), Check)) else Fail(s)
    case Connect(resuming) =>
      if !Answers(s, ok) then Fail(s)
      else if resuming then SetPhase(To(s, Output), Restoring)
      else SetPhase(To(s, Login), Booting)
    case Output => Hold(To(s, Ended), Drop(if Answers(s, ok) then GoUp else GoFailed))
    case Login => if Answers(s, ok) then SetPhase(To(s, Ended), Up) else Fail(s)
    case _ => s
  }

  /** A bringUp() that a restart has left behind: it still waits. */
  function ResumeOld(s: State, ok: bool): State {
    match s.mem.earlier
    case Connect(_) =>
      s.(mem := if Answers(s, ok) then s.mem.(phase := Restoring, earlier := Output)
                else s.mem.(phase := Failed, earlier := Ended))
    case Output => Hold(s.(mem := s.mem.(earlier := Ended)), Drop(if Answers(s, ok) then GoUp else GoFailed))
    case _ => s
  }

  // ---- jobs ----

  function After(s: State, next: Next): State {
    match next
    case Nothing => Release(s)
    case GoUp => SetPhase(Release(s), Up)
    case GoFailed => SetPhase(Release(s), Failed)
    case Restart => s.(mem := s.mem.(phase := Idle, started := true, earlier := s.mem.main, main := Begin, actor := Free))
  }

  function DoJob(s: State, job: Job, ok: bool): State {
    var f := s.files;
    match job
    case Drop(next) => Hold(DropSnapshot(s), Unmark(next))
    case Unmark(next) => After(SetAttempt(s, false), next)
    case StageImport => Hold(SetFiles(s, f.(pending := false)), ImportCopied)
    case ImportCopied => if ok then Hold(SetFiles(s, f.(pending := true)), ImportCleared) else Release(s)
    case ImportCleared => Hold(SetFiles(s, f.(reset := false)), Drop(Nothing))
    case StageReset => Hold(SetFiles(s, f.(pending := false)), ResetCreated)
    case ResetCreated => Hold(SetFiles(s, f.(reset := true)), Drop(Nothing))
    case Cancel => Hold(SetFiles(s, f.(pending := false)), CancelReset)
    case CancelReset => Release(SetFiles(s, f.(reset := false)))
  }

  /** simhExited() */
  function Exited(s: State): State {
    var t := s.(mem := s.mem.(exited := false));
    if (s.mem.phase == Restoring || s.mem.phase == Starting) && !s.mem.restarted && s.files.snapshot.Some?
    then Hold(t.(mem := t.mem.(restarted := true)), Drop(Restart))
    else SetPhase(t, Failed)
  }

  function Without(ts: seq<Task>, i: nat): seq<Task>
    requires i < |ts|
  {
    ts[..i] + ts[i + 1..]
  }

  function AddTask(s: State, p: Phase, t: Task): State { s.(mem := s.mem.(phase := p, tasks := s.mem.tasks + [t])) }

  function Send(s: State, o: Order): State { if s.sim.On? then s.(sim := s.sim.(inbox := s.sim.inbox + [o])) else s }

  /** The simulator has stopped, or has obeyed every save it was sent. */
  predicate Prompted(s: State, ok: bool) { Answers(s, ok) && s.sim.stopped }

  predicate Saved(s: State, ok: bool) { Answers(s, ok) && Save !in s.sim.inbox }

  /** background() and foreground() after an await.  A save that comes too late is
      given up on, and so is a machine that does not say it runs. */
  function ResumeTask(s: State, i: nat, ok: bool): State
    requires i < |s.mem.tasks|
  {
    var t := s.(mem := s.mem.(tasks := Without(s.mem.tasks, i)));
    match s.mem.tasks[i]
    case AwaitPrompt => if Prompted(s, ok) then Send(AddTask(t, t.mem.phase, AwaitSaved), Save) else SetPhase(t, Up)
    case AwaitSaved => if Saved(s, ok) then SetPhase(t, Paused) else SetPhase(Send(t, Continue), Up)
    case Scheduled => Send(AddTask(t, t.mem.phase, AwaitRunning), Continue)
    case AwaitRunning => Hold(if ok then t else Send(t, Continue), Drop(GoUp))
  }

  // ---- the machine ----

  function Ui(s: State, e: Event): State {
    match e
    case UiStart => if s.mem.started then s else To(s.(mem := s.mem.(started := true)), Begin)
    case UiImport => Hold(s, StageImport)
    case UiReset => Hold(s, StageReset)
    case UiCancel => Hold(s, Cancel)
    case UiDiscard => Hold(s, Drop(Nothing))
    case UiBackground => if s.mem.phase == Up then Send(AddTask(s, Pausing, AwaitPrompt), Stop) else s
    case UiForeground => if s.mem.phase == Paused then AddTask(s, Paused, Scheduled) else s
    case _ => s
  }

  /** A save is only heeded at the prompt. */
  function Obey(s: State, o: Order): State
    requires s.sim.On?
  {
    match o
    case Stop => s.(sim := s.sim.(stopped := true))
    case Continue => s.(sim := s.sim.(stopped := false))
    case Save =>
      if !s.sim.stopped then s
      else s.(files := s.files.(snapshot := Some(Snap(s.nextSnap, s.files.disk))), nextSnap := s.nextSnap + 1)
  }

  /** What the simulator does, whatever the app is doing: a stopped one writes
      nothing. */
  function Simulate(s: State, e: Event): State {
    if s.sim.Off? then s
    else
      match e
      case SimRestore =>
        if !s.sim.restore then s
        else if s.files.snapshot.None? then s.(sim := s.sim.(restore := false))
        else s.(sim := s.sim.(restore := false), handed := s.handed + [Handed(s.files.snapshot.value, s.files.disk)])
      case SimObey => if s.sim.restore || s.sim.inbox == [] then s else Obey(s.(sim := s.sim.(inbox := s.sim.inbox[1..])), s.sim.inbox[0])
      case SimWrite => if s.sim.restore || s.sim.stopped then s else NewDisk(s, s.files.present)
      case SimExit => s.(sim := Off, mem := s.mem.(exited := true))
      case _ => s
  }

  function Step(s: State, e: Event): State {
    match e
    case Crash => s.(mem := FRESH, sim := Off)
    case SimRestore => Simulate(s, e)
    case SimObey => Simulate(s, e)
    case SimWrite => Simulate(s, e)
    case SimExit => Simulate(s, e)
    case MainStep(ok) =>
      if s.mem.actor == InMain then Provision(s, ok)
      else if s.mem.actor == Free && Suspended(s.mem.main) then Resume(s, ok)
      else s
    case JobStep(ok) => if s.mem.actor.InJob? then DoJob(s, s.mem.actor.job, ok) else s
    case OldStep(ok) => if s.mem.actor == Free then ResumeOld(s, ok) else s
    case TaskStep(i, ok) => if s.mem.actor == Free && i < |s.mem.tasks| then ResumeTask(s, i, ok) else s
    case ExitStep => if s.mem.actor == Free && s.mem.exited then Exited(s) else s
    case _ => if s.mem.actor == Free then Ui(s, e) else s
  }

  function Run(s: State, es: seq<Event>): State
    decreases |es|
  {
    if es == [] then s else Run(Step(s, es[0]), es[1..])
  }
}
