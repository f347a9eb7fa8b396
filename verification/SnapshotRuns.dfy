/** What the marker files of app/ipnx/Machine.swift promise, however the app, the
    user and the simulator interleave and wherever the app dies. */
module SnapshotRuns {
  import opened Basics
  import opened Snapshot

  // ---- the invariant ----

  predicate HandedOver(handed: seq<Handed>, id: nat) { exists i :: 0 <= i < |handed| && handed[i].snap.id == id }

  /** Each snapshot has been handed to restore once at most. */
  predicate OnceEach(handed: seq<Handed>, next: nat) {
    (forall i, j :: 0 <= i < j < |handed| ==> handed[i].snap.id != handed[j].snap.id)
    && forall i :: 0 <= i < |handed| ==> handed[i].snap.id < next
  }

  /** One that has been and is still there has its attempt marker. */
  predicate Marked(snap: Option<Snap>, attempt: bool, handed: seq<Handed>, next: nat) {
    snap.Some? ==> snap.value.id < next && (HandedOver(handed, snap.value.id) ==> attempt)
  }

  predicate Safe(s: State) {
    OnceEach(s.handed, s.nextSnap) && Marked(s.files.snapshot, s.files.attempt, s.handed, s.nextSnap)
  }

  /** The snapshot, if any, has never been handed over. */
  predicate Untried(snap: Option<Snap>, handed: seq<Handed>) { snap.Some? ==> !HandedOver(handed, snap.value.id) }

  predicate Running(p: Phase) { p == Up || p == Pausing || p == Paused }

  predicate ColdTail(pc: Pc) { pc == Launch(false) || pc == Connect(false) || pc == Login }

  predicate WarmTail(pc: Pc) { pc == Connect(true) || pc == Output }

  predicate Next(a: Actor, n: Next) { a == InJob(Drop(n)) || a == InJob(Unmark(n)) }

  predicate ToRestore(s: State) { s.sim.On? && s.sim.restore }

  predicate Asked(s: State) { s.sim.On? && Save in s.sim.inbox }

  /** Something that only a running machine leads to. */
  predicate Lively(s: State) { Running(s.mem.phase) || s.mem.tasks != [] || Asked(s) }

  predicate HandingOk(s: State) {
    (ToRestore(s) || s.mem.main == Launch(true) ==> Untried(s.files.snapshot, s.handed) && (s.files.snapshot.Some? ==> s.files.attempt))
    && (s.mem.actor.InJob? && s.mem.actor.job.Unmark? ==> s.files.snapshot.Some? ==> Untried(s.files.snapshot, s.handed) && !ToRestore(s))
  }

  predicate ActorOk(s: State) {
    (s.mem.actor == InMain <==> Provisions(s.mem.main) && !Suspended(s.mem.main))
    && (s.mem.main != Absent ==> s.mem.started) && (s.mem.restarted ==> s.mem.main != Absent)
    && (s.mem.earlier != Absent ==> s.mem.restarted)
    && (s.mem.earlier == Absent || s.mem.earlier == Ended || WarmTail(s.mem.earlier))
    && (s.mem.exited ==> s.sim.Off?)
  }

  predicate ProvisionOk(s: State) {
    Provisions(s.mem.main) ==>
      s.sim.Off? && !Lively(s) && !s.mem.exited && !Next(s.mem.actor, GoUp) && !Next(s.mem.actor, Restart)
      && (s.mem.restarted ==> s.files.snapshot.None?)
      && (s.mem.main == ColdMark || s.mem.main == StaleMark ==> s.files.snapshot.None?)
      && (s.mem.main == Mark ==> s.files.snapshot.Some? && !s.files.attempt && !s.mem.restarted)
  }

  predicate TailOk(s: State) {
    (ColdTail(s.mem.main) ==> !s.files.attempt && (!s.mem.restarted ==> s.files.snapshot.None?))
    && (Next(s.mem.actor, GoUp) ==> !Provisions(s.mem.main) && (s.mem.restarted || s.mem.main == Ended))
    && (Next(s.mem.actor, Restart) ==>
          s.mem.restarted && s.sim.Off? && !Lively(s) && !s.mem.exited && WarmTail(s.mem.main)
          && (s.mem.actor == InJob(Unmark(Restart)) ==> s.files.snapshot.None?))
    && (!s.mem.restarted && (s.mem.phase == Starting || s.mem.phase == Restoring) ==>
          s.mem.main.Connect? || s.mem.main == Output || Next(s.mem.actor, GoUp) || Next(s.mem.actor, GoFailed))
    && (!s.mem.restarted && Next(s.mem.actor, GoFailed) ==> s.mem.main == Ended && !Lively(s))
    && (!s.mem.restarted && s.mem.main == Absent ==> s.sim.Off? && !s.mem.exited && !Lively(s))
  }

  /** While the machine lives, no marker is on disk and nothing will bring one. */
  predicate LivelyOk(s: State) {
    Lively(s) ==> !s.files.attempt && !Provisions(s.mem.main) && !Next(s.mem.actor, Restart)
                  && (s.mem.restarted || s.mem.main == Ended)
  }

  predicate Inv(s: State) {
    Safe(s) && HandingOk(s) && ActorOk(s) && ProvisionOk(s) && TailOk(s) && LivelyOk(s)
  }

  lemma InitialHolds()
    ensures Inv(INITIAL)
  {
  }

  lemma CrashKeeps(s: State)
    requires Inv(s)
    ensures Inv(Step(s, Crash))
  {
    hide DoJob, Provision, Simulate, Ui, Exited, ResumeOld, ResumeTask, Suspended;
  }

  lemma RestoreKeeps(s: State)
    requires Inv(s)
    ensures Inv(Step(s, SimRestore))
  {
    hide Provision, ResumeOld, ResumeTask, Suspended, Ui, Exited, DoJob, Resume;
    var t := Step(s, SimRestore);
    if ToRestore(s) && s.files.snapshot.Some? {
      assert t.handed[|s.handed|] == Handed(s.files.snapshot.value, s.files.disk);
      assert forall i :: 0 <= i < |s.handed| ==> t.handed[i] == s.handed[i] && s.handed[i].snap.id != s.files.snapshot.value.id;
    }
  }

  lemma SwitchKeeps(s: State)
    requires Inv(s) && s.sim.On? && !s.sim.restore && s.sim.inbox != [] && s.sim.inbox[0] != Save
    ensures Inv(Step(s, SimObey))
  {
    hide OnceEach, Marked, Untried;
  }

  lemma SaveKeeps(s: State)
    requires Inv(s) && s.sim.On? && !s.sim.restore && s.sim.inbox != [] && s.sim.inbox[0] == Save
    ensures Inv(Step(s, SimObey))
  {
  }

  lemma ObeyKeeps(s: State)
    requires Inv(s)
    ensures Inv(Step(s, SimObey))
  {
    hide Inv, Obey;
    if s.sim.On? && !s.sim.restore && s.sim.inbox != [] {
      if s.sim.inbox[0] == Save { SaveKeeps(s); } else { SwitchKeeps(s); }
    }
  }

  lemma WriteKeeps(s: State)
    requires Inv(s)
    ensures Inv(Step(s, SimWrite))
  {
    hide OnceEach, Marked, Untried;
  }

  lemma LeaveKeeps(s: State)
    requires Inv(s)
    ensures Inv(Step(s, SimExit))
  {
    hide OnceEach, Marked, Untried;
  }

  lemma StartKeeps(s: State)
    requires Inv(s) && s.mem.actor == Free && !s.mem.started
    ensures Inv(Ui(s, UiStart))
  {
    hide OnceEach, Marked, Untried;
  }

  lemma BackgroundKeeps(s: State)
    requires Inv(s) && s.mem.actor == Free && s.mem.phase == Up
    ensures Inv(Ui(s, UiBackground))
  {
    hide OnceEach, Marked, Untried;
  }

  lemma ReturnKeeps(s: State)
    requires Inv(s) && s.mem.actor == Free && s.mem.phase == Paused
    ensures Inv(Ui(s, UiForeground))
  {
    hide OnceEach, Marked, Untried;
  }

  lemma HoldKeeps(s: State, job: Job)
    requires Inv(s) && s.mem.actor == Free && (job == Drop(Nothing) || (!job.Drop? && !job.Unmark?))
    ensures Inv(Hold(s, job))
  {
    hide OnceEach, Marked, Untried;
  }

  lemma UiKeeps(s: State, e: Event)
    requires Inv(s) && s.mem.actor == Free
    ensures Inv(Ui(s, e))
  {
    hide Inv, Hold, AddTask, Send;
    match e
    case UiStart => if !s.mem.started { StartKeeps(s); }
    case UiImport => HoldKeeps(s, StageImport);
    case UiReset => HoldKeeps(s, StageReset);
    case UiCancel => HoldKeeps(s, Cancel);
    case UiDiscard => HoldKeeps(s, Drop(Nothing));
    case UiBackground => if s.mem.phase == Up { BackgroundKeeps(s); }
    case UiForeground => if s.mem.phase == Paused { ReturnKeeps(s); }
    case _ =>
  }

  predicate InReset(pc: Pc) { pc == ResetCheck || pc == ResetDisk || pc == ResetMarker || pc == ResetDrop }

  predicate InImport(pc: Pc) { pc == ImportCheck || pc == ImportDisk || pc == ImportMove || pc == ImportDrop }

  predicate InMedia(pc: Pc) {
    InReset(pc) || InImport(pc) || pc == ImageCheck || pc == ImageDisk || pc == ImageDrop || pc == DiskCheck
  }

  /** Where provision() may go from its media block. */
  predicate MediaNext(pc: Pc, a: Actor) { ((InMedia(pc) || pc == Check) && a == InMain) || (pc == Copy && a == Free) }

  /** Only the disk, what is staged and perhaps the snapshot has changed. */
  predicate MediaStep(s: State, t: State) {
    MediaNext(t.mem.main, t.mem.actor) && t.files.attempt == s.files.attempt
    && (t.files.snapshot == s.files.snapshot || t.files.snapshot == None)
    && t == s.(files := t.files, mem := s.mem.(main := t.mem.main, actor := t.mem.actor), nextDisk := t.nextDisk)
  }

  lemma MediaSafe(s: State, t: State)
    requires Inv(s) && s.mem.actor == InMain && InMedia(s.mem.main) && MediaStep(s, t)
    ensures Safe(t) && HandingOk(t)
  {
    hide OnceEach, HandedOver, TailOk, LivelyOk, WarmTail, ColdTail;
  }

  lemma MediaRest(s: State, t: State)
    requires Inv(s) && s.mem.actor == InMain && InMedia(s.mem.main) && MediaStep(s, t)
    ensures ActorOk(t) && ProvisionOk(t) && TailOk(t) && LivelyOk(t)
  {
    hide Safe, HandingOk;
  }

  lemma ResetStep(s: State, ok: bool)
    requires s.mem.actor == InMain && InReset(s.mem.main)
    ensures MediaStep(s, Provision(s, ok))
  {
  }

  lemma ImportStep(s: State, ok: bool)
    requires s.mem.actor == InMain && InImport(s.mem.main)
    ensures MediaStep(s, Provision(s, ok))
  {
  }

  lemma ImageStep(s: State, ok: bool)
    requires s.mem.actor == InMain && InMedia(s.mem.main) && !InReset(s.mem.main) && !InImport(s.mem.main)
    ensures MediaStep(s, Provision(s, ok))
  {
  }

  lemma MediaKeeps(s: State, ok: bool)
    requires Inv(s) && s.mem.actor == InMain && InMedia(s.mem.main)
    ensures Inv(Provision(s, ok))
  {
    hide Safe, HandingOk, ActorOk, ProvisionOk, TailOk, LivelyOk, Provision, InMedia, InReset, InImport, MediaStep;
    if InReset(s.mem.main) { ResetStep(s, ok); } else if InImport(s.mem.main) { ImportStep(s, ok); } else { ImageStep(s, ok); }
    MediaSafe(s, Provision(s, ok));
    MediaRest(s, Provision(s, ok));
  }

  lemma CheckKeeps(s: State, ok: bool)
    requires Inv(s) && s.mem.actor == InMain && s.mem.main == Check
    ensures Inv(Provision(s, ok))
  {
    hide OnceEach, Marked, Untried;
  }

  lemma MarkKeeps(s: State, ok: bool)
    requires Inv(s) && s.mem.actor == InMain && s.mem.main == Mark
    ensures Inv(Provision(s, ok))
  {
    hide OnceEach, HandedOver, Next, WarmTail, Running;
  }

  lemma ColdMarkKeeps(s: State, ok: bool)
    requires Inv(s) && s.mem.actor == InMain && (s.mem.main == ColdMark || s.mem.main == StaleMark)
    ensures Inv(Provision(s, ok))
  {
    hide OnceEach, HandedOver, Next, WarmTail, Running;
  }

  lemma StaleDropKeeps(s: State, ok: bool)
    requires Inv(s) && s.mem.actor == InMain && s.mem.main == StaleDrop
    ensures Inv(Provision(s, ok))
  {
    hide OnceEach, HandedOver, Next, WarmTail, Running;
  }

  lemma LaunchKeeps(s: State, ok: bool)
    requires Inv(s) && s.mem.actor == InMain && s.mem.main.Launch?
    ensures Inv(Provision(s, ok))
  {
    hide OnceEach, Marked, Untried;
  }

  lemma MarkersKeep(s: State, ok: bool)
    requires Inv(s) && s.mem.actor == InMain && !InMedia(s.mem.main)
    ensures Inv(Provision(s, ok))
  {
    hide Inv, Provision;
    ProvisionOnly(s);
    match s.mem.main
    case Check => CheckKeeps(s, ok);
    case ColdMark => ColdMarkKeeps(s, ok);
    case StaleDrop => StaleDropKeeps(s, ok);
    case StaleMark => ColdMarkKeeps(s, ok);
    case Mark => MarkKeeps(s, ok);
    case Launch(_) => LaunchKeeps(s, ok);
  }

  lemma ProvisionOnly(s: State)
    requires Inv(s) && s.mem.actor == InMain
    ensures Provisions(s.mem.main) && !Suspended(s.mem.main)
  {
    hide Safe, HandingOk, ProvisionOk, TailOk, LivelyOk;
  }

  lemma ProvisionKeeps(s: State, ok: bool)
    requires Inv(s) && s.mem.actor == InMain
    ensures Inv(Provision(s, ok))
  {
    hide Inv, Provision;
    if InMedia(s.mem.main) { MediaKeeps(s, ok); } else { MarkersKeep(s, ok); }
  }

  lemma BeginKeeps(s: State, ok: bool)
    requires Inv(s) && s.mem.actor == Free && s.mem.main == Begin
    ensures Inv(Resume(s, ok))
  {
    hide OnceEach, Marked, Untried, Hold, NewDisk, Fail, WarmTail, Answers;
  }

  lemma FailKeeps(s: State)
    requires Inv(s) && s.mem.actor == Free && (s.mem.main == Copy || s.mem.main.Connect? || s.mem.main == Login)
    ensures Inv(Fail(s))
  {
    hide OnceEach, Marked, Untried;
  }

  lemma CopiedKeeps(s: State)
    requires Inv(s) && s.mem.actor == Free && s.mem.main == Copy
    ensures Inv(Take(To(NewDisk(s, true), Check)))
  {
    hide OnceEach, HandedOver, WarmTail;
  }

  lemma CopyKeeps(s: State, ok: bool)
    requires Inv(s) && s.mem.actor == Free && s.mem.main == Copy
    ensures Inv(Resume(s, ok))
  {
    hide Inv, Fail, To, Take, NewDisk;
    if ok { CopiedKeeps(s); } else { FailKeeps(s); }
  }

  lemma WarmKeeps(s: State)
    requires Inv(s) && s.mem.actor == Free && s.mem.main == Connect(true) && s.sim.On?
    ensures Inv(SetPhase(To(s, Output), Restoring))
  {
    hide OnceEach, Marked, Untried;
  }

  lemma ColdKeeps(s: State)
    requires Inv(s) && s.mem.actor == Free && s.mem.main == Connect(false) && s.sim.On?
    ensures Inv(SetPhase(To(s, Login), Booting))
  {
    hide OnceEach, Marked, Untried;
  }

  lemma ConnectKeeps(s: State, ok: bool)
    requires Inv(s) && s.mem.actor == Free && s.mem.main.Connect?
    ensures Inv(Resume(s, ok))
  {
    hide Inv, Fail, To, SetPhase;
    if !Answers(s, ok) { FailKeeps(s); } else if s.mem.main.resuming { WarmKeeps(s); } else { ColdKeeps(s); }
  }

  lemma OutputKeeps(s: State, ok: bool)
    requires Inv(s) && s.mem.actor == Free && s.mem.main == Output
    ensures Inv(Resume(s, ok))
  {
    hide OnceEach, Marked, Untried;
  }

  lemma LoggedInKeeps(s: State)
    requires Inv(s) && s.mem.actor == Free && s.mem.main == Login && s.sim.On?
    ensures Inv(SetPhase(To(s, Ended), Up))
  {
    hide OnceEach, Marked, Untried;
  }

  lemma LoginKeeps(s: State, ok: bool)
    requires Inv(s) && s.mem.actor == Free && s.mem.main == Login
    ensures Inv(Resume(s, ok))
  {
    hide Inv, Fail, To, SetPhase;
    if Answers(s, ok) { LoggedInKeeps(s); } else { FailKeeps(s); }
  }

  lemma ResumeKeeps(s: State, ok: bool)
    requires Inv(s) && s.mem.actor == Free && Suspended(s.mem.main)
    ensures Inv(Resume(s, ok))
  {
    hide Inv, Resume;
    if s.mem.main == Begin { BeginKeeps(s, ok); }
    else if s.mem.main == Copy { CopyKeeps(s, ok); }
    else if s.mem.main.Connect? { ConnectKeeps(s, ok); }
    else if s.mem.main == Output { OutputKeeps(s, ok); }
    else { LoginKeeps(s, ok); }
  }

  lemma ResumeOldKeeps(s: State, ok: bool)
    requires Inv(s) && s.mem.actor == Free
    ensures Inv(ResumeOld(s, ok))
  {
    hide OnceEach, Marked, Untried, Provisions, Suspended, ColdTail;
  }

  lemma DropKeeps(s: State, ok: bool)
    requires Inv(s) && s.mem.actor.InJob? && s.mem.actor.job.Drop?
    ensures Inv(DoJob(s, s.mem.actor.job, ok))
  {
    hide OnceEach, HandedOver;
  }

  lemma GoneUpKeeps(s: State, ok: bool)
    requires Inv(s) && s.mem.actor == InJob(Unmark(GoUp))
    ensures Inv(DoJob(s, s.mem.actor.job, ok))
  {
    hide OnceEach, HandedOver;
  }

  lemma RestartKeeps(s: State, ok: bool)
    requires Inv(s) && s.mem.actor == InJob(Unmark(Restart))
    ensures Inv(DoJob(s, s.mem.actor.job, ok))
  {
    hide OnceEach, HandedOver;
  }

  lemma GivenUpKeeps(s: State, ok: bool)
    requires Inv(s) && s.mem.actor == InJob(Unmark(GoFailed))
    ensures Inv(DoJob(s, s.mem.actor.job, ok))
  {
    hide OnceEach, HandedOver;
  }

  lemma DiscardedKeeps(s: State, ok: bool)
    requires Inv(s) && s.mem.actor == InJob(Unmark(Nothing))
    ensures Inv(DoJob(s, s.mem.actor.job, ok))
  {
    hide OnceEach, HandedOver;
  }

  lemma UnmarkKeeps(s: State, ok: bool)
    requires Inv(s) && s.mem.actor.InJob? && s.mem.actor.job.Unmark?
    ensures Inv(DoJob(s, s.mem.actor.job, ok))
  {
    hide Inv, DoJob;
    match s.mem.actor.job.next
    case Nothing => DiscardedKeeps(s, ok);
    case GoUp => GoneUpKeeps(s, ok);
    case GoFailed => GivenUpKeeps(s, ok);
    case Restart => RestartKeeps(s, ok);
  }

  /** An actor that no clause is about. */
  predicate Plain(a: Actor) { a == Free || (a.InJob? && (a.job == Drop(Nothing) || (!a.job.Drop? && !a.job.Unmark?))) }

  /** Only what is staged changes. */
  lemma StagedFrame(s: State, pending: bool, reset: bool, a: Actor)
    requires Inv(s) && s.mem.actor.InJob? && Plain(s.mem.actor) && Plain(a)
    ensures Inv(s.(files := s.files.(pending := pending, reset := reset), mem := s.mem.(actor := a)))
  {
    hide OnceEach, Marked, Untried;
  }

  lemma StagingKeeps(s: State, ok: bool)
    requires Inv(s) && s.mem.actor.InJob? && !s.mem.actor.job.Drop? && !s.mem.actor.job.Unmark?
    ensures Inv(DoJob(s, s.mem.actor.job, ok))
  {
    hide Inv;
    var f := s.files;
    match s.mem.actor.job
    case StageImport => StagedFrame(s, false, f.reset, InJob(ImportCopied));
    case ImportCopied => if ok { StagedFrame(s, true, f.reset, InJob(ImportCleared)); } else { StagedFrame(s, f.pending, f.reset, Free); }
    case ImportCleared => StagedFrame(s, f.pending, false, InJob(Drop(Nothing)));
    case StageReset => StagedFrame(s, false, f.reset, InJob(ResetCreated));
    case ResetCreated => StagedFrame(s, f.pending, true, InJob(Drop(Nothing)));
    case Cancel => StagedFrame(s, false, f.reset, InJob(CancelReset));
    case CancelReset => StagedFrame(s, f.pending, false, Free);
  }

  lemma JobKeeps(s: State, ok: bool)
    requires Inv(s) && s.mem.actor.InJob?
    ensures Inv(DoJob(s, s.mem.actor.job, ok))
  {
    hide Inv, DoJob;
    var job := s.mem.actor.job;
    if job.Drop? { DropKeeps(s, ok); }
    else if job.Unmark? { UnmarkKeeps(s, ok); }
    else { StagingKeeps(s, ok); }
  }

  lemma ExitKeeps(s: State)
    requires Inv(s) && s.mem.actor == Free && s.mem.exited
    ensures Inv(Exited(s))
  {
    hide OnceEach, Marked, Untried;
  }

  lemma PromptKeeps(s: State, i: nat, ok: bool)
    requires Inv(s) && s.mem.actor == Free && i < |s.mem.tasks| && s.mem.tasks[i] == AwaitPrompt
    ensures Inv(ResumeTask(s, i, ok))
  {
    hide OnceEach, Marked, Untried;
  }

  lemma SavedKeeps(s: State, i: nat, ok: bool)
    requires Inv(s) && s.mem.actor == Free && i < |s.mem.tasks| && s.mem.tasks[i] == AwaitSaved
    ensures Inv(ResumeTask(s, i, ok))
  {
    hide OnceEach, Marked, Untried;
  }

  lemma ForegroundKeeps(s: State, i: nat, ok: bool)
    requires Inv(s) && s.mem.actor == Free && i < |s.mem.tasks| && (s.mem.tasks[i] == Scheduled || s.mem.tasks[i] == AwaitRunning)
    ensures Inv(ResumeTask(s, i, ok))
  {
    hide OnceEach, Marked, Untried, Without, ColdTail, Prompted, Provisions, SetPhase, WarmTail, Suspended;
  }

  lemma TaskKeeps(s: State, i: nat, ok: bool)
    requires Inv(s) && s.mem.actor == Free && i < |s.mem.tasks|
    ensures Inv(ResumeTask(s, i, ok))
  {
    hide Inv, ResumeTask;
    match s.mem.tasks[i]
    case AwaitPrompt => PromptKeeps(s, i, ok);
    case AwaitSaved => SavedKeeps(s, i, ok);
    case _ => ForegroundKeeps(s, i, ok);
  }

  lemma StepKeeps(s: State, e: Event)
    requires Inv(s)
    ensures Inv(Step(s, e))
  {
    hide Inv, Provision, Resume, ResumeOld, DoJob, Exited, ResumeTask, Ui, Simulate, Suspended;
    CrashKeeps(s);
    RestoreKeeps(s);
    ObeyKeeps(s);
    WriteKeeps(s);
    LeaveKeeps(s);
    match e
    case MainStep(ok) =>
      if s.mem.actor == InMain { ProvisionKeeps(s, ok); }
      else if s.mem.actor == Free && Suspended(s.mem.main) { ResumeKeeps(s, ok); }
    case OldStep(ok) => if s.mem.actor == Free { ResumeOldKeeps(s, ok); }
    case JobStep(ok) => if s.mem.actor.InJob? { JobKeeps(s, ok); }
    case TaskStep(i, ok) => if s.mem.actor == Free && i < |s.mem.tasks| { TaskKeeps(s, i, ok); }
    case ExitStep => if s.mem.actor == Free && s.mem.exited { ExitKeeps(s); }
    case _ => if s.mem.actor == Free { UiKeeps(s, e); }
  }
}
