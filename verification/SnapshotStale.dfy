/** Exactly which launches of app/ipnx/Machine.swift can restore a snapshot over a disk
    that it does not belong to, and runs that lead to one. */
module SnapshotStale {
  import opened Basics
  import opened Snapshot
  import opened SnapshotRuns
  import opened SnapshotTheorems

  // ---- runs of one launch ----

  /** The app does not die, and nobody stages media or takes that back. */
  predicate Calm(e: Event) { !e.Crash? && !e.UiImport? && !e.UiReset? && !e.UiCancel? }

  predicate AllCalm(es: seq<Event>) { forall i :: 0 <= i < |es| ==> Calm(es[i]) }

  lemma {:induction false} RunConcat(s: State, a: seq<Event>, b: seq<Event>)
    ensures Run(s, a + b) == Run(Run(s, a), b)
    decreases |a|
  {
    hide Step;
    if a == [] {
      assert a + b == b;
    } else {
      assert (a + b)[0] == a[0] && (a + b)[1..] == a[1..] + b;
      RunConcat(Step(s, a[0]), a[1..], b);
    }
  }

  ghost predicate Leads(s: State, t: State) { exists es :: AllCalm(es) && Run(s, es) == t }

  lemma LeadsOn(s: State, t: State, e: Event)
    requires Leads(s, t) && Calm(e)
    ensures Leads(s, Step(t, e))
  {
    hide Step;
    var es :| AllCalm(es) && Run(s, es) == t;
    RunConcat(s, es, [e]);
    assert Run(t, [e]) == Run(Step(t, e), [][..]) == Step(t, e);
    assert AllCalm(es + [e]) && Run(s, es + [e]) == Step(t, e);
  }

  lemma LeadsSelf(s: State)
    ensures Leads(s, s)
  {
    assert AllCalm([]) && Run(s, []) == s;
  }

  function Mains(s: State, n: nat): State
    decreases n
  {
    if n == 0 then s else Step(Mains(s, n - 1), MainStep(false))
  }

  lemma {:induction false} LeadsMains(s: State, t: State, n: nat)
    requires Leads(s, t)
    ensures Leads(s, Mains(t, n))
    decreases n
  {
    hide Step;
    if n > 0 {
      LeadsMains(s, t, n - 1);
      LeadsOn(s, Mains(t, n - 1), MainStep(false));
    }
  }

  /** Nothing stands between a launch and a restore. */
  predicate Bootable(f: Files) { f.snapshot.Some? && !f.attempt && !f.reset && !f.pending && f.present }

  lemma OneMain(s: State)
    requires s.mem.actor == InMain
    ensures s.mem.main == ResetCheck && !s.files.reset ==> Step(s, MainStep(false)) == To(s, ImportCheck)
    ensures s.mem.main == ImportCheck && !s.files.pending ==> Step(s, MainStep(false)) == To(s, ImageCheck)
    ensures s.mem.main == ImageCheck ==> Step(s, MainStep(false)) == To(s, DiskCheck)
    ensures s.mem.main == DiskCheck ==> Step(s, MainStep(false)) == if s.files.present then To(s, Check) else Release(To(s, Copy))
  {
  }

  lemma BeginMain(s: State)
    requires s.mem.actor == Free && s.mem.main == Begin
    ensures Step(s, MainStep(false)) == SetPhase(Take(To(s, ResetCheck)), Provisioning)
  {
  }

  /** Nothing staged: provision() comes to the disk as it found it. */
  lemma ThroughMedia(s: State)
    requires s.mem.actor == Free && s.mem.main == Begin && !s.files.reset && !s.files.pending
    ensures var t := SetPhase(To(s, DiskCheck), Provisioning);
            Mains(s, 5) == if s.files.present then Take(To(t, Check)) else To(t, Copy)
  {
    hide Mains, Step;
    var s1 := SetPhase(Take(To(s, ResetCheck)), Provisioning);
    BeginMain(s);
    OneMain(s1);
    OneMain(To(s1, ImportCheck));
    OneMain(To(s1, ImageCheck));
    OneMain(To(s1, DiskCheck));
    FiveMains(s, s1, To(s1, ImportCheck), To(s1, ImageCheck), To(s1, DiskCheck));
  }

  lemma FiveMains(s: State, s1: State, s2: State, s3: State, s4: State)
    requires s1 == Step(s, MainStep(false)) && s2 == Step(s1, MainStep(false))
    requires s3 == Step(s2, MainStep(false)) && s4 == Step(s3, MainStep(false))
    ensures Mains(s, 5) == Step(s4, MainStep(false))
  {
    hide Step;
    assert Mains(s, 0) == s && Mains(s, 1) == s1 && Mains(s, 2) == s2 && Mains(s, 3) == s3 && Mains(s, 4) == s4;
  }

  lemma ThreeMains(s: State, s1: State, s2: State)
    requires s1 == Step(s, MainStep(false)) && s2 == Step(s1, MainStep(false))
    ensures Mains(s, 3) == Step(s2, MainStep(false))
  {
    hide Step;
    assert Mains(s, 0) == s && Mains(s, 1) == s1 && Mains(s, 2) == s2;
  }

  lemma MarkMain(s: State)
    requires s.mem.actor == InMain
    ensures s.mem.main == Check && s.files.snapshot.Some? && !s.files.attempt ==> Step(s, MainStep(false)) == To(s, Mark)
    ensures s.mem.main == Mark ==> Step(s, MainStep(false)) == To(SetAttempt(s, true), Launch(true))
    ensures s.mem.main == Launch(true) ==>
              Step(s, MainStep(false)) == SetPhase(Release(To(s, Connect(true))), Starting).(sim := On(true, false, []))
  {
    hide DoJob, Exited, SetAttempt, To, ResumeOld, Simulate, Ui, ResumeTask, Resume;
  }

  lemma ToTheRestore(s: State)
    requires s.mem.actor == InMain && s.mem.main == Check && s.files.snapshot.Some? && !s.files.attempt && s.sim.Off?
    ensures var t := Step(Mains(s, 3), SimRestore);
            t.handed == s.handed + [Handed(s.files.snapshot.value, s.files.disk)]
  {
    hide Mains, Step;
    var s2 := To(SetAttempt(s, true), Launch(true));
    assert s2 == To(SetAttempt(To(s, Mark), true), Launch(true));
    MarkMain(s);
    MarkMain(To(s, Mark));
    MarkMain(s2);
    ThreeMains(s, To(s, Mark), s2);
    RestoreHands(Mains(s, 3));
  }

  lemma RestoreHands(s: State)
    requires s.sim.On? && s.sim.restore && s.files.snapshot.Some?
    ensures Step(s, SimRestore).handed == s.handed + [Handed(s.files.snapshot.value, s.files.disk)]
  {
  }

  /** A launch with a snapshot, no marker and nothing staged goes on to restore it,
      over the disk as it is. */
  lemma LaunchRestores(s: State)
    requires s.mem == FRESH && s.sim.Off? && Bootable(s.files)
    ensures exists t :: Leads(s, t) && t.handed == s.handed + [Handed(s.files.snapshot.value, s.files.disk)]
  {
    LeadsSelf(s);
    LeadsOn(s, s, UiStart);
    var s1 := Step(s, UiStart);
    LeadsMains(s, s1, 5);
    ThroughMedia(s1);
    var s2 := Mains(s1, 5);
    LeadsMains(s, s2, 3);
    ToTheRestore(s2);
    LeadsOn(s, Mains(s2, 3), SimRestore);
    assert Step(Mains(s2, 3), SimRestore).handed == s.handed + [Handed(s.files.snapshot.value, s.files.disk)];
  }

  /** A launch that finds no disk copies a new one, and restores the old snapshot
      over it. */
  lemma LaunchCopies(s: State)
    requires s.mem == FRESH && s.sim.Off? && !s.files.reset && !s.files.pending && !s.files.present
    requires s.files.snapshot.Some? && !s.files.attempt
    ensures exists t :: Leads(s, t) && t.handed == s.handed + [Handed(s.files.snapshot.value, s.nextDisk)]
  {
    hide Mains, Leads, AllCalm;
    LeadsSelf(s);
    LeadsOn(s, s, UiStart);
    var s2 := Step(s, UiStart);
    LeadsMains(s, s2, 5);
    ThroughMedia(s2);
    var s3 := Mains(s2, 5);
    LeadsOn(s, s3, MainStep(true));
    var s4 := Step(s3, MainStep(true));
    LeadsMains(s, s4, 3);
    ToTheRestore(s4);
    LeadsOn(s, Mains(s4, 3), SimRestore);
    assert Step(Mains(s4, 3), SimRestore).handed == s.handed + [Handed(s.files.snapshot.value, s.nextDisk)];
  }

  // ---- exactly which launches ----

  /** What a launch could look up in its support directory: a snapshot that nothing
      will drop, and the working disk another than the snapshot's, or gone. */
  predicate Stale(f: Files) {
    f.snapshot.Some? && !f.attempt && !f.reset && !f.pending && (f.present ==> f.snapshot.value.disk != f.disk)
  }

  /** A snapshot handed over since the n-th, over a disk not its own. */
  predicate Mismatched(handed: seq<Handed>, n: nat) {
    exists i :: n <= i < |handed| && handed[i].snap.disk != handed[i].disk
  }

  /** Disks are numbered as they come. */
  predicate Numbered(s: State) {
    s.files.disk < s.nextDisk && (s.files.snapshot.Some? ==> s.files.snapshot.value.disk < s.nextDisk)
  }

  lemma TasksNumbered(s: State, i: nat, ok: bool)
    requires Numbered(s) && i < |s.mem.tasks|
    ensures Numbered(ResumeTask(s, i, ok))
  {
  }

  lemma SimNumbered(s: State, e: Event)
    requires Numbered(s)
    ensures Numbered(Simulate(s, e))
  {
  }

  lemma ResetNumbered(s: State, ok: bool)
    requires Numbered(s) && InReset(s.mem.main)
    ensures Numbered(Provision(s, ok))
  {
  }

  lemma ImportNumbered(s: State, ok: bool)
    requires Numbered(s) && InImport(s.mem.main)
    ensures Numbered(Provision(s, ok))
  {
  }

  lemma ImageNumbered(s: State, ok: bool)
    requires Numbered(s) && InMedia(s.mem.main) && !InReset(s.mem.main) && !InImport(s.mem.main)
    ensures Numbered(Provision(s, ok))
  {
  }

  lemma MediaNumbered(s: State, ok: bool)
    requires Numbered(s) && InMedia(s.mem.main)
    ensures Numbered(Provision(s, ok))
  {
    hide Numbered, Provision, InMedia, InReset, InImport;
    if InReset(s.mem.main) { ResetNumbered(s, ok); } else if InImport(s.mem.main) { ImportNumbered(s, ok); } else { ImageNumbered(s, ok); }
  }

  lemma MarksNumbered(s: State, ok: bool)
    requires Numbered(s) && !InMedia(s.mem.main)
    ensures Numbered(Provision(s, ok))
  {
    hide NewDisk, WarmTail, ColdTail;
  }

  lemma MainNumbered(s: State, ok: bool)
    requires Numbered(s)
    ensures Numbered(Provision(s, ok))
  {
    hide Numbered, Provision, InMedia;
    if InMedia(s.mem.main) { MediaNumbered(s, ok); } else { MarksNumbered(s, ok); }
  }

  lemma ResumeNumbered(s: State, ok: bool)
    requires Numbered(s)
    ensures Numbered(Resume(s, ok))
  {
  }

  lemma OldNumbered(s: State, ok: bool)
    requires Numbered(s)
    ensures Numbered(ResumeOld(s, ok)) && Numbered(Exited(s))
  {
  }

  lemma DropNumbered(s: State, ok: bool)
    requires Numbered(s)
    ensures s.mem.actor.InJob? && (s.mem.actor.job.Drop? || s.mem.actor.job.Unmark?) ==> Numbered(DoJob(s, s.mem.actor.job, ok))
  {
  }

  lemma JobNumbered(s: State, ok: bool)
    requires Numbered(s)
    ensures s.mem.actor.InJob? ==> Numbered(DoJob(s, s.mem.actor.job, ok))
  {
    hide After;
    DropNumbered(s, ok);
  }

  lemma UiNumbered(s: State, e: Event)
    requires Numbered(s)
    ensures Numbered(Ui(s, e))
  {
  }

  lemma StepNumbered(s: State, e: Event)
    requires Numbered(s)
    ensures Numbered(Step(s, e))
  {
    hide Provision, Resume, ResumeOld, DoJob, Exited, ResumeTask, Ui, Simulate, Suspended;
    SimNumbered(s, e);
    UiNumbered(s, e);
    match e
    case MainStep(ok) => MainNumbered(s, ok); ResumeNumbered(s, ok);
    case OldStep(ok) => OldNumbered(s, ok);
    case JobStep(ok) => JobNumbered(s, ok);
    case ExitStep => OldNumbered(s, false);
    case TaskStep(i, ok) => if i < |s.mem.tasks| { TasksNumbered(s, i, ok); }
    case _ =>
  }

  lemma {:induction false} RunNumbered(s: State, es: seq<Event>)
    requires Numbered(s)
    ensures Numbered(Run(s, es))
    decreases |es|
  {
    hide Step, Numbered;
    if es != [] {
      StepNumbered(s, es[0]);
      RunNumbered(Step(s, es[0]), es[1..]);
    }
  }

  // ---- a stale one can be restored ----

  lemma StaleLeads(s: State)
    requires s.mem == FRESH && s.sim.Off? && Stale(s.files) && Numbered(s)
    ensures exists t :: Leads(s, t) && Mismatched(t.handed, |s.handed|)
  {
    hide Leads, Mains;
    if s.files.present {
      LaunchRestores(s);
      var t :| Leads(s, t) && t.handed == s.handed + [Handed(s.files.snapshot.value, s.files.disk)];
      assert t.handed[|s.handed|].snap.disk != t.handed[|s.handed|].disk;
    } else {
      LaunchCopies(s);
      var t :| Leads(s, t) && t.handed == s.handed + [Handed(s.files.snapshot.value, s.nextDisk)];
      assert t.handed[|s.handed|].snap.disk != t.handed[|s.handed|].disk;
    }
  }

  // ---- no other can ----

  /** The snapshot, if any, is the present disk's. */
  predicate Fine(f: Files) { f.snapshot.Some? ==> f.present && f.snapshot.value.disk == f.disk }

  /** provision() is yet to drop the snapshot. */
  predicate WillDrop(pc: Pc, f: Files) {
    match pc
    case Absent => f.reset || f.pending || f.attempt
    case Begin => f.reset || f.pending || f.attempt
    case ResetCheck => f.reset || f.pending || f.attempt
    case ResetDisk => true
    case ResetMarker => true
    case ResetDrop => true
    case ImportCheck => f.pending || f.attempt
    case ImportDisk => true
    case ImportMove => true
    case ImportDrop => true
    case ImageCheck => f.attempt
    case ImageDisk => true
    case ImageDrop => true
    case DiskCheck => f.attempt
    case Copy => f.attempt
    case Check => f.attempt
    case StaleDrop => true
    case _ => false
  }

  /** Before the launch. */
  predicate Early(pc: Pc) { pc == Absent || Provisions(pc) }

  predicate Harmless(s: State) {
    (Early(s.mem.main) ==> Fine(s.files) || WillDrop(s.mem.main, s.files))
    && (ToRestore(s) ==> Fine(s.files))
    && (s.mem.main == Copy ==> !s.files.present)
    && (s.mem.actor.InJob? ==> s.mem.actor.job.Drop? || s.mem.actor.job.Unmark?)
    && (Early(s.mem.main) && s.mem.actor.InJob? && s.mem.actor.job.Unmark? ==> s.files.snapshot.None?)
    && (s.mem.main == Absent ==> !s.mem.restarted)
  }

  lemma HarmlessReset(s: State, ok: bool)
    requires Harmless(s) && s.mem.actor == InMain && InReset(s.mem.main) && s.sim.Off?
    ensures Harmless(Provision(s, ok))
  {
    hide InImport, InMedia, WarmTail, ColdTail;
  }

  lemma HarmlessImport(s: State, ok: bool)
    requires Harmless(s) && s.mem.actor == InMain && InImport(s.mem.main) && s.sim.Off?
    ensures Harmless(Provision(s, ok))
  {
    hide InReset, InMedia, WarmTail, ColdTail;
  }

  lemma HarmlessImage(s: State, ok: bool)
    requires Harmless(s) && s.mem.actor == InMain && InMedia(s.mem.main) && !InReset(s.mem.main) && !InImport(s.mem.main) && s.sim.Off?
    ensures Harmless(Provision(s, ok))
  {
    hide WarmTail, ColdTail;
  }

  lemma HarmlessMedia(s: State, ok: bool)
    requires Harmless(s) && s.mem.actor == InMain && InMedia(s.mem.main) && s.sim.Off?
    ensures Harmless(Provision(s, ok))
  {
    hide Harmless, Provision, InMedia, InReset, InImport;
    if InReset(s.mem.main) { HarmlessReset(s, ok); }
    else if InImport(s.mem.main) { HarmlessImport(s, ok); }
    else { HarmlessImage(s, ok); }
  }

  lemma HarmlessMarks(s: State, ok: bool)
    requires Harmless(s) && ProvisionOk(s) && s.mem.actor == InMain && !InMedia(s.mem.main) && Provisions(s.mem.main)
    ensures Harmless(Provision(s, ok))
  {
    hide Lively, Provisions;
  }

  lemma HarmlessStart(s: State, ok: bool)
    requires Harmless(s) && ProvisionOk(s) && s.mem.actor == Free && (s.mem.main == Begin || s.mem.main == Copy)
    ensures Harmless(Resume(s, ok))
  {
    hide Lively, WarmTail, ColdTail;
  }

  lemma HarmlessTail(s: State, ok: bool)
    requires Harmless(s) && s.mem.actor == Free && Suspended(s.mem.main) && s.mem.main != Begin && s.mem.main != Copy
    ensures Harmless(Resume(s, ok))
  {
    hide WillDrop, Fine, WarmTail, ColdTail;
  }

  lemma HarmlessResume(s: State, ok: bool)
    requires Harmless(s) && ProvisionOk(s) && s.mem.actor == Free && Suspended(s.mem.main)
    ensures Harmless(Resume(s, ok))
  {
    hide Harmless, ProvisionOk, Resume, Suspended;
    if s.mem.main == Begin || s.mem.main == Copy { HarmlessStart(s, ok); } else { HarmlessTail(s, ok); }
  }

  lemma HarmlessOld(s: State, ok: bool)
    requires Harmless(s) && s.mem.actor == Free
    ensures Harmless(ResumeOld(s, ok))
  {
    hide Answers, Early;
  }

  lemma HarmlessJob(s: State, ok: bool)
    requires Harmless(s) && TailOk(s) && s.mem.actor.InJob?
    ensures Harmless(DoJob(s, s.mem.actor.job, ok))
  {
    hide Early, Provisions, WarmTail, ColdTail;
  }

  /** Nothing that matters here changes but the actor. */
  predicate SameHarm(s: State, t: State) {
    t.files == s.files && t.mem.main == s.mem.main && t.mem.restarted == s.mem.restarted && (ToRestore(t) ==> ToRestore(s))
    && (t.mem.actor.InJob? ==> t.mem.actor.job.Drop?)
  }

  lemma HarmlessSame(s: State, t: State)
    requires Harmless(s) && SameHarm(s, t)
    ensures Harmless(t)
  {
    hide WillDrop, Early, Fine, ToRestore;
  }

  lemma SuspendSame(s: State, i: nat, ok: bool)
    requires s.mem.actor == Free && i < |s.mem.tasks| && (s.mem.tasks[i] == AwaitPrompt || s.mem.tasks[i] == AwaitSaved)
    ensures SameHarm(s, ResumeTask(s, i, ok))
  {
    hide Prompted, Saved, Without;
  }

  lemma ReturnSame(s: State, i: nat, ok: bool)
    requires s.mem.actor == Free && i < |s.mem.tasks| && (s.mem.tasks[i] == Scheduled || s.mem.tasks[i] == AwaitRunning)
    ensures SameHarm(s, ResumeTask(s, i, ok))
  {
    hide Prompted, Saved, Without;
  }

  lemma TaskSame(s: State, i: nat, ok: bool)
    requires s.mem.actor == Free && i < |s.mem.tasks|
    ensures SameHarm(s, ResumeTask(s, i, ok))
  {
    hide SameHarm, ResumeTask;
    if s.mem.tasks[i] == AwaitPrompt || s.mem.tasks[i] == AwaitSaved { SuspendSame(s, i, ok); } else { ReturnSame(s, i, ok); }
  }

  lemma HarmlessTask(s: State, i: nat, ok: bool)
    requires Harmless(s) && s.mem.actor == Free && i < |s.mem.tasks|
    ensures Harmless(ResumeTask(s, i, ok))
  {
    hide Harmless, SameHarm, ResumeTask;
    TaskSame(s, i, ok);
    HarmlessSame(s, ResumeTask(s, i, ok));
  }

  lemma HarmlessExit(s: State)
    requires Harmless(s) && TailOk(s) && ProvisionOk(s) && s.mem.actor == Free && s.mem.exited
    ensures Harmless(Exited(s))
  {
  }

  lemma HarmlessUi(s: State, e: Event)
    requires Harmless(s) && ActorOk(s) && s.mem.actor == Free && Calm(e)
    ensures Harmless(Ui(s, e))
  {
  }

  lemma HarmlessSim(s: State, e: Event)
    requires Harmless(s) && ProvisionOk(s) && TailOk(s)
    requires e.SimRestore? || e.SimObey? || e.SimWrite? || e.SimExit?
    ensures Harmless(Simulate(s, e))
  {
    hide WarmTail, Fine, Lively, Provisions, ColdTail;
  }

  lemma InvParts(s: State)
    requires Inv(s)
    ensures ActorOk(s) && ProvisionOk(s) && TailOk(s)
    ensures s.mem.actor == InMain ==> Provisions(s.mem.main) && s.sim.Off?
  {
    hide Lively, Safe, HandingOk, LivelyOk;
  }

  lemma HarmlessStep(s: State, e: Event)
    requires Inv(s) && Harmless(s) && Calm(e)
    ensures Harmless(Step(s, e))
  {
    hide Inv, Harmless, Provision, Resume, ResumeOld, DoJob, Exited, ResumeTask, Ui, Simulate, Suspended, ActorOk, ProvisionOk, TailOk,
         InMedia, Provisions;
    InvParts(s);
    match e
    case MainStep(ok) =>
      if s.mem.actor == InMain {
        if InMedia(s.mem.main) { HarmlessMedia(s, ok); } else { HarmlessMarks(s, ok); }
      } else if s.mem.actor == Free && Suspended(s.mem.main) {
        HarmlessResume(s, ok);
      }
    case OldStep(ok) => if s.mem.actor == Free { HarmlessOld(s, ok); }
    case JobStep(ok) => if s.mem.actor.InJob? { HarmlessJob(s, ok); }
    case TaskStep(i, ok) => if s.mem.actor == Free && i < |s.mem.tasks| { HarmlessTask(s, i, ok); }
    case ExitStep => if s.mem.actor == Free && s.mem.exited { HarmlessExit(s); }
    case SimRestore => HarmlessSim(s, e);
    case SimObey => HarmlessSim(s, e);
    case SimWrite => HarmlessSim(s, e);
    case SimExit => HarmlessSim(s, e);
    case Crash => assert false;
    case _ => if s.mem.actor == Free { HarmlessUi(s, e); }
  }

  /** What is handed over meanwhile. */
  lemma HandedStep(s: State, e: Event)
    requires Harmless(s)
    ensures Step(s, e).handed == s.handed
         || (s.files.snapshot.Some? && s.files.snapshot.value.disk == s.files.disk
             && Step(s, e).handed == s.handed + [Handed(s.files.snapshot.value, s.files.disk)])
  {
    hide Harmless, Provision, Resume, ResumeOld, DoJob, Exited, ResumeTask, Ui, Suspended;
    if e.SimRestore? {
      if ToRestore(s) { RestoresFine(s); }
    } else {
      MainHands(s, e);
      OthersHand(s, e);
    }
  }

  lemma MainHands(s: State, e: Event)
    ensures e.MainStep? ==> Provision(s, e.ok).handed == s.handed && Resume(s, e.ok).handed == s.handed
    ensures e.OldStep? ==> ResumeOld(s, e.ok).handed == s.handed
    ensures Exited(s).handed == s.handed
  {
    hide Provisions;
  }

  lemma OthersHand(s: State, e: Event)
    ensures e.JobStep? && s.mem.actor.InJob? ==> DoJob(s, s.mem.actor.job, e.ok).handed == s.handed
    ensures e.TaskStep? && e.i < |s.mem.tasks| ==> ResumeTask(s, e.i, e.ok).handed == s.handed
    ensures Ui(s, e).handed == s.handed
  {
  }

  lemma RestoresFine(s: State)
    requires Harmless(s) && ToRestore(s)
    ensures Fine(s.files)
  {
  }

  lemma {:induction false} HarmlessRun(s: State, es: seq<Event>, n: nat)
    requires Inv(s) && Harmless(s) && AllCalm(es) && n <= |s.handed| && !Mismatched(s.handed, n)
    ensures !Mismatched(Run(s, es).handed, n)
    decreases |es|
  {
    hide Inv, Harmless, Step, Calm;
    if es != [] {
      var t := Step(s, es[0]);
      StepKeeps(s, es[0]);
      HarmlessStep(s, es[0]);
      HandedStep(s, es[0]);
      HarmlessRun(t, es[1..], n);
    }
  }

  /** Over every run that has come to a launch: without the app dying again and
      without media being staged, a snapshot can be restored over a disk not its own
      if and only if the files say so. */
  lemma StaleExactly(es: seq<Event>)
    requires Run(INITIAL, es).mem == FRESH && Run(INITIAL, es).sim.Off?
    ensures var s := Run(INITIAL, es);
            (exists fs :: AllCalm(fs) && Mismatched(Run(s, fs).handed, |s.handed|)) <==> Stale(s.files)
  {
    hide Inv, Harmless, Mismatched, Numbered;
    var s := Run(INITIAL, es);
    InitialHolds();
    RunKeeps(INITIAL, es);
    NumberedFirst();
    RunNumbered(INITIAL, es);
    if Stale(s.files) {
      StaleLeads(s);
      var t :| Leads(s, t) && Mismatched(t.handed, |s.handed|);
      var fs :| AllCalm(fs) && Run(s, fs) == t;
      assert Mismatched(Run(s, fs).handed, |s.handed|);
    } else {
      HarmlessAtFirst(s);
      forall fs | AllCalm(fs) ensures !Mismatched(Run(s, fs).handed, |s.handed|) {
        HarmlessRun(s, fs, |s.handed|);
      }
    }
  }

  lemma NumberedFirst()
    ensures Numbered(INITIAL)
  {
  }

  lemma HarmlessAtFirst(s: State)
    requires s.mem == FRESH && s.sim.Off? && !Stale(s.files)
    ensures Harmless(s) && !Mismatched(s.handed, |s.handed|)
  {
  }

  /** So it is with the state in which the app dies. */
  lemma DeathExactly(es: seq<Event>)
    ensures var s := Step(Run(INITIAL, es), Crash);
            (exists fs :: AllCalm(fs) && Mismatched(Run(s, fs).handed, |s.handed|)) <==> Stale(Run(INITIAL, es).files)
  {
    RunConcat(INITIAL, es, [Crash]);
    var s := Run(INITIAL, es);
    assert Run(s, [Crash]) == Run(Step(s, Crash), [][..]) == Step(s, Crash);
    StaleExactly(es + [Crash]);
  }
}
