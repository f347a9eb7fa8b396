/** Runs of app/ipnx/Machine.swift from the first launch on: those after which a
    snapshot is restored over a disk that has changed, and one after which none is. */
module SnapshotCases {
  import opened Basics
  import opened Snapshot
  import opened SnapshotRuns
  import opened SnapshotTheorems
  import opened SnapshotStale

  // ---- events, a few at a time ----

  const NO := MainStep(false)
  const YES := MainStep(true)

  /** A first launch: the bundled disk is copied and the machine boots. */
  const TO_COPY := [UiStart, NO, NO, NO, NO, NO]
  const TO_LAUNCH := [YES, NO, NO, NO]
  const TO_LOGIN := [YES, YES]

  /** Suspending: stop, save, and both answered in time. */
  const STOP := [UiBackground, SimObey, TaskStep(0, true)]
  const SAVED := [SimObey, TaskStep(0, true)]

  /** The save answered too late: the machine goes on, the snapshot comes all the same. */
  const LATE := [TaskStep(0, false), SimObey, SimObey]

  /** Resuming, and no further than the machine's first write. */
  const CONTINUE := [UiForeground, TaskStep(0, true), SimObey]
  const DEATH := [SimWrite, Crash]

  /** The next launch, to the restore. */
  const TO_CHECK := [UiStart, NO, NO, NO, NO, NO]
  const TO_RESTORE := [NO, NO, NO, SimRestore]

  /** A reset staged while the machine is up. */
  const RESET := [UiReset, JobStep(true), JobStep(true), JobStep(true), JobStep(true)]

  /** The launch after it, dying between the marker and the snapshot. */
  const HALF_RESET := [UiStart, NO, NO, NO, NO, Crash]

  lemma Two(s: State, a: Event, b: Event)
    ensures Run(s, [a, b]) == Step(Step(s, a), b)
  {
    hide Step;
    assert [a, b][1..] == [b] && [b][1..] == [];
    assert Run(Step(s, a), [b]) == Run(Step(Step(s, a), b), []);
  }

  lemma Three(s: State, a: Event, b: Event, c: Event)
    ensures Run(s, [a, b, c]) == Step(Step(Step(s, a), b), c)
  {
    hide Step;
    assert [a, b, c][1..] == [b, c];
    Two(Step(s, a), b, c);
  }

  lemma Four(s: State, a: Event, b: Event, c: Event, d: Event)
    ensures Run(s, [a, b, c, d]) == Step(Step(Step(Step(s, a), b), c), d)
  {
    hide Step;
    assert [a, b, c, d][1..] == [b, c, d];
    Three(Step(s, a), b, c, d);
  }

  lemma Six(s: State, a: Event, b: Event, c: Event, d: Event, e: Event, f: Event)
    ensures Run(s, [a, b, c, d, e, f]) == Step(Step(Step(Step(Step(Step(s, a), b), c), d), e), f)
  {
    hide Step;
    assert [a, b, c, d, e, f] == [a, b] + [c, d, e, f];
    RunConcat(s, [a, b], [c, d, e, f]);
    Two(s, a, b);
    Four(Step(Step(s, a), b), c, d, e, f);
  }

  // ---- states on the way ----

  function Idling(f: Files, snaps: nat, disks: nat): State {
    State(f, FRESH, Off, snaps, disks, [])
  }

  /** Up after a cold boot, with nothing under way. */
  function UpAs(f: Files, snaps: nat, disks: nat): State {
    State(f, Memory(Up, true, false, Ended, Absent, [], false, Free), On(false, false, []), snaps, disks, [])
  }

  function PausedAs(f: Files, snaps: nat, disks: nat): State {
    State(f, Memory(Paused, true, false, Ended, Absent, [], false, Free), On(false, true, []), snaps, disks, [])
  }

  const NOTHING := Files(None, false, false, false, 0, false)
  const COPIED := Files(None, false, false, false, 1, true)

  lemma FiveSteps(s: State)
    ensures Run(s, TO_COPY) == Mains(Step(s, UiStart), 5)
  {
    hide Step, Mains;
    Six(s, UiStart, NO, NO, NO, NO, NO);
    var t := Step(s, UiStart);
    var t1 := Step(t, NO);
    var t2 := Step(t1, NO);
    var t3 := Step(t2, NO);
    FiveMains(t, t1, t2, t3, Step(t3, NO));
  }

  lemma FirstCopy()
    ensures Run(INITIAL, TO_COPY) == State(NOTHING, Memory(Provisioning, true, false, Copy, Absent, [], false, Free), Off, 0, 1, [])
  {
    hide Run, Mains;
    FiveSteps(INITIAL);
    ThroughMedia(Step(INITIAL, UiStart));
  }

  lemma ColdFrom(s: State)
    requires s.mem.main == Check && s.mem.actor == InMain && s.files.snapshot.None?
    ensures Step(Step(Step(s, NO), NO), NO)
         == SetPhase(Release(To(SetAttempt(s, false), Connect(false))), Starting).(sim := On(false, false, []))
  {
    hide Step;
    ColdSteps(s);
    ColdLaunch(To(SetAttempt(s, false), Launch(false)));
  }

  lemma ColdSteps(s: State)
    requires s.mem.main == Check && s.mem.actor == InMain && s.files.snapshot.None?
    ensures Step(s, NO) == To(s, ColdMark) && Step(To(s, ColdMark), NO) == To(SetAttempt(s, false), Launch(false))
  {
  }

  lemma ColdLaunch(s: State)
    requires s.mem.main == Launch(false) && s.mem.actor == InMain
    ensures Step(s, NO) == SetPhase(Release(To(s, Connect(false))), Starting).(sim := On(false, false, []))
  {
  }

  lemma FirstLaunch(s: State)
    requires s == State(NOTHING, Memory(Provisioning, true, false, Copy, Absent, [], false, Free), Off, 0, 1, [])
    ensures Run(s, TO_LAUNCH)
         == State(COPIED, Memory(Starting, true, false, Connect(false), Absent, [], false, Free), On(false, false, []), 0, 2, [])
  {
    Copies(s);
    hide Run, Step;
    Four(s, YES, NO, NO, NO);
    ColdFrom(Step(s, YES));
  }

  lemma Copies(s: State)
    requires s.mem.main == Copy && s.mem.actor == Free
    ensures Step(s, YES) == Take(To(NewDisk(s, true), Check))
  {
  }

  lemma FirstLogin(s: State)
    requires s == State(COPIED, Memory(Starting, true, false, Connect(false), Absent, [], false, Free), On(false, false, []), 0, 2, [])
    ensures Run(s, TO_LOGIN) == UpAs(COPIED, 0, 2)
  {
    Two(s, YES, YES);
    hide Run;
  }

  const BOOT := TO_COPY + TO_LAUNCH + TO_LOGIN

  /** The first launch comes up. */
  lemma Booted()
    ensures Run(INITIAL, BOOT) == UpAs(COPIED, 0, 2)
  {
    hide Run;
    FirstCopy();
    RunConcat(INITIAL, TO_COPY, TO_LAUNCH);
    FirstLaunch(Run(INITIAL, TO_COPY));
    RunConcat(INITIAL, TO_COPY + TO_LAUNCH, TO_LOGIN);
    FirstLogin(Run(INITIAL, TO_COPY + TO_LAUNCH));
  }

  /** Told to save and not yet done with it. */
  function SavingAs(f: Files, snaps: nat, disks: nat): State {
    State(f, Memory(Pausing, true, false, Ended, Absent, [AwaitSaved], false, Free), On(false, true, [Save]), snaps, disks, [])
  }

  lemma Stops(f: Files, snaps: nat, disks: nat)
    ensures Run(UpAs(f, snaps, disks), STOP) == SavingAs(f, snaps, disks)
  {
    hide Run, Step;
    Three(UpAs(f, snaps, disks), UiBackground, SimObey, TaskStep(0, true));
    StopSent(f, snaps, disks);
    StopObeyed(f, snaps, disks);
  }

  /** Leaving, with an order on its way or the simulator at its prompt. */
  function StoppingAs(f: Files, snaps: nat, disks: nat, stopped: bool): State {
    State(f, Memory(Pausing, true, false, Ended, Absent, [AwaitPrompt], false, Free),
          On(false, stopped, if stopped then [] else [Stop]), snaps, disks, [])
  }

  lemma StopSent(f: Files, snaps: nat, disks: nat)
    ensures Step(UpAs(f, snaps, disks), UiBackground) == StoppingAs(f, snaps, disks, false)
    ensures Step(StoppingAs(f, snaps, disks, false), SimObey) == StoppingAs(f, snaps, disks, true)
  {
    assert [] + [Stop] == [Stop] && [Stop][1..] == [];
  }

  lemma StopObeyed(f: Files, snaps: nat, disks: nat)
    ensures Step(StoppingAs(f, snaps, disks, true), TaskStep(0, true)) == SavingAs(f, snaps, disks)
  {
    assert [] + [Save] == [Save] && [AwaitPrompt][..0] + [AwaitPrompt][1..] == [];
  }

  lemma Saves(f: Files, snaps: nat, disks: nat)
    ensures Run(SavingAs(f, snaps, disks), SAVED) == PausedAs(f.(snapshot := Some(Snap(snaps, f.disk))), snaps + 1, disks)
  {
    Two(SavingAs(f, snaps, disks), SimObey, TaskStep(0, true));
    hide Run;
    assert [Save][1..] == [];
    assert [AwaitSaved][..0] + [AwaitSaved][1..] == [];
  }

  lemma Suspends(f: Files, snaps: nat, disks: nat)
    ensures Run(UpAs(f, snaps, disks), STOP + SAVED) == PausedAs(f.(snapshot := Some(Snap(snaps, f.disk))), snaps + 1, disks)
  {
    hide Run;
    RunConcat(UpAs(f, snaps, disks), STOP, SAVED);
    Stops(f, snaps, disks);
    Saves(f, snaps, disks);
  }

  lemma GoesOn(f: Files, snaps: nat, disks: nat)
    ensures var t := Run(PausedAs(f, snaps, disks), CONTINUE);
            t.files == f && t.sim == On(false, false, []) && t.nextSnap == snaps && t.nextDisk == disks && t.handed == []
  {
    hide Run, Step;
    Three(PausedAs(f, snaps, disks), UiForeground, TaskStep(0, true), SimObey);
    ReturnAsked(f, snaps, disks);
    ReturnObeyed(f, snaps, disks);
  }

  /** Coming back, with a task scheduled or its order sent. */
  function ReturningAs(f: Files, snaps: nat, disks: nat, sent: bool): State {
    State(f, Memory(Paused, true, false, Ended, Absent, [if sent then AwaitRunning else Scheduled], false, Free),
          On(false, true, if sent then [Continue] else []), snaps, disks, [])
  }

  lemma ReturnAsked(f: Files, snaps: nat, disks: nat)
    ensures Step(PausedAs(f, snaps, disks), UiForeground) == ReturningAs(f, snaps, disks, false)
    ensures Step(ReturningAs(f, snaps, disks, false), TaskStep(0, true)) == ReturningAs(f, snaps, disks, true)
  {
    assert [] + [Continue] == [Continue] && [Scheduled][..0] + [Scheduled][1..] == [];
  }

  lemma ReturnObeyed(f: Files, snaps: nat, disks: nat)
    ensures var s := ReturningAs(f, snaps, disks, true); Step(s, SimObey) == s.(sim := On(false, false, []))
  {
    assert [Continue][1..] == [];
  }

  lemma GivesUp(f: Files, snaps: nat, disks: nat)
    ensures var t := Run(SavingAs(f, snaps, disks), LATE);
            t.files == f.(snapshot := Some(Snap(snaps, f.disk))) && t.sim == On(false, false, []) && t.mem.phase == Up
            && t.nextSnap == snaps + 1 && t.nextDisk == disks && t.handed == []
  {
    hide Run, Step;
    Three(SavingAs(f, snaps, disks), TaskStep(0, false), SimObey, SimObey);
    SaveLate(f, snaps, disks);
    LateObeyed(f, snaps, disks);
  }

  /** Given up on the save, with both orders on their way. */
  function LateAs(f: Files, snaps: nat, disks: nat): State {
    State(f, Memory(Up, true, false, Ended, Absent, [], false, Free), On(false, true, [Save, Continue]), snaps, disks, [])
  }

  lemma SaveLate(f: Files, snaps: nat, disks: nat)
    ensures Step(SavingAs(f, snaps, disks), TaskStep(0, false)) == LateAs(f, snaps, disks)
  {
    assert [Save] + [Continue] == [Save, Continue] && [AwaitSaved][..0] + [AwaitSaved][1..] == [];
  }

  lemma LateObeyed(f: Files, snaps: nat, disks: nat)
    ensures Step(Step(LateAs(f, snaps, disks), SimObey), SimObey)
         == UpAs(f.(snapshot := Some(Snap(snaps, f.disk))), snaps + 1, disks)
  {
    assert [Save, Continue][1..] == [Continue] && [Continue][1..] == [];
  }

  lemma WritesAndDies(s: State)
    requires s.sim == On(false, false, [])
    ensures Run(s, DEATH)
         == State(s.files.(disk := s.nextDisk), FRESH, Off, s.nextSnap, s.nextDisk + 1, s.handed)
  {
    Two(s, SimWrite, Crash);
  }

  /** The next launch, as the files let it. */
  lemma Relaunches(f: Files, snaps: nat, disks: nat)
    requires Bootable(f)
    ensures Run(Idling(f, snaps, disks), TO_CHECK + TO_RESTORE).handed == [Handed(f.snapshot.value, f.disk)]
  {
    hide Run;
    var s := Idling(f, snaps, disks);
    RunConcat(s, TO_CHECK, TO_RESTORE);
    ToCheck(f, snaps, disks);
    FromCheck(Run(s, TO_CHECK));
  }

  lemma ToCheck(f: Files, snaps: nat, disks: nat)
    requires Bootable(f)
    ensures var t := Run(Idling(f, snaps, disks), TO_CHECK);
            t.mem.main == Check && t.mem.actor == InMain && t.files == f && t.sim.Off? && t.handed == []
  {
    hide Run, Mains;
    FiveSteps(Idling(f, snaps, disks));
    ThroughMedia(Step(Idling(f, snaps, disks), UiStart));
  }

  lemma FromCheck(s: State)
    requires s.mem.main == Check && s.mem.actor == InMain && s.files.snapshot.Some? && !s.files.attempt && s.sim.Off? && s.handed == []
    ensures Run(s, TO_RESTORE).handed == [Handed(s.files.snapshot.value, s.files.disk)]
  {
    hide Run, Step, Mains;
    Four(s, NO, NO, NO, SimRestore);
    var s1 := Step(s, NO);
    ThreeMains(s, s1, Step(s1, NO));
    ToTheRestore(s);
  }

  // ---- a death after `continue' ----

  const PAUSED := BOOT + (STOP + SAVED)

  lemma FirstPause()
    ensures Run(INITIAL, PAUSED) == PausedAs(COPIED.(snapshot := Some(Snap(0, 1))), 1, 2)
  {
    hide Run;
    Booted();
    RunConcat(INITIAL, BOOT, STOP + SAVED);
    Suspends(COPIED, 0, 2);
  }

  const AFTER_CONTINUE := PAUSED + CONTINUE + DEATH

  /** Boot, suspend, resume; the machine writes and the app dies before it has
      deleted the snapshot: the next launch restores it over the written disk. */
  lemma StaleAfterContinue()
    ensures Run(INITIAL, AFTER_CONTINUE).files == COPIED.(snapshot := Some(Snap(0, 1)), disk := 2)
    ensures Run(INITIAL, AFTER_CONTINUE + (TO_CHECK + TO_RESTORE)).handed == [Handed(Snap(0, 1), 2)]
  {
    hide Run;
    FirstPause();
    var f := COPIED.(snapshot := Some(Snap(0, 1)));
    RunConcat(INITIAL, PAUSED, CONTINUE);
    GoesOn(f, 1, 2);
    RunConcat(INITIAL, PAUSED + CONTINUE, DEATH);
    WritesAndDies(Run(INITIAL, PAUSED + CONTINUE));
    RunConcat(INITIAL, AFTER_CONTINUE, TO_CHECK + TO_RESTORE);
    Relaunches(f.(disk := 2), 1, 3);
  }

  /** Dying while suspended is harmless: nothing that one launch does restores the
      snapshot over another disk. */
  lemma PausedDeathHarmless(fs: seq<Event>)
    requires AllCalm(fs)
    ensures !Mismatched(Run(Step(Run(INITIAL, PAUSED), Crash), fs).handed, 0)
  {
    hide Run;
    FirstPause();
    var s := Step(Run(INITIAL, PAUSED), Crash);
    DeathExactly(PAUSED);
    assert !Stale(Run(INITIAL, PAUSED).files);
    assert s.handed == [];
  }

  // ---- a save that came too late ----

  const AFTER_LATE := BOOT + STOP + LATE + DEATH

  /** The save is given up on, comes all the same, and the machine writes on: the
      next launch restores it over the written disk. */
  lemma StaleAfterLateSave()
    ensures Run(INITIAL, BOOT + STOP + LATE).mem.phase == Up
    ensures Run(INITIAL, AFTER_LATE).files == COPIED.(snapshot := Some(Snap(0, 1)), disk := 2)
    ensures Run(INITIAL, AFTER_LATE + (TO_CHECK + TO_RESTORE)).handed == [Handed(Snap(0, 1), 2)]
  {
    hide Run;
    Booted();
    RunConcat(INITIAL, BOOT, STOP);
    Stops(COPIED, 0, 2);
    RunConcat(INITIAL, BOOT + STOP, LATE);
    GivesUp(COPIED, 0, 2);
    RunConcat(INITIAL, BOOT + STOP + LATE, DEATH);
    WritesAndDies(Run(INITIAL, BOOT + STOP + LATE));
    RunConcat(INITIAL, AFTER_LATE, TO_CHECK + TO_RESTORE);
    Relaunches(COPIED.(snapshot := Some(Snap(0, 1)), disk := 2), 1, 3);
  }

  // ---- half a reset ----

  lemma ResetStaged(f: Files, snaps: nat, disks: nat)
    ensures Run(UpAs(f, snaps, disks), RESET)
         == UpAs(f.(pending := false, reset := true, snapshot := None, attempt := false), snaps, disks)
  {
    var s := UpAs(f, snaps, disks);
    var t := Step(s, UiReset);
    assert RESET == [UiReset] + [JobStep(true), JobStep(true), JobStep(true), JobStep(true)];
    RunConcat(s, [UiReset], [JobStep(true), JobStep(true), JobStep(true), JobStep(true)]);
    assert Run(s, [UiReset]) == t by { assert [UiReset][1..] == []; }
    Four(t, JobStep(true), JobStep(true), JobStep(true), JobStep(true));
    hide Run;
  }

  lemma HalfReset(f: Files, snaps: nat, disks: nat)
    requires f.reset
    ensures Run(Idling(f, snaps, disks), HALF_RESET) == Idling(f.(reset := false, disk := disks, present := false), snaps, disks + 1)
  {
    Six(Idling(f, snaps, disks), UiStart, NO, NO, NO, NO, Crash);
    hide Run;
  }

  const STAGED := BOOT + RESET + (STOP + SAVED) + [Crash]

  const AFTER_RESET := STAGED + HALF_RESET

  /** A reset is staged, the machine is suspended and the app dies; the launch that
      applies the reset dies between the marker and the snapshot.  No disk is left, and
      the next launch copies one and restores the old snapshot over it. */
  lemma StaleAfterReset()
    ensures Stale(Run(INITIAL, AFTER_RESET).files)
    ensures exists t :: Leads(Run(INITIAL, AFTER_RESET), t) && t.handed == [Handed(Snap(0, 1), 3)]
  {
    hide Run;
    Booted();
    var g := COPIED.(reset := true);
    RunConcat(INITIAL, BOOT, RESET);
    ResetStaged(COPIED, 0, 2);
    RunConcat(INITIAL, BOOT + RESET, STOP + SAVED);
    Suspends(g, 0, 2);
    var f := g.(snapshot := Some(Snap(0, 1)));
    RunConcat(INITIAL, BOOT + RESET + (STOP + SAVED), [Crash]);
    Dies(PausedAs(f, 1, 2));
    RunConcat(INITIAL, STAGED, HALF_RESET);
    HalfReset(f, 1, 2);
    var s := Idling(f.(reset := false, disk := 2, present := false), 1, 3);
    LaunchCopies(s);
    assert [] + [Handed(Snap(0, 1), 3)] == [Handed(Snap(0, 1), 3)];
  }

  lemma Dies(s: State)
    ensures Run(s, [Crash]) == State(s.files, FRESH, Off, s.nextSnap, s.nextDisk, s.handed)
  {
    assert [Crash][1..] == [];
  }
}
