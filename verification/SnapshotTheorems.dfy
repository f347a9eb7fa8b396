/** The results about saved sessions over every run: no snapshot is restored twice,
    and the machine is never up with a restore attempt on record. */
module SnapshotTheorems {
  import opened Basics
  import opened Snapshot
  import opened SnapshotRuns

  lemma {:induction false} RunKeeps(s: State, es: seq<Event>)
    requires Inv(s)
    ensures Inv(Run(s, es))
    decreases |es|
  {
    hide Inv, Step;
    if es != [] {
      StepKeeps(s, es[0]);
      RunKeeps(Step(s, es[0]), es[1..]);
    }
  }

  /** Across every sequence of launches, suspends, resumes, staged media and deaths:
      a saved snapshot is handed to restore at most once... */
  lemma RestoredOnce(es: seq<Event>, i: nat, j: nat)
    requires i < j < |Run(INITIAL, es).handed|
    ensures Run(INITIAL, es).handed[i].snap.id != Run(INITIAL, es).handed[j].snap.id
  {
    hide Run;
    InitialHolds();
    RunKeeps(INITIAL, es);
  }

  /** ...and the machine is never up, suspending or suspended with the marker of a
      restore attempt on disk. */
  lemma NeverUpMarked(es: seq<Event>)
    requires Running(Run(INITIAL, es).mem.phase)
    ensures !Run(INITIAL, es).files.attempt
  {
    hide Run;
    InitialHolds();
    RunKeeps(INITIAL, es);
  }

  /** A restore that the app did not live through is not tried again: the next
      launch boots cold. */
  lemma TriedIsMarked(es: seq<Event>, i: nat)
    requires i < |Run(INITIAL, es).handed|
    ensures var s := Run(INITIAL, es);
            s.files.snapshot.Some? && s.files.snapshot.value.id == s.handed[i].snap.id ==> s.files.attempt
  {
    hide Run;
    InitialHolds();
    RunKeeps(INITIAL, es);
  }
}
