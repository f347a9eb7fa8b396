/** Small shares on which the netfs server does what its guest would not expect. */
module NetfsCases {
  import opened Basics
  import opened Names
  import opened NetfsModel
  import opened NetfsRuns
  import opened NetfsListing
  import opened NetfsDelete
  import Collisions
  import CaseMap

  const NO_ROWS := CaseMap.Maps(map[], map[], [])

  function RootStat(): Stat { Stat((1, 1), Directory, 0) }

  /** The request that resolves or deletes a name in the root, whose handle has
      tag 1 once it has been asked for. */
  function InRoot(flag: Flag, name: Name): Request { Request(1, 2, flag, name) }

  // ---- a renamed file under its stored spelling ----

  const SPELLING := "%41"

  const SHOWN := "A"

  /** One file, stored as %41, that the guest is to see as A. */
  function Renamed(): Host {
    Host(map[[] := RootStat(), [SPELLING] := Stat((1, 2), Regular, 0)], map[[] := [SPELLING]])
  }

  function OneRow(): CaseMap.Maps { CaseMap.Read([Collisions.Row(["."], SPELLING, SHOWN)]) }

  lemma OneRowIs()
    ensures OneRow().toTrue == map[[] := map[SPELLING := SHOWN]] && OneRow().toStored == map[[] := map[SHOWN := SPELLING]]
  {
    var row := Collisions.Row(["."], SPELLING, SHOWN);
    assert [row][..0] == [];
    assert CaseMap.Read([row]) == CaseMap.AddRow(CaseMap.Read([]), row);
  }

  lemma CutSpelling()
    ensures Cut(SPELLING) == SPELLING
  {
    assert SPELLING[1..] == "41" && "41"[1..] == "1" && "1"[1..] == "";
  }

  /** The root once its handle has been asked for. */
  function RootServed(fs: Host, cm: CaseMap.Maps): Export { Run(INITIAL, cm, [Get(fs, ROOTINO)]) }

  lemma RootIs(fs: Host, cm: CaseMap.Maps)
    requires [] in fs.stat && fs.stat[[]] == RootStat()
    ensures var (u, image) := Forge(INITIAL.inodes, fs, cm, [], ROOTINO);
            RootServed(fs, cm) == Export(u, map[1 := Handle(ROOTINO, [], RootStat(), Some(image))], map[ROOTINO := 1], 2)
  {
    hide Forge;
    OneStep(INITIAL, cm, Get(fs, ROOTINO));
    assert RootServed(fs, cm) == ForPath(INITIAL, fs, cm, []).0;
  }

  /** The forged root of a share with one listable file. */
  lemma OneEntry(fs: Host, cm: CaseMap.Maps, onDisk: Name, key: Key)
    requires [onDisk] in fs.stat && fs.stat[[onDisk]] == Stat(key, Regular, 0) && Listing(fs, []) == [onDisk]
    ensures var (u, es) := Entries(INITIAL.inodes, fs, cm, [], ROOTINO);
            es == [Entry(".", 2), Entry("..", 2), Entry(V8Name(Shown(cm, [], onDisk)), 3)]
            && u.byHost == map[key := 3] && u.next == 4
  {
    hide V8Name, Shown;
    var names := [onDisk];
    assert [] + [names[0]] == [onDisk] && names[1..] == [];
    var short := V8Name(Shown(cm, [], onDisk));
    var u := InoFor(INITIAL.inodes, [onDisk], key).0;
    assert ScanDir(u, fs, cm, [], names[1..], {} + {short}) == (u, []);
    assert ScanDir(INITIAL.inodes, fs, cm, [], names, {}) == (u, [Entry(short, 3)] + []);
  }

  /** The guest that types the stored spelling is given the file that its
      directory lists under the true name alone. */
  lemma SpellingOpens()
    ensures var s := RootServed(Renamed(), OneRow());
            1 in s.handles && s.handles[1].path == [] && Spelling(OneRow(), [], SPELLING)
            && Shorts([Entry(".", 2), Entry("..", 2), Entry(SHOWN, 3)])
            && s.handles[1].image == Some(Image([Entry(".", 2), Entry("..", 2), Entry(SHOWN, 3)]))
    ensures var (u, a) := Lookup(RootServed(Renamed(), OneRow()), Renamed(), OneRow(), 1, SPELLING);
            a == Found(2, false) && 2 in u.handles && u.handles[2].path == [SPELLING] && u.handles[2].ino == 3
  {
    hide Image, Run, Entries, Cut;
    var fs, cm := Renamed(), OneRow();
    OneRowIs();
    CutSpelling();
    RootIs(fs, cm);
    OneEntry(fs, cm, SPELLING, (1, 2));
    EntriesShort(INITIAL.inodes, fs, cm, [], ROOTINO);
    assert [] + [SPELLING] == [SPELLING];
  }

  // ---- two names of one file ----

  const OLD_NAME := "a"

  const NEW_NAME := "b"

  /** One file with two names. */
  function Linked(): Host {
    var file := Stat((1, 2), Regular, 0);
    Host(map[[] := RootStat(), [OLD_NAME] := file, [NEW_NAME] := file], map[[] := [OLD_NAME, NEW_NAME]])
  }

  lemma CutOne(c: char)
    requires c != '\0'
    ensures Cut([c]) == [c]
  {
    assert [c][1..] == "";
  }

  /** The root asked for, and then the first name looked up. */
  function FirstLooked(fs: Host): seq<Event> {
    [Get(fs, ROOTINO), Nami(fs, false, InRoot(Plain, OLD_NAME), Failed(0))]
  }

  lemma OneStep(s: Export, cm: CaseMap.Maps, e: Event)
    ensures Run(s, cm, [e]) == Step(s, cm, e)
  {
    assert [e][1..] == [];
  }

  lemma TwoSteps(s: Export, cm: CaseMap.Maps, e: Event, f: Event)
    ensures Run(s, cm, [e, f]) == Step(Step(s, cm, e), cm, f)
  {
    assert [e, f][1..] == [f];
    OneStep(Step(s, cm, e), cm, f);
  }

  /** The number of the two names, and the handle made for the first. */
  lemma FirstHandle()
    ensures var fs := Linked();
            var s := Run(INITIAL, NO_ROWS, FirstLooked(fs));
            1 in s.handles && s.handles[1].path == [] && IsDir(s.handles[1])
            && 2 in s.handles && s.handles[2].path == [OLD_NAME] && s.byIno == map[2 := 1, 3 := 2] && s.inodes.byHost == map[(1, 2) := 3]
  {
    hide Image, Cut, Run, Entries;
    var fs := Linked();
    var es := FirstLooked(fs);
    RootIs(fs, NO_ROWS);
    TwoNumbers(fs);
    CutOne('a');
    var s := RootServed(fs, NO_ROWS);
    TwoSteps(INITIAL, NO_ROWS, es[0], es[1]);
    OneStep(INITIAL, NO_ROWS, es[0]);
    assert [] + [OLD_NAME] == [OLD_NAME];
  }

  lemma TwoNumbers(fs: Host)
    requires fs == Linked()
    ensures Entries(INITIAL.inodes, fs, NO_ROWS, [], ROOTINO).0.byHost == map[(1, 2) := 3]
  {
    hide Image;
    var names, t := [OLD_NAME, NEW_NAME], INITIAL.inodes;
    assert [] + [names[0]] == [OLD_NAME] && names[1..] == [NEW_NAME] && [] + [NEW_NAME] == [NEW_NAME] && [NEW_NAME][1..] == [];
    var u := InoFor(t, [OLD_NAME], (1, 2)).0;
    var v := InoFor(u, [NEW_NAME], (1, 2)).0;
    var seen := {} + {V8Name(OLD_NAME)};
    assert ScanDir(v, fs, NO_ROWS, [], [], seen + {V8Name(NEW_NAME)}) == (v, []);
    assert ScanDir(u, fs, NO_ROWS, [], [NEW_NAME], seen).0 == v;
    assert ScanDir(t, fs, NO_ROWS, [], names, {}).0 == v;
  }

  /** After a lookup of the first name, deleting the second has the host remove
      the first. */
  lemma OtherNameRemoved()
    ensures var s := Run(INITIAL, NO_ROWS, FirstLooked(Linked()));
            Asked(s, Linked(), NO_ROWS, false, InRoot(Delete, NEW_NAME)) == Some([OLD_NAME])
  {
    hide Image, Run, Cut, Entries, Forge, FirstLooked;
    FirstHandle();
    CutOne('b');
    assert [] + [NEW_NAME] == [NEW_NAME];
  }

  // ---- an empty share ----

  function Bare(): Host { Host(map[[] := RootStat()], map[[] := []]) }

  /** Deleting a dot in the root has the host remove the root, where `..' is
      refused. */
  lemma DotAsksForRoot()
    ensures var s := RootServed(Bare(), NO_ROWS);
            Asked(s, Bare(), NO_ROWS, false, InRoot(Delete, ".")) == Some([])
            && Asked(s, Bare(), NO_ROWS, false, InRoot(Delete, "..")) == None
  {
    hide Image, Run, Cut;
    CutDots();
    RootIs(Bare(), NO_ROWS);
  }

  // ---- a file made in an empty share ----

  const MADE := "f"

  function WithFile(): Host {
    Host(map[[] := RootStat(), [MADE] := Stat((1, 2), Regular, 0)], map[[] := [MADE]])
  }

  /** The root's image has the file as soon as it is made. */
  lemma FileShown()
    ensures var s := RootServed(Bare(), NO_ROWS);
            var u := DoNami(s, Bare(), NO_ROWS, false, InRoot(Create, MADE), Done(WithFile())).0;
            1 in s.handles && s.handles[1].image.Some? && |s.handles[1].image.value| == 32
            && Shorts([Entry(".", 2), Entry("..", 2), Entry(MADE, 3)])
            && 1 in u.handles && u.handles[1].image == Some(Image([Entry(".", 2), Entry("..", 2), Entry(MADE, 3)]))
  {
    hide Run, Cut, Entries, Image;
    CutOne('f');
    RootIs(Bare(), NO_ROWS);
    OneEntry(WithFile(), NO_ROWS, MADE, (1, 2));
    NoEntries();
    EntriesShort(INITIAL.inodes, WithFile(), NO_ROWS, [], ROOTINO);
    EntriesShort(INITIAL.inodes, Bare(), NO_ROWS, [], ROOTINO);
    assert [] + [MADE] == [MADE];
  }

  /** The forged root of an empty share. */
  lemma NoEntries()
    ensures var (u, es) := Entries(INITIAL.inodes, Bare(), NO_ROWS, [], ROOTINO);
            es == [Entry(".", 2), Entry("..", 2)] && u == INITIAL.inodes && Shorts(es) && |Image(es)| == 32
  {
    var es := [Entry(".", 2), Entry("..", 2)];
    assert es[..1] == [Entry(".", 2)] && es[..1][..0] == [];
  }
}
