/** A directory's image is that of the directory as the host has it: when the
    directory is asked for, and after a name in it was made, linked or deleted. */
module NetfsImages {
  import opened Basics
  import opened Names
  import opened NetfsModel
  import opened NetfsRuns
  import opened NetfsListing
  import CaseMap

  // ---- what an image should hold ----

  /** The number that the guest is given for a directory. */
  function NumberOf(u: Inodes, fs: Host, d: Path): Option<nat> {
    if d == [] then Some(ROOTINO)
    else if d in fs.stat && fs.stat[d].key in u.byHost then Some(u.byHost[fs.stat[d].key])
    else None
  }

  /** The root, above which nothing is seen, is its own parent. */
  function UpNumber(u: Inodes, fs: Host, d: Path): nat {
    if d == [] || NumberOf(u, fs, Parent(d)).None? then ROOTINO else NumberOf(u, fs, Parent(d)).value
  }

  predicate UpNumbered(u: Inodes, fs: Host, d: Path) { d != [] && Parent(d) in fs.stat ==> NumberOf(u, fs, Parent(d)).Some? }

  /** x is what a visible name of the directory truncates to. */
  ghost predicate Visibly(fs: Host, cm: CaseMap.Maps, d: Path, x: Name) {
    exists n :: n in Listing(fs, d) && Truncates(fs, cm, d, n, x)
  }

  /** The two dots, and then each visible name once, cut to fourteen bytes, under the
      number of the first object that has it. */
  ghost predicate Shows(u: Inodes, fs: Host, cm: CaseMap.Maps, d: Path, ino: nat, es: seq<Entry>) {
    |es| >= 2 && es[0] == Entry(".", ino) && es[1] == Entry("..", UpNumber(u, fs, d)) && UpNumbered(u, fs, d)
    && EntriesAre(u, fs, cm, d, Listing(fs, d), es[2..]) && NamesOnce(es[2..])
    && forall x :: HasName(es[2..], x) <==> Visibly(fs, cm, d, x)
  }

  /** The handle's image is the records of the directory. */
  ghost predicate Current(u: Inodes, fs: Host, cm: CaseMap.Maps, d: Path, h: Handle) {
    exists es :: Shorts(es) && h.image == Some(Image(es)) && Shows(u, fs, cm, d, h.ino, es)
  }

  lemma {:induction false} FirstIffVisible(fs: Host, cm: CaseMap.Maps, d: Path, names: seq<Name>, x: Name)
    ensures FirstOf(fs, cm, d, names, x) < |names| <==> exists n :: n in names && Truncates(fs, cm, d, n, x)
  {
    hide Truncates;
    var j := FirstOf(fs, cm, d, names, x);
    if j < |names| { assert names[j] in names; }
    if n :| n in names && Truncates(fs, cm, d, n, x) {
      var i :| 0 <= i < |names| && names[i] == n;
    }
  }

  lemma NamesVisible(u: Inodes, fs: Host, cm: CaseMap.Maps, d: Path, es: seq<Entry>, x: Name)
    requires EntriesAre(u, fs, cm, d, Listing(fs, d), es) && HasName(es, x)
    ensures FirstOf(fs, cm, d, Listing(fs, d), x) < |Listing(fs, d)|
  {
    var i :| 0 <= i < |es| && es[i].name == x;
    assert EntryIs(u, fs, cm, d, Listing(fs, d), es[i]);
  }

  lemma UpIs(t: Inodes, fs: Host, cm: CaseMap.Maps, d: Path, ino: nat)
    requires Numbered(t) && t.next < 0xffff
    ensures var (u, es) := Entries(t, fs, cm, d, ino); es[1] == Entry("..", UpNumber(u, fs, d)) && UpNumbered(u, fs, d)
  {
    hide Numbered, ScanDir;
    var u := ParentIno(t, fs, d).0;
    ParentKeeps(t, fs, d);
    ScanKeeps(u, fs, cm, d, Listing(fs, d), {});
    if d != [] && Parent(d) != [] && Parent(d) in fs.stat {
      InoForKeeps(t, Parent(d), fs.stat[Parent(d)].key);
      KeptThrough(u, ScanDir(u, fs, cm, d, Listing(fs, d), {}).0, ScanDir(u, fs, cm, d, Listing(fs, d), {}).0, fs.stat[Parent(d)].key);
    }
  }

  // ---- forging ----

  lemma EntriesShow(t: Inodes, fs: Host, cm: CaseMap.Maps, d: Path, ino: nat)
    requires Numbered(t) && Entries(t, fs, cm, d, ino).0.next < 0xffff
    ensures var (u, es) := Entries(t, fs, cm, d, ino); Shows(u, fs, cm, d, ino, es)
  {
    hide Numbered, ScanDir, EntriesAre, NamesOnce, FirstOf, Truncates, UpNumber, UpNumbered;
    var (u, es) := Entries(t, fs, cm, d, ino);
    ForgeKeeps(t, fs, cm, d, ino);
    RoomyNow(t, fs, cm, d, ino);
    UpIs(t, fs, cm, d, ino);
    EntriesList(t, fs, cm, d, ino);
    ListedIs(t, fs, cm, d, ino);
    forall x
      ensures HasName(es[2..], x) <==> Visibly(fs, cm, d, x)
    {
      FirstIffVisible(fs, cm, d, Listing(fs, d), x);
      if HasName(es[2..], x) { NamesVisible(u, fs, cm, d, es[2..], x); }
    }
  }

  lemma ForgedShows(t: Inodes, fs: Host, cm: CaseMap.Maps, d: Path, h: Handle)
    requires Numbered(t) && IsDir(h)
    ensures var (u, g) := Forged(t, fs, cm, d, h); u.next < 0xffff ==> Current(u, fs, cm, d, g)
  {
    hide Numbered, Entries, Image, Shows, Shorts;
    EntriesShort(t, fs, cm, d, h.ino);
    if Entries(t, fs, cm, d, h.ino).0.next < 0xffff { EntriesShow(t, fs, cm, d, h.ino); }
  }

  /** Numbers given later change nothing that is shown. */
  lemma ShowsStill(u: Inodes, v: Inodes, fs: Host, cm: CaseMap.Maps, d: Path, ino: nat, es: seq<Entry>)
    requires Shows(u, fs, cm, d, ino, es) && Extends(u, v)
    ensures Shows(v, fs, cm, d, ino, es)
  {
    hide FirstOf, Visibly, HasName, NamesOnce;
    forall i | 0 <= i < |es[2..]|
      ensures EntryIs(v, fs, cm, d, Listing(fs, d), es[2..][i])
    {
      assert EntryIs(u, fs, cm, d, Listing(fs, d), es[2..][i]);
    }
  }

  lemma CurrentStill(u: Inodes, v: Inodes, fs: Host, cm: CaseMap.Maps, d: Path, h: Handle)
    requires Current(u, fs, cm, d, h) && Extends(u, v)
    ensures Current(v, fs, cm, d, h)
  {
    hide Shows, Extends, Image;
    var es :| Shorts(es) && h.image == Some(Image(es)) && Shows(u, fs, cm, d, h.ino, es);
    ShowsStill(u, v, fs, cm, d, h.ino, es);
  }

  // ---- a directory that is asked for ----

  /** The handle's attributes are the host's, and a directory's image its own. */
  ghost predicate Fresher(u: Export, fs: Host, cm: CaseMap.Maps, p: Path, tag: nat) {
    tag in u.handles && p in fs.stat && u.handles[tag].st == fs.stat[p]
    && (IsDir(u.handles[tag]) && u.inodes.next < 0xffff ==> Current(u.inodes, fs, cm, p, u.handles[tag]))
  }

  lemma RefreshShows(s: Export, fs: Host, cm: CaseMap.Maps, tag: nat, p: Path)
    requires Inv(s) && tag in s.handles && p in fs.stat
    ensures Fresher(Refresh(s, fs, cm, tag, p), fs, cm, p, tag)
  {
    hide Numbered, Current, Forge;
    var g := s.handles[tag].(st := fs.stat[p]);
    if IsDir(g) { ForgedShows(s.inodes, fs, cm, p, g); }
  }

  lemma FreshShows(s: Export, fs: Host, cm: CaseMap.Maps, ino: nat, p: Path)
    requires Inv(s) && p in fs.stat
    ensures Fresher(Fresh(s, fs, cm, ino, p), fs, cm, p, s.nextTag)
  {
    hide Numbered, Current, Forge;
    var g := Handle(ino, p, fs.stat[p], None);
    if IsDir(g) { ForgedShows(s.inodes, fs, cm, p, g); }
  }

  /** Whatever path a request comes to, its handle has the attributes of the object there,
      and the image of the directory as it is. */
  lemma ForPathShows(s: Export, fs: Host, cm: CaseMap.Maps, p: Path)
    requires Inv(s) && ForPath(s, fs, cm, p).1.Some?
    ensures var (u, h) := ForPath(s, fs, cm, p); Fresher(u, fs, cm, p, h.value)
  {
    hide Numbered, Extends, Later, Indexed, TagsUsed, GoodHandles, Refresh, Fresh, Fresher;
    var (t, n) := InoFor(s.inodes, p, fs.stat[p].key);
    InoForKeeps(s.inodes, p, fs.stat[p].key);
    Renumbered(s, t);
    var v := s.(inodes := t);
    if Live(v, n.value) { RefreshShows(v, fs, cm, v.byIno[n.value], p); } else { FreshShows(v, fs, cm, n.value, p); }
  }

  /** NGET of a directory gives its image as the directory is. */
  lemma GetShows(s: Export, fs: Host, cm: CaseMap.Maps, ino: int)
    requires Inv(s) && DoGet(s, fs, cm, ino).1.Ok?
    ensures var (u, y) := DoGet(s, fs, cm, ino);
            y.tag in u.handles && (u.handles[y.tag].path in fs.stat && Live(s, ino) ==> Fresher(u, fs, cm, u.handles[y.tag].path, y.tag))
            && (!Live(s, ino) ==> exists p :: Fresher(u, fs, cm, p, y.tag))
  {
    hide Numbered, Extends, Later, Indexed, TagsUsed, GoodHandles, Refresh, ForPath, Fresher;
    if Live(s, ino) {
      var tag := s.byIno[ino];
      var p := s.handles[tag].path;
      if p in fs.stat {
        RefreshShows(s, fs, cm, tag, p);
        RefreshHolds(s, fs, cm, tag, p);
      }
    } else {
      ForPathShows(s, fs, cm, s.inodes.paths[ino]);
    }
  }

  // ---- after a name was made or deleted ----

  /** Every live handle of the directory has its image as the host has it. */
  ghost predicate AllCurrent(u: Export, fs: Host, cm: CaseMap.Maps, d: Path) {
    forall tag :: tag in u.handles && NumberOf(u.inodes, fs, d) == Some(u.handles[tag].ino) && IsDir(u.handles[tag]) ==>
      Current(u.inodes, fs, cm, d, u.handles[tag])
  }

  lemma InvalidateShows(s: Export, fs: Host, cm: CaseMap.Maps, path: Path)
    requires Inv(s) && path != [] && Invalidate(s, fs, cm, path).inodes.next < 0xffff
    ensures AllCurrent(Invalidate(s, fs, cm, path), fs, cm, Parent(path))
  {
    hide Numbered, Current, Forged, Extends;
    var up := Parent(path);
    var u := Invalidate(s, fs, cm, path);
    InvalidateKeeps(s, fs, cm, path);
    forall tag | tag in u.handles && NumberOf(u.inodes, fs, up) == Some(u.handles[tag].ino) && IsDir(u.handles[tag])
      ensures Current(u.inodes, fs, cm, up, u.handles[tag])
    {
      HandleThen(s, fs, cm, path, tag);
    }
  }

  lemma HandleThen(s: Export, fs: Host, cm: CaseMap.Maps, path: Path, tag: nat)
    requires Inv(s) && path != [] && Invalidate(s, fs, cm, path).inodes.next < 0xffff
    requires var u := Invalidate(s, fs, cm, path);
             tag in u.handles && NumberOf(u.inodes, fs, Parent(path)) == Some(u.handles[tag].ino) && IsDir(u.handles[tag])
    ensures var u := Invalidate(s, fs, cm, path); Current(u.inodes, fs, cm, Parent(path), u.handles[tag])
  {
    hide Current, Forge, TagsUsed, GoodHandles, GivenOnce, Pathed;
    var up := Parent(path);
    var u := Invalidate(s, fs, cm, path);
    InvalidateKeeps(s, fs, cm, path);
    if up == [] || (up in fs.stat && fs.stat[up].key in s.inodes.byHost) {
      var ino := if up == [] then ROOTINO else s.inodes.byHost[fs.stat[up].key];
      assert u.handles[tag].ino == ino;
      if Live(s, ino) && IsDir(s.handles[s.byIno[ino]]) {
        ForgedShows(s.inodes, fs, cm, up, s.handles[s.byIno[ino]]);
      }
    }
  }

  lemma ForPathFrame(s: Export, fs: Host, cm: CaseMap.Maps, p: Path, tag: nat)
    requires Inv(s) && tag in ForPath(s, fs, cm, p).0.handles
    ensures var (u, h) := ForPath(s, fs, cm, p);
            h == Some(tag) || (tag in s.handles && u.handles[tag] == s.handles[tag])
  {
    hide Numbered, Forged;
  }

  /** Asking for another object leaves a directory's images as they are. */
  lemma ForPathLeaves(s: Export, fs: Host, cm: CaseMap.Maps, d: Path, p: Path)
    requires Inv(s) && AllCurrent(s, fs, cm, d) && p != []
    requires d in fs.stat && p in fs.stat && (d != [] ==> fs.stat[d].key != fs.stat[p].key)
    ensures AllCurrent(ForPath(s, fs, cm, p).0, fs, cm, d)
  {
    hide Current, ForPath, Later, Indexed, TagsUsed;
    var (u, h) := ForPath(s, fs, cm, p);
    ForPathKeeps(s, fs, cm, p);
    forall tag | tag in u.handles && NumberOf(u.inodes, fs, d) == Some(u.handles[tag].ino) && IsDir(u.handles[tag])
      ensures Current(u.inodes, fs, cm, d, u.handles[tag])
    {
      ForPathFrame(s, fs, cm, p, tag);
      if h == Some(tag) {
        PathNumber(s, fs, cm, p);
        OtherObject(u.inodes, fs, d, p);
      } else {
        OldHandle(s, u, fs, d, tag);
        ExtendsIn(s, u);
        CurrentStill(s.inodes, u.inodes, fs, cm, d, u.handles[tag]);
      }
    }
  }

  lemma ExtendsIn(s: Export, u: Export)
    requires Later(s, u)
    ensures Extends(s.inodes, u.inodes)
  {
  }

  lemma OtherObject(t: Inodes, fs: Host, d: Path, p: Path)
    requires Numbered(t) && d in fs.stat && p in fs.stat && fs.stat[p].key in t.byHost
    requires d != [] ==> fs.stat[d].key != fs.stat[p].key
    ensures NumberOf(t, fs, d) != Some(t.byHost[fs.stat[p].key])
  {
    hide Pathed;
  }

  /** A handle that was there before a number was given is not its. */
  lemma OldHandle(s: Export, u: Export, fs: Host, d: Path, tag: nat)
    requires Inv(s) && Onward(s, u) && tag in s.handles && tag in u.handles && d in fs.stat
    requires NumberOf(u.inodes, fs, d) == Some(u.handles[tag].ino)
    ensures NumberOf(s.inodes, fs, d) == Some(s.handles[tag].ino)
  {
    hide Indexed, TagsUsed, Pathed;
    var h := s.handles[tag];
    assert GoodHandle(s.inodes, h);
    if d != [] {
      var key := fs.stat[d].key;
      assert NetfsRuns.Given(s.inodes, h.ino) by { RootApart(u.inodes, key); }
      var k :| k in s.inodes.byHost && s.inodes.byHost[k] == h.ino;
      assert k in u.inodes.byHost && u.inodes.byHost[k] == u.inodes.byHost[key];
    }
  }

  lemma RootApart(t: Inodes, key: Key)
    requires Numbered(t) && key in t.byHost
    ensures t.byHost[key] != ROOTINO
  {
    hide GivenOnce, Pathed;
  }

  /** The host's new object at target is not the directory it was made in. */
  predicate Apart(after: Host, target: Path)
    requires target != []
  {
    target in after.stat && Parent(target) in after.stat && (Parent(target) != [] ==> after.stat[Parent(target)].key != after.stat[target].key)
  }

  /** After NCREAT or NLINK every live handle of the directory has its image as the host has
      it now. */
  lemma MadeShows(s: Export, fs: Host, cm: CaseMap.Maps, target: Path, link: Option<int>, after: Host)
    requires Inv(s) && target != [] && Apart(after, target)
    requires var (u, y) := DoMake(s, fs, cm, target, link, Done(after)); y != Bad(EXDEV) && u.inodes.next < 0xffff
    ensures AllCurrent(DoMake(s, fs, cm, target, link, Done(after)).0, after, cm, Parent(target))
  {
    hide Inv, Later, ForIno, ForPath, Invalidate, AllCurrent, Extends;
    var v := s;
    if link.Some? {
      v := ForIno(s, fs, cm, link.value).0;
      ForInoKeeps(s, fs, cm, link.value);
    }
    var w := Invalidate(v, after, cm, target);
    InvalidateKeeps(v, after, cm, target);
    ForPathKeeps(w, after, cm, target);
    NextUp(w, ForPath(w, after, cm, target).0);
    InvalidateShows(v, after, cm, target);
    ForPathLeaves(w, after, cm, Parent(target), target);
  }

  lemma NextUp(s: Export, u: Export)
    requires Later(s, u)
    ensures s.inodes.next <= u.inodes.next
  {
  }

  lemma ReleaseLeaves(s: Export, fs: Host, cm: CaseMap.Maps, d: Path, tag: nat)
    requires AllCurrent(s, fs, cm, d)
    ensures AllCurrent(Release(s, tag), fs, cm, d)
  {
    hide Current;
  }

  /** And so it is after NDEL, in the directory of what was removed. */
  lemma DeletedShows(s: Export, cm: CaseMap.Maps, tag: nat, after: Host)
    requires Inv(s) && tag in s.handles && s.handles[tag].path != []
    requires DoDelete(s, cm, tag, false, Done(after)).0.inodes.next < 0xffff
    ensures AllCurrent(DoDelete(s, cm, tag, false, Done(after)).0, after, cm, Parent(s.handles[tag].path))
  {
    hide Inv, Invalidate, AllCurrent;
    var p := s.handles[tag].path;
    InvalidateShows(s, after, cm, p);
    ReleaseLeaves(Invalidate(s, after, cm, p), after, cm, Parent(p), tag);
  }

  // ---- over a run ----

  /** What do_nami() makes of the request's directory and name. */
  function Answered(s: Export, fs: Host, cm: CaseMap.Maps, x: Request): (Export, Option<Handle>, Answer) {
    var (v, h) := ForTag(s, fs, cm, x.tag, if x.ino >= 0 then x.ino else 0);
    if h.None? || h.value !in v.handles then (v, None, NoMatch)
    else
      var (w, a) := Lookup(v, fs, cm, h.value, x.raw);
      (w, Some(v.handles[h.value]), a)
  }

  lemma AnsweredKeeps(cm: CaseMap.Maps, es: seq<Event>, fs: Host, x: Request)
    ensures var (w, d, a) := Answered(Run(INITIAL, cm, es), fs, cm, x); Inv(w) && Held(w, a)
  {
    hide Run, Inv, Later, ForTag, Lookup;
    InitialHolds();
    RunKeeps(INITIAL, cm, es);
    var s := Run(INITIAL, cm, es);
    var ino := if x.ino >= 0 then x.ino else 0;
    ForTagKeeps(s, fs, cm, x.tag, ino);
    var (v, h) := ForTag(s, fs, cm, x.tag, ino);
    if h.Some? { LookupKeeps(v, fs, cm, h.value, x.raw); }
  }

  /** After every run: when a name has been made or linked in a directory, the images that
      are served of it are those of the directory with the name. */
  lemma NameMade(cm: CaseMap.Maps, es: seq<Event>, fs: Host, x: Request, after: Host)
    requires x.flag == Create || x.flag == Link
    requires var (w, d, a) := Answered(Run(INITIAL, cm, es), fs, cm, x);
             d.Some? && a == NoMatch && Apart(after, d.value.path + [Cut(x.raw)])
    requires var (u, y) := DoNami(Run(INITIAL, cm, es), fs, cm, false, x, Done(after)); y != Bad(EXDEV) && u.inodes.next < 0xffff
    ensures var d := Answered(Run(INITIAL, cm, es), fs, cm, x).1.value.path;
            AllCurrent(DoNami(Run(INITIAL, cm, es), fs, cm, false, x, Done(after)).0, after, cm, d)
  {
    hide Run, Inv, ForTag, Lookup, DoMake, AllCurrent, Apart, Cut;
    AnsweredKeeps(cm, es, fs, x);
    var (w, d, a) := Answered(Run(INITIAL, cm, es), fs, cm, x);
    var target := d.value.path + [Cut(x.raw)];
    assert Parent(target) == d.value.path;
    MadeShows(w, fs, cm, target, if x.flag == Link then Some(x.ino) else None, after);
  }

  /** And when one has been deleted, those of the directory without it. */
  lemma NameDeleted(cm: CaseMap.Maps, es: seq<Event>, fs: Host, x: Request, after: Host)
    requires x.flag == Delete
    requires var (w, d, a) := Answered(Run(INITIAL, cm, es), fs, cm, x);
             d.Some? && a.Found? && !a.root && a.tag in w.handles && w.handles[a.tag].path != []
    requires DoNami(Run(INITIAL, cm, es), fs, cm, false, x, Done(after)).0.inodes.next < 0xffff
    ensures var (w, d, a) := Answered(Run(INITIAL, cm, es), fs, cm, x);
            AllCurrent(DoNami(Run(INITIAL, cm, es), fs, cm, false, x, Done(after)).0, after, cm, Parent(w.handles[a.tag].path))
  {
    hide Run, Inv, ForTag, Lookup, DoDelete, AllCurrent, Cut;
    AnsweredKeeps(cm, es, fs, x);
    var (w, d, a) := Answered(Run(INITIAL, cm, es), fs, cm, x);
    DeletedShows(w, cm, a.tag, after);
  }

  /** What a current image says of one name: it is there if and only if the host has a
      visible name that truncates to it. */
  lemma NameShown(u: Inodes, fs: Host, cm: CaseMap.Maps, d: Path, h: Handle, x: Name)
    requires Current(u, fs, cm, d, h)
    ensures exists es :: Shorts(es) && h.image == Some(Image(es)) && |es| >= 2 && (HasName(es[2..], x) <==> Visibly(fs, cm, d, x))
  {
    hide Image, Visibly, HasName, EntriesAre, NamesOnce;
  }
}
