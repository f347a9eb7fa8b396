/** What the guest is answered: each request's reply, from any state that a run can
    reach, and what becomes of the tables with it. */
module NetfsReplies {
  import opened Basics
  import opened Names
  import opened NetfsModel
  import opened NetfsRuns
  import opened NetfsDelete
  import NetfsImages
  import NetfsListing
  import CaseMap

  /** There is an object at p, and it has a number or gets one. */
  predicate Reachable(t: Inodes, fs: Host, p: Path) { p in fs.stat && (p == [] || Numberable(t, fs.stat[p].key)) }

  /** The handle that an object already had, or a new one. */
  predicate SameOrNew(s: Export, ino: nat, tag: nat) { if Live(s, ino) then tag == s.byIno[ino] else tag == s.nextTag }

  /** The tag is that of the object at p. */
  predicate Reaches(s: Export, u: Export, fs: Host, p: Path, tag: nat) {
    tag in u.handles && NetfsImages.NumberOf(u.inodes, fs, p) == Some(u.handles[tag].ino) && SameOrNew(s, u.handles[tag].ino, tag)
  }

  /** handle_for_path() fails if and only if there is nothing there or no number is left. */
  lemma ForPathReaches(s: Export, fs: Host, cm: CaseMap.Maps, p: Path)
    requires Inv(s)
    ensures var (u, h) := ForPath(s, fs, cm, p);
            if Reachable(s.inodes, fs, p) then h.Some? && Reaches(s, u, fs, p, h.value) else (u, h) == (s, None)
  {
    hide Numbered, Extends, Later, Indexed, TagsUsed, GoodHandles, Refresh, Fresh, ForPath;
    if p == [] {
      if p in fs.stat {
        NetfsListing.RootFound(s, fs, cm);
        RootHandle(s, fs, cm);
      } else {
        NothingThere(s, fs, cm, p);
      }
    } else if p in fs.stat {
      ForPathKept(s, fs, cm, p);
      if Reachable(s.inodes, fs, p) {
        PathNumber(s, fs, cm, p);
        ForPathTag(s, fs, cm, p);
      }
    } else {
      NothingThere(s, fs, cm, p);
    }
  }

  lemma RootHandle(s: Export, fs: Host, cm: CaseMap.Maps)
    requires Inv(s) && [] in fs.stat
    ensures var h := ForPath(s, fs, cm, []).1; h.Some? && SameOrNew(s, ROOTINO, h.value)
  {
    hide Numbered, Extends, Later, Indexed, TagsUsed, GoodHandles, Refresh, Fresh;
  }

  lemma ForPathTag(s: Export, fs: Host, cm: CaseMap.Maps, p: Path)
    requires Inv(s) && p != [] && Reachable(s.inodes, fs, p)
    ensures var (u, h) := ForPath(s, fs, cm, p);
            h.Some? && h.value in u.handles && SameOrNew(s, u.handles[h.value].ino, h.value)
  {
    hide Numbered, Extends, Later, TagsUsed, GoodHandles, Refresh, Fresh;
    var key := fs.stat[p].key;
    NumberIs(s.inodes, p, key);
    var (t, n) := InoFor(s.inodes, p, key);
    var v := s.(inodes := t);
    LiveIs(v, n.value);
    if Live(v, n.value) {
      RefreshHolds(v, fs, cm, v.byIno[n.value], p);
    } else {
      FreshHolds(v, fs, cm, n.value, p);
    }
  }

  // ---- NGET, NPUT, NSTAT ----

  /** The handle is live, or the path last seen for the number leads to an object. */
  predicate Gettable(s: Export, fs: Host, ino: int) {
    0 < ino <= 0xffff && (Live(s, ino) || (ino in s.inodes.paths && Reachable(s.inodes, fs, s.inodes.paths[ino])))
  }

  lemma ForInoReaches(s: Export, fs: Host, cm: CaseMap.Maps, ino: nat)
    requires Inv(s) && 0 < ino <= 0xffff
    ensures var (u, h) := ForIno(s, fs, cm, ino);
            if !Gettable(s, fs, ino) then (u, h) == (s, None)
            else h.Some? && h.value in u.handles
                 && if Live(s, ino) then h.value == s.byIno[ino] && u.handles[h.value].ino == ino
                    else Reaches(s, u, fs, s.inodes.paths[ino], h.value)
  {
    hide Numbered, Extends, Later, TagsUsed, GoodHandles, Refresh, Fresh, ForPath;
    LiveIs(s, ino);
    if Live(s, ino) {
      var tag := s.byIno[ino];
      if s.handles[tag].path in fs.stat { RefreshHolds(s, fs, cm, tag, s.handles[tag].path); }
    } else if ino in s.inodes.paths {
      ForPathReaches(s, fs, cm, s.inodes.paths[ino]);
    }
  }

  /** NGET: a live handle by its number, or the object at the path last seen for it; if
      there is none, nothing changes and there is no such file. */
  lemma GetAnswered(s: Export, fs: Host, cm: CaseMap.Maps, ino: int)
    requires Inv(s)
    ensures var (u, y) := DoGet(s, fs, cm, ino);
            if !Gettable(s, fs, ino) then (u, y) == (s, Bad(2))
            else y.Ok? && !y.root && y.tag in u.handles && y.ino == u.handles[y.tag].ino
                 && if Live(s, ino) then y.tag == s.byIno[ino] && y.ino == ino
                    else Reaches(s, u, fs, s.inodes.paths[ino], y.tag)
  {
    hide Inv, ForIno, Live, Reaches, Reachable;
    if 0 < ino <= 0xffff { ForInoReaches(s, fs, cm, ino); }
  }

  /** NPUT: of tag 0 an error; any other is given up, with its number's handle, unless it
      is the root's or no one's. */
  lemma PutAnswered(s: Export, tag: nat)
    requires Inv(s)
    ensures var (u, y) := DoPut(s, tag);
            var drops := tag in s.handles && s.handles[tag].path != [];
            y == (if tag == 0 then Bad(5) else Empty)
            && u.inodes == s.inodes && u.nextTag == s.nextTag
            && u.handles.Keys == (if drops then s.handles.Keys - {tag} else s.handles.Keys)
            && u.byIno.Keys == (if drops then s.byIno.Keys - {s.handles[tag].ino} else s.byIno.Keys)
            && (forall k :: k in u.handles ==> u.handles[k] == s.handles[k])
            && forall n :: n in u.byIno ==> u.byIno[n] == s.byIno[n]
  {
    hide Numbered;
  }

  /** The object's attributes read again, and the rest as it was. */
  predicate OnlyStat(s: Export, u: Export, fs: Host, tag: nat) {
    tag in s.handles && u.inodes == s.inodes && u.byIno == s.byIno && u.nextTag == s.nextTag
    && var h := s.handles[tag];
       u.handles == s.handles[tag := h.(st := if h.path in fs.stat then fs.stat[h.path] else h.st)]
  }

  /** NSTAT, and the front of reading and writing: a live tag by itself, and the root by
      its number if its tag is not known; any other is no file. */
  lemma StatAnswered(s: Export, fs: Host, cm: CaseMap.Maps, tag: nat, ino: nat)
    requires Inv(s)
    ensures var (u, y) := DoStat(s, fs, cm, tag, ino);
            if tag in s.handles then y == Ok(tag, s.handles[tag].ino, false) && OnlyStat(s, u, fs, tag)
            else if ino == 2 && Gettable(s, fs, 2) then
              y.Ok? && y.ino == 2 && !y.root && y.tag in u.handles && u.handles[y.tag].path == [] && SameOrNew(s, 2, y.tag)
            else (u, y) == (s, Bad(2))
  {
    hide Numbered, Extends, Later, TagsUsed, Refresh, Fresh, ForPath, ForIno;
    if tag in s.handles {
      var h := s.handles[tag];
      if h.path !in fs.stat { assert s.handles == s.handles[tag := h.(st := h.st)]; }
    } else {
      ForInoReaches(s, fs, cm, ROOTINO);
      ForInoKeeps(s, fs, cm, ROOTINO);
      assert s.inodes.paths[ROOTINO] == [] by { RootPath(s); }
    }
  }

  lemma RootPath(s: Export)
    requires Inv(s)
    ensures ROOTINO in s.inodes.paths && s.inodes.paths[ROOTINO] == []
  {
  }

  // ---- NNAMI ----

  predicate Effectful(x: Request) { x.flag != Plain }

  /** A request whose directory is not served, or is read-only, or is no directory, changes
      nothing. */
  lemma NamiRefused(s: Export, fs: Host, cm: CaseMap.Maps, readonly: bool, x: Request, effect: Effect)
    requires Inv(s)
    ensures var r := DoNami(s, fs, cm, readonly, x, effect);
            (x.tag !in s.handles && (x.ino != 2 || !Gettable(s, fs, 2)) ==> r == (s, Bad(2)))
            && (x.tag in s.handles && readonly && Effectful(x) ==> r == (s, Bad(30)))
            && (x.tag in s.handles && !(readonly && Effectful(x)) && !IsDir(s.handles[x.tag]) ==> r == (s, Bad(20)))
  {
    hide Inv, ForIno, Gettable, DoMake, DoDelete, Cut;
    if x.tag !in s.handles && x.ino == 2 { ForInoReaches(s, fs, cm, ROOTINO); }
  }

  /** An unknown tag with the root's number is served as the root's. */
  lemma RootStandsIn(s: Export, fs: Host, cm: CaseMap.Maps, readonly: bool, x: Request, effect: Effect)
    requires Inv(s) && x.tag !in s.handles && x.ino == 2 && Gettable(s, fs, 2)
    ensures var (u, y) := DoGet(s, fs, cm, 2);
            y.Ok? && y.tag in u.handles && u.handles[y.tag].path == []
            && DoNami(s, fs, cm, readonly, x, effect) == DoNami(u, fs, cm, readonly, x.(tag := y.tag), effect)
  {
    hide Numbered, Indexed, TagsUsed, Later, ForIno, Gettable, DoMake, DoDelete, Cut, Lookup;
    ForInoReaches(s, fs, cm, ROOTINO);
    ForInoKeeps(s, fs, cm, ROOTINO);
    RootPath(s);
    var (u, h) := ForIno(s, fs, cm, ROOTINO);
    var ino := if x.ino >= 0 then x.ino else 0;
    assert ForTag(s, fs, cm, x.tag, ino) == (u, h) && ForTag(u, fs, cm, h.value, ino) == (u, h);
  }

  /** The request is looked up in d, which the tag names. */
  predicate LookedUp(s: Export, readonly: bool, x: Request, d: Path) {
    x.tag in s.handles && s.handles[x.tag].path == d && IsDir(s.handles[x.tag]) && !(readonly && Effectful(x))
  }

  /** What NDEL answers for a handle that is not the root's. */
  function Removal(effect: Effect): Reply {
    match effect
    case Done(_) => Empty
    case Failed(e) => Bad(e)
  }

  /** The directory itself. */
  lemma DotAnswered(s: Export, fs: Host, cm: CaseMap.Maps, readonly: bool, x: Request, effect: Effect, d: Path)
    requires LookedUp(s, readonly, x, d) && (Cut(x.raw) == "" || Cut(x.raw) == ".")
    ensures var (u, y) := DoNami(s, fs, cm, readonly, x, effect);
            if x.flag == Delete then y == Removal(effect)
            else u == s && y == Ok(x.tag, s.handles[x.tag].ino, false)
  {
    hide Cut, Invalidate, Release;
  }

  /** The directory above; above the root, the root, which is said to be it. */
  lemma UpAnswered(s: Export, fs: Host, cm: CaseMap.Maps, readonly: bool, x: Request, effect: Effect, d: Path)
    requires Inv(s) && LookedUp(s, readonly, x, d) && Cut(x.raw) == ".."
    ensures var (u, y) := DoNami(s, fs, cm, readonly, x, effect);
            var up := if d == [] then [] else Parent(d);
            if !Reachable(s.inodes, fs, up) then (u, y) == (s, Bad(if d == [] then 5 else 2))
            else if x.flag == Delete then y == (if up == [] then Bad(1) else Removal(effect))
            else y.Ok? && Reaches(s, u, fs, up, y.tag) && y.ino == u.handles[y.tag].ino && (y.root <==> up == [])
  {
    hide Inv, Cut, ForPath, Invalidate, Release, Reaches, Reachable, DoMake;
    var up := if d == [] then [] else Parent(d);
    ForPathReaches(s, fs, cm, up);
    var (v, h) := ForPath(s, fs, cm, up);
    if Reachable(s.inodes, fs, up) {
      ReachesHandle(s, v, fs, up, h.value);
      UpPath(s, fs, cm, up);
    }
  }

  lemma ReachesHandle(s: Export, u: Export, fs: Host, p: Path, tag: nat)
    requires Reaches(s, u, fs, p, tag)
    ensures tag in u.handles
  {
  }

  lemma UpPath(s: Export, fs: Host, cm: CaseMap.Maps, up: Path)
    requires Inv(s) && Reachable(s.inodes, fs, up)
    ensures var (u, h) := ForPath(s, fs, cm, up);
            h.Some? && h.value in u.handles && (u.handles[h.value].path == [] <==> up == [])
  {
    hide Inv, ForPath;
    if up == [] { NetfsListing.RootFound(s, fs, cm); } else { ForPathKept(s, fs, cm, up); }
  }

  /** A name that means an object leads to it, whatever the request was for; only NDEL does
      more. */
  lemma NameAnswered(s: Export, fs: Host, cm: CaseMap.Maps, readonly: bool, x: Request, effect: Effect, d: Path, q: Path)
    requires Inv(s) && LookedUp(s, readonly, x, d) && !Dot(Cut(x.raw)) && Meant(s.inodes, fs, cm, d, Cut(x.raw)) == Some(q)
    ensures var (u, y) := DoNami(s, fs, cm, readonly, x, effect);
            if x.flag == Delete then y == Removal(effect)
            else y.Ok? && !y.root && Reaches(s, u, fs, q, y.tag) && y.ino == u.handles[y.tag].ino
  {
    hide Inv, Cut, Lookup, Invalidate, Release, Reaches, Meant, DoMake;
    NameReaches(s, fs, cm, x.tag, x.raw, q);
    var (v, a) := Lookup(s, fs, cm, x.tag, x.raw);
    ReachesHandle(s, v, fs, q, a.tag);
  }

  lemma NameReaches(s: Export, fs: Host, cm: CaseMap.Maps, tag: nat, raw: string, q: Path)
    requires Inv(s) && tag in s.handles && IsDir(s.handles[tag]) && !Dot(Cut(raw))
    requires Meant(s.inodes, fs, cm, s.handles[tag].path, Cut(raw)) == Some(q)
    ensures var (u, a) := Lookup(s, fs, cm, tag, raw); a.Found? && !a.root && Reaches(s, u, fs, q, a.tag)
  {
    hide Inv, ForPath, ScanFor, FirstTaken, OnDisk, Numberable, Cut, Reaches;
    LookupKept(s, fs, cm, tag, raw);
    var d, name := s.handles[tag].path, Cut(raw);
    if |name| < DIRSIZ {
      ForPathReaches(s, fs, cm, q);
    } else {
      ScanReaches(s, fs, cm, d, Listing(fs, d), name);
    }
  }

  lemma {:induction false} ScanReaches(s: Export, fs: Host, cm: CaseMap.Maps, d: Path, names: seq<Name>, short: Name)
    requires Inv(s)
    ensures var (u, a) := ScanFor(s, fs, cm, d, names, short);
            match FirstTaken(s.inodes, fs, cm, d, names, short)
            case None => (u, a) == (s, NoMatch)
            case Some(q) => a.Found? && !a.root && Reaches(s, u, fs, q, a.tag)
    decreases |names|
  {
    hide Inv, ForPath, Truncates, Numberable, Reaches;
    if names != [] {
      if !Truncates(fs, cm, d, names[0], short) {
        ScanReaches(s, fs, cm, d, names[1..], short);
      } else {
        NetfsListing.TruncatesListable(fs, cm, d, names[0], short);
        ForPathReaches(s, fs, cm, d + [names[0]]);
        ScanReaches(s, fs, cm, d, names[1..], short);
      }
    }
  }

  /** An object is there but no number is left for it. */
  predicate Unnumbered(s: Export, fs: Host, cm: CaseMap.Maps, d: Path, name: Name) {
    |name| < DIRSIZ && Listable(fs, d + [OnDisk(cm, d, name)])
  }

  lemma NothingFound(s: Export, fs: Host, cm: CaseMap.Maps, tag: nat, raw: string)
    requires Inv(s) && tag in s.handles && IsDir(s.handles[tag]) && !Dot(Cut(raw))
    requires Meant(s.inodes, fs, cm, s.handles[tag].path, Cut(raw)) == None
    ensures Lookup(s, fs, cm, tag, raw)
         == (s, if Unnumbered(s, fs, cm, s.handles[tag].path, Cut(raw)) then Error(EIO) else NoMatch)
  {
    hide Inv, ForPath, ScanFor, FirstTaken, OnDisk, Numberable, Cut;
    var d, name := s.handles[tag].path, Cut(raw);
    if |name| < DIRSIZ {
      ForPathReaches(s, fs, cm, d + [OnDisk(cm, d, name)]);
    } else {
      ScanReaches(s, fs, cm, d, Listing(fs, d), name);
    }
  }

  /** What is made at target is answered with its number, whatever the host said. */
  predicate MadeIs(s: Export, u: Export, y: Reply, target: Path, effect: Effect) {
    match effect
    case Failed(e) => (u, y) == (s, Bad(e))
    case Done(after) =>
      if target !in after.stat then y == Bad(5)
      else (u.inodes.next < 0xffff ==> y.Ok?)
           && if y.Ok? then !y.root && y.tag in u.handles && y.ino == u.handles[y.tag].ino
                            && NetfsImages.NumberOf(u.inodes, after, target) == Some(y.ino)
              else y == Bad(5)
  }

  /** The source of a link can be had. */
  predicate Linkable(s: Export, fs: Host, x: Request) { x.flag == Link ==> Gettable(s, fs, x.ino) }

  /** A name that means nothing: NCREAT and NLINK make it, and otherwise it is said to be
      absent; a link needs a file that is there. */
  lemma AbsentAnswered(s: Export, fs: Host, cm: CaseMap.Maps, readonly: bool, x: Request, effect: Effect, d: Path)
    requires Inv(s) && LookedUp(s, readonly, x, d) && !Dot(Cut(x.raw)) && Meant(s.inodes, fs, cm, d, Cut(x.raw)) == None
    ensures var (u, y) := DoNami(s, fs, cm, readonly, x, effect);
            if Unnumbered(s, fs, cm, d, Cut(x.raw)) then (u, y) == (s, Bad(5))
            else if x.flag == Plain || x.flag == Delete then (u, y) == (s, Absent)
            else if !Linkable(s, fs, x) then (u, y) == (s, Bad(18))
            else if x.flag == Link then exists v :: Onward(s, v) && MadeIs(v, u, y, d + [Cut(x.raw)], effect)
            else MadeIs(s, u, y, d + [Cut(x.raw)], effect)
  {
    hide Inv, Cut, Lookup, DoMake, Later, MadeIs, Meant, Unnumbered, Linkable;
    NothingFound(s, fs, cm, x.tag, x.raw);
    LaterSelf(s);
    MakeAnswered(s, fs, cm, d + [Cut(x.raw)], None, effect);
    if x.flag == Link {
      LinkableIs(s, fs, x);
      MakeAnswered(s, fs, cm, d + [Cut(x.raw)], Some(x.ino), effect);
    } else {
      LinkableIs(s, fs, x);
    }
  }

  lemma LinkableIs(s: Export, fs: Host, x: Request)
    ensures Linkable(s, fs, x) <==> x.flag != Link || Gettable(s, fs, x.ino)
  {
  }

  lemma MakeAnswered(s: Export, fs: Host, cm: CaseMap.Maps, target: Path, link: Option<int>, effect: Effect)
    requires Inv(s) && target != []
    ensures var (u, y) := DoMake(s, fs, cm, target, link, effect);
            if link.None? then MadeIs(s, u, y, target, effect)
            else if !Gettable(s, fs, link.value) then (u, y) == (s, Bad(18))
            else exists v :: Onward(s, v) && MadeIs(v, u, y, target, effect)
  {
    hide Inv, ForIno, ForPath, Invalidate, Later, Gettable, MadeIs;
    if link.None? {
      MadeAnswered(s, cm, target, effect);
    } else if 0 < link.value <= 0xffff {
      ForInoReaches(s, fs, cm, link.value);
      ForInoKeeps(s, fs, cm, link.value);
      var v := ForIno(s, fs, cm, link.value).0;
      if Gettable(s, fs, link.value) {
        MadeAnswered(v, cm, target, effect);
        MakeFrom(s, fs, cm, target, link.value, effect);
      }
    } else {
      OutOfRange(s, fs, link.value);
    }
  }

  lemma OutOfRange(s: Export, fs: Host, ino: int)
    requires ino <= 0 || ino > 0xffff
    ensures !Gettable(s, fs, ino)
  {
  }

  lemma MakeFrom(s: Export, fs: Host, cm: CaseMap.Maps, target: Path, ino: int, effect: Effect)
    requires 0 < ino <= 0xffff && ForIno(s, fs, cm, ino).1.Some?
    ensures DoMake(s, fs, cm, target, Some(ino), effect) == DoMake(ForIno(s, fs, cm, ino).0, fs, cm, target, None, effect)
  {
    hide ForIno, ForPath, Invalidate;
  }

  lemma MadeAnswered(s: Export, cm: CaseMap.Maps, target: Path, effect: Effect)
    requires Inv(s) && target != []
    ensures forall fs :: var (u, y) := DoMake(s, fs, cm, target, None, effect); MadeIs(s, u, y, target, effect)
  {
    hide Inv, ForPath, Invalidate, Later, Reaches, Numberable;
    if effect.Done? {
      var after := effect.after;
      var w := Invalidate(s, after, cm, target);
      InvalidateKeeps(s, after, cm, target);
      ForPathReaches(w, after, cm, target);
      ForPathKeeps(w, after, cm, target);
      var (u, h) := ForPath(w, after, cm, target);
      if h.Some? {
        ReachesNumber(w, u, after, target, h.value);
      } else if target in after.stat {
        NoneLeft(w, after, target);
      }
    }
  }

  lemma ReachesNumber(s: Export, u: Export, fs: Host, p: Path, tag: nat)
    requires Reaches(s, u, fs, p, tag)
    ensures tag in u.handles && NetfsImages.NumberOf(u.inodes, fs, p) == Some(u.handles[tag].ino)
  {
  }

  lemma NoneLeft(s: Export, fs: Host, p: Path)
    requires Inv(s) && p in fs.stat && !Reachable(s.inodes, fs, p)
    ensures s.inodes.next >= 0xffff
  {
  }
}
