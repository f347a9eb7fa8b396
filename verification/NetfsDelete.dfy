/** Which path NDEL has the host remove: the one kept in the handle, when that
    is the one the guest named, and when it is the export's own root. */
module NetfsDelete {
  import opened Basics
  import opened Names
  import opened NetfsModel
  import opened NetfsRuns
  import NetfsListing
  import CaseMap

  /** The object has a number, or one is left for it. */
  predicate Numberable(t: Inodes, key: Key) { key in t.byHost || t.next < 0xffff }

  predicate Takes(t: Inodes, fs: Host, cm: CaseMap.Maps, d: Path, onDisk: Name, short: Name) {
    Truncates(fs, cm, d, onDisk, short) && Numberable(t, fs.stat[d + [onDisk]].key)
  }

  function FirstTaken(t: Inodes, fs: Host, cm: CaseMap.Maps, d: Path, names: seq<Name>, short: Name): Option<Path>
    decreases |names|
  {
    if names == [] then None
    else if Takes(t, fs, cm, d, names[0], short) then Some(d + [names[0]])
    else FirstTaken(t, fs, cm, d, names[1..], short)
  }

  /** The path in d that a name other than a dot means to the guest. */
  function Meant(t: Inodes, fs: Host, cm: CaseMap.Maps, d: Path, name: Name): Option<Path> {
    if |name| < DIRSIZ then
      var q := d + [OnDisk(cm, d, name)];
      if Listable(fs, q) && Numberable(t, fs.stat[q].key) then Some(q) else None
    else if |name| == DIRSIZ then FirstTaken(t, fs, cm, d, Listing(fs, d), name)
    else None
  }

  predicate LiveObject(s: Export, key: Key) { key in s.inodes.byHost && Live(s, s.inodes.byHost[key]) }

  /** The path kept for the object at q, if a handle for it is live. */
  function Kept(s: Export, fs: Host, q: Path): Path
    requires q in fs.stat
  {
    var key := fs.stat[q].key;
    if LiveObject(s, key) then s.handles[s.byIno[s.inodes.byHost[key]]].path else q
  }

  predicate Dot(n: Name) { n == "" || n == "." || n == ".." }

  // ---- what one lookup finds ----

  lemma NumberIs(t: Inodes, p: Path, key: Key)
    requires p != []
    ensures var (u, n) := InoFor(t, p, key);
            if Numberable(t, key) then n == Some(if key in t.byHost then t.byHost[key] else t.next)
            else n == None && u == t
  {
  }

  /** handle_for_path() gives the object's live handle with its path, or a new
      one with the path asked for. */
  lemma ForPathKept(s: Export, fs: Host, cm: CaseMap.Maps, q: Path)
    requires Inv(s) && q in fs.stat && q != []
    ensures var (u, h) := ForPath(s, fs, cm, q);
            if Numberable(s.inodes, fs.stat[q].key) then
              h.Some? && h.value in u.handles && u.handles[h.value].path == Kept(s, fs, q) != []
            else h == None && u == s
  {
    hide Forged, Numbered, GoodHandles, TagsUsed, Later, Refresh, Fresh, InoFor;
    var key := fs.stat[q].key;
    NumberIs(s.inodes, q, key);
    InoForKeeps(s.inodes, q, key);
    ForPathKeeps(s, fs, cm, q);
    var (t, n) := InoFor(s.inodes, q, key);
    var v := s.(inodes := t);
    if n.Some? {
      LiveIs(v, n.value);
      if Live(v, n.value) {
        if key !in s.inodes.byHost { NextUnheld(s); }
        RefreshHolds(v, fs, cm, v.byIno[n.value], q);
        LivePath(s, n.value);
        assert Kept(s, fs, q) == s.handles[s.byIno[n.value]].path;
      } else {
        FreshHolds(v, fs, cm, n.value, q);
        assert Kept(s, fs, q) == q;
      }
    }
  }

  lemma NextUnheld(s: Export)
    requires Inv(s)
    ensures !Live(s, s.inodes.next)
  {
    hide InRange, GivenOnce, Pathed;
  }

  lemma LivePath(s: Export, ino: nat)
    requires Inv(s) && Live(s, ino) && ino != ROOTINO
    ensures s.handles[s.byIno[ino]].path != []
  {
    hide Numbered;
  }

  lemma {:induction false} ScanKept(s: Export, fs: Host, cm: CaseMap.Maps, d: Path, names: seq<Name>, short: Name)
    requires Inv(s)
    ensures var (u, a) := ScanFor(s, fs, cm, d, names, short);
            match FirstTaken(s.inodes, fs, cm, d, names, short)
            case None => a == NoMatch
            case Some(q) =>
              q in fs.stat && a.Found? && !a.root && a.tag in u.handles && u.handles[a.tag].path == Kept(s, fs, q) != []
    decreases |names|
  {
    hide Inv, ForPath, Truncates, Kept, Numberable;
    if names != [] {
      if !Truncates(fs, cm, d, names[0], short) {
        ScanKept(s, fs, cm, d, names[1..], short);
      } else {
        NetfsListing.TruncatesListable(fs, cm, d, names[0], short);
        ForPathKept(s, fs, cm, d + [names[0]]);
        ScanKept(s, fs, cm, d, names[1..], short);
      }
    }
  }

  /** The handle that a name leads to, whatever its length. */
  lemma LookupKept(s: Export, fs: Host, cm: CaseMap.Maps, tag: nat, raw: string)
    requires Inv(s) && tag in s.handles && IsDir(s.handles[tag]) && !Dot(Cut(raw))
    ensures var (u, a) := Lookup(s, fs, cm, tag, raw);
            match Meant(s.inodes, fs, cm, s.handles[tag].path, Cut(raw))
            case None => !a.Found?
            case Some(q) =>
              q in fs.stat && a.Found? && !a.root && a.tag in u.handles && u.handles[a.tag].path == Kept(s, fs, q) != []
  {
    hide Inv, ForPath, ScanFor, FirstTaken, Kept, OnDisk, Numberable, Cut;
    var d, name := s.handles[tag].path, Cut(raw);
    if |name| < DIRSIZ {
      var q := d + [OnDisk(cm, d, name)];
      if q in fs.stat { ForPathKept(s, fs, cm, q); }
    } else {
      ScanKept(s, fs, cm, d, Listing(fs, d), name);
    }
  }

  // ---- what the host is asked for ----

  /** What a name in d has the host remove. */
  function Target(s: Export, fs: Host, cm: CaseMap.Maps, d: Path, name: Name): Option<Path> {
    if name == "" || name == "." then Some(d)
    else if name == ".." then
      if |d| <= 1 || Parent(d) !in fs.stat || !Numberable(s.inodes, fs.stat[Parent(d)].key) then None
      else Some(Kept(s, fs, Parent(d)))
    else
      match Meant(s.inodes, fs, cm, d, name)
      case None => None
      case Some(q) => if q in fs.stat then Some(Kept(s, fs, q)) else None
  }

  /** The request's directory, if it gets as far as lookup with NDEL. */
  function DeletesIn(s: Export, fs: Host, cm: CaseMap.Maps, readonly: bool, x: Request): Option<Handle> {
    var (v, h) := ForTag(s, fs, cm, x.tag, if x.ino >= 0 then x.ino else 0);
    if readonly || x.flag != Delete || h.None? || h.value !in v.handles || !IsDir(v.handles[h.value]) then None
    else Some(v.handles[h.value])
  }

  function Resolved(s: Export, fs: Host, cm: CaseMap.Maps, x: Request): Export {
    ForTag(s, fs, cm, x.tag, if x.ino >= 0 then x.ino else 0).0
  }

  lemma UpAsks(s: Export, fs: Host, cm: CaseMap.Maps, d: Path)
    requires Inv(s) && d != []
    ensures var (u, h) := ForPath(s, fs, cm, Parent(d));
            h.Some? ==> h.value in u.handles
                        && (if |d| == 1 then u.handles[h.value].path == []
                            else u.handles[h.value].path != [] && Some(u.handles[h.value].path) == Target(s, fs, cm, d, ".."))
    ensures |d| > 1 && ForPath(s, fs, cm, Parent(d)).1.None? ==> Target(s, fs, cm, d, "..") == None
  {
    hide Inv, ForPath, Kept, Numberable, Meant;
    if Parent(d) in fs.stat {
      if |d| == 1 { NetfsListing.RootFound(s, fs, cm); } else { ForPathKept(s, fs, cm, Parent(d)); }
    } else {
      NothingThere(s, fs, cm, Parent(d));
    }
  }

  lemma NothingThere(s: Export, fs: Host, cm: CaseMap.Maps, p: Path)
    requires p !in fs.stat
    ensures ForPath(s, fs, cm, p) == (s, None)
  {
  }

  lemma LookupAsks(s: Export, fs: Host, cm: CaseMap.Maps, tag: nat, raw: string)
    requires Inv(s) && tag in s.handles && IsDir(s.handles[tag])
    ensures var (u, a) := Lookup(s, fs, cm, tag, raw);
            (if a.Found? && !a.root && a.tag in u.handles then Some(u.handles[a.tag].path) else None)
            == Target(s, fs, cm, s.handles[tag].path, Cut(raw))
  {
    hide Inv, ForPath, ScanFor, Kept, Meant, OnDisk, Numberable, Cut;
    var d, name := s.handles[tag].path, Cut(raw);
    if name == ".." {
      if d != [] { UpAsks(s, fs, cm, d); }
    } else if !Dot(name) {
      LookupKept(s, fs, cm, tag, raw);
    }
  }

  /** After every run: what NDEL has the host remove is what is kept for the
      object that the name means, and nothing if the request gets no further. */
  lemma AskedIs(cm: CaseMap.Maps, es: seq<Event>, fs: Host, readonly: bool, x: Request)
    ensures var s := Run(INITIAL, cm, es);
            Asked(s, fs, cm, readonly, x)
            == match DeletesIn(s, fs, cm, readonly, x)
               case None => None
               case Some(h) => Target(Resolved(s, fs, cm, x), fs, cm, h.path, Cut(x.raw))
  {
    hide Run, Inv, ForTag, Lookup, Target, Later, Cut;
    InitialHolds();
    RunKeeps(INITIAL, cm, es);
    var s := Run(INITIAL, cm, es);
    var ino := if x.ino >= 0 then x.ino else 0;
    ForTagKeeps(s, fs, cm, x.tag, ino);
    var (v, h) := ForTag(s, fs, cm, x.tag, ino);
    if h.Some? && h.value in v.handles {
      if IsDir(v.handles[h.value]) {
        LookupAsks(v, fs, cm, h.value, x.raw);
      } else {
        NotSearched(v, fs, cm, h.value, x.raw);
      }
    }
  }

  lemma NotSearched(s: Export, fs: Host, cm: CaseMap.Maps, tag: nat, raw: string)
    requires tag in s.handles && !IsDir(s.handles[tag])
    ensures Lookup(s, fs, cm, tag, raw) == (s, Error(ENOTDIR))
  {
  }

  /** After every run: the host is asked to remove the very path that the guest
      named, if and only if no live handle is that object's or its path is that
      one. */
  lemma NamedExactly(cm: CaseMap.Maps, es: seq<Event>, fs: Host, readonly: bool, x: Request, q: Path)
    requires var s := Run(INITIAL, cm, es);
             var h := DeletesIn(s, fs, cm, readonly, x);
             h.Some? && !Dot(Cut(x.raw)) && Meant(Resolved(s, fs, cm, x).inodes, fs, cm, h.value.path, Cut(x.raw)) == Some(q)
    ensures var s := Run(INITIAL, cm, es);
            var v := Resolved(s, fs, cm, x);
            q in fs.stat && Asked(s, fs, cm, readonly, x).Some?
            && (Asked(s, fs, cm, readonly, x) == Some(q)
                <==> var key := fs.stat[q].key;
                     !LiveObject(v, key) || v.handles[v.byIno[v.inodes.byHost[key]]].path == q)
  {
    hide Run, DeletesIn, Resolved, OnDisk, Numberable, Cut;
    AskedIs(cm, es, fs, readonly, x);
    var v := Resolved(Run(INITIAL, cm, es), fs, cm, x);
    MeantListable(v.inodes, fs, cm, DeletesIn(Run(INITIAL, cm, es), fs, cm, readonly, x).value.path, Cut(x.raw));
  }

  lemma {:induction false} TakenListable(t: Inodes, fs: Host, cm: CaseMap.Maps, d: Path, names: seq<Name>, short: Name)
    ensures var q := FirstTaken(t, fs, cm, d, names, short); q.Some? ==> q.value in fs.stat
    decreases |names|
  {
    if names != [] { TakenListable(t, fs, cm, d, names[1..], short); }
  }

  lemma MeantListable(t: Inodes, fs: Host, cm: CaseMap.Maps, d: Path, name: Name)
    ensures var q := Meant(t, fs, cm, d, name); q.Some? ==> q.value in fs.stat
  {
    hide FirstTaken, OnDisk;
    TakenListable(t, fs, cm, d, Listing(fs, d), name);
  }

  /** After every run: the export's own root is asked for, if and only if the
      name given in it is a dot or nothing.  No other request asks for it. */
  lemma RootAskedExactly(cm: CaseMap.Maps, es: seq<Event>, fs: Host, readonly: bool, x: Request)
    ensures var s := Run(INITIAL, cm, es);
            var h := DeletesIn(s, fs, cm, readonly, x);
            Asked(s, fs, cm, readonly, x) == Some([])
            <==> h.Some? && h.value.path == [] && (Cut(x.raw) == "" || Cut(x.raw) == ".")
  {
    hide Run, Inv, DeletesIn, Resolved, Meant, Kept, Later, Cut, Numberable;
    AskedIs(cm, es, fs, readonly, x);
    var s := Run(INITIAL, cm, es);
    var v := Resolved(s, fs, cm, x);
    ResolvedKeeps(cm, es, fs, x);
    var h := DeletesIn(s, fs, cm, readonly, x);
    if h.Some? {
      var d, name := h.value.path, Cut(x.raw);
      if d != [] || (name != "" && name != ".") { MeantBelow(v, fs, cm, d, name); }
    }
  }

  lemma ResolvedKeeps(cm: CaseMap.Maps, es: seq<Event>, fs: Host, x: Request)
    ensures Inv(Resolved(Run(INITIAL, cm, es), fs, cm, x))
  {
    hide Run, Inv, ForTag, Later;
    InitialHolds();
    RunKeeps(INITIAL, cm, es);
    ForTagKeeps(Run(INITIAL, cm, es), fs, cm, x.tag, if x.ino >= 0 then x.ino else 0);
  }

  /** Nothing but a dot in the root leads to the root. */
  lemma MeantBelow(s: Export, fs: Host, cm: CaseMap.Maps, d: Path, name: Name)
    requires Inv(s) && (d != [] || (name != "" && name != "."))
    ensures Target(s, fs, cm, d, name) != Some([])
  {
    hide Inv, Kept, OnDisk, Numberable;
    if name == ".." {
      if |d| > 1 && Parent(d) in fs.stat { KeptBelow(s, fs, Parent(d)); }
    } else if !Dot(name) {
      var q := Meant(s.inodes, fs, cm, d, name);
      TakenBelow(s.inodes, fs, cm, d, Listing(fs, d), name);
      if q.Some? && q.value in fs.stat { KeptBelow(s, fs, q.value); }
    }
  }

  lemma {:induction false} TakenBelow(t: Inodes, fs: Host, cm: CaseMap.Maps, d: Path, names: seq<Name>, short: Name)
    ensures FirstTaken(t, fs, cm, d, names, short) != Some([])
    decreases |names|
  {
    if names != [] { TakenBelow(t, fs, cm, d, names[1..], short); }
  }

  lemma KeptBelow(s: Export, fs: Host, q: Path)
    requires Inv(s) && q in fs.stat && q != []
    ensures Kept(s, fs, q) != []
  {
    hide Extends;
  }

  // ---- a host on which every object has one name ----

  /** Each object below the root is met under one path only. */
  predicate OneName(names: map<Key, Path>, fs: Host) {
    forall p :: p in fs.stat && p != [] ==> fs.stat[p].key in names && names[fs.stat[p].key] == p
  }

  predicate OneNameAt(names: map<Key, Path>, e: Event) {
    match e
    case Get(fs, _) => OneName(names, fs)
    case Put(_) => true
    case Attributes(fs, _, _) => OneName(names, fs)
    case Nami(fs, _, _, effect) => OneName(names, fs) && (effect.Done? ==> OneName(names, effect.after))
  }

  predicate OneNameEach(names: map<Key, Path>, es: seq<Event>) { forall i :: 0 <= i < |es| ==> OneNameAt(names, es[i]) }

  predicate NamedBy(names: map<Key, Path>, t: Inodes, h: Handle) {
    h.path == [] || forall k :: k in t.byHost && t.byHost[k] == h.ino ==> k in names && names[k] == h.path
  }

  /** Every handle but the root's is kept under its object's one name. */
  predicate AllNamed(names: map<Key, Path>, s: Export) {
    forall tag :: tag in s.handles ==> NamedBy(names, s.inodes, s.handles[tag])
  }

  /** No new handles. */
  lemma StillNamed(names: map<Key, Path>, s: Export, u: Export)
    requires Inv(s) && Onward(s, u) && AllNamed(names, s) && u.handles.Keys <= s.handles.Keys
    ensures AllNamed(names, u)
  {
    hide Indexed, TagsUsed;
    forall tag | tag in u.handles
      ensures NamedBy(names, u.inodes, u.handles[tag])
    {
      assert NamedBy(names, s.inodes, s.handles[tag]);
      HandleNamed(names, s, u, tag);
    }
  }

  lemma HandleNamed(names: map<Key, Path>, s: Export, u: Export, tag: nat)
    requires Inv(s) && Onward(s, u) && tag in s.handles && tag in u.handles && NamedBy(names, s.inodes, s.handles[tag])
    ensures NamedBy(names, u.inodes, u.handles[tag])
  {
    hide Indexed, TagsUsed;
    var h := s.handles[tag];
    if h.path != [] {
      assert GoodHandle(s.inodes, h) && NetfsRuns.Given(s.inodes, h.ino);
      var k :| k in s.inodes.byHost && s.inodes.byHost[k] == h.ino;
      assert k in u.inodes.byHost && u.inodes.byHost[k] == h.ino;
    }
  }

  lemma ForPathNamed(names: map<Key, Path>, s: Export, fs: Host, cm: CaseMap.Maps, p: Path)
    requires Inv(s) && AllNamed(names, s) && OneName(names, fs)
    ensures AllNamed(names, ForPath(s, fs, cm, p).0)
  {
    hide Numbered, Indexed, TagsUsed, GoodHandles, Later, NamedBy, Extends, ForPath;
    var (u, h) := ForPath(s, fs, cm, p);
    ForPathKeeps(s, fs, cm, p);
    forall tag | tag in u.handles
      ensures NamedBy(names, u.inodes, u.handles[tag])
    {
      if tag in s.handles {
        HandleNamed(names, s, u, tag);
      } else {
        NewNamed(names, s, fs, cm, p, tag);
      }
    }
  }

  lemma NewNamed(names: map<Key, Path>, s: Export, fs: Host, cm: CaseMap.Maps, p: Path, tag: nat)
    requires Inv(s) && OneName(names, fs)
    requires var u := ForPath(s, fs, cm, p).0; tag in u.handles && tag !in s.handles
    ensures var u := ForPath(s, fs, cm, p).0; NamedBy(names, u.inodes, u.handles[tag])
  {
    hide Indexed, TagsUsed, GoodHandles, Later, Extends, Forged, NamedBy, OneName;
    var (t, n) := InoFor(s.inodes, p, fs.stat[p].key);
    var v := s.(inodes := t);
    ForPathKeeps(s, fs, cm, p);
    var u := ForPath(s, fs, cm, p).0;
    if Live(v, n.value) {
      RefreshHolds(v, fs, cm, v.byIno[n.value], p);
      assert false;
    } else {
      ForgedKeeps(t, fs, cm, p, Handle(n.value, p, fs.stat[p], None)) by { InoForKeeps(s.inodes, p, fs.stat[p].key); }
      if p != [] {
        PathNumber(s, fs, cm, p);
        OneKey(names, u.inodes, fs, p, u.handles[tag]);
      } else {
        assert NamedBy(names, u.inodes, u.handles[tag]) by { RootNamed(names, u.inodes, u.handles[tag]); }
      }
    }
  }

  lemma RootNamed(names: map<Key, Path>, t: Inodes, h: Handle)
    requires h.path == []
    ensures NamedBy(names, t, h)
  {
  }

  lemma OneKey(names: map<Key, Path>, t: Inodes, fs: Host, p: Path, h: Handle)
    requires GivenOnce(t) && OneName(names, fs) && p in fs.stat && p != [] && h.path == p
    requires fs.stat[p].key in t.byHost && t.byHost[fs.stat[p].key] == h.ino
    ensures NamedBy(names, t, h)
  {
  }

  lemma ForInoNamed(names: map<Key, Path>, s: Export, fs: Host, cm: CaseMap.Maps, ino: nat)
    requires Inv(s) && AllNamed(names, s) && OneName(names, fs)
    ensures AllNamed(names, ForIno(s, fs, cm, ino).0)
  {
    hide Inv, AllNamed, OneName, ForPath, Refresh, Later;
    if Live(s, ino) {
      var tag := s.byIno[ino];
      if s.handles[tag].path in fs.stat {
        RefreshHolds(s, fs, cm, tag, s.handles[tag].path);
        RefreshKeeps(s, fs, cm, tag, s.handles[tag].path);
        StillNamed(names, s, Refresh(s, fs, cm, tag, s.handles[tag].path));
      }
    } else if ino in s.inodes.paths {
      ForPathNamed(names, s, fs, cm, s.inodes.paths[ino]);
    }
  }

  lemma {:induction false} ScanForNamed(names: map<Key, Path>, s: Export, fs: Host, cm: CaseMap.Maps, d: Path, list: seq<Name>, short: Name)
    requires Inv(s) && AllNamed(names, s) && OneName(names, fs)
    ensures AllNamed(names, ScanFor(s, fs, cm, d, list, short).0)
    decreases |list|
  {
    hide Inv, AllNamed, OneName, ForPath, Truncates, Later;
    if list != [] {
      if !Truncates(fs, cm, d, list[0], short) {
        ScanForNamed(names, s, fs, cm, d, list[1..], short);
      } else {
        ForPathKeeps(s, fs, cm, d + [list[0]]);
        ForPathNamed(names, s, fs, cm, d + [list[0]]);
        ScanForNamed(names, ForPath(s, fs, cm, d + [list[0]]).0, fs, cm, d, list[1..], short);
      }
    }
  }

  lemma LookupNamed(names: map<Key, Path>, s: Export, fs: Host, cm: CaseMap.Maps, tag: nat, raw: string)
    requires Inv(s) && tag in s.handles && AllNamed(names, s) && OneName(names, fs)
    ensures AllNamed(names, Lookup(s, fs, cm, tag, raw).0)
  {
    hide Inv, AllNamed, OneName, ForPath, ScanFor, OnDisk, Cut, Listable;
    var p, name := s.handles[tag].path, Cut(raw);
    ForPathNamed(names, s, fs, cm, []);
    if p != [] { ForPathNamed(names, s, fs, cm, Parent(p)); }
    ForPathNamed(names, s, fs, cm, p + [OnDisk(cm, p, name)]);
    ScanForNamed(names, s, fs, cm, p, Listing(fs, p), name);
  }

  lemma DoMakeNamed(names: map<Key, Path>, s: Export, fs: Host, cm: CaseMap.Maps, target: Path, link: Option<int>, effect: Effect)
    requires Inv(s) && AllNamed(names, s) && OneName(names, fs) && (effect.Done? ==> OneName(names, effect.after))
    ensures AllNamed(names, DoMake(s, fs, cm, target, link, effect).0)
  {
    hide Inv, AllNamed, OneName, ForIno, ForPath, Invalidate, Later;
    var v := s;
    if link.Some? && 0 < link.value <= 0xffff {
      ForInoKeeps(s, fs, cm, link.value);
      ForInoNamed(names, s, fs, cm, link.value);
      v := ForIno(s, fs, cm, link.value).0;
    }
    if effect.Done? {
      InvalidateKeeps(v, effect.after, cm, target);
      StillNamed(names, v, Invalidate(v, effect.after, cm, target));
      ForPathNamed(names, Invalidate(v, effect.after, cm, target), effect.after, cm, target);
    }
  }

  lemma ReleaseFewer(s: Export, tag: nat)
    ensures Release(s, tag).handles.Keys <= s.handles.Keys
  {
  }

  lemma DoDeleteNamed(names: map<Key, Path>, s: Export, cm: CaseMap.Maps, tag: nat, root: bool, effect: Effect)
    requires Inv(s) && AllNamed(names, s)
    ensures AllNamed(names, DoDelete(s, cm, tag, root, effect).0)
  {
    hide Inv, AllNamed, Invalidate, Release, Later;
    DoDeleteKeeps(s, cm, tag, root, effect);
    if effect.Done? && tag in s.handles {
      InvalidateKeeps(s, effect.after, cm, s.handles[tag].path);
      ReleaseFewer(Invalidate(s, effect.after, cm, s.handles[tag].path), tag);
    }
    StillNamed(names, s, DoDelete(s, cm, tag, root, effect).0);
  }

  lemma ForTagNamed(names: map<Key, Path>, s: Export, fs: Host, cm: CaseMap.Maps, tag: nat, ino: nat)
    requires Inv(s) && AllNamed(names, s) && OneName(names, fs)
    ensures AllNamed(names, ForTag(s, fs, cm, tag, ino).0)
  {
    hide Inv, AllNamed, OneName, ForIno;
    ForInoNamed(names, s, fs, cm, ROOTINO);
  }

  lemma DoStatNamed(names: map<Key, Path>, s: Export, fs: Host, cm: CaseMap.Maps, tag: nat, ino: nat)
    requires Inv(s) && AllNamed(names, s) && OneName(names, fs)
    ensures AllNamed(names, DoStat(s, fs, cm, tag, ino).0)
  {
    hide Inv, AllNamed, OneName, ForTag, Later;
    var (v, h) := ForTag(s, fs, cm, tag, ino);
    ForTagKeeps(s, fs, cm, tag, ino);
    ForTagNamed(names, s, fs, cm, tag, ino);
    if h.Some? {
      var r := v.handles[h.value];
      if r.path in fs.stat {
        Replaced(v, h.value, r.(st := fs.stat[r.path]));
        StillNamed(names, v, v.(handles := v.handles[h.value := r.(st := fs.stat[r.path])]));
      }
    }
  }

  lemma DoNamiNamed(names: map<Key, Path>, s: Export, fs: Host, cm: CaseMap.Maps, readonly: bool, x: Request, effect: Effect)
    requires Inv(s) && AllNamed(names, s) && OneName(names, fs) && (effect.Done? ==> OneName(names, effect.after))
    ensures AllNamed(names, DoNami(s, fs, cm, readonly, x, effect).0)
  {
    hide Inv, AllNamed, OneName, Later, ForTag, Lookup, DoMake, DoDelete;
    var ino := if x.ino >= 0 then x.ino else 0;
    var (v, h) := ForTag(s, fs, cm, x.tag, ino);
    ForTagKeeps(s, fs, cm, x.tag, ino);
    ForTagNamed(names, s, fs, cm, x.tag, ino);
    if h.Some? {
      var (w, a) := Lookup(v, fs, cm, h.value, x.raw);
      LookupKeeps(v, fs, cm, h.value, x.raw);
      LookupNamed(names, v, fs, cm, h.value, x.raw);
      var target := v.handles[h.value].path + [Cut(x.raw)];
      DoMakeNamed(names, w, fs, cm, target, None, effect);
      DoMakeNamed(names, w, fs, cm, target, Some(x.ino), effect);
      if a.Found? { DoDeleteNamed(names, w, cm, a.tag, a.root, effect); }
    }
  }

  lemma StepNamed(names: map<Key, Path>, s: Export, cm: CaseMap.Maps, e: Event)
    requires Inv(s) && AllNamed(names, s) && OneNameAt(names, e)
    ensures AllNamed(names, Step(s, cm, e))
  {
    hide Inv, AllNamed, OneName, Later, ForIno, Release, DoStat, DoNami;
    match e
    case Get(fs, ino) => if 0 < ino <= 0xffff { ForInoNamed(names, s, fs, cm, ino); }
    case Put(tag) =>
      ReleaseKeeps(s, tag);
      ReleaseFewer(s, tag);
      StillNamed(names, s, Release(s, tag));
    case Attributes(fs, tag, ino) => DoStatNamed(names, s, fs, cm, tag, ino);
    case Nami(fs, readonly, x, effect) => DoNamiNamed(names, s, fs, cm, readonly, x, effect);
  }

  lemma {:induction false} RunNamed(names: map<Key, Path>, s: Export, cm: CaseMap.Maps, es: seq<Event>)
    requires Inv(s) && AllNamed(names, s) && OneNameEach(names, es)
    ensures AllNamed(names, Run(s, cm, es))
    decreases |es|
  {
    hide Inv, AllNamed, OneNameAt, Later, Step;
    if es != [] {
      assert OneNameAt(names, es[0]);
      assert forall i :: 0 <= i < |es| - 1 ==> es[1..][i] == es[i + 1];
      StepKeeps(s, cm, es[0]);
      StepNamed(names, s, cm, es[0]);
      RunNamed(names, Step(s, cm, es[0]), cm, es[1..]);
    }
  }

  lemma KeptIsNamed(names: map<Key, Path>, s: Export, fs: Host, q: Path)
    requires Inv(s) && AllNamed(names, s) && OneName(names, fs) && q in fs.stat && q != []
    ensures Kept(s, fs, q) == q
  {
    KeptBelow(s, fs, q);
    var key := fs.stat[q].key;
    if LiveObject(s, key) {
      var h := s.handles[s.byIno[s.inodes.byHost[key]]];
      assert NamedBy(names, s.inodes, h);
    }
  }

  /** While no object is met under two paths, a deletion is always of the path
      that the guest named, in every run. */
  lemma OneNameDeletes(names: map<Key, Path>, cm: CaseMap.Maps, es: seq<Event>, fs: Host, readonly: bool, x: Request)
    requires OneNameEach(names, es) && OneName(names, fs) && !Dot(Cut(x.raw))
    ensures var s := Run(INITIAL, cm, es);
            Asked(s, fs, cm, readonly, x)
            == match DeletesIn(s, fs, cm, readonly, x)
               case None => None
               case Some(h) => Meant(Resolved(s, fs, cm, x).inodes, fs, cm, h.path, Cut(x.raw))
  {
    hide Run, Inv, ForTag, DeletesIn, Meant, Kept, Later, Cut, OneName, AllNamed;
    var s := Run(INITIAL, cm, es);
    NothingNamed(names);
    InitialHolds();
    RunKeeps(INITIAL, cm, es);
    RunNamed(names, INITIAL, cm, es);
    AskedIs(cm, es, fs, readonly, x);
    ResolvedKeeps(cm, es, fs, x);
    ForTagNamed(names, s, fs, cm, x.tag, if x.ino >= 0 then x.ino else 0);
    var v, h := Resolved(s, fs, cm, x), DeletesIn(s, fs, cm, readonly, x);
    if h.Some? {
      var q := Meant(v.inodes, fs, cm, h.value.path, Cut(x.raw));
      MeantListable(v.inodes, fs, cm, h.value.path, Cut(x.raw));
      if q.Some? {
        MeantNotRoot(v.inodes, fs, cm, h.value.path, Cut(x.raw));
        KeptIsNamed(names, v, fs, q.value);
      }
    }
  }

  lemma NothingNamed(names: map<Key, Path>)
    ensures AllNamed(names, INITIAL)
  {
  }

  lemma MeantNotRoot(t: Inodes, fs: Host, cm: CaseMap.Maps, d: Path, name: Name)
    ensures Meant(t, fs, cm, d, name) != Some([])
  {
    hide OnDisk, Numberable;
    TakenBelow(t, fs, cm, d, Listing(fs, d), name);
  }
}
