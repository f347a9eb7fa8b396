/** What every run of the netfs server keeps, whatever the host does between
    and during requests. */
module NetfsRuns {
  import opened Basics
  import opened Names
  import opened NetfsModel
  import CaseMap

  // ---- numbers ----

  predicate GivenOnce(t: Inodes) {
    forall k, l :: k in t.byHost && l in t.byHost && t.byHost[k] == t.byHost[l] ==> k == l
  }

  /** Some host object has the number n. */
  ghost predicate Given(t: Inodes, n: nat) { exists k :: k in t.byHost && t.byHost[k] == n }

  predicate InRange(t: Inodes) { forall k :: k in t.byHost ==> 3 <= t.byHost[k] < t.next }

  ghost predicate Pathed(t: Inodes) {
    (forall n :: n in t.paths <==> n == ROOTINO || 3 <= n < t.next)
    && forall n :: n in t.paths ==> (t.paths[n] == [] <==> n == ROOTINO)
  }

  /** The numbers given out are 3 up to the next, one to each host object. */
  ghost predicate Numbered(t: Inodes) {
    3 <= t.next <= 0xffff && InRange(t) && GivenOnce(t) && Pathed(t)
    && forall n: nat :: 3 <= n < t.next ==> Given(t, n)
  }

  /** No number ever changes. */
  predicate Extends(t: Inodes, u: Inodes) {
    t.next <= u.next && forall k :: k in t.byHost ==> k in u.byHost && u.byHost[k] == t.byHost[k]
  }

  lemma NewNumber(t: Inodes, p: Path, key: Key)
    requires Numbered(t) && key !in t.byHost && p != [] && t.next < 0xffff
    ensures Numbered(InoFor(t, p, key).0)
  {
    var u := InoFor(t, p, key).0;
    assert forall n: nat :: 3 <= n < u.next ==> Given(u, n) by {
      forall n: nat | 3 <= n < u.next ensures Given(u, n) {
        if n == t.next {
          assert key in u.byHost && u.byHost[key] == n;
        } else {
          assert Given(t, n);
          var k :| k in t.byHost && t.byHost[k] == n;
          assert k in u.byHost && u.byHost[k] == n;
        }
      }
    }
  }

  lemma OldNumber(t: Inodes, p: Path, key: Key)
    requires Numbered(t) && key in t.byHost && p != []
    ensures Numbered(InoFor(t, p, key).0)
  {
    var u := InoFor(t, p, key).0;
    forall n: nat | 3 <= n < u.next ensures Given(u, n) {
      assert Given(t, n);
      var k :| k in t.byHost && t.byHost[k] == n;
      assert k in u.byHost && u.byHost[k] == n;
    }
  }

  /** What ino_for() promises: the root is 2, a host object keeps its number, and
      a new one gets the next until they run out. */
  lemma InoForKeeps(t: Inodes, p: Path, key: Key)
    requires Numbered(t)
    ensures var (u, n) := InoFor(t, p, key);
            Numbered(u) && Extends(t, u)
            && (n.Some? ==> if p == [] then n.value == ROOTINO
                            else 3 <= n.value < u.next && key in u.byHost && u.byHost[key] == n.value)
            && (n.None? <==> p != [] && key !in t.byHost && t.next == 0xffff)
  {
    if p != [] {
      if key in t.byHost {
        OldNumber(t, p, key);
      } else if t.next < 0xffff {
        NewNumber(t, p, key);
      }
    }
  }

  lemma ExtendsTwice(t: Inodes, u: Inodes, v: Inodes)
    requires Extends(t, u) && Extends(u, v)
    ensures Extends(t, v)
  {
  }

  lemma {:induction false} ScanKeeps(t: Inodes, fs: Host, cm: CaseMap.Maps, p: Path, names: seq<Name>, seen: set<Name>)
    requires Numbered(t)
    ensures var u := ScanDir(t, fs, cm, p, names, seen).0; Numbered(u) && Extends(t, u)
    decreases |names|
  {
    hide Numbered, Extends, InoFor, V8Name, Shown;
    Reflexive(t);
    if names != [] {
      var child, rest := p + [names[0]], names[1..];
      var short := V8Name(Shown(cm, p, names[0]));
      if !Listable(fs, child) || short in seen {
        ScanKeeps(t, fs, cm, p, rest, seen);
      } else {
        var (u, n) := InoFor(t, child, fs.stat[child].key);
        InoForKeeps(t, child, fs.stat[child].key);
        var more := if n.None? then seen else seen + {short};
        ScanKeeps(u, fs, cm, p, rest, more);
        ExtendsTwice(t, u, ScanDir(u, fs, cm, p, rest, more).0);
      }
    }
  }

  lemma Reflexive(t: Inodes)
    ensures Extends(t, t)
  {
  }

  lemma ForgeKeeps(t: Inodes, fs: Host, cm: CaseMap.Maps, p: Path, ino: nat)
    requires Numbered(t)
    ensures var u := Forge(t, fs, cm, p, ino).0; Numbered(u) && Extends(t, u)
  {
    hide Numbered, Extends, InoFor, ScanDir, Image;
    Reflexive(t);
    if p != [] && Parent(p) in fs.stat { InoForKeeps(t, Parent(p), fs.stat[Parent(p)].key); }
    var u := ParentIno(t, fs, p).0;
    ScanKeeps(u, fs, cm, p, Listing(fs, p), {});
    ExtendsTwice(t, u, ScanDir(u, fs, cm, p, Listing(fs, p), {}).0);
  }

  // ---- tables ----

  predicate Indexed(s: Export) {
    (forall tag :: tag in s.handles ==> s.handles[tag].ino in s.byIno && s.byIno[s.handles[tag].ino] == tag)
    && forall ino :: ino in s.byIno ==> s.byIno[ino] in s.handles && s.handles[s.byIno[ino]].ino == ino
  }

  predicate TagsUsed(s: Export) { forall tag :: tag in s.handles ==> 1 <= tag < s.nextTag }

  predicate GoodHandle(t: Inodes, h: Handle) {
    if h.ino == ROOTINO then h.path == [] else 3 <= h.ino < t.next && h.path != []
  }

  predicate GoodHandles(s: Export) { forall tag :: tag in s.handles ==> GoodHandle(s.inodes, s.handles[tag]) }

  /** Both tables hold the same handles, each under its own tag and number. */
  ghost predicate Inv(s: Export) {
    Numbered(s.inodes) && Indexed(s) && TagsUsed(s) && GoodHandles(s) && 1 <= s.nextTag
  }

  /** A tag still held names the same object, a new one was never used, and the
      root's stays. */
  predicate Later(s: Export, u: Export) {
    Extends(s.inodes, u.inodes) && s.nextTag <= u.nextTag
    && (forall tag :: tag in u.handles && tag in s.handles ==>
          u.handles[tag].ino == s.handles[tag].ino && u.handles[tag].path == s.handles[tag].path)
    && (forall tag :: tag in u.handles && tag !in s.handles ==> tag >= s.nextTag)
    && (ROOTINO in s.byIno ==> ROOTINO in u.byIno && u.byIno[ROOTINO] == s.byIno[ROOTINO])
  }

  lemma LaterSelf(s: Export)
    ensures Later(s, s)
  {
  }

  lemma LaterTwice(s: Export, u: Export, v: Export)
    requires Later(s, u) && Later(u, v) && TagsUsed(s)
    ensures Later(s, v)
  {
    hide Extends;
    ExtendsTwice(s.inodes, u.inodes, v.inodes);
    forall tag | tag in v.handles && tag in s.handles
      ensures v.handles[tag].ino == s.handles[tag].ino && v.handles[tag].path == s.handles[tag].path
    {
      assert tag < s.nextTag;
    }
  }

  /** Both at once, which is what a run needs. */
  ghost predicate Onward(s: Export, u: Export) { Inv(u) && Later(s, u) }

  lemma OnwardTwice(s: Export, u: Export, v: Export)
    requires Inv(s) && Onward(s, u) && Onward(u, v)
    ensures Onward(s, v)
  {
    hide Numbered, Indexed, GoodHandles, Later;
    LaterTwice(s, u, v);
  }

  lemma HandlesExtend(s: Export, t: Inodes)
    requires GoodHandles(s) && s.inodes.next <= t.next
    ensures GoodHandles(s.(inodes := t))
  {
  }

  /** More numbers given, and nothing else. */
  lemma Renumbered(s: Export, t: Inodes)
    requires Inv(s) && Numbered(t) && Extends(s.inodes, t)
    ensures Onward(s, s.(inodes := t))
  {
    hide Numbered;
    HandlesExtend(s, t);
  }

  /** One handle's attributes and image read again. */
  lemma Replaced(s: Export, tag: nat, h: Handle)
    requires Inv(s) && tag in s.handles && h.ino == s.handles[tag].ino && h.path == s.handles[tag].path
    ensures Onward(s, s.(handles := s.handles[tag := h]))
  {
    hide Numbered, Extends;
    Reflexive(s.inodes);
  }

  lemma Added(s: Export, h: Handle)
    requires Inv(s) && h.ino !in s.byIno && GoodHandle(s.inodes, h)
    ensures Onward(s, s.(handles := s.handles[s.nextTag := h], byIno := s.byIno[h.ino := s.nextTag], nextTag := s.nextTag + 1))
  {
    hide Numbered, Extends;
    Reflexive(s.inodes);
  }

  lemma ForgedKeeps(t: Inodes, fs: Host, cm: CaseMap.Maps, p: Path, h: Handle)
    requires Numbered(t)
    ensures var (u, g) := Forged(t, fs, cm, p, h);
            Numbered(u) && Extends(t, u) && g.ino == h.ino && g.path == h.path
  {
    hide Numbered, Extends, Forge;
    Reflexive(t);
    if IsDir(h) { ForgeKeeps(t, fs, cm, p, h.ino); }
  }

  lemma RefreshKeeps(s: Export, fs: Host, cm: CaseMap.Maps, tag: nat, p: Path)
    requires Inv(s) && tag in s.handles && p in fs.stat
    ensures Onward(s, Refresh(s, fs, cm, tag, p))
  {
    hide Numbered, Extends, Forged, Later, Indexed, TagsUsed, GoodHandles;
    var g := s.handles[tag].(st := fs.stat[p]);
    ForgedKeeps(s.inodes, fs, cm, p, g);
    var (u, h) := Forged(s.inodes, fs, cm, p, g);
    Renumbered(s, u);
    Replaced(s.(inodes := u), tag, h);
    OnwardTwice(s, s.(inodes := u), Refresh(s, fs, cm, tag, p));
  }

  lemma FreshKeeps(s: Export, fs: Host, cm: CaseMap.Maps, ino: nat, p: Path)
    requires Inv(s) && p in fs.stat && ino !in s.byIno
    requires if p == [] then ino == ROOTINO else 3 <= ino < s.inodes.next
    ensures Onward(s, Fresh(s, fs, cm, ino, p))
  {
    hide Numbered, Forged, Later, Indexed, TagsUsed, GoodHandles;
    var g := Handle(ino, p, fs.stat[p], None);
    ForgedKeeps(s.inodes, fs, cm, p, g);
    var (u, h) := Forged(s.inodes, fs, cm, p, g);
    Renumbered(s, u);
    Added(s.(inodes := u), h);
    OnwardTwice(s, s.(inodes := u), Fresh(s, fs, cm, ino, p));
  }

  lemma LiveIs(s: Export, ino: nat)
    requires Indexed(s)
    ensures Live(s, ino) <==> ino in s.byIno
    ensures Live(s, ino) ==> s.handles[s.byIno[ino]].ino == ino
  {
  }

  /** handle_for_path() keeps the tables, and its handle is that of the object
      lstat names. */
  lemma ForPathKeeps(s: Export, fs: Host, cm: CaseMap.Maps, p: Path)
    requires Inv(s)
    ensures var (u, h) := ForPath(s, fs, cm, p); Onward(s, u) && (h.Some? ==> h.value in u.handles)
  {
    hide Numbered, Extends, InoFor, Later, Indexed, TagsUsed, GoodHandles, Refresh, Fresh;
    LaterSelf(s);
    if p in fs.stat {
      var (t, n) := InoFor(s.inodes, p, fs.stat[p].key);
      InoForKeeps(s.inodes, p, fs.stat[p].key);
      Renumbered(s, t);
      var v := s.(inodes := t);
      if n.Some? {
        LiveIs(v, n.value);
        if Live(v, n.value) {
          RefreshKeeps(v, fs, cm, v.byIno[n.value], p);
          RefreshHolds(v, fs, cm, v.byIno[n.value], p);
          OnwardTwice(s, v, Refresh(v, fs, cm, v.byIno[n.value], p));
        } else {
          FreshKeeps(v, fs, cm, n.value, p);
          FreshHolds(v, fs, cm, n.value, p);
          OnwardTwice(s, v, Fresh(v, fs, cm, n.value, p));
        }
      }
    }
  }

  lemma RefreshHolds(s: Export, fs: Host, cm: CaseMap.Maps, tag: nat, p: Path)
    requires tag in s.handles && p in fs.stat
    ensures var u := Refresh(s, fs, cm, tag, p);
            u.handles.Keys == s.handles.Keys && u.byIno == s.byIno && u.nextTag == s.nextTag
            && u.handles[tag].ino == s.handles[tag].ino && u.handles[tag].path == s.handles[tag].path
  {
  }

  lemma FreshHolds(s: Export, fs: Host, cm: CaseMap.Maps, ino: nat, p: Path)
    requires p in fs.stat
    ensures var u := Fresh(s, fs, cm, ino, p);
            s.nextTag in u.handles && u.handles[s.nextTag].ino == ino && u.handles[s.nextTag].path == p
            && u.byIno == s.byIno[ino := s.nextTag]
  {
  }

  lemma ForInoKeeps(s: Export, fs: Host, cm: CaseMap.Maps, ino: nat)
    requires Inv(s)
    ensures var (u, h) := ForIno(s, fs, cm, ino);
            Onward(s, u) && (h.Some? ==> h.value in u.handles)
  {
    hide Numbered, Extends, Later, Indexed, TagsUsed, GoodHandles, Refresh, ForPath;
    LaterSelf(s);
    if Live(s, ino) {
      var tag := s.byIno[ino];
      var p := s.handles[tag].path;
      if p in fs.stat {
        RefreshKeeps(s, fs, cm, tag, p);
        RefreshHolds(s, fs, cm, tag, p);
      }
    } else if ino in s.inodes.paths {
      ForPathKeeps(s, fs, cm, s.inodes.paths[ino]);
    }
  }

  lemma ForTagKeeps(s: Export, fs: Host, cm: CaseMap.Maps, tag: nat, ino: nat)
    requires Inv(s)
    ensures var (u, h) := ForTag(s, fs, cm, tag, ino);
            Onward(s, u) && (h.Some? ==> h.value in u.handles)
  {
    hide Inv, Later, ForIno;
    LaterSelf(s);
    ForInoKeeps(s, fs, cm, ROOTINO);
  }

  lemma ReleaseKeeps(s: Export, tag: nat)
    requires Inv(s)
    ensures Onward(s, Release(s, tag))
  {
    hide Numbered, Extends;
    Reflexive(s.inodes);
    LaterSelf(s);
  }

  lemma InvalidateKeeps(s: Export, fs: Host, cm: CaseMap.Maps, path: Path)
    requires Inv(s)
    ensures Onward(s, Invalidate(s, fs, cm, path))
    ensures Invalidate(s, fs, cm, path).handles.Keys == s.handles.Keys
  {
    hide Numbered, Extends, Forged, Later, Indexed, TagsUsed, GoodHandles;
    LaterSelf(s);
    if path != [] {
      var up := Parent(path);
      if up == [] || (up in fs.stat && fs.stat[up].key in s.inodes.byHost) {
        var ino := if up == [] then ROOTINO else s.inodes.byHost[fs.stat[up].key];
        if Live(s, ino) && IsDir(s.handles[s.byIno[ino]]) {
          var tag := s.byIno[ino];
          ForgedKeeps(s.inodes, fs, cm, up, s.handles[tag]);
          var (u, h) := Forged(s.inodes, fs, cm, up, s.handles[tag]);
          Renumbered(s, u);
          Replaced(s.(inodes := u), tag, h);
          OnwardTwice(s, s.(inodes := u), Invalidate(s, fs, cm, path));
        }
      }
    }
  }

  // ---- lookup and requests ----

  predicate Held(s: Export, a: Answer) { a.Found? ==> a.tag in s.handles }

  lemma {:induction false} ScanForKeeps(s: Export, fs: Host, cm: CaseMap.Maps, p: Path, names: seq<Name>, short: Name)
    requires Inv(s)
    ensures var (u, a) := ScanFor(s, fs, cm, p, names, short); Onward(s, u) && Held(u, a)
    decreases |names|
  {
    hide Inv, Later, ForPath, Truncates;
    LaterSelf(s);
    if names != [] {
      if !Truncates(fs, cm, p, names[0], short) {
        ScanForKeeps(s, fs, cm, p, names[1..], short);
      } else {
        var (v, h) := ForPath(s, fs, cm, p + [names[0]]);
        ForPathKeeps(s, fs, cm, p + [names[0]]);
        if h.None? {
          ScanForKeeps(v, fs, cm, p, names[1..], short);
          OnwardTwice(s, v, ScanFor(v, fs, cm, p, names[1..], short).0);
        }
      }
    }
  }

  lemma LookupKeeps(s: Export, fs: Host, cm: CaseMap.Maps, tag: nat, raw: string)
    requires Inv(s) && tag in s.handles
    ensures var (u, a) := Lookup(s, fs, cm, tag, raw); Onward(s, u) && Held(u, a)
  {
    hide Inv, Later, ForPath, ScanFor, OnDisk, Cut, Listable;
    LaterSelf(s);
    var p, name := s.handles[tag].path, Cut(raw);
    ForPathKeeps(s, fs, cm, []);
    if p != [] { ForPathKeeps(s, fs, cm, Parent(p)); }
    ForPathKeeps(s, fs, cm, p + [OnDisk(cm, p, name)]);
    ScanForKeeps(s, fs, cm, p, Listing(fs, p), name);
  }

  lemma DoStatKeeps(s: Export, fs: Host, cm: CaseMap.Maps, tag: nat, ino: nat)
    requires Inv(s)
    ensures Onward(s, DoStat(s, fs, cm, tag, ino).0)
  {
    hide Inv, Later, ForTag;
    var (v, h) := ForTag(s, fs, cm, tag, ino);
    ForTagKeeps(s, fs, cm, tag, ino);
    if h.Some? {
      var r := v.handles[h.value];
      if r.path in fs.stat {
        Replaced(v, h.value, r.(st := fs.stat[r.path]));
        OnwardTwice(s, v, DoStat(s, fs, cm, tag, ino).0);
      }
    }
  }

  lemma DoMakeKeeps(s: Export, fs: Host, cm: CaseMap.Maps, target: Path, link: Option<int>, effect: Effect)
    requires Inv(s)
    ensures Onward(s, DoMake(s, fs, cm, target, link, effect).0)
  {
    hide Inv, Later, ForIno, ForPath, Invalidate;
    LaterSelf(s);
    var v := s;
    if link.Some? && 0 < link.value <= 0xffff {
      ForInoKeeps(s, fs, cm, link.value);
      v := ForIno(s, fs, cm, link.value).0;
    }
    if effect.Done? {
      var w := Invalidate(v, effect.after, cm, target);
      InvalidateKeeps(v, effect.after, cm, target);
      ForPathKeeps(w, effect.after, cm, target);
      var x := ForPath(w, effect.after, cm, target).0;
      OnwardTwice(v, w, x);
      OnwardTwice(s, v, x);
    }
  }

  lemma DoDeleteKeeps(s: Export, cm: CaseMap.Maps, tag: nat, root: bool, effect: Effect)
    requires Inv(s)
    ensures Onward(s, DoDelete(s, cm, tag, root, effect).0)
  {
    hide Inv, Later, Release, Invalidate;
    LaterSelf(s);
    if !root && effect.Done? && tag in s.handles {
      var w := Invalidate(s, effect.after, cm, s.handles[tag].path);
      InvalidateKeeps(s, effect.after, cm, s.handles[tag].path);
      ReleaseKeeps(w, tag);
      OnwardTwice(s, w, Release(w, tag));
    }
  }

  lemma DoNamiKeeps(s: Export, fs: Host, cm: CaseMap.Maps, readonly: bool, x: Request, effect: Effect)
    requires Inv(s)
    ensures Onward(s, DoNami(s, fs, cm, readonly, x, effect).0)
  {
    hide Inv, Later, ForTag, Lookup, DoMake, DoDelete;
    var ino := if x.ino >= 0 then x.ino else 0;
    var (v, h) := ForTag(s, fs, cm, x.tag, ino);
    ForTagKeeps(s, fs, cm, x.tag, ino);
    if h.Some? {
      var (w, a) := Lookup(v, fs, cm, h.value, x.raw);
      LookupKeeps(v, fs, cm, h.value, x.raw);
      OnwardTwice(s, v, w);
      var target := v.handles[h.value].path + [Cut(x.raw)];
      DoMakeKeeps(w, fs, cm, target, None, effect);
      OnwardTwice(s, w, DoMake(w, fs, cm, target, None, effect).0);
      DoMakeKeeps(w, fs, cm, target, Some(x.ino), effect);
      OnwardTwice(s, w, DoMake(w, fs, cm, target, Some(x.ino), effect).0);
      if a.Found? {
        DoDeleteKeeps(w, cm, a.tag, a.root, effect);
        OnwardTwice(s, w, DoDelete(w, cm, a.tag, a.root, effect).0);
      }
    }
  }

  // ---- runs ----

  datatype Event =
    | Get(fs: Host, ino: int)
    | Put(tag: nat)
    | Attributes(fs: Host, tag: nat, rootIno: nat)
    | Nami(fs: Host, readonly: bool, x: Request, effect: Effect)

  function Step(s: Export, cm: CaseMap.Maps, e: Event): Export {
    match e
    case Get(fs, ino) => DoGet(s, fs, cm, ino).0
    case Put(tag) => DoPut(s, tag).0
    case Attributes(fs, tag, ino) => DoStat(s, fs, cm, tag, ino).0
    case Nami(fs, readonly, x, effect) => DoNami(s, fs, cm, readonly, x, effect).0
  }

  function Run(s: Export, cm: CaseMap.Maps, es: seq<Event>): Export
    decreases |es|
  {
    if es == [] then s else Run(Step(s, cm, es[0]), cm, es[1..])
  }

  lemma StepKeeps(s: Export, cm: CaseMap.Maps, e: Event)
    requires Inv(s)
    ensures Onward(s, Step(s, cm, e))
  {
    hide Inv, Later, ForIno, Release, DoStat, DoNami;
    LaterSelf(s);
    match e
    case Get(fs, ino) => if 0 < ino <= 0xffff { ForInoKeeps(s, fs, cm, ino); }
    case Put(tag) => ReleaseKeeps(s, tag);
    case Attributes(fs, tag, ino) => DoStatKeeps(s, fs, cm, tag, ino);
    case Nami(fs, readonly, x, effect) => DoNamiKeeps(s, fs, cm, readonly, x, effect);
  }

  lemma InitialHolds()
    ensures Inv(INITIAL)
  {
  }

  /** Over every run from every consistent state: the tables stay consistent, no
      number changes, no tag comes back and the root's handle stays. */
  lemma {:induction false} RunKeeps(s: Export, cm: CaseMap.Maps, es: seq<Event>)
    requires Inv(s)
    ensures Inv(Run(s, cm, es)) && Later(s, Run(s, cm, es))
    decreases |es|
  {
    hide Inv, Later, Step;
    LaterSelf(s);
    if es != [] {
      StepKeeps(s, cm, es[0]);
      RunKeeps(Step(s, cm, es[0]), cm, es[1..]);
      OnwardTwice(s, Step(s, cm, es[0]), Run(s, cm, es));
    }
  }

  // ---- what that means ----

  /** In every run each inode has at most one live handle, and a tag and its
      inode lead to each other. */
  lemma OneHandleEach(cm: CaseMap.Maps, es: seq<Event>, a: nat, b: nat)
    requires var s := Run(INITIAL, cm, es);
             a in s.handles && b in s.handles && s.handles[a].ino == s.handles[b].ino
    ensures a == b
  {
    hide Run;
    InitialHolds();
    RunKeeps(INITIAL, cm, es);
  }

  /** A tag that has been given up never names anything again. */
  lemma TagsNeverReused(s: Export, cm: CaseMap.Maps, es: seq<Event>, tag: nat)
    requires Inv(s) && tag < s.nextTag && tag !in s.handles
    ensures tag !in Run(s, cm, es).handles
  {
    hide Run, Inv;
    RunKeeps(s, cm, es);
  }

  /** A host object's number is the same whenever and by whatever path it is
      asked for again, lies in 3..65534, and is no other object's. */
  lemma NumbersStable(s: Export, cm: CaseMap.Maps, es: seq<Event>, key: Key, p: Path, other: Key, q: Path)
    requires Inv(s) && key in s.inodes.byHost && p != [] && q != []
    ensures var t := Run(s, cm, es).inodes;
            InoFor(t, p, key).1 == Some(s.inodes.byHost[key]) && 3 <= s.inodes.byHost[key] <= 65534
            && (other != key ==> InoFor(t, q, other).1 != Some(s.inodes.byHost[key]))
  {
    hide Run;
    RunKeeps(s, cm, es);
    var t := Run(s, cm, es).inodes;
    assert key in t.byHost && t.byHost[key] == s.inodes.byHost[key];
  }

  /** Once served, the root keeps its handle through every request, its own
      NPUT among them. */
  lemma RootNeverReleased(s: Export, cm: CaseMap.Maps, es: seq<Event>)
    requires Inv(s) && ROOTINO in s.byIno
    ensures var u := Run(s, cm, es);
            ROOTINO in u.byIno && u.byIno[ROOTINO] == s.byIno[ROOTINO] && u.byIno[ROOTINO] in u.handles
            && u.handles[u.byIno[ROOTINO]].path == []
  {
    hide Run, Numbered;
    RunKeeps(s, cm, es);
  }

  /** Two names of one host object lead to one handle. */
  lemma HardLinksShare(s: Export, fs: Host, cm: CaseMap.Maps, p: Path, q: Path)
    requires Inv(s) && p in fs.stat && q in fs.stat && p != [] && q != [] && fs.stat[p].key == fs.stat[q].key
    requires ForPath(s, fs, cm, p).1.Some?
    ensures var (u, h) := ForPath(s, fs, cm, p); ForPath(u, fs, cm, q).1 == h
  {
    hide Forged, GoodHandles, TagsUsed;
    var key := fs.stat[p].key;
    var (u, h) := ForPath(s, fs, cm, p);
    var (t, n) := InoFor(s.inodes, p, key);
    InoForKeeps(s.inodes, p, key);
    var v := s.(inodes := t);
    LiveIs(v, n.value);
    if Live(v, n.value) {
      RefreshHolds(v, fs, cm, v.byIno[n.value], p);
    } else {
      FreshHolds(v, fs, cm, n.value, p);
    }
    ForPathKeeps(s, fs, cm, p);
    PathNumber(s, fs, cm, p);
    assert u.byIno[n.value] == h.value;
  }

  lemma IndexedStill(s: Export, t: Inodes)
    requires Indexed(s)
    ensures Indexed(s.(inodes := t))
  {
  }

  lemma PathNumber(s: Export, fs: Host, cm: CaseMap.Maps, p: Path)
    requires Inv(s) && p in fs.stat && p != [] && ForPath(s, fs, cm, p).1.Some?
    ensures var u, key := ForPath(s, fs, cm, p).0, fs.stat[p].key;
            key in u.inodes.byHost && InoFor(s.inodes, p, key).1 == Some(u.inodes.byHost[key])
            && u.handles[ForPath(s, fs, cm, p).1.value].ino == u.inodes.byHost[key]
  {
    hide Forged, GoodHandles, TagsUsed, Indexed;
    var key := fs.stat[p].key;
    var (t, n) := InoFor(s.inodes, p, key);
    InoForKeeps(s.inodes, p, key);
    var v := s.(inodes := t);
    IndexedStill(s, t);
    LiveIs(v, n.value);
    if Live(v, n.value) {
      var g := v.handles[v.byIno[n.value]].(st := fs.stat[p]);
      ForgedKeeps(t, fs, cm, p, g);
    } else {
      ForgedKeeps(t, fs, cm, p, Handle(n.value, p, fs.stat[p], None));
    }
  }
}
