/** Export and the requests of tools/netfsd.py as objects: the two tables hold
    the same handles, each changed in place.  Every method is tied to its step
    of the model. */
module NetfsServer {
  import opened Basics
  import opened Names
  import opened NetfsModel
  import CaseMap

  class Held {
    const tag: nat
    const ino: nat
    const path: Path
    var st: Stat
    var image: Option<string>

    constructor (tag: nat, ino: nat, path: Path, st: Stat)
      ensures this.tag == tag && this.ino == ino && this.path == path && this.st == st && image == None
    {
      this.tag, this.ino, this.path, this.st, image := tag, ino, path, st, None;
    }

    ghost function Value(): Handle
      reads this
    {
      Handle(ino, path, st, image)
    }
  }

  class Server {
    const cm: CaseMap.Maps
    var inoByHost: map<Key, nat>
    var pathByIno: map<nat, Path>
    var nextIno: nat
    var handles: map<nat, Held>
    var handleByIno: map<nat, Held>
    var nextTag: nat

    /** Both tables hold the same objects, each under its own keys. */
    ghost predicate Valid()
      reads this
    {
      (forall tag :: tag in handles ==>
         handles[tag].tag == tag && handles[tag].ino in handleByIno && handleByIno[handles[tag].ino] == handles[tag])
      && (forall ino :: ino in handleByIno ==>
            handleByIno[ino].ino == ino && handleByIno[ino].tag in handles && handles[handleByIno[ino].tag] == handleByIno[ino])
      && forall tag :: tag in handles ==> tag < nextTag
    }

    ghost function Numbers(): Inodes
      reads this
    {
      Inodes(inoByHost, pathByIno, nextIno)
    }

    ghost function Table(): map<nat, Handle>
      reads this, handles.Values
    {
      map tag | tag in handles :: handles[tag].Value()
    }

    ghost function Index(): map<nat, nat>
      reads this
    {
      map ino | ino in handleByIno :: handleByIno[ino].tag
    }

    ghost function View(): Export
      reads this, handles.Values
    {
      Export(Numbers(), Table(), Index(), nextTag)
    }

    constructor (cm: CaseMap.Maps)
      ensures Valid() && View() == INITIAL && this.cm == cm
    {
      this.cm := cm;
      inoByHost, pathByIno, nextIno := map[], map[ROOTINO := []], 3;
      handles, handleByIno, nextTag := map[], map[], 1;
    }

    /** ino_for() */
    method InodeFor(p: Path, key: Key) returns (n: Option<nat>)
      modifies this`inoByHost, this`pathByIno, this`nextIno
      ensures (Numbers(), n) == InoFor(old(Numbers()), p, key)
    {
      if p == [] {
        return Some(ROOTINO);
      }
      if key in inoByHost {
        pathByIno := pathByIno[inoByHost[key] := p];
        return Some(inoByHost[key]);
      }
      if nextIno >= 0xffff {
        return None;
      }
      n := Some(nextIno);
      nextIno := nextIno + 1;
      inoByHost := inoByHost[key := n.value];
      pathByIno := pathByIno[n.value := p];
    }

    method ParentNumber(fs: Host, p: Path) returns (n: nat)
      modifies this`inoByHost, this`pathByIno, this`nextIno
      ensures (Numbers(), n) == ParentIno(old(Numbers()), fs, p)
    {
      if p == [] || Parent(p) !in fs.stat {
        return ROOTINO;
      }
      var m := InodeFor(Parent(p), fs.stat[Parent(p)].key);
      n := if m.Some? then m.value else ROOTINO;
    }

    /** What the scan has still to add. */
    ghost predicate Scanned(t: Inodes, fs: Host, p: Path, i: nat, seen: set<Name>, es: seq<Entry>)
      reads this
    {
      var names := Listing(fs, p);
      i <= |names|
      && var (u, rest) := ScanDir(Numbers(), fs, cm, p, names[i..], seen);
         ScanDir(t, fs, cm, p, names, {}) == (u, es + rest)
    }

    /** build_dirimage()'s loop over the directory. */
    method ListChildren(fs: Host, p: Path, image0: string, ghost es0: seq<Entry>)
      returns (image: string, ghost es: seq<Entry>)
      requires Shorts(es0) && image0 == Image(es0)
      modifies this`inoByHost, this`pathByIno, this`nextIno
      ensures (Numbers(), es) == ScanDir(old(Numbers()), fs, cm, p, Listing(fs, p), {})
      ensures Shorts(es0 + es) && image == Image(es0 + es)
    {
      hide Image, Record, V8Name, Shown;
      var names := Listing(fs, p);
      var seen: set<Name> := {};
      ghost var t := Numbers();
      image, es := image0, [];
      assert names[0..] == names && es0 + es == es0;
      assert es + ScanDir(t, fs, cm, p, names, seen).1 == ScanDir(t, fs, cm, p, names, seen).1;
      for i := 0 to |names|
        invariant Scanned(t, fs, p, i, seen, es)
        invariant Shorts(es0 + es) && image == Image(es0 + es)
      {
        ghost var was := Numbers();
        var child := p + [names[i]];
        var short := V8Name(Shown(cm, p, names[i]));
        assert names[i..][0] == names[i] && names[i..][1..] == names[i + 1..];
        if Listable(fs, child) && short !in seen {
          var n := InodeFor(child, fs.stat[child].key);
          if n.Some? {
            ghost var e := Entry(short, n.value);
            ScanAdds(was, fs, cm, p, names[i..], seen, es);
            OneRecord(es0 + es, e);
            assert es0 + (es + [e]) == (es0 + es) + [e];
            seen, es := seen + {short}, es + [e];
            image := image + Record(Entry(short, n.value));
          }
        }
      }
      assert names[|names|..] == [] && es + [] == es;
    }

    /** build_dirimage() */
    method BuildImage(fs: Host, p: Path, ino: nat) returns (image: string)
      modifies this`inoByHost, this`pathByIno, this`nextIno
      ensures (Numbers(), image) == Forge(old(Numbers()), fs, cm, p, ino)
    {
      ghost var t := Numbers();
      image := Record(Entry(".", ino));
      var up := ParentNumber(fs, p);
      image := image + Record(Entry("..", up));
      ghost var dots := [Entry(".", ino), Entry("..", up)];
      DotsImage(ino, up);
      ghost var es;
      image, es := ListChildren(fs, p, image, dots);
    }

    // ---- handles ----

    /** The tag of a handle that may be missing. */
    ghost function TagOf(h: Held?): Option<nat>
      reads this
    {
      if h == null then None else Some(h.tag)
    }

    /** One handle's fields were changed in place. */
    method Update(h: Held, st: Stat, image: Option<string>)
      requires Valid() && h.tag in handles && handles[h.tag] == h
      modifies h
      ensures Valid() && h.Value() == Handle(h.ino, h.path, st, image)
      ensures View() == old(View()).(handles := old(Table())[h.tag := Handle(h.ino, h.path, st, image)])
    {
      h.st, h.image := st, image;
      assert Table() == old(Table())[h.tag := Handle(h.ino, h.path, st, image)];
    }

    method Refreshed(h: Held, fs: Host, p: Path)
      requires Valid() && h.tag in handles && handles[h.tag] == h && p in fs.stat
      modifies this`inoByHost, this`pathByIno, this`nextIno, h
      ensures Valid() && View() == Refresh(old(View()), fs, cm, h.tag, p)
    {
      hide Forge;
      var st := fs.stat[p];
      var image := h.image;
      ghost var was := View();
      if st.kind == Directory {
        var made := BuildImage(fs, p, h.ino);
        image := Some(made);
      }
      assert View() == was.(inodes := Numbers());
      Update(h, st, image);
    }

    /** A new handle enters both tables. */
    method Install(h: Held)
      requires Valid() && h.tag == nextTag && h.ino !in handleByIno
      modifies this`handles, this`handleByIno, this`nextTag
      ensures Valid() && handles == old(handles)[h.tag := h] && Numbers() == old(Numbers()) && nextTag == h.tag + 1
      ensures Index() == old(Index())[h.ino := h.tag]
      ensures Table() == old(Table())[h.tag := h.Value()]
    {
      ghost var was, index := Table(), Index();
      nextTag := nextTag + 1;
      handles, handleByIno := handles[h.tag := h], handleByIno[h.ino := h];
      assert Table() == was[h.tag := h.Value()];
      assert Index() == index[h.ino := h.tag];
    }

    method Opened(fs: Host, p: Path, ino: nat) returns (h: Held)
      requires Valid() && ino !in handleByIno && p in fs.stat
      modifies this
      ensures Valid() && View() == Fresh(old(View()), fs, cm, ino, p)
      ensures TagOf(h) == Some(old(nextTag)) && h.tag in handles && handles[h.tag] == h
      ensures fresh(handles.Values - old(handles.Values))
    {
      hide Forge;
      h := new Held(nextTag, ino, p, fs.stat[p]);
      ghost var was := Table();
      if fs.stat[p].kind == Directory {
        var made := BuildImage(fs, p, ino);
        h.image := Some(made);
      }
      assert Table() == was;
      Install(h);
    }

    /** handle_for_path() */
    method HandleForPath(fs: Host, p: Path) returns (h: Held?)
      requires Valid()
      modifies this, handles.Values
      ensures Valid() && (View(), TagOf(h)) == ForPath(old(View()), fs, cm, p)
      ensures h != null ==> h.tag in handles && handles[h.tag] == h
      ensures fresh(handles.Values - old(handles.Values))
    {
      hide InoFor, Forged;
      h := null;
      if p !in fs.stat {
        return;
      }
      ghost var was := View();
      var n := InodeFor(p, fs.stat[p].key);
      assert View() == was.(inodes := Numbers());
      if n.None? {
        return;
      }
      if n.value in handleByIno {
        h := handleByIno[n.value];
        Refreshed(h, fs, p);
      } else {
        h := Opened(fs, p, n.value);
      }
    }

    /** handle_for_ino() */
    method HandleForIno(fs: Host, ino: nat) returns (h: Held?)
      requires Valid()
      modifies this, handles.Values
      ensures Valid() && (View(), TagOf(h)) == ForIno(old(View()), fs, cm, ino)
      ensures h != null ==> h.tag in handles && handles[h.tag] == h
      ensures fresh(handles.Values - old(handles.Values))
    {
      h := null;
      if ino in handleByIno {
        h := handleByIno[ino];
        if h.path in fs.stat {
          Refreshed(h, fs, h.path);
        }
      } else if ino in pathByIno {
        h := HandleForPath(fs, pathByIno[ino]);
      }
    }

    /** handle() */
    method HandleFor(fs: Host, tag: nat, ino: nat) returns (h: Held?)
      requires Valid()
      modifies this, handles.Values
      ensures Valid() && (View(), TagOf(h)) == ForTag(old(View()), fs, cm, tag, ino)
      ensures h != null ==> h.tag in handles && handles[h.tag] == h
      ensures fresh(handles.Values - old(handles.Values))
    {
      if tag in handles {
        return handles[tag];
      }
      if ino == ROOTINO {
        h := HandleForIno(fs, ROOTINO);
      } else {
        h := null;
      }
    }

    /** release() */
    method ReleaseTag(tag: nat)
      requires Valid()
      modifies this`handles, this`handleByIno
      ensures Valid() && View() == Release(old(View()), tag)
      ensures handles.Values <= old(handles.Values)
    {
      if tag in handles && handles[tag].ino != ROOTINO {
        ghost var was := View();
        var ino := handles[tag].ino;
        handles, handleByIno := handles - {tag}, handleByIno - {ino};
        assert Table() == was.handles - {tag};
        assert Index() == was.byIno - {ino};
      }
    }

    /** invalidate_parent() */
    method InvalidateParent(fs: Host, path: Path)
      requires Valid()
      modifies this`inoByHost, this`pathByIno, this`nextIno, handles.Values
      ensures Valid() && View() == Invalidate(old(View()), fs, cm, path)
      ensures handles == old(handles)
    {
      hide Forge;
      if path == [] {
        return;
      }
      var up := Parent(path);
      var ino := ROOTINO;
      if up != [] {
        if up !in fs.stat || fs.stat[up].key !in inoByHost {
          return;
        }
        ino := inoByHost[fs.stat[up].key];
      }
      if ino in handleByIno && handleByIno[ino].st.kind == Directory {
        var h := handleByIno[ino];
        ghost var was := View();
        var made := BuildImage(fs, up, h.ino);
        assert View() == was.(inodes := Numbers());
        Update(h, h.st, Some(made));
      }
    }

    // ---- lookup ----

    /** The scan for a name of exactly fourteen bytes. */
    method ScanNames(fs: Host, p: Path, short: Name) returns (h: Held?)
      requires Valid()
      modifies this, handles.Values
      ensures Valid() && (View(), if h == null then NoMatch else Found(h.tag, false)) == ScanFor(old(View()), fs, cm, p, Listing(fs, p), short)
      ensures h != null ==> h.tag in handles && handles[h.tag] == h
      ensures fresh(handles.Values - old(handles.Values))
    {
      var names := Listing(fs, p);
      assert names[0..] == names;
      for i := 0 to |names|
        invariant Valid() && fresh(handles.Values - old(handles.Values))
        invariant ScanFor(View(), fs, cm, p, names[i..], short) == ScanFor(old(View()), fs, cm, p, names, short)
      {
        assert names[i..][0] == names[i] && names[i..][1..] == names[i + 1..];
        if Truncates(fs, cm, p, names[i], short) {
          h := HandleForPath(fs, p + [names[i]]);
          if h != null {
            return;
          }
        }
      }
      h := null;
    }

    ghost function AnswerOf(h: Held?, root: bool, missing: Answer): Answer
      reads this
    {
      if h == null then missing else Found(h.tag, root)
    }

    /** lookup(): the dot names */
    method LookupParent(h: Held, fs: Host) returns (r: Held?, root: bool, errno: nat)
      requires Valid() && h.tag in handles && handles[h.tag] == h && IsDir(h.Value())
      modifies this, handles.Values
      ensures Valid() && (View(), AnswerOf(r, root, Error(errno))) == Lookup(old(View()), fs, cm, h.tag, "..")
      ensures r != null ==> r.tag in handles && handles[r.tag] == r
      ensures fresh(handles.Values - old(handles.Values))
    {
      hide ForPath;
      CutDots();
      if h.path == [] {
        r := HandleForPath(fs, []);
        root, errno := true, EIO;
      } else {
        r := HandleForPath(fs, Parent(h.path));
        root, errno := r != null && r.path == [], ENOENT;
      }
    }

    /** lookup(): a name of fewer than fourteen bytes */
    method LookupShort(h: Held, fs: Host, name: Name) returns (r: Held?, root: bool, missing: Answer)
      requires Valid() && h.tag in handles && handles[h.tag] == h
      modifies this, handles.Values
      ensures Valid()
      ensures var direct := h.path + [OnDisk(cm, h.path, name)];
              (View(), AnswerOf(r, root, missing))
              == if Listable(fs, direct) then Given(ForPath(old(View()), fs, cm, direct), EIO) else (old(View()), NoMatch)
      ensures !missing.Found?
      ensures r != null ==> r.tag in handles && handles[r.tag] == r
      ensures fresh(handles.Values - old(handles.Values))
    {
      hide ForPath, OnDisk;
      var direct := h.path + [OnDisk(cm, h.path, name)];
      r, root, missing := null, false, NoMatch;
      if Listable(fs, direct) {
        r := HandleForPath(fs, direct);
        root, missing := r != null && r.path == [], Error(EIO);
      }
    }

    /** lookup() */
    method LookupName(h: Held, fs: Host, raw: string) returns (r: Held?, root: bool, missing: Answer)
      requires Valid() && h.tag in handles && handles[h.tag] == h
      modifies this, handles.Values
      ensures Valid() && (View(), AnswerOf(r, root, missing)) == Lookup(old(View()), fs, cm, h.tag, raw)
      ensures r != null ==> r.tag in handles && handles[r.tag] == r
      ensures fresh(handles.Values - old(handles.Values))
      ensures !missing.Found?
    {
      hide ForPath, OnDisk, ScanFor;
      var name := Cut(raw);
      r, root, missing := null, false, Error(ENOTDIR);
      if h.st.kind != Directory {
        return;
      }
      if name == "" || name == "." {
        r := h;
        return;
      }
      if name == ".." {
        var errno;
        CutDots();
        r, root, errno := LookupParent(h, fs);
        missing := Error(errno);
        return;
      }
      if |name| < DIRSIZ {
        r, root, missing := LookupShort(h, fs, name);
        if r != null { missing := NoMatch; }
        return;
      }
      missing := NoMatch;
      if |name| == DIRSIZ {
        r := ScanNames(fs, h.path, name);
      }
    }

    // ---- requests ----

    /** do_get() */
    method GetInode(fs: Host, ino: int) returns (y: Reply)
      requires Valid()
      modifies this, handles.Values
      ensures Valid() && (View(), y) == DoGet(old(View()), fs, cm, ino)
    {
      hide ForIno;
      if ino <= 0 || ino > 0xffff {
        return Bad(ENOENT);
      }
      var h := HandleForIno(fs, ino);
      y := if h == null then Bad(ENOENT) else Ok(h.tag, h.ino, false);
    }

    /** do_put() */
    method PutTag(tag: nat) returns (y: Reply)
      requires Valid()
      modifies this`handles, this`handleByIno
      ensures Valid() && (View(), y) == DoPut(old(View()), tag)
    {
      if tag == 0 {
        return Bad(EIO);
      }
      ReleaseTag(tag);
      y := Empty;
    }

    /** do_stat() */
    method StatTag(fs: Host, tag: nat, ino: nat) returns (y: Reply)
      requires Valid()
      modifies this, handles.Values
      ensures Valid() && (View(), y) == DoStat(old(View()), fs, cm, tag, ino)
    {
      hide ForTag;
      var h := HandleFor(fs, tag, ino);
      if h == null {
        return Bad(ENOENT);
      }
      if h.path in fs.stat {
        Update(h, fs.stat[h.path], h.image);
      }
      y := Ok(h.tag, h.ino, false);
    }

    /** create() and link(), once the host has made the object. */
    method Announce(after: Host, target: Path) returns (y: Reply)
      requires Valid()
      modifies this, handles.Values
      ensures Valid()
      ensures (View(), y) == Described(ForPath(Invalidate(old(View()), after, cm, target), after, cm, target), false, EIO)
    {
      hide ForPath, Invalidate;
      InvalidateParent(after, target);
      var h := HandleForPath(after, target);
      y := if h == null then Bad(EIO) else Ok(h.tag, h.ino, false);
    }

    /** do_nami_create() */
    method Make(fs: Host, target: Path, link: Option<int>, effect: Effect) returns (y: Reply)
      requires Valid()
      modifies this, handles.Values
      ensures Valid() && (View(), y) == DoMake(old(View()), fs, cm, target, link, effect)
    {
      hide ForPath, Invalidate, ForIno, Described;
      if link.Some? {
        if link.value <= 0 || link.value > 0xffff {
          return Bad(EXDEV);
        }
        var src := HandleForIno(fs, link.value);
        if src == null {
          return Bad(EXDEV);
        }
      }
      match effect
      case Failed(e) => y := Bad(e);
      case Done(after) => y := Announce(after, target);
    }

    /** The NDEL branch of do_nami(), with the path it has the host remove. */
    method Remove(h: Held, root: bool, effect: Effect) returns (y: Reply, asked: Option<Path>)
      requires Valid() && h.tag in handles && handles[h.tag] == h
      modifies this, handles.Values
      ensures Valid() && (View(), y) == DoDelete(old(View()), cm, h.tag, root, effect)
      ensures asked == if root then None else Some(h.path)
    {
      hide Invalidate, Release;
      if root {
        return Bad(EPERM), None;
      }
      asked := Some(h.path);
      match effect
      case Failed(e) => y := Bad(e);
      case Done(after) =>
        InvalidateParent(after, h.path);
        ReleaseTag(h.tag);
        y := Empty;
    }

    /** do_nami() from the answer of lookup on, with the path that the host is
        asked to remove. */
    method Answered(h: Held?, root: bool, missing: Answer, fs: Host, target: Path, x: Request, effect: Effect)
      returns (y: Reply, asked: Option<Path>)
      requires Valid() && !missing.Found? && (h != null ==> h.tag in handles && handles[h.tag] == h)
      modifies this, handles.Values
      ensures Valid()
      ensures (View(), y) == AfterLookup(old(View()), fs, cm, target, old(AnswerOf(h, root, missing)), x, effect)
      ensures asked == if x.flag == Delete && h != null && !root then Some(h.path) else None
    {
      hide DoMake, DoDelete;
      asked := None;
      if h == null {
        if missing.Error? {
          return Bad(missing.errno), None;
        }
        if x.flag == Create {
          y := Make(fs, target, None, effect);
        } else if x.flag == Link {
          y := Make(fs, target, Some(x.ino), effect);
        } else {
          y := Absent;
        }
      } else if x.flag == Delete {
        y, asked := Remove(h, root, effect);
      } else {
        y := Ok(h.tag, h.ino, root);
      }
    }

    /** do_nami() */
    method Nami(fs: Host, readonly: bool, x: Request, effect: Effect) returns (y: Reply, asked: Option<Path>)
      requires Valid()
      modifies this, handles.Values
      ensures Valid() && (View(), y) == DoNami(old(View()), fs, cm, readonly, x, effect)
      ensures asked == Asked(old(View()), fs, cm, readonly, x)
    {
      hide ForTag, Lookup, AfterLookup;
      var parent := HandleFor(fs, x.tag, if x.ino >= 0 then x.ino else 0);
      if parent == null {
        return Bad(ENOENT), None;
      }
      if readonly && (x.flag == Delete || x.flag == Link || x.flag == Create) {
        return Bad(EROFS), None;
      }
      var target := parent.path + [Cut(x.raw)];
      var h, root, missing := LookupName(parent, fs, x.raw);
      y, asked := Answered(h, root, missing, fs, target, x, effect);
    }
  }

  lemma ScanAdds(t: Inodes, fs: Host, cm: CaseMap.Maps, p: Path, names: seq<Name>, seen: set<Name>, es: seq<Entry>)
    requires names != [] && Listable(fs, p + [names[0]])
    requires var short := V8Name(Shown(cm, p, names[0]));
             short !in seen && InoFor(t, p + [names[0]], fs.stat[p + [names[0]]].key).1.Some?
    ensures var child, short := p + [names[0]], V8Name(Shown(cm, p, names[0]));
            var (u, n) := InoFor(t, child, fs.stat[child].key);
            var (v, rest) := ScanDir(u, fs, cm, p, names[1..], seen + {short});
            ScanDir(t, fs, cm, p, names, seen).0 == v
            && es + ScanDir(t, fs, cm, p, names, seen).1 == (es + [Entry(short, n.value)]) + rest
  {
  }

  lemma CutDots()
    ensures Cut("..") == ".."
  {
    assert ".."[1..] == "." && "."[1..] == "";
  }

  lemma OneRecord(es: seq<Entry>, e: Entry)
    requires Shorts(es) && |e.name| <= DIRSIZ
    ensures Shorts(es + [e]) && Image(es + [e]) == Image(es) + Record(e)
  {
    assert (es + [e])[..|es|] == es;
  }

  lemma DotsImage(ino: nat, up: nat)
    ensures Shorts([Entry(".", ino), Entry("..", up)])
    ensures Image([Entry(".", ino), Entry("..", up)]) == Record(Entry(".", ino)) + Record(Entry("..", up))
  {
    OneRecord([], Entry(".", ino));
    assert [] + [Entry(".", ino)] == [Entry(".", ino)];
    OneRecord([Entry(".", ino)], Entry("..", up));
    assert [Entry(".", ino)] + [Entry("..", up)] == [Entry(".", ino), Entry("..", up)];
  }
}
