/** Export of tools/netfsd.py: synthetic inode numbers, one handle per object,
    forged directories, and the lookup of one name.  The host is a snapshot of
    what lstat and listdir would say. */
module NetfsModel {
  import opened Basics
  import opened Names
  import CaseMap

  const ROOTINO: nat := 2
  const DIRSIZ: nat := 14

  /** What lstat tells apart: the host's device and inode number. */
  type Key = (int, int)

  datatype Kind = Regular | Directory | Symlink | Other

  datatype Stat = Stat(key: Key, kind: Kind, size: nat)

  predicate Visible(st: Stat) { st.kind != Other }

  /** Paths are relative to the export's root, which is the empty path. */
  datatype Host = Host(stat: map<Path, Stat>, list: map<Path, seq<Name>>)

  function Shown(cm: CaseMap.Maps, d: Path, onDisk: Name): Name { CaseMap.Lookup(cm.toTrue, d, onDisk) }

  function OnDisk(cm: CaseMap.Maps, d: Path, shown: Name): Name { CaseMap.Lookup(cm.toStored, d, shown) }

  // ---- the synthetic inode namespace ----

  datatype Inodes = Inodes(byHost: map<Key, nat>, paths: map<nat, Path>, next: nat)

  /** ino_for(): a number once given is recalled, and its path refreshed. */
  function InoFor(t: Inodes, p: Path, key: Key): (Inodes, Option<nat>) {
    if p == [] then (t, Some(ROOTINO))
    else if key in t.byHost then (t.(paths := t.paths[t.byHost[key] := p]), Some(t.byHost[key]))
    else if t.next >= 0xffff then (t, None)
    else (Inodes(t.byHost[key := t.next], t.paths[t.next := p], t.next + 1), Some(t.next))
  }

  // ---- forged directories ----

  datatype Entry = Entry(name: Name, ino: nat)

  /** A struct direct holds 14 bytes of name. */
  function V8Name(n: Name): (v: Name)
    ensures |v| <= DIRSIZ && v <= n
    ensures |v| < DIRSIZ ==> v == n
  {
    if |n| > DIRSIZ then n[..DIRSIZ] else n
  }

  function ParentIno(t: Inodes, fs: Host, p: Path): (Inodes, nat) {
    if p == [] || Parent(p) !in fs.stat then (t, ROOTINO)
    else
      var (u, n) := InoFor(t, Parent(p), fs.stat[Parent(p)].key);
      (u, if n.Some? then n.value else ROOTINO)
  }

  predicate Listable(fs: Host, child: Path) { child in fs.stat && Visible(fs.stat[child]) }

  /** The loop of build_dirimage(): the first of the names that truncate alike
      is listed. */
  function ScanDir(t: Inodes, fs: Host, cm: CaseMap.Maps, p: Path, names: seq<Name>, seen: set<Name>): (Inodes, seq<Entry>)
    decreases |names|
  {
    if names == [] then (t, [])
    else
      var child, rest := p + [names[0]], names[1..];
      var short := V8Name(Shown(cm, p, names[0]));
      if !Listable(fs, child) || short in seen then ScanDir(t, fs, cm, p, rest, seen)
      else
        var (u, n) := InoFor(t, child, fs.stat[child].key);
        if n.None? then ScanDir(u, fs, cm, p, rest, seen)
        else
          var (v, es) := ScanDir(u, fs, cm, p, rest, seen + {short});
          (v, [Entry(short, n.value)] + es)
  }

  function Listing(fs: Host, p: Path): seq<Name> { if p in fs.list then fs.list[p] else [] }

  function Entries(t: Inodes, fs: Host, cm: CaseMap.Maps, p: Path, ino: nat): (Inodes, seq<Entry>) {
    var (u, up) := ParentIno(t, fs, p);
    var (v, es) := ScanDir(u, fs, cm, p, Listing(fs, p), {});
    (v, [Entry(".", ino), Entry("..", up)] + es)
  }

  /** A record: two bytes of number, low first, and the name padded with NULs.
      A char stands for a byte. */
  function Padded(n: Name): (s: string)
    requires |n| <= DIRSIZ
    ensures |s| == DIRSIZ
  {
    n + seq(DIRSIZ - |n|, _ => '\0')
  }

  function Record(e: Entry): (s: string)
    requires |e.name| <= DIRSIZ
    ensures |s| == 16
  {
    [(e.ino % 256) as char, (e.ino / 256 % 256) as char] + Padded(e.name)
  }

  predicate Shorts(es: seq<Entry>) { forall i :: 0 <= i < |es| ==> |es[i].name| <= DIRSIZ }

  function Image(es: seq<Entry>): string
    requires Shorts(es)
    decreases |es|
  {
    if es == [] then "" else Image(es[..|es| - 1]) + Record(es[|es| - 1])
  }

  lemma {:induction false} ScanShort(t: Inodes, fs: Host, cm: CaseMap.Maps, p: Path, names: seq<Name>, seen: set<Name>)
    ensures Shorts(ScanDir(t, fs, cm, p, names, seen).1)
    decreases |names|
  {
    if names != [] {
      var child, rest := p + [names[0]], names[1..];
      var short := V8Name(Shown(cm, p, names[0]));
      if !Listable(fs, child) || short in seen {
        ScanShort(t, fs, cm, p, rest, seen);
      } else {
        var (u, n) := InoFor(t, child, fs.stat[child].key);
        var more := if n.None? then seen else seen + {short};
        ScanShort(u, fs, cm, p, rest, more);
        if n.Some? {
          var es := ScanDir(u, fs, cm, p, rest, more).1;
          assert forall i :: 0 <= i < |es| + 1 ==> ([Entry(short, n.value)] + es)[i] == if i == 0 then Entry(short, n.value) else es[i - 1];
        }
      }
    }
  }

  lemma EntriesShort(t: Inodes, fs: Host, cm: CaseMap.Maps, p: Path, ino: nat)
    ensures Shorts(Entries(t, fs, cm, p, ino).1)
  {
    var u := ParentIno(t, fs, p).0;
    ScanShort(u, fs, cm, p, Listing(fs, p), {});
    var es, all := ScanDir(u, fs, cm, p, Listing(fs, p), {}).1, Entries(t, fs, cm, p, ino).1;
    assert forall i :: 2 <= i < |all| ==> all[i] == es[i - 2];
  }

  function Forge(t: Inodes, fs: Host, cm: CaseMap.Maps, p: Path, ino: nat): (Inodes, string) {
    EntriesShort(t, fs, cm, p, ino);
    var (u, es) := Entries(t, fs, cm, p, ino);
    (u, Image(es))
  }

  // ---- handles ----

  datatype Handle = Handle(ino: nat, path: Path, st: Stat, image: Option<string>)

  predicate IsDir(h: Handle) { h.st.kind == Directory }

  /** The tables: handles by tag, and each live inode's tag. */
  datatype Export = Export(inodes: Inodes, handles: map<nat, Handle>, byIno: map<nat, nat>, nextTag: nat)

  const INITIAL := Export(Inodes(map[], map[ROOTINO := []], 3), map[], map[], 1)

  /** The image is forged again when a directory's attributes are. */
  function Forged(t: Inodes, fs: Host, cm: CaseMap.Maps, p: Path, h: Handle): (Inodes, Handle) {
    if IsDir(h) then
      var (u, im) := Forge(t, fs, cm, p, h.ino);
      (u, h.(image := Some(im)))
    else (t, h)
  }

  predicate Live(s: Export, ino: nat) { ino in s.byIno && s.byIno[ino] in s.handles }

  /** A handle's attributes, read again through p. */
  function Refresh(s: Export, fs: Host, cm: CaseMap.Maps, tag: nat, p: Path): Export
    requires tag in s.handles && p in fs.stat
  {
    var (u, h) := Forged(s.inodes, fs, cm, p, s.handles[tag].(st := fs.stat[p]));
    s.(inodes := u, handles := s.handles[tag := h])
  }

  function Fresh(s: Export, fs: Host, cm: CaseMap.Maps, ino: nat, p: Path): Export
    requires p in fs.stat
  {
    var (u, h) := Forged(s.inodes, fs, cm, p, Handle(ino, p, fs.stat[p], None));
    Export(u, s.handles[s.nextTag := h], s.byIno[ino := s.nextTag], s.nextTag + 1)
  }

  /** handle_for_path(): one handle per object, however it is named. */
  function ForPath(s: Export, fs: Host, cm: CaseMap.Maps, p: Path): (Export, Option<nat>) {
    if p !in fs.stat then (s, None)
    else
      var (t, n) := InoFor(s.inodes, p, fs.stat[p].key);
      var v := s.(inodes := t);
      if n.None? then (v, None)
      else if Live(v, n.value) then (Refresh(v, fs, cm, v.byIno[n.value], p), Some(v.byIno[n.value]))
      else (Fresh(v, fs, cm, n.value, p), Some(v.nextTag))
  }

  /** handle_for_ino() */
  function ForIno(s: Export, fs: Host, cm: CaseMap.Maps, ino: nat): (Export, Option<nat>) {
    if Live(s, ino) then
      var tag := s.byIno[ino];
      var p := s.handles[tag].path;
      (if p in fs.stat then Refresh(s, fs, cm, tag, p) else s, Some(tag))
    else if ino in s.inodes.paths then ForPath(s, fs, cm, s.inodes.paths[ino])
    else (s, None)
  }

  /** handle(): an unknown tag is taken for the root's if the root is meant. */
  function ForTag(s: Export, fs: Host, cm: CaseMap.Maps, tag: nat, ino: nat): (Export, Option<nat>) {
    if tag in s.handles then (s, Some(tag))
    else if ino == ROOTINO then ForIno(s, fs, cm, ROOTINO)
    else (s, None)
  }

  /** release(): the root is never released. */
  function Release(s: Export, tag: nat): Export {
    if tag !in s.handles || s.handles[tag].ino == ROOTINO then s
    else s.(handles := s.handles - {tag}, byIno := s.byIno - {s.handles[tag].ino})
  }

  /** invalidate_parent(): an image already served is forged again.  Above the
      root there is nothing that is served. */
  function Invalidate(s: Export, fs: Host, cm: CaseMap.Maps, path: Path): Export {
    if path == [] then s
    else
      var up := Parent(path);
      if up != [] && (up !in fs.stat || fs.stat[up].key !in s.inodes.byHost) then s
      else
        var ino := if up == [] then ROOTINO else s.inodes.byHost[fs.stat[up].key];
        if !Live(s, ino) || !IsDir(s.handles[s.byIno[ino]]) then s
        else
          var tag := s.byIno[ino];
          var (u, h) := Forged(s.inodes, fs, cm, up, s.handles[tag]);
          s.(inodes := u, handles := s.handles[tag := h])
  }

  // ---- lookup ----

  const EPERM: nat := 1
  const ENOENT: nat := 2
  const EIO: nat := 5
  const EXDEV: nat := 18
  const ENOTDIR: nat := 20
  const EROFS: nat := 30

  datatype Answer = Found(tag: nat, root: bool) | NoMatch | Error(errno: nat)

  /** The name stops at the first NUL. */
  function Cut(raw: string): Name {
    if raw == "" || raw[0] == '\0' then "" else [raw[0]] + Cut(raw[1..])
  }

  function Given(r: (Export, Option<nat>), errno: nat): (Export, Answer) {
    if r.1.None? then (r.0, Error(errno))
    else (r.0, Found(r.1.value, r.1.value in r.0.handles && r.0.handles[r.1.value].path == []))
  }

  predicate Truncates(fs: Host, cm: CaseMap.Maps, p: Path, onDisk: Name, short: Name) {
    V8Name(Shown(cm, p, onDisk)) == short && Listable(fs, p + [onDisk])
  }

  /** The first child that truncates to the name and can be handled. */
  function ScanFor(s: Export, fs: Host, cm: CaseMap.Maps, p: Path, names: seq<Name>, short: Name): (Export, Answer)
    decreases |names|
  {
    if names == [] then (s, NoMatch)
    else if !Truncates(fs, cm, p, names[0], short) then ScanFor(s, fs, cm, p, names[1..], short)
    else
      var (v, h) := ForPath(s, fs, cm, p + [names[0]]);
      if h.None? then ScanFor(v, fs, cm, p, names[1..], short) else (v, Found(h.value, false))
  }

  /** One component of a path, below the directory whose handle is given. */
  function Lookup(s: Export, fs: Host, cm: CaseMap.Maps, tag: nat, raw: string): (Export, Answer)
    requires tag in s.handles
  {
    var p, name := s.handles[tag].path, Cut(raw);
    if !IsDir(s.handles[tag]) then (s, Error(ENOTDIR))
    else if name == "" || name == "." then (s, Found(tag, false))
    else if name == ".." then
      if p == [] then
        var (v, h) := ForPath(s, fs, cm, []);
        (v, if h.Some? then Found(h.value, true) else Error(EIO))
      else Given(ForPath(s, fs, cm, Parent(p)), ENOENT)
    else if |name| < DIRSIZ then
      var direct := p + [OnDisk(cm, p, name)];
      if Listable(fs, direct) then Given(ForPath(s, fs, cm, direct), EIO) else (s, NoMatch)
    else if |name| == DIRSIZ then ScanFor(s, fs, cm, p, Listing(fs, p), name)
    else (s, NoMatch)
  }

  // ---- requests ----

  datatype Flag = Plain | Delete | Link | Create

  /** What the host made of the request's own system call, and how the tree
      looks after it. */
  datatype Effect = Done(after: Host) | Failed(errno: nat)

  datatype Reply = Ok(tag: nat, ino: nat, root: bool) | Absent | Bad(errno: nat) | Empty

  function Described(r: (Export, Option<nat>), root: bool, errno: nat): (Export, Reply) {
    if r.1.None? || r.1.value !in r.0.handles then (r.0, Bad(errno))
    else (r.0, Ok(r.1.value, r.0.handles[r.1.value].ino, root))
  }

  /** do_get() */
  function DoGet(s: Export, fs: Host, cm: CaseMap.Maps, ino: int): (Export, Reply) {
    if ino <= 0 || ino > 0xffff then (s, Bad(ENOENT)) else Described(ForIno(s, fs, cm, ino), false, ENOENT)
  }

  /** do_put() */
  function DoPut(s: Export, tag: nat): (Export, Reply) {
    if tag == 0 then (s, Bad(EIO)) else (Release(s, tag), Empty)
  }

  /** do_stat(), and the front of read, write, truncate and update, whose own
      work is on the file and not on the tables. */
  function DoStat(s: Export, fs: Host, cm: CaseMap.Maps, tag: nat, ino: nat): (Export, Reply) {
    var (v, h) := ForTag(s, fs, cm, tag, ino);
    if h.None? || h.value !in v.handles then (v, Bad(ENOENT))
    else
      var r := v.handles[h.value];
      var w := if r.path in fs.stat then v.(handles := v.handles[h.value := r.(st := fs.stat[r.path])]) else v;
      (w, Ok(h.value, r.ino, false))
  }

  /** do_nami_create(), for NCREAT and NLINK */
  function DoMake(s: Export, fs: Host, cm: CaseMap.Maps, target: Path, link: Option<int>, effect: Effect): (Export, Reply) {
    var v := match link
      case None => (s, true)
      case Some(ino) =>
        if ino <= 0 || ino > 0xffff then (s, false)
        else var (u, h) := ForIno(s, fs, cm, ino); (u, h.Some?);
    if !v.1 then (v.0, Bad(EXDEV))
    else
      match effect
      case Failed(e) => (v.0, Bad(e))
      case Done(after) => Described(ForPath(Invalidate(v.0, after, cm, target), after, cm, target), false, EIO)
  }

  /** do_nami() with NDEL, on what lookup found */
  function DoDelete(s: Export, cm: CaseMap.Maps, tag: nat, root: bool, effect: Effect): (Export, Reply) {
    if root then (s, Bad(EPERM))
    else
      match effect
      case Failed(e) => (s, Bad(e))
      case Done(after) =>
        if tag !in s.handles then (s, Empty)
        else (Release(Invalidate(s, after, cm, s.handles[tag].path), tag), Empty)
  }

  datatype Request = Request(tag: nat, ino: int, flag: Flag, raw: string)

  /** do_nami() from the answer of lookup on. */
  function AfterLookup(s: Export, fs: Host, cm: CaseMap.Maps, target: Path, a: Answer, x: Request, effect: Effect): (Export, Reply) {
    match a
    case Error(e) => (s, Bad(e))
    case NoMatch =>
      if x.flag == Create then DoMake(s, fs, cm, target, None, effect)
      else if x.flag == Link then DoMake(s, fs, cm, target, Some(x.ino), effect)
      else (s, Absent)
    case Found(tag, root) =>
      if x.flag == Delete then DoDelete(s, cm, tag, root, effect)
      else Described((s, Some(tag)), root, EIO)
  }

  /** do_nami() */
  function DoNami(s: Export, fs: Host, cm: CaseMap.Maps, readonly: bool, x: Request, effect: Effect): (Export, Reply) {
    var (v, h) := ForTag(s, fs, cm, x.tag, if x.ino >= 0 then x.ino else 0);
    if h.None? || h.value !in v.handles then (v, Bad(ENOENT))
    else if readonly && (x.flag == Delete || x.flag == Link || x.flag == Create) then (v, Bad(EROFS))
    else
      var target := v.handles[h.value].path + [Cut(x.raw)];
      var (w, a) := Lookup(v, fs, cm, h.value, x.raw);
      AfterLookup(w, fs, cm, target, a, x, effect)
  }

  /** What NDEL has unlink() give to the host: the path kept in the handle that
      lookup found. */
  function Asked(s: Export, fs: Host, cm: CaseMap.Maps, readonly: bool, x: Request): Option<Path> {
    var (v, h) := ForTag(s, fs, cm, x.tag, if x.ino >= 0 then x.ino else 0);
    if readonly || x.flag != Delete || h.None? || h.value !in v.handles then None
    else
      var (w, a) := Lookup(v, fs, cm, h.value, x.raw);
      if a.Found? && !a.root && a.tag in w.handles then Some(w.handles[a.tag].path) else None
  }
}
