/** A forged directory and the lookup of its names agree, truncation and case
    map included. */
module NetfsListing {
  import opened Basics
  import opened Names
  import opened NetfsModel
  import opened NetfsRuns
  import CaseMap

  // ---- an unchanging directory ----

  function Rows(m: map<Path, map<Name, Name>>, d: Path): map<Name, Name> { if d in m then m[d] else map[] }

  /** The directory's rows pair each stored name with one true name. */
  predicate OneToOne(cm: CaseMap.Maps, d: Path) {
    var tt, ts := Rows(cm.toTrue, d), Rows(cm.toStored, d);
    (forall n :: n in tt ==> tt[n] in ts && ts[tt[n]] == n) && (forall n :: n in ts ==> ts[n] in tt && tt[ts[n]] == n)
  }

  /** No name on disk is the true name of a row. */
  predicate NoClash(cm: CaseMap.Maps, d: Path, names: seq<Name>) {
    forall n :: n in names ==> n !in Rows(cm.toStored, d)
  }

  /** Neither empty, nor a dot name, nor cut short by a NUL. */
  predicate Sane(n: Name) { n != "" && n != "." && n != ".." && '\0' !in n }

  predicate SaneNames(cm: CaseMap.Maps, d: Path, names: seq<Name>) { forall n :: n in names ==> Sane(Shown(cm, d, n)) }

  /** d can be listed, and holds what it lists. */
  ghost predicate Still(fs: Host, d: Path) {
    d in fs.stat && d in fs.list && (d != [] ==> Parent(d) in fs.stat)
    && forall n :: d + [n] in fs.stat <==> n in fs.list[d]
  }

  /** A number is left for everything in d, and for its parent. */
  predicate Room(t: Inodes, fs: Host, d: Path) { t.next + |Listing(fs, d)| + 1 <= 0xffff }

  ghost predicate Fit(t: Inodes, fs: Host, cm: CaseMap.Maps, d: Path) {
    Numbered(t) && Still(fs, d) && OneToOne(cm, d) && NoClash(cm, d, fs.list[d]) && SaneNames(cm, d, fs.list[d]) && Room(t, fs, d)
  }

  // ---- what is listed ----

  /** The first name that truncates to short. */
  function FirstOf(fs: Host, cm: CaseMap.Maps, d: Path, names: seq<Name>, short: Name): (j: nat)
    ensures j <= |names|
    ensures j < |names| ==> Truncates(fs, cm, d, names[j], short)
    ensures forall i :: 0 <= i < j ==> !Truncates(fs, cm, d, names[i], short)
    decreases |names|
  {
    if names == [] then 0
    else if Truncates(fs, cm, d, names[0], short) then 0
    else 1 + FirstOf(fs, cm, d, names[1..], short)
  }

  predicate HasName(es: seq<Entry>, n: Name) { exists i :: 0 <= i < |es| && es[i].name == n }

  predicate NamesOnce(es: seq<Entry>) { forall i, j :: 0 <= i < j < |es| ==> es[i].name != es[j].name }

  /** e is the entry of the first name that truncates to it, under its number. */
  predicate EntryIs(u: Inodes, fs: Host, cm: CaseMap.Maps, d: Path, names: seq<Name>, e: Entry) {
    var j := FirstOf(fs, cm, d, names, e.name);
    j < |names|
    && var key := fs.stat[d + [names[j]]].key;
       key in u.byHost && u.byHost[key] == e.ino
  }

  predicate EntriesAre(u: Inodes, fs: Host, cm: CaseMap.Maps, d: Path, names: seq<Name>, es: seq<Entry>) {
    forall i :: 0 <= i < |es| ==> EntryIs(u, fs, cm, d, names, es[i])
  }

  predicate NoneIn(es: seq<Entry>, seen: set<Name>) { forall i :: 0 <= i < |es| ==> es[i].name !in seen }

  lemma NextBounded(t: Inodes, p: Path, key: Key)
    requires Numbered(t) && t.next < 0xffff
    ensures InoFor(t, p, key).1.Some? && InoFor(t, p, key).0.next <= t.next + 1
  {
  }

  /** One step: a name that adds no entry. */
  lemma SkipEntries(u: Inodes, fs: Host, cm: CaseMap.Maps, d: Path, names: seq<Name>, es: seq<Entry>, seen: set<Name>)
    requires names != [] && EntriesAre(u, fs, cm, d, names[1..], es) && NoneIn(es, seen)
    requires !Listable(fs, d + [names[0]]) || V8Name(Shown(cm, d, names[0])) in seen
    ensures EntriesAre(u, fs, cm, d, names, es)
  {
    hide V8Name, Shown;
    forall i | 0 <= i < |es|
      ensures EntryIs(u, fs, cm, d, names, es[i])
    {
      assert EntryIs(u, fs, cm, d, names[1..], es[i]);
      assert es[i].name !in seen;
      assert FirstOf(fs, cm, d, names, es[i].name) == 1 + FirstOf(fs, cm, d, names[1..], es[i].name);
    }
  }

  /** One step: a name that adds the entry e before those of the rest. */
  lemma AddEntry(u: Inodes, fs: Host, cm: CaseMap.Maps, d: Path, names: seq<Name>, es: seq<Entry>, e: Entry)
    requires names != [] && EntriesAre(u, fs, cm, d, names[1..], es) && NoneIn(es, {e.name})
    requires Listable(fs, d + [names[0]]) && e.name == V8Name(Shown(cm, d, names[0]))
    requires var key := fs.stat[d + [names[0]]].key; key in u.byHost && u.byHost[key] == e.ino
    ensures EntriesAre(u, fs, cm, d, names, [e] + es)
  {
    hide V8Name, Shown;
    var all := [e] + es;
    forall i | 0 <= i < |all|
      ensures EntryIs(u, fs, cm, d, names, all[i])
    {
      if i > 0 {
        assert EntryIs(u, fs, cm, d, names[1..], es[i - 1]);
        assert es[i - 1].name !in {e.name};
        assert FirstOf(fs, cm, d, names, es[i - 1].name) == 1 + FirstOf(fs, cm, d, names[1..], es[i - 1].name);
      }
    }
  }

  /** No number is missing: there is room for all the names, or one is left after them. */
  predicate Enough(t: Inodes, fs: Host, cm: CaseMap.Maps, d: Path, names: seq<Name>, seen: set<Name>) {
    t.next + |names| <= 0xffff || ScanDir(t, fs, cm, d, names, seen).0.next < 0xffff
  }

  lemma EnoughNow(t: Inodes, fs: Host, cm: CaseMap.Maps, d: Path, names: seq<Name>, seen: set<Name>)
    requires Numbered(t) && Enough(t, fs, cm, d, names, seen) && names != []
    ensures t.next < 0xffff
  {
    hide Numbered;
    ScanKeeps(t, fs, cm, d, names, seen);
  }

  /** The entries of a scan: each name once, for the first name on disk that
      truncates to it, under the number that name's object keeps. */
  lemma {:induction false} ScanIs(t: Inodes, fs: Host, cm: CaseMap.Maps, d: Path, names: seq<Name>, seen: set<Name>)
    requires Numbered(t) && Enough(t, fs, cm, d, names, seen)
    ensures var (u, es) := ScanDir(t, fs, cm, d, names, seen);
            EntriesAre(u, fs, cm, d, names, es) && NamesOnce(es) && NoneIn(es, seen)
    decreases |names|
  {
    hide Numbered, InoFor, V8Name, Shown, EntriesAre;
    if names == [] {
      assert EntriesAre(t, fs, cm, d, [], []) by { NoEntries(t, fs, cm, d); }
    } else {
      var child, rest := d + [names[0]], names[1..];
      var short := V8Name(Shown(cm, d, names[0]));
      if !Listable(fs, child) || short in seen {
        ScanIs(t, fs, cm, d, rest, seen);
        var (u, es) := ScanDir(t, fs, cm, d, rest, seen);
        SkipEntries(u, fs, cm, d, names, es, seen);
      } else {
        var key := fs.stat[child].key;
        EnoughNow(t, fs, cm, d, names, seen);
        NextBounded(t, child, key);
        InoForKeeps(t, child, key);
        var (u, n) := InoFor(t, child, key);
        ScanIs(u, fs, cm, d, rest, seen + {short});
        ScanKeeps(u, fs, cm, d, rest, seen + {short});
        var (v, es) := ScanDir(u, fs, cm, d, rest, seen + {short});
        AddEntry(v, fs, cm, d, names, es, Entry(short, n.value));
        FirstApart(es, Entry(short, n.value), seen);
      }
    }
  }

  lemma NoEntries(t: Inodes, fs: Host, cm: CaseMap.Maps, d: Path)
    ensures EntriesAre(t, fs, cm, d, [], [])
  {
  }

  lemma FirstApart(es: seq<Entry>, e: Entry, seen: set<Name>)
    requires NamesOnce(es) && NoneIn(es, seen + {e.name}) && e.name !in seen
    ensures NamesOnce([e] + es) && NoneIn([e] + es, seen) && NoneIn(es, {e.name})
  {
    var all := [e] + es;
    assert forall i :: 1 <= i < |all| ==> all[i] == es[i - 1];
  }

  /** And a name with a listable object is always listed. */
  lemma {:induction false} ScanComplete(t: Inodes, fs: Host, cm: CaseMap.Maps, d: Path, names: seq<Name>, seen: set<Name>, short: Name)
    requires Numbered(t) && Enough(t, fs, cm, d, names, seen)
    requires short !in seen && FirstOf(fs, cm, d, names, short) < |names|
    ensures HasName(ScanDir(t, fs, cm, d, names, seen).1, short)
    decreases |names|
  {
    hide Numbered, InoFor, V8Name, Shown;
    var child, rest := d + [names[0]], names[1..];
    var s0 := V8Name(Shown(cm, d, names[0]));
    if !Listable(fs, child) || s0 in seen {
      ScanComplete(t, fs, cm, d, rest, seen, short);
    } else {
      var key := fs.stat[child].key;
      EnoughNow(t, fs, cm, d, names, seen);
      NextBounded(t, child, key);
      InoForKeeps(t, child, key);
      var (u, n) := InoFor(t, child, key);
      var es := ScanDir(u, fs, cm, d, rest, seen + {s0}).1;
      var all := ScanDir(t, fs, cm, d, names, seen).1;
      assert all == [Entry(s0, n.value)] + es;
      if s0 == short {
        assert all[0].name == short;
      } else {
        ScanComplete(u, fs, cm, d, rest, seen + {s0}, short);
        var i :| 0 <= i < |es| && es[i].name == short;
        assert all[i + 1].name == short;
      }
    }
  }

  // ---- the case map, both ways ----

  /** A name under which something is stored and nothing is shown. */
  predicate Spelling(cm: CaseMap.Maps, d: Path, x: Name) { x in Rows(cm.toTrue, d) && x !in Rows(cm.toStored, d) }

  lemma ByRows(cm: CaseMap.Maps, d: Path, n: Name)
    ensures Shown(cm, d, n) == if n in Rows(cm.toTrue, d) then Rows(cm.toTrue, d)[n] else n
    ensures OnDisk(cm, d, n) == if n in Rows(cm.toStored, d) then Rows(cm.toStored, d)[n] else n
  {
  }

  /** A listed name of fewer than 14 bytes is that of one object only. */
  lemma ShortNameIs(fs: Host, cm: CaseMap.Maps, d: Path, x: Name, onDisk: Name)
    requires OneToOne(cm, d) && Still(fs, d) && NoClash(cm, d, fs.list[d])
    requires |x| < DIRSIZ && onDisk in fs.list[d] && V8Name(Shown(cm, d, onDisk)) == x
    ensures OnDisk(cm, d, x) == onDisk
  {
    hide Shown, OnDisk, Rows;
    assert Shown(cm, d, onDisk) == x;
    ByRows(cm, d, onDisk);
    ByRows(cm, d, x);
  }

  /** What a name resolves to is shown under it, unless it is itself a stored
      spelling. */
  lemma ResolvedShows(fs: Host, cm: CaseMap.Maps, d: Path, x: Name)
    requires OneToOne(cm, d) && Still(fs, d) && NoClash(cm, d, fs.list[d]) && OnDisk(cm, d, x) in fs.list[d]
    ensures Shown(cm, d, OnDisk(cm, d, x)) == x <==> !Spelling(cm, d, x)
  {
    hide Shown, OnDisk, Rows;
    ByRows(cm, d, x);
    ByRows(cm, d, OnDisk(cm, d, x));
  }

  // ---- lookup ----

  lemma ForPathFinds(s: Export, fs: Host, cm: CaseMap.Maps, p: Path)
    requires Inv(s) && p in fs.stat && p != [] && fs.stat[p].key in s.inodes.byHost
    ensures var (u, h) := ForPath(s, fs, cm, p);
            h.Some? && h.value in u.handles && u.handles[h.value].ino == s.inodes.byHost[fs.stat[p].key]
            && u.handles[h.value].path != []
  {
    hide Forged, GoodHandles, TagsUsed, Refresh, Fresh, Later, Numbered;
    var key := fs.stat[p].key;
    assert InoFor(s.inodes, p, key).1 == Some(s.inodes.byHost[key]);
    PathNumber(s, fs, cm, p);
    ForPathKeeps(s, fs, cm, p);
    var (u, h) := ForPath(s, fs, cm, p);
    NotRoot(u, h.value, key);
  }

  lemma NotRoot(u: Export, tag: nat, key: Key)
    requires Inv(u) && tag in u.handles && key in u.inodes.byHost && u.handles[tag].ino == u.inodes.byHost[key]
    ensures u.handles[tag].path != []
  {
  }

  lemma {:induction false} ScanForFinds(s: Export, fs: Host, cm: CaseMap.Maps, d: Path, names: seq<Name>, short: Name)
    requires Inv(s) && var j := FirstOf(fs, cm, d, names, short);
                      j < |names| ==> fs.stat[d + [names[j]]].key in s.inodes.byHost
    ensures var j := FirstOf(fs, cm, d, names, short);
            var (u, a) := ScanFor(s, fs, cm, d, names, short);
            if j == |names| then a == NoMatch
            else a.Found? && !a.root && a.tag in u.handles
                 && u.handles[a.tag].ino == s.inodes.byHost[fs.stat[d + [names[j]]].key]
    decreases |names|
  {
    hide Inv, ForPath, Truncates;
    if names != [] {
      if !Truncates(fs, cm, d, names[0], short) {
        ScanForFinds(s, fs, cm, d, names[1..], short);
      } else {
        TruncatesListable(fs, cm, d, names[0], short);
        ForPathFinds(s, fs, cm, d + [names[0]]);
      }
    }
  }

  lemma TruncatesListable(fs: Host, cm: CaseMap.Maps, d: Path, n: Name, short: Name)
    requires Truncates(fs, cm, d, n, short)
    ensures d + [n] in fs.stat
  {
  }

  /** A directory's handle, in any state after its image was forged. */
  ghost predicate Serves(s: Export, t: Inodes, fs: Host, cm: CaseMap.Maps, d: Path, ino: nat, tag: nat) {
    Inv(s) && Extends(Entries(t, fs, cm, d, ino).0, s.inodes)
    && tag in s.handles && s.handles[tag].path == d && IsDir(s.handles[tag])
  }

  function Listed(t: Inodes, fs: Host, cm: CaseMap.Maps, d: Path, ino: nat): seq<Entry> {
    ScanDir(ParentIno(t, fs, d).0, fs, cm, d, Listing(fs, d), {}).1
  }

  lemma EntriesList(t: Inodes, fs: Host, cm: CaseMap.Maps, d: Path, ino: nat)
    ensures Entries(t, fs, cm, d, ino).1[2..] == Listed(t, fs, cm, d, ino)
    ensures Entries(t, fs, cm, d, ino).0 == ScanDir(ParentIno(t, fs, d).0, fs, cm, d, Listing(fs, d), {}).0
  {
  }

  lemma ParentKeeps(t: Inodes, fs: Host, d: Path)
    requires Numbered(t) && t.next < 0xffff
    ensures var u := ParentIno(t, fs, d).0; Numbered(u) && Extends(t, u) && u.next <= t.next + 1
  {
    hide Numbered, Extends, InoFor;
    Reflexive(t);
    if d != [] && Parent(d) in fs.stat {
      InoForKeeps(t, Parent(d), fs.stat[Parent(d)].key);
      NextBounded(t, Parent(d), fs.stat[Parent(d)].key);
    }
  }

  /** A number is left for everything, or after everything. */
  predicate Roomy(t: Inodes, fs: Host, cm: CaseMap.Maps, d: Path, ino: nat) {
    Room(t, fs, d) || Entries(t, fs, cm, d, ino).0.next < 0xffff
  }

  lemma RoomyNow(t: Inodes, fs: Host, cm: CaseMap.Maps, d: Path, ino: nat)
    requires Numbered(t) && Roomy(t, fs, cm, d, ino)
    ensures t.next < 0xffff && Enough(ParentIno(t, fs, d).0, fs, cm, d, Listing(fs, d), {})
  {
    hide Numbered, ScanDir, InoFor;
    ParentGrows(t, fs, d);
    var u := ParentIno(t, fs, d).0;
    ScanKeeps(u, fs, cm, d, Listing(fs, d), {});
    if Room(t, fs, d) { ParentKeeps(t, fs, d); }
  }

  lemma ParentGrows(t: Inodes, fs: Host, d: Path)
    requires Numbered(t)
    ensures var u := ParentIno(t, fs, d).0; Numbered(u) && Extends(t, u)
  {
    hide Numbered, Extends, InoFor;
    Reflexive(t);
    if d != [] && Parent(d) in fs.stat { InoForKeeps(t, Parent(d), fs.stat[Parent(d)].key); }
  }

  lemma ListedIs(t: Inodes, fs: Host, cm: CaseMap.Maps, d: Path, ino: nat)
    requires Numbered(t) && Roomy(t, fs, cm, d, ino)
    ensures var (u, es) := (Entries(t, fs, cm, d, ino).0, Listed(t, fs, cm, d, ino));
            EntriesAre(u, fs, cm, d, Listing(fs, d), es) && NamesOnce(es)
    ensures forall x :: FirstOf(fs, cm, d, Listing(fs, d), x) < |Listing(fs, d)| ==> HasName(Listed(t, fs, cm, d, ino), x)
  {
    hide Numbered, ScanDir, EntriesAre, NamesOnce, HasName, Roomy, Enough;
    RoomyNow(t, fs, cm, d, ino);
    ParentKeeps(t, fs, d);
    var u := ParentIno(t, fs, d).0;
    ScanIs(u, fs, cm, d, Listing(fs, d), {});
    forall x | FirstOf(fs, cm, d, Listing(fs, d), x) < |Listing(fs, d)|
      ensures HasName(Listed(t, fs, cm, d, ino), x)
    {
      ScanComplete(u, fs, cm, d, Listing(fs, d), {}, x);
    }
  }

  lemma KeyKept(t: Inodes, fs: Host, cm: CaseMap.Maps, d: Path, ino: nat, i: nat, s: Export) returns (j: nat)
    requires Numbered(t) && Room(t, fs, d) && i < |Listed(t, fs, cm, d, ino)|
    requires Extends(Entries(t, fs, cm, d, ino).0, s.inodes)
    ensures var names, e := Listing(fs, d), Listed(t, fs, cm, d, ino)[i];
            j == FirstOf(fs, cm, d, names, e.name) && j < |names| && Truncates(fs, cm, d, names[j], e.name)
            && fs.stat[d + [names[j]]].key in s.inodes.byHost && s.inodes.byHost[fs.stat[d + [names[j]]].key] == e.ino
  {
    hide Numbered, Entries, Listed;
    ListedIs(t, fs, cm, d, ino);
    var e := Listed(t, fs, cm, d, ino)[i];
    assert EntryIs(Entries(t, fs, cm, d, ino).0, fs, cm, d, Listing(fs, d), e);
    j := FirstOf(fs, cm, d, Listing(fs, d), e.name);
  }

  /** What the guest can see it can open: looking up a listed name, in any later
      state, gives a handle with exactly the listed inode number. */
  lemma ListedOpens(t: Inodes, fs: Host, cm: CaseMap.Maps, d: Path, ino: nat, i: nat, s: Export, tag: nat, raw: string)
    requires Fit(t, fs, cm, d) && Serves(s, t, fs, cm, d, ino, tag)
    requires i < |Listed(t, fs, cm, d, ino)| && Cut(raw) == Listed(t, fs, cm, d, ino)[i].name
    ensures var (u, a) := Lookup(s, fs, cm, tag, raw);
            a.Found? && !a.root && a.tag in u.handles && u.handles[a.tag].ino == Listed(t, fs, cm, d, ino)[i].ino
  {
    hide Numbered, Inv, Extends, Listed, Entries, ForPath, Still, OneToOne, NoClash, V8Name, Shown, OnDisk, FirstOf;
    var names, x := Listing(fs, d), Cut(raw);
    var j := KeyKept(t, fs, cm, d, ino, i, s);
    SaneShort(fs, cm, d, names[j], x);
    if |x| < DIRSIZ {
      ShortNameIs(fs, cm, d, x, names[j]);
      ForPathFinds(s, fs, cm, d + [names[j]]);
    } else {
      ScanForFinds(s, fs, cm, d, names, x);
    }
  }

  lemma SaneShort(fs: Host, cm: CaseMap.Maps, d: Path, onDisk: Name, x: Name)
    requires Still(fs, d) && SaneNames(cm, d, fs.list[d]) && Truncates(fs, cm, d, onDisk, x) && onDisk in Listing(fs, d)
    ensures x != "" && x != "." && x != ".." && |x| <= DIRSIZ
  {
    assert Sane(Shown(cm, d, onDisk));
  }

  /** What the guest can open by name it can see: a name that lookup resolves is
      listed, if and only if it is not the stored spelling of a renamed name. */
  lemma OpensListed(t: Inodes, fs: Host, cm: CaseMap.Maps, d: Path, ino: nat, s: Export, tag: nat, raw: string)
    requires Fit(t, fs, cm, d) && Serves(s, t, fs, cm, d, ino, tag)
    requires var x := Cut(raw); x != "" && x != "." && x != ".."
    requires Lookup(s, fs, cm, tag, raw).1.Found?
    ensures HasName(Listed(t, fs, cm, d, ino), Cut(raw)) <==> |Cut(raw)| == DIRSIZ || !Spelling(cm, d, Cut(raw))
  {
    hide Numbered, Inv, Extends, Listed, Entries, ForPath, OneToOne, NoClash, Shown, OnDisk, FirstOf;
    var names, x := Listing(fs, d), Cut(raw);
    ListedIs(t, fs, cm, d, ino);
    if |x| < DIRSIZ {
      var onDisk := OnDisk(cm, d, x);
      assert onDisk in names;
      ResolvedShows(fs, cm, d, x);
      if !Spelling(cm, d, x) {
        assert Truncates(fs, cm, d, onDisk, x);
      } else {
        SpellingHidden(t, fs, cm, d, ino, x);
      }
    } else {
      ScanForFound(s, fs, cm, d, names, x);
    }
  }

  lemma SpellingHidden(t: Inodes, fs: Host, cm: CaseMap.Maps, d: Path, ino: nat, x: Name)
    requires Fit(t, fs, cm, d) && |x| < DIRSIZ && Spelling(cm, d, x)
    ensures !HasName(Listed(t, fs, cm, d, ino), x)
  {
    hide Numbered, Listed, Entries;
    ListedIs(t, fs, cm, d, ino);
    var names := Listing(fs, d);
    forall i | 0 <= i < |Listed(t, fs, cm, d, ino)|
      ensures Listed(t, fs, cm, d, ino)[i].name != x
    {
      var e := Listed(t, fs, cm, d, ino)[i];
      assert EntryIs(Entries(t, fs, cm, d, ino).0, fs, cm, d, names, e);
      var j := FirstOf(fs, cm, d, names, e.name);
      assert names[j] in names;
      if e.name == x { NeverShown(cm, d, names[j], x); }
    }
  }

  lemma NeverShown(cm: CaseMap.Maps, d: Path, onDisk: Name, x: Name)
    requires OneToOne(cm, d) && |x| < DIRSIZ && Spelling(cm, d, x)
    ensures V8Name(Shown(cm, d, onDisk)) != x
  {
    hide Shown, Rows;
    ByRows(cm, d, onDisk);
  }

  lemma {:induction false} ScanForFound(s: Export, fs: Host, cm: CaseMap.Maps, d: Path, names: seq<Name>, short: Name)
    requires ScanFor(s, fs, cm, d, names, short).1.Found?
    ensures FirstOf(fs, cm, d, names, short) < |names|
    decreases |names|
  {
    hide ForPath, Truncates;
    if !Truncates(fs, cm, d, names[0], short) {
      ScanForFound(s, fs, cm, d, names[1..], short);
    }
  }

  /** The whole image: no name twice, dots included. */
  lemma ImageNamesOnce(t: Inodes, fs: Host, cm: CaseMap.Maps, d: Path, ino: nat)
    requires Fit(t, fs, cm, d)
    ensures NamesOnce(Entries(t, fs, cm, d, ino).1)
  {
    hide Numbered, Still, OneToOne, NoClash, ScanDir, FirstOf;
    ListedIs(t, fs, cm, d, ino);
    EntriesList(t, fs, cm, d, ino);
    var es, all := Listed(t, fs, cm, d, ino), Entries(t, fs, cm, d, ino).1;
    forall i | 2 <= i < |all|
      ensures all[i] == es[i - 2] && all[i].name != "." && all[i].name != ".."
    {
      assert EntryIs(Entries(t, fs, cm, d, ino).0, fs, cm, d, Listing(fs, d), es[i - 2]);
      var j := FirstOf(fs, cm, d, Listing(fs, d), es[i - 2].name);
      FirstSane(fs, cm, d, es[i - 2].name);
    }
  }

  lemma FirstSane(fs: Host, cm: CaseMap.Maps, d: Path, x: Name)
    requires Still(fs, d) && SaneNames(cm, d, fs.list[d]) && FirstOf(fs, cm, d, Listing(fs, d), x) < |Listing(fs, d)|
    ensures x != "." && x != ".."
  {
    SaneShort(fs, cm, d, Listing(fs, d)[FirstOf(fs, cm, d, Listing(fs, d), x)], x);
  }

  /** `.' opens as the directory itself and `..' as the number listed for it. */
  lemma DotsOpen(t: Inodes, fs: Host, cm: CaseMap.Maps, d: Path, ino: nat, s: Export, tag: nat)
    requires Fit(t, fs, cm, d) && Serves(s, t, fs, cm, d, ino, tag) && s.handles[tag].ino == ino
    ensures Lookup(s, fs, cm, tag, ".").1 == Found(tag, false) && Entries(t, fs, cm, d, ino).1[0] == Entry(".", ino)
    ensures var (u, a) := Lookup(s, fs, cm, tag, "..");
            a.Found? && a.tag in u.handles && u.handles[a.tag].ino == Entries(t, fs, cm, d, ino).1[1].ino
            && (a.root <==> |d| <= 1)
  {
    hide Numbered, ScanDir, ForPath, Still, OneToOne, NoClash, SaneNames, Inv;
    assert Cut(".") == "." && Cut("..") == ".." by { CutDots(); }
    StillParent(fs, d);
    if d == [] {
      RootFound(s, fs, cm);
    } else {
      ParentFound(t, fs, cm, d, ino, s);
    }
  }

  lemma CutDots()
    ensures Cut(".") == "." && Cut("..") == ".."
  {
    assert "."[1..] == "" && ".."[1..] == ".";
  }

  lemma StillParent(fs: Host, d: Path)
    requires Still(fs, d)
    ensures d in fs.stat && (d != [] ==> Parent(d) in fs.stat)
  {
  }

  lemma RootFound(s: Export, fs: Host, cm: CaseMap.Maps)
    requires Inv(s) && [] in fs.stat
    ensures var (u, h) := ForPath(s, fs, cm, []);
            h.Some? && h.value in u.handles && u.handles[h.value].ino == ROOTINO && u.handles[h.value].path == []
  {
    hide Numbered, Forged, TagsUsed;
    ForPathKeeps(s, fs, cm, []);
    LiveIs(s, ROOTINO);
    if Live(s, ROOTINO) {
      ForgedKeeps(s.inodes, fs, cm, [], s.handles[s.byIno[ROOTINO]].(st := fs.stat[[]]));
    } else {
      ForgedKeeps(s.inodes, fs, cm, [], Handle(ROOTINO, [], fs.stat[[]], None));
    }
  }

  lemma ParentFound(t: Inodes, fs: Host, cm: CaseMap.Maps, d: Path, ino: nat, s: Export)
    requires Numbered(t) && Room(t, fs, d) && d != [] && Parent(d) in fs.stat && Inv(s)
    requires Extends(Entries(t, fs, cm, d, ino).0, s.inodes)
    ensures var (u, h) := ForPath(s, fs, cm, Parent(d));
            h.Some? && h.value in u.handles && u.handles[h.value].ino == ParentIno(t, fs, d).1
            && (u.handles[h.value].path == [] <==> |d| == 1)
  {
    hide Numbered, ScanDir, ForPath, Inv, Extends;
    var up := Parent(d);
    if up == [] {
      RootFound(s, fs, cm);
    } else {
      var key := fs.stat[up].key;
      InoForKeeps(t, up, key);
      NextBounded(t, up, key);
      var u := ParentIno(t, fs, d).0;
      ScanKeeps(u, fs, cm, d, Listing(fs, d), {});
      KeptThrough(u, Entries(t, fs, cm, d, ino).0, s.inodes, key);
      ForPathFinds(s, fs, cm, up);
    }
  }

  lemma KeptThrough(t: Inodes, u: Inodes, v: Inodes, key: Key)
    requires Extends(t, u) && Extends(u, v) && key in t.byHost
    ensures key in v.byHost && v.byHost[key] == t.byHost[key]
  {
  }

  // ---- the bytes ----

  function GuestIno(record: string): int
    requires |record| == 16
  {
    record[0] as int + record[1] as int * 256
  }

  function GuestName(record: string): Name
    requires |record| == 16
  {
    Cut(record[2..])
  }

  lemma {:induction false} CutPadded(n: Name, pad: string)
    requires '\0' !in n && (pad == "" || pad[0] == '\0')
    ensures Cut(n + pad) == n
    decreases |n|
  {
    if n != "" {
      assert (n + pad)[1..] == n[1..] + pad && n[0] in n;
      assert forall c :: c in n[1..] ==> c in n;
      CutPadded(n[1..], pad);
      assert [n[0]] + n[1..] == n;
    } else {
      assert n + pad == pad;
    }
  }

  /** A guest reads a record back as the entry. */
  lemma RecordReads(e: Entry)
    requires |e.name| <= DIRSIZ && '\0' !in e.name && e.ino <= 0xffff
    ensures GuestIno(Record(e)) == e.ino && GuestName(Record(e)) == e.name
  {
    var pad := seq(DIRSIZ - |e.name|, _ => '\0');
    assert Record(e)[2..] == e.name + pad;
    CutPadded(e.name, pad);
  }

  /** The image is its records, sixteen bytes each, in order. */
  lemma {:induction false} ImageAt(es: seq<Entry>, i: nat)
    requires Shorts(es) && i < |es|
    ensures |Image(es)| == 16 * |es| && Image(es)[16 * i..16 * i + 16] == Record(es[i])
    decreases |es|
  {
    var before := es[..|es| - 1];
    ImageLength(before);
    if i < |es| - 1 {
      ImageAt(before, i);
      assert Image(es)[16 * i..16 * i + 16] == Image(before)[16 * i..16 * i + 16];
    }
  }

  lemma {:induction false} ImageLength(es: seq<Entry>)
    requires Shorts(es)
    ensures |Image(es)| == 16 * |es|
    decreases |es|
  {
    if es != [] { ImageLength(es[..|es| - 1]); }
  }
}
