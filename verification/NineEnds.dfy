/** What ends a connection of tools/9pfsd.py. */
module NineEnds {
  import opened Basics
  import opened NinePaths
  import opened NineWire
  import opened NineModel
  import opened NineRuns
  import NineDir

  // ---- exactly which messages end it ----

  /** seek() is called on nothing, or with an offset that it cannot take. */
  predicate SeekEnds(f: Fid, offset: nat, file: Transfer) {
    f.ents.None? && (f.file ==> file != Unseekable && offset >= OFFMAX)
  }

  predicate ReadEnds(s: Conn, fid: nat, offset: nat, file: Transfer) {
    fid in s.fids && s.fids[fid].mode.Some? && s.fids[fid].mode.value % 4 != 1 && SeekEnds(s.fids[fid], offset, file)
  }

  predicate WriteEnds(s: Conn, cfg: Config, fid: nat, offset: nat, file: Transfer) {
    fid in s.fids && !cfg.readonly && s.fids[fid].mode.Some? && s.fids[fid].mode.value % 4 != 0 && SeekEnds(s.fids[fid], offset, file)
  }

  /** The host is asked about a name with a NUL in it. */
  predicate NulElement(cfg: Config, host: Host, path: string, name: Name) {
    Nul(name) && '/' !in name && Contains(cfg, host, Join(path, name))
  }

  /** The walk comes as far as its i-th element, and that one has a NUL in it. */
  predicate NulReached(cfg: Config, host: Host, path: string, names: seq<Name>, i: nat)
    requires i < |names|
  {
    var w := WalkFrom(cfg, host, Walked(path, [], None), names[..i]);
    w.stopped.None? && NulElement(cfg, host, w.path, names[i])
  }

  predicate WalkEnds(s: Conn, cfg: Config, host: Host, fid: nat, newfid: nat, names: seq<Name>) {
    |names| <= MAXWELEM && fid in s.fids && s.fids[fid].mode.None? && (newfid == fid || newfid !in s.fids)
    && exists i :: 0 <= i < |names| && NulReached(cfg, host, s.fids[fid].path, names, i)
  }

  predicate CreateEnds(s: Conn, cfg: Config, host: Host, fid: nat, name: Name, made: Made) {
    fid in s.fids && !cfg.readonly && s.fids[fid].mode.None? && GoodName(name) && Overflows(cfg, made)
    && var path := s.fids[fid].path;
       host.stat(path).Ok? && host.stat(path).value.kind == Dir && Contains(cfg, host, Join(path, name))
  }

  /** The rename is asked for with a NUL in the name, or the file that is then at
      the fid's path is to have a length that truncate() cannot take. */
  predicate WstatEnds(s: Conn, cfg: Config, host: Host, fid: nat, w: Changes, after: Host) {
    fid in s.fids && !cfg.readonly
    && var path := s.fids[fid].path;
       var moved := Join(Dirname(path), w.name);
       || (Nul(w.name) && '/' !in w.name && Contains(cfg, host, moved) && moved != path)
       || (var r := Renamed(cfg, host, path, w.name, w.rename);
           r.There? && LengthEnds(cfg, after, s.fids[fid].(path := r.path), w))
  }

  predicate LengthEnds(cfg: Config, host: Host, f: Fid, w: Changes) {
    OFFMAX <= w.length != NOTOUCH8 && !Through(cfg, host, f.path)
    && (w.mode != NOTOUCH4 ==> w.chmod == Did)
    && Timed(host, f.path, false, w).None?
    && (f.file ==> f.mode.Some? && Writes(f.mode.value))
  }

  /** What a connection does not survive. */
  predicate Ends(s: Conn, cfg: Config, host: Host, m: Message) {
    match m
    case Twalk(fid, newfid, names) => WalkEnds(s, cfg, host, fid, newfid, names)
    case Tcreate(fid, name, made, _, _, _) => CreateEnds(s, cfg, host, fid, name, made)
    case Tread(fid, offset, _, file) => ReadEnds(s, fid, offset, file)
    case Twrite(fid, offset, file) => WriteEnds(s, cfg, fid, offset, file)
    case Twstat(fid, w, after) => WstatEnds(s, cfg, host, fid, w, after)
    case _ => false
  }

  lemma {:induction false} WalkRaises(cfg: Config, host: Host, w: Walked, names: seq<Name>)
    requires w.stopped.None?
    ensures WalkFrom(cfg, host, w, names).stopped == Some(Raised) <==>
            exists i :: 0 <= i < |names| && NulAt(cfg, host, w, names, i)
    decreases |names|
  {
    hide NulElement, Walk1, Contains, Nul;
    if names != [] {
      NulNow(cfg, host, w.path, names[0]);
      assert names[..0] == [];
      var r := Walk1(cfg, host, w.path, names[0]);
      if r.There? && host.stat(r.path).Ok? {
        var v := Walked(r.path, w.qids + [host.stat(r.path).value.qid], None);
        WalkRaises(cfg, host, v, names[1..]);
        forall i | 0 < i < |names|
          ensures NulAt(cfg, host, w, names, i) <==> NulAt(cfg, host, v, names[1..], i - 1)
        {
          assert names[..i][0] == names[0] && names[..i][1..] == names[1..][..i - 1];
        }
        if i :| 0 <= i < |names| && NulAt(cfg, host, w, names, i) { assert i > 0 ==> NulAt(cfg, host, v, names[1..], i - 1); }
        if i :| 0 <= i < |names| - 1 && NulAt(cfg, host, v, names[1..], i) { assert NulAt(cfg, host, w, names, i + 1); }
      } else {
        forall i | 0 < i < |names|
          ensures !NulAt(cfg, host, w, names, i)
        {
          assert names[..i][0] == names[0];
        }
        if r == Not(Raised) { assert NulAt(cfg, host, w, names, 0); }
      }
    }
  }

  predicate NulAt(cfg: Config, host: Host, w: Walked, names: seq<Name>, i: nat)
    requires i < |names|
  {
    var v := WalkFrom(cfg, host, w, names[..i]);
    v.stopped.None? && NulElement(cfg, host, v.path, names[i])
  }

  lemma NulNow(cfg: Config, host: Host, path: string, name: Name)
    ensures Walk1(cfg, host, path, name) == Not(Raised) <==> NulElement(cfg, host, path, name)
  {
    hide Contains, Join;
  }

  lemma WalkEndsExactly(cfg: Config, s: Conn, host: Host, fid: nat, newfid: nat, names: seq<Name>)
    ensures DoWalk(s, cfg, host, fid, newfid, names).1 == Gone <==> WalkEnds(s, cfg, host, fid, newfid, names)
  {
    hide WalkFrom, NulElement;
    if fid in s.fids {
      var path := s.fids[fid].path;
      WalkRaises(cfg, host, Walked(path, [], None), names);
      assert forall i :: 0 <= i < |names| ==> NulReached(cfg, host, path, names, i) == NulAt(cfg, host, Walked(path, [], None), names, i);
    }
  }

  lemma CreateEndsExactly(cfg: Config, s: Conn, host: Host, fid: nat, name: Name, made: Made, mode: nat, effect: Effect, after: Host)
    ensures DoCreate(s, cfg, host, fid, name, made, mode, effect, after).1 == Gone <==> CreateEnds(s, cfg, host, fid, name, made)
  {
    hide OpenDir, Join, Contains, RemovesOnClose, BadValue;
  }

  lemma WstatEndsExactly(cfg: Config, s: Conn, host: Host, fid: nat, w: Changes, after: Host)
    ensures DoWstat(s, cfg, host, fid, w, after).1 == Gone <==> WstatEnds(s, cfg, host, fid, w, after)
  {
    hide Join, Dirname, Contains, Through, Timed, Writes, Nul, Changed, LengthEnds;
    if fid in s.fids {
      var r := Renamed(cfg, host, s.fids[fid].path, w.name, w.rename);
      NulName(w.name);
      if r.There? { LengthExactly(cfg, after, s.fids[fid].(path := r.path), w); }
    }
  }

  lemma NulName(name: Name)
    ensures Nul(name) ==> name != "" && name != "." && name != ".."
  {
  }

  lemma LengthExactly(cfg: Config, host: Host, f: Fid, w: Changes)
    ensures Changed(cfg, host, f, w) == Some(Raised) <==> LengthEnds(cfg, host, f, w)
  {
    hide Through, Writes, Timed;
  }

  /** A connection ends exactly on these: a read or a write of a fid with nothing
      behind it, or at an offset of 2^63 or more; a walk that comes to a name with a
      NUL; a device whose numbers do not fit; a rename to a name with a NUL; a length
      of 2^63 or more. */
  lemma GoneExactly(cfg: Config, s: Conn, host: Host, m: Message)
    ensures Dispatch(s, cfg, host, m).1 == Gone <==> Ends(s, cfg, host, m)
  {
    hide DoWalk, DoCreate, DoWstat, OpenDir, NineDir.ReadDir, Writes, Truncates, RemovesOnClose, Known, WalkEnds, CreateEnds, WstatEnds;
    match m
    case Twalk(fid, newfid, names) => WalkEndsExactly(cfg, s, host, fid, newfid, names);
    case Tcreate(fid, name, made, mode, effect, after) => CreateEndsExactly(cfg, s, host, fid, name, made, mode, effect, after);
    case Twstat(fid, w, after) => WstatEndsExactly(cfg, s, host, fid, w, after);
    case _ =>
  }

  /** So does a size that no message has. */
  lemma ServeGoneExactly(cfg: Config, s: Conn, host: Host, size: nat, m: Message)
    ensures Serve(s, cfg, host, size, m).1 == Gone <==> Misframed(s, size) || Ends(s, cfg, host, m)
  {
    hide Dispatch, Ends;
    GoneExactly(cfg, s, host, m);
  }

  // ---- what a client can avoid ----

  /** An open fid with a file or a snapshot behind it. */
  predicate Usable(f: Fid) { f.mode.Some? ==> f.file || f.ents.Some? }

  predicate AllUsable(s: Conn) { forall fid :: fid in s.fids ==> Usable(s.fids[fid]) }

  /** A client can tell by the message alone. */
  predicate Ordinary(m: Message) {
    match m
    case Twalk(_, _, names) => forall i :: 0 <= i < |names| ==> !Nul(names[i])
    case Tcreate(_, _, made, _, _, _) => made.MakeDir? || made.MakeFile?
    case Tread(_, offset, _, _) => offset < OFFMAX
    case Twrite(_, offset, _) => offset < OFFMAX
    case Twstat(_, w, _) => !Nul(w.name) && (w.length < OFFMAX || w.length == NOTOUCH8)
    case _ => true
  }

  lemma UsableKept(cfg: Config, s: Conn, host: Host, m: Message)
    requires AllUsable(s) && Ordinary(m)
    ensures AllUsable(Dispatch(s, cfg, host, m).0)
  {
    hide WalkFrom, OpenDir, Join, Contains, NineDir.ReadDir, Renamed, Changed, Writes, Truncates, RemovesOnClose, Known;
  }

  lemma OrdinaryStays(cfg: Config, s: Conn, host: Host, m: Message)
    requires AllUsable(s) && Ordinary(m)
    ensures !Ends(s, cfg, host, m)
  {
    hide WalkFrom, Join, Contains, Renamed, Timed, Through, Nul, Dirname, Writes;
  }

  /** A message and the size it is sent with. */
  datatype Framed = Framed(size: nat, turn: Turn)

  function RunFramed(s: Conn, cfg: Config, fs: seq<Framed>): Conn
    decreases |fs|
  {
    if fs == [] then s else RunFramed(Serve(s, cfg, fs[0].turn.host, fs[0].size, fs[0].turn.m).0, cfg, fs[1..])
  }

  /** Every size is from 7 to 24 more than was agreed on by then. */
  predicate WellFramed(s: Conn, cfg: Config, fs: seq<Framed>)
    decreases |fs|
  {
    fs == []
    || (!Misframed(s, fs[0].size) && WellFramed(Serve(s, cfg, fs[0].turn.host, fs[0].size, fs[0].turn.m).0, cfg, fs[1..]))
  }

  /** A client that frames its messages within the size agreed on, makes no link, pipe
      or device, sends no NUL in a name to walk or rename to, and no offset or length
      of 2^63 or more, is never hung up on. */
  lemma {:induction false} NeverGone(cfg: Config, s: Conn, fs: seq<Framed>, i: nat)
    requires AllUsable(s) && WellFramed(s, cfg, fs) && (forall k :: 0 <= k < |fs| ==> Ordinary(fs[k].turn.m)) && i < |fs|
    ensures Serve(RunFramed(s, cfg, fs[..i]), cfg, fs[i].turn.host, fs[i].size, fs[i].turn.m).1 != Gone
    decreases i
  {
    hide AllUsable, Dispatch, Ordinary, Ends, Misframed;
    var f := fs[0];
    if i > 0 {
      UsableKept(cfg, s, f.turn.host, f.turn.m);
      var t := Serve(s, cfg, f.turn.host, f.size, f.turn.m).0;
      assert fs[..i][1..] == fs[1..][..i - 1] && fs[..i][0] == f;
      NeverGone(cfg, t, fs[1..], i - 1);
    } else {
      assert fs[..0] == [];
      OrdinaryStays(cfg, s, f.turn.host, f.turn.m);
      GoneExactly(cfg, s, f.turn.host, f.turn.m);
    }
  }

  // ---- each of them does it ----

  const QID := Qid(0, 0, 3)

  /** A share with a directory at its root and files in it. */
  const SHARE := Config("/s", false, false, false, (major, minor) => 0 <= major < 0x8000_0000 && 0 <= minor < 0x8000_0000)

  function Kinds(p: string): Outcome<Stat> { Ok(Stat(if p == "/s" then Dir else Plain, QID)) }

  function Real(p: string): string { p }

  function Bare(p: string): Outcome<seq<Name>> { Ok([]) }

  function NoEntry(p: string, n: Name): Option<Attr> { None }

  const HOST := Host(Real, Kinds, Kinds, Bare, NoEntry)

  const NEW := Conn(map[], 8192, true)

  const KEEP := Changes("", NOTOUCH4, NOTOUCH4, NOTOUCH4, NOTOUCH8, Did, Did, Did, Did)

  /** The fid of a new connection on a share's root. */
  const AT_ROOT := Conn(map[0 := NewFid("/s", QID)], 8192, true)

  const AT_FILE := Conn(map[0 := NewFid("/s", QID), 1 := NewFid("/s/f", QID)], 8192, true)

  lemma HostHonest()
    ensures Honest(SHARE, HOST)
  {
    assert "/s"[..1] == "/" && LastSlash("/") == 0 && LastSlash("/s") == 0;
  }

  lemma Here(name: Name)
    requires GoodName(name)
    ensures Join("/s", name) == "/s/" + name && Dirname("/s/" + name) == "/s" && Contains(SHARE, HOST, "/s/" + name)
  {
    JoinDescends("/s", "/s", name);
    assert "/s" + "/" + name == "/s/" + name;
  }

  /** A new connection comes to it, whatever an honest host answers on the way. */
  ghost predicate FromStart(s: Conn) { exists turns :: AllHonest(SHARE, turns) && Run(NEW, SHARE, turns) == s }

  lemma Attached()
    ensures FromStart(AT_ROOT) && FromStart(AT_FILE)
  {
    HostHonest();
    FirstWalk();
    var a, w := Turn(HOST, Tattach(0)), Turn(HOST, Twalk(0, 1, ["f"]));
    hide Dispatch, Honest;
    assert [a][1..] == [] && [a, w][1..] == [w] && [w][1..] == [];
    assert Run(AT_ROOT, SHARE, []) == AT_ROOT && Run(AT_FILE, SHARE, []) == AT_FILE;
    assert Run(NEW, SHARE, [a]) == AT_ROOT;
    assert Run(AT_ROOT, SHARE, [w]) == AT_FILE && Run(NEW, SHARE, [a, w]) == AT_FILE;
    assert AllHonest(SHARE, [a]) && AllHonest(SHARE, [a, w]);
  }

  lemma FirstWalk()
    ensures Dispatch(NEW, SHARE, HOST, Tattach(0)).0 == AT_ROOT
    ensures Dispatch(AT_ROOT, SHARE, HOST, Twalk(0, 1, ["f"])).0 == AT_FILE
  {
    assert Dispatch(NEW, SHARE, HOST, Tattach(0)).0.fids == map[0 := NewFid("/s", QID)];
    Here("f");
    assert "/s/" + "f" == "/s/f";
    var w := WalkFrom(SHARE, HOST, Walked("/s", [], None), ["f"]);
    assert ["f"][1..] == [];
    assert w == WalkFrom(SHARE, HOST, Walked("/s/f", [QID], None), []);
  }

  /** Reading a file at 2^63. */
  lemma FarReadEnds()
    ensures FromStart(AT_FILE)
    ensures var t := Dispatch(AT_FILE, SHARE, HOST, Topen(1, 0, Did, HOST)).0;
            Dispatch(t, SHARE, HOST, Tread(1, OFFMAX, 1, Moved([]))).1 == Gone
  {
    hide FromStart;
    Attached();
  }

  /** Walking to a name that is a NUL. */
  lemma NulWalkEnds()
    ensures FromStart(AT_ROOT)
    ensures Dispatch(AT_ROOT, SHARE, HOST, Twalk(0, 1, ["\0"])).1 == Gone
  {
    hide FromStart;
    Attached();
    Here("\0");
    NulNow(SHARE, HOST, "/s", "\0");
  }

  /** Renaming to one. */
  lemma NulRenameEnds()
    ensures FromStart(AT_FILE)
    ensures Dispatch(AT_FILE, SHARE, HOST, Twstat(1, KEEP.(name := "\0"), HOST)).1 == Gone
  {
    hide FromStart, DoWstat, Join, Dirname, Contains, Renamed, LengthEnds;
    Attached();
    WstatEndsExactly(SHARE, AT_FILE, HOST, 1, KEEP.(name := "\0"), HOST);
    Here("\0");
    Here("f");
    var moved := "/s/" + "\0";
    assert "/s/" + "f" == "/s/f" && moved[|moved| - 1] == '\0' && "/s/f"[3] == 'f';
  }

  /** Asking for a length of 2^63. */
  lemma LongFileEnds()
    ensures FromStart(AT_FILE)
    ensures Dispatch(AT_FILE, SHARE, HOST, Twstat(1, KEEP.(length := OFFMAX), HOST)).1 == Gone
  {
    hide FromStart;
    Attached();
  }

  /** Making a device with a number of 2^40. */
  lemma BigDeviceEnds()
    ensures FromStart(AT_ROOT)
    ensures Dispatch(AT_ROOT, SHARE, HOST, Tcreate(0, "d", MakeDevice(Some((0x100_0000_0000, 0))), 0, Did, HOST)).1 == Gone
  {
    hide FromStart;
    Attached();
    Here("d");
  }

  /** Making a link and reading it. */
  lemma LinkReadEnds()
    ensures FromStart(AT_ROOT)
    ensures var t := Dispatch(AT_ROOT, SHARE, HOST, Tcreate(0, "l", MakeLink, 0, Did, HOST)).0;
            Dispatch(t, SHARE, HOST, Tread(0, 0, 1, Refused(EINVAL))).1 == Gone
  {
    hide FromStart;
    Attached();
    Here("l");
  }

  /** Creating one with a NUL does not: that ValueError is caught. */
  lemma NulCreateRefused(cfg: Config, s: Conn, host: Host, fid: nat, name: Name, made: Made, mode: nat, effect: Effect, after: Host)
    requires Nul(name) && !Overflows(cfg, made)
    ensures DoCreate(s, cfg, host, fid, name, made, mode, effect, after).1.Error?
    ensures DoCreate(s, cfg, host, fid, name, made, mode, effect, after).0 == s
  {
    hide Join, Contains, OpenDir, Overflows;
  }
}
