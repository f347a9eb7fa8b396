/** What clients of tools/9pfsd.py can have unlinked, and exactly when that is the
    export's root. */
module NineUnlink {
  import opened Basics
  import opened NinePaths
  import opened NineWire
  import opened NineModel
  import opened NineRuns
  import NineDir
  import Ends = NineEnds

  /** Over every sequence of messages only what is in the export is unlinked. */
  lemma UnlinksInside(cfg: Config, s: Conn, turns: seq<Turn>, m: Message)
    requires Inv(cfg, s) && AllHonest(cfg, turns)
    ensures var u := Unlinks(Run(s, cfg, turns), cfg, m); u.Some? ==> Descends(cfg.root, u.value)
  {
    hide Run, Descends;
    RunKeeps(cfg, s, turns);
    var t := Run(s, cfg, turns);
    if m.Tclunk? && m.fid in t.fids { assert Sane(cfg, t.fids[m.fid]); }
    if m.Tremove? && m.fid in t.fids { assert Sane(cfg, t.fids[m.fid]); }
  }

  // ---- the root ----

  /** Clunking the fid is to remove the root. */
  predicate Armed(cfg: Config, s: Conn, fid: nat) { fid in s.fids && s.fids[fid].rclose && s.fids[fid].path == cfg.root }

  /** What a client can see coming: it opens the fid, on the root, to be removed on
      close, and every check of Topen is passed. */
  predicate Arms(cfg: Config, s: Conn, host: Host, m: Message, fid: nat) {
    m.Topen? && m.fid == fid && Opens(s, cfg, host, fid, m.mode, m.effect)
    && s.fids[fid].path == cfg.root && RemovesOnClose(m.mode)
  }

  /** The fid is given up, or the connection. */
  predicate Drops(cfg: Config, s: Conn, host: Host, m: Message, fid: nat) {
    m.Tversion? || (m.Tclunk? && m.fid == fid) || (m.Tremove? && m.fid == fid) || Dispatch(s, cfg, host, m).1 == Gone
  }

  /** Only open fids are to be removed on close. */
  predicate Closing(s: Conn) { forall fid :: fid in s.fids && s.fids[fid].rclose ==> s.fids[fid].mode.Some? }

  /** Nothing is renamed to the root, nor the root to anything. */
  lemma RenamedRoot(cfg: Config, host: Host, path: string, name: Name, effect: Effect)
    requires Honest(cfg, host) && Descends(cfg.root, path)
    ensures var r := Renamed(cfg, host, path, name, effect); r.There? ==> (r.path == cfg.root <==> path == cfg.root)
  {
    hide Descends, Join, Dirname, Inside, Rooted;
    if name != "" && GoodName(name) {
      if path == cfg.root {
        DirnameOfRootJoin(cfg.root, name);
        AboveIsOutside(cfg.root);
      } else {
        DirnameDescends(cfg.root, path);
        JoinDescends(cfg.root, Dirname(path), name);
      }
    }
  }

  lemma OpenArms(cfg: Config, s: Conn, host: Host, fid: nat, mode: nat, effect: Effect, after: Host, f: nat)
    requires Closing(s)
    ensures var t := DoOpen(s, cfg, host, fid, mode, effect, after).0;
            Closing(t)
            && (Armed(cfg, t, f) <==> Armed(cfg, s, f) || Arms(cfg, s, host, Topen(fid, mode, effect, after), f))
  {
    hide OpenDir, Writes, Truncates, RemovesOnClose;
  }

  lemma WalkArms(cfg: Config, s: Conn, host: Host, fid: nat, newfid: nat, names: seq<Name>, f: nat)
    requires Closing(s) && DoWalk(s, cfg, host, fid, newfid, names).1 != Gone
    ensures var t := DoWalk(s, cfg, host, fid, newfid, names).0; Closing(t) && (Armed(cfg, t, f) <==> Armed(cfg, s, f))
  {
    hide WalkFrom;
  }

  lemma CreateArms(cfg: Config, s: Conn, host: Host, fid: nat, name: Name, made: Made, mode: nat, effect: Effect, after: Host, f: nat)
    requires Closing(s) && Inv(cfg, s) && Honest(cfg, host)
    requires DoCreate(s, cfg, host, fid, name, made, mode, effect, after).1 != Gone
    ensures var t := DoCreate(s, cfg, host, fid, name, made, mode, effect, after).0;
            Closing(t) && (Armed(cfg, t, f) <==> Armed(cfg, s, f))
  {
    hide OpenDir, Join, Contains, RemovesOnClose, Descends, Overflows, BadValue, Finish, Closing, Armed, Inv, Honest;
    if fid in s.fids && s.fids[fid].mode.None? && GoodName(name) {
      var path := Join(s.fids[fid].path, name);
      MadePath(cfg, s, host, fid, name);
      var g := s.fids[fid].(path := path);
      MovedArms(cfg, s, fid, g, f);
      FinishArms(cfg, s, after, fid, g, mode, f);
      FinishArms(cfg, s, after, fid, g.(file := true), mode, f);
      var d := OpenDir(after, path, s.dotu);
      if d.Ok? { FinishArms(cfg, s, after, fid, g.(ents := Some(d.value)), mode, f); }
    }
  }

  lemma MadePath(cfg: Config, s: Conn, host: Host, fid: nat, name: Name)
    requires Inv(cfg, s) && Honest(cfg, host) && fid in s.fids && GoodName(name)
    ensures Join(s.fids[fid].path, name) != cfg.root
  {
    hide Join, Descends;
    assert Sane(cfg, s.fids[fid]);
    JoinDescends(cfg.root, s.fids[fid].path, name);
  }

  lemma MovedArms(cfg: Config, s: Conn, fid: nat, g: Fid, f: nat)
    requires Closing(s) && fid in s.fids && s.fids[fid].mode.None? && g.path != cfg.root && g.rclose == s.fids[fid].rclose
    ensures Closing(Set(s, fid, g)) && (Armed(cfg, Set(s, fid, g), f) <==> Armed(cfg, s, f))
  {
  }

  lemma FinishArms(cfg: Config, s: Conn, host: Host, fid: nat, g: Fid, mode: nat, f: nat)
    requires Closing(s) && fid in s.fids && s.fids[fid].mode.None? && g.path != cfg.root
    ensures var t := Finish(s, host, fid, g, mode).0; Closing(t) && (Armed(cfg, t, f) <==> Armed(cfg, s, f))
  {
    hide RemovesOnClose;
  }

  lemma WstatArms(cfg: Config, s: Conn, host: Host, fid: nat, w: Changes, after: Host, f: nat)
    requires Closing(s) && Inv(cfg, s) && Honest(cfg, host) && DoWstat(s, cfg, host, fid, w, after).1 != Gone
    ensures var t := DoWstat(s, cfg, host, fid, w, after).0; Closing(t) && (Armed(cfg, t, f) <==> Armed(cfg, s, f))
  {
    hide Renamed, Changed, Descends, Honest;
    if fid in s.fids {
      assert Sane(cfg, s.fids[fid]);
      RenamedRoot(cfg, host, s.fids[fid].path, w.name, w.rename);
    }
  }

  lemma ReadArms(cfg: Config, s: Conn, host: Host, fid: nat, offset: nat, count: nat, file: Transfer, f: nat)
    requires Closing(s) && DoRead(s, host, fid, offset, count, file).1 != Gone
    ensures var t := DoRead(s, host, fid, offset, count, file).0; Closing(t) && (Armed(cfg, t, f) <==> Armed(cfg, s, f))
  {
    hide OpenDir, NineDir.ReadDir;
  }

  /** One message: a fid is armed by that Topen and by nothing else, and stays so until
      it is dropped. */
  lemma ArmedStep(cfg: Config, s: Conn, host: Host, m: Message, fid: nat)
    requires Closing(s) && Inv(cfg, s) && Honest(cfg, host)
    ensures var t := Dispatch(s, cfg, host, m).0;
            Closing(t)
            && (Armed(cfg, t, fid) <==> Arms(cfg, s, host, m, fid) || (Armed(cfg, s, fid) && !Drops(cfg, s, host, m, fid)))
  {
    hide Inv, Honest, DoOpen, DoWalk, DoCreate, DoWstat, DoRead, Opens, RemovesOnClose;
    if Dispatch(s, cfg, host, m).1 == Gone {
      GoneEmpties(cfg, s, host, m);
    } else {
      match m
      case Topen(f, mode, effect, after) => OpenArms(cfg, s, host, f, mode, effect, after, fid);
      case Twalk(f, newfid, names) => WalkArms(cfg, s, host, f, newfid, names, fid);
      case Tcreate(f, name, made, mode, effect, after) => CreateArms(cfg, s, host, f, name, made, mode, effect, after, fid);
      case Twstat(f, w, after) => WstatArms(cfg, s, host, f, w, after, fid);
      case Tread(f, offset, count, file) => ReadArms(cfg, s, host, f, offset, count, file, fid);
      case _ =>
    }
  }

  lemma GoneEmpties(cfg: Config, s: Conn, host: Host, m: Message)
    requires Dispatch(s, cfg, host, m).1 == Gone
    ensures Dispatch(s, cfg, host, m).0.fids == map[] && !m.Topen?
  {
    hide WalkFrom, OpenDir, Join, Contains, NineDir.ReadDir, Renamed, Changed, Writes, Truncates, RemovesOnClose, Known;
  }

  lemma {:induction false} RunLast(s: Conn, cfg: Config, turns: seq<Turn>)
    requires turns != []
    ensures var n := |turns| - 1;
            Run(s, cfg, turns) == Dispatch(Run(s, cfg, turns[..n]), cfg, turns[n].host, turns[n].m).0
    decreases |turns|
  {
    hide Dispatch;
    var n := |turns| - 1;
    if n == 0 {
      assert turns[..0] == [] && turns[1..] == [];
    } else {
      var t := Dispatch(s, cfg, turns[0].host, turns[0].m).0;
      RunLast(t, cfg, turns[1..]);
      assert turns[1..][..n - 1] == turns[..n][1..] && turns[..n][0] == turns[0];
    }
  }

  /** The i-th message arms the fid and none after it drops it. */
  predicate ArmedBy(cfg: Config, s: Conn, turns: seq<Turn>, fid: nat, i: nat)
    requires i < |turns|
  {
    Arms(cfg, Run(s, cfg, turns[..i]), turns[i].host, turns[i].m, fid)
    && forall j :: i < j < |turns| ==> !Drops(cfg, Run(s, cfg, turns[..j]), turns[j].host, turns[j].m, fid)
  }

  lemma {:induction false} ArmedRun(cfg: Config, s: Conn, turns: seq<Turn>, fid: nat)
    requires Inv(cfg, s) && AllHonest(cfg, turns) && s.fids == map[]
    ensures Closing(Run(s, cfg, turns))
    ensures Armed(cfg, Run(s, cfg, turns), fid) <==> exists i :: 0 <= i < |turns| && ArmedBy(cfg, s, turns, fid, i)
    decreases |turns|
  {
    hide Inv, Honest, Dispatch, Arms, Drops, Armed, Closing;
    if turns == [] {
      NoneArmed(cfg, s, fid);
    } else {
      var n := |turns| - 1;
      var before, last := turns[..n], turns[n];
      var t := Run(s, cfg, before);
      ArmedRun(cfg, s, before, fid);
      RunKeeps(cfg, s, before);
      RunLast(s, cfg, turns);
      ArmedStep(cfg, t, last.host, last.m, fid);
      assert ArmedBy(cfg, s, turns, fid, n) <==> Arms(cfg, t, last.host, last.m, fid);
      var kept := !Drops(cfg, t, last.host, last.m, fid);
      forall i | 0 <= i < n
        ensures ArmedBy(cfg, s, turns, fid, i) <==> ArmedBy(cfg, s, before, fid, i) && kept
      {
        OneMore(cfg, s, turns, fid, i);
      }
    }
  }

  lemma OneMore(cfg: Config, s: Conn, turns: seq<Turn>, fid: nat, i: nat)
    requires i < |turns| - 1
    ensures var n := |turns| - 1;
            (ArmedBy(cfg, s, turns, fid, i) <==>
             ArmedBy(cfg, s, turns[..n], fid, i) && !Drops(cfg, Run(s, cfg, turns[..n]), turns[n].host, turns[n].m, fid))
  {
    hide Run, Arms, Drops;
    var n := |turns| - 1;
    assert forall j :: 0 <= j < n ==> turns[..n][..j] == turns[..j] && turns[..n][j] == turns[j];
  }

  lemma NoneArmed(cfg: Config, s: Conn, fid: nat)
    requires s.fids == map[]
    ensures Closing(s) && !Armed(cfg, s, fid)
  {
  }

  /** Over every run of a connection: a message has the root unlinked if and only if the
      share is writable and it clunks a fid that some earlier Topen opened on the root,
      to be removed on close, and that nothing has dropped since.  Tremove never does. */
  lemma RootUnlinkedExactly(cfg: Config, s: Conn, turns: seq<Turn>, m: Message)
    requires s.fids == map[] && AllHonest(cfg, turns)
    ensures Unlinks(Run(s, cfg, turns), cfg, m) == Some(cfg.root) <==>
            (!cfg.readonly && m.Tclunk? && exists i :: 0 <= i < |turns| && ArmedBy(cfg, s, turns, m.fid, i))
  {
    hide Run, ArmedBy;
    if m.Tclunk? { ArmedRun(cfg, s, turns, m.fid); }
  }

  /** And it can happen. */
  lemma RootOnClose()
    ensures Ends.FromStart(Ends.AT_ROOT)
    ensures var t := Dispatch(Ends.AT_ROOT, Ends.SHARE, Ends.HOST, Topen(0, 0x40, Did, Ends.HOST)).0;
            Unlinks(t, Ends.SHARE, Tclunk(0)) == Some("/s") && Unlinks(t, Ends.SHARE, Tremove(0, Did)) == None
  {
    hide Ends.FromStart;
    Ends.Attached();
  }
}
