/** What every sequence of 9P messages keeps. */
module NineRuns {
  import opened Basics
  import opened NinePaths
  import opened NineWire
  import opened NineModel
  import NineDir

  // ---- the host ----

  /** The root is a real path, and listings hold plain names. */
  ghost predicate Honest(cfg: Config, host: Host) {
    Rooted(cfg.root) && host.realpath(Dirname(cfg.root)) == Dirname(cfg.root)
    && forall p :: host.list(p).Ok? ==> GoodNames(host.list(p).value)
  }

  predicate GoodNames(names: seq<Name>) { forall n :: n in names ==> GoodName(n) }

  // ---- fids ----

  predicate Sane(cfg: Config, f: Fid) {
    Descends(cfg.root, f.path)
    && (f.mode.None? ==> !f.file && f.ents.None?)
    && (f.ents.Some? ==> NineDir.Solid(f.ents.value))
  }

  /** Every fid's path is in the export, and one that is not open holds nothing. */
  predicate Inv(cfg: Config, s: Conn) { forall fid :: fid in s.fids ==> Sane(cfg, s.fids[fid]) }

  lemma SetKeeps(cfg: Config, s: Conn, fid: nat, f: Fid)
    requires Inv(cfg, s) && Sane(cfg, f)
    ensures Inv(cfg, Set(s, fid, f))
  {
    hide Sane;
  }

  lemma DropKeeps(cfg: Config, s: Conn, fid: nat)
    requires Inv(cfg, s)
    ensures Inv(cfg, Drop(s, fid))
  {
    hide Sane;
  }

  // ---- walking ----

  lemma {:induction false} HitsListed(names: seq<Name>, name: Name)
    ensures forall n :: n in Hits(names, name) ==> n in names
    decreases |names|
  {
    if names != [] { HitsListed(names[1..], name); }
  }

  /** One element of a walk stays in the export. */
  lemma Walk1Stays(cfg: Config, host: Host, path: string, name: Name)
    requires Honest(cfg, host) && Descends(cfg.root, path)
    ensures Walk1(cfg, host, path, name).There? ==> Descends(cfg.root, Walk1(cfg, host, path, name).path)
  {
    hide Descends, Join, Dirname, Contains, Inside, Hits, Rooted;
    if name != "" && '/' !in name && name != "." {
      if name == ".." {
        if path != cfg.root { DirnameDescends(cfg.root, path); }
      } else {
        JoinDescends(cfg.root, path, name);
        if host.list(path).Ok? {
          var names := host.list(path).value;
          var hits := Hits(names, name);
          HitsListed(names, name);
          if |hits| == 1 {
            assert hits[0] in hits && GoodNames(names);
            JoinDescends(cfg.root, path, hits[0]);
          }
        }
      }
    }
  }

  /** As far as it gets, a walk stays in the export, with one qid for each element
      that succeeded. */
  lemma {:induction false} WalkStays(cfg: Config, host: Host, w: Walked, names: seq<Name>)
    requires Honest(cfg, host) && Descends(cfg.root, w.path) && w.stopped.None?
    ensures var v := WalkFrom(cfg, host, w, names);
            Descends(cfg.root, v.path)
            && |w.qids| <= |v.qids| <= |w.qids| + |names|
            && (v.stopped.None? <==> |v.qids| == |w.qids| + |names|)
    decreases |names|
  {
    hide Descends, Walk1, Honest;
    if names != [] {
      Walk1Stays(cfg, host, w.path, names[0]);
      var r := Walk1(cfg, host, w.path, names[0]);
      if r.There? && host.stat(r.path).Ok? {
        WalkStays(cfg, host, Walked(r.path, w.qids + [host.stat(r.path).value.qid], None), names[1..]);
      }
    }
  }

  // ---- directories ----

  lemma {:induction false} EntriesSolid(host: Host, path: string, names: seq<Name>, dotu: bool)
    ensures NineDir.Solid(Entries(host, path, names, dotu))
    decreases |names|
  {
    if names != [] {
      EntriesSolid(host, path, names[..|names| - 1], dotu);
      var e := host.entry(path, names[|names| - 1]);
      if e.Some? { NineDir.StatSolid(e.value, dotu); }
    }
  }

  lemma OpenDirSolid(host: Host, path: string, dotu: bool)
    ensures OpenDir(host, path, dotu).Ok? ==> NineDir.Solid(OpenDir(host, path, dotu).value)
  {
    if host.list(path).Ok? { EntriesSolid(host, path, host.list(path).value, dotu); }
  }

  // ---- every message ----

  lemma FinishKeeps(cfg: Config, s: Conn, host: Host, fid: nat, f: Fid, mode: nat)
    requires Inv(cfg, s) && Descends(cfg.root, f.path) && (f.ents.Some? ==> NineDir.Solid(f.ents.value))
    ensures Inv(cfg, Finish(s, host, fid, f, mode).0)
  {
    hide Inv, Descends, NineDir.Solid;
    var g := f.(mode := Some(mode), rclose := RemovesOnClose(mode));
    SetKeeps(cfg, s, fid, g);
    if host.stat(f.path).Ok? { SetKeeps(cfg, s, fid, g.(qid := host.stat(f.path).value.qid)); }
  }

  lemma WalkKeeps(cfg: Config, s: Conn, host: Host, fid: nat, newfid: nat, names: seq<Name>)
    requires Inv(cfg, s) && Honest(cfg, host)
    ensures Inv(cfg, DoWalk(s, cfg, host, fid, newfid, names).0)
  {
    hide Descends, WalkFrom, Honest;
    if fid in s.fids {
      var f := s.fids[fid];
      assert Sane(cfg, f);
      var w := WalkFrom(cfg, host, Walked(f.path, [], None), names);
      WalkStays(cfg, host, Walked(f.path, [], None), names);
      SetKeeps(cfg, s, newfid, NewFid(w.path, if w.qids == [] then f.qid else w.qids[|w.qids| - 1]));
    }
  }

  lemma OpenKeeps(cfg: Config, s: Conn, host: Host, fid: nat, mode: nat, effect: Effect, after: Host)
    requires Inv(cfg, s)
    ensures Inv(cfg, DoOpen(s, cfg, host, fid, mode, effect, after).0)
  {
    hide Descends, OpenDir, Finish, NineDir.Solid, Writes, Truncates, RemovesOnClose;
    if fid in s.fids {
      var f := s.fids[fid];
      assert Sane(cfg, f);
      OpenDirSolid(host, f.path, s.dotu);
      var d := OpenDir(host, f.path, s.dotu);
      if d.Ok? { FinishKeeps(cfg, s, after, fid, f.(ents := Some(d.value)), mode); }
      FinishKeeps(cfg, s, after, fid, f.(file := true), mode);
    }
  }

  lemma CreateKeeps(cfg: Config, s: Conn, host: Host, fid: nat, name: Name, made: Made, mode: nat, effect: Effect, after: Host)
    requires Inv(cfg, s) && Honest(cfg, host)
    ensures Inv(cfg, DoCreate(s, cfg, host, fid, name, made, mode, effect, after).0)
  {
    hide Descends, OpenDir, Finish, NineDir.Solid, Join, Contains;
    if fid in s.fids && GoodName(name) {
      var f := s.fids[fid];
      assert Sane(cfg, f);
      JoinDescends(cfg.root, f.path, name);
      var g := f.(path := Join(f.path, name));
      if f.mode.None? { SetKeeps(cfg, s, fid, g); }
      OpenDirSolid(after, g.path, s.dotu);
      var d := OpenDir(after, g.path, s.dotu);
      if d.Ok? { FinishKeeps(cfg, s, after, fid, g.(ents := Some(d.value)), mode); }
      FinishKeeps(cfg, s, after, fid, if made.MakeFile? then g.(file := true) else g, mode);
    }
  }

  lemma ReadKeeps(cfg: Config, s: Conn, host: Host, fid: nat, offset: nat, count: nat, file: Transfer)
    requires Inv(cfg, s)
    ensures Inv(cfg, DoRead(s, host, fid, offset, count, file).0)
  {
    hide Descends, OpenDir, NineDir.Solid, NineDir.ReadDir;
    if fid in s.fids {
      var f := s.fids[fid];
      assert Sane(cfg, f);
      OpenDirSolid(host, f.path, s.dotu);
      var d := OpenDir(host, f.path, s.dotu);
      if d.Ok? && f.mode.Some? { SetKeeps(cfg, s, fid, f.(ents := Some(d.value))); }
    }
  }

  /** A rename leads to a path of the export: at the root, contains() is what
      refuses it. */
  lemma RenamedStays(cfg: Config, host: Host, path: string, name: Name, effect: Effect)
    requires Honest(cfg, host) && Descends(cfg.root, path)
    ensures var r := Renamed(cfg, host, path, name, effect); r.There? ==> Descends(cfg.root, r.path)
  {
    hide Descends, Join, Dirname, Inside, Rooted;
    if name != "" && GoodName(name) {
      if path == cfg.root {
        DirnameOfRootJoin(cfg.root, name);
        AboveIsOutside(cfg.root);
      } else {
        DirnameDescends(cfg.root, path);
        JoinDescends(cfg.root, Dirname(path), name);
      }
    }
  }

  lemma WstatKeeps(cfg: Config, s: Conn, host: Host, fid: nat, w: Changes, after: Host)
    requires Inv(cfg, s) && Honest(cfg, host)
    ensures Inv(cfg, DoWstat(s, cfg, host, fid, w, after).0)
  {
    hide Descends, Renamed, Honest, Changed;
    if fid in s.fids {
      assert Sane(cfg, s.fids[fid]);
      RenamedStays(cfg, host, s.fids[fid].path, w.name, w.rename);
      var r := Renamed(cfg, host, s.fids[fid].path, w.name, w.rename);
      if r.There? { SetKeeps(cfg, s, fid, s.fids[fid].(path := r.path)); }
    }
  }

  lemma AttachKeeps(cfg: Config, s: Conn, host: Host, fid: nat)
    requires Inv(cfg, s)
    ensures Inv(cfg, DoAttach(s, cfg, host, fid).0)
  {
    hide Inv;
    if host.stat(cfg.root).Ok? { SetKeeps(cfg, s, fid, NewFid(cfg.root, host.stat(cfg.root).value.qid)); }
  }

  lemma RemoveKeeps(cfg: Config, s: Conn, fid: nat, effect: Effect)
    requires Inv(cfg, s)
    ensures Inv(cfg, DoRemove(s, cfg, fid, effect).0) && Inv(cfg, DoClunk(s, fid).0)
  {
    hide Inv;
    DropKeeps(cfg, s, fid);
  }

  lemma DispatchKeeps(cfg: Config, s: Conn, host: Host, m: Message)
    requires Inv(cfg, s) && Honest(cfg, host)
    ensures Inv(cfg, Dispatch(s, cfg, host, m).0)
  {
    hide Sane, Honest, DoWalk, DoOpen, DoCreate, DoRead, DoWstat, DoAttach, DoRemove, DoClunk;
    match m
    case Tversion(msize, version) =>
    case Tauth =>
    case Tflush =>
    case Tattach(fid) => AttachKeeps(cfg, s, host, fid);
    case Twalk(fid, newfid, names) => WalkKeeps(cfg, s, host, fid, newfid, names);
    case Topen(fid, mode, effect, after) => OpenKeeps(cfg, s, host, fid, mode, effect, after);
    case Tcreate(fid, name, made, mode, effect, after) => CreateKeeps(cfg, s, host, fid, name, made, mode, effect, after);
    case Tread(fid, offset, count, file) => ReadKeeps(cfg, s, host, fid, offset, count, file);
    case Twrite(fid, offset, file) =>
    case Tclunk(fid) => RemoveKeeps(cfg, s, fid, Did);
    case Tremove(fid, effect) => RemoveKeeps(cfg, s, fid, effect);
    case Tstat(fid) =>
    case Twstat(fid, changes, after) => WstatKeeps(cfg, s, host, fid, changes, after);
    case Malformed(e) =>
  }

  // ---- runs ----

  datatype Turn = Turn(host: Host, m: Message)

  function Run(s: Conn, cfg: Config, turns: seq<Turn>): Conn
    decreases |turns|
  {
    if turns == [] then s else Run(Dispatch(s, cfg, turns[0].host, turns[0].m).0, cfg, turns[1..])
  }

  ghost predicate AllHonest(cfg: Config, turns: seq<Turn>) {
    forall i :: 0 <= i < |turns| ==> Honest(cfg, turns[i].host)
  }

  /** Over every sequence of messages, whatever the host answers: each fid's path
      is the root or a slash-joined descendant of it, and a fid that is not open
      holds no file and no snapshot. */
  lemma {:induction false} RunKeeps(cfg: Config, s: Conn, turns: seq<Turn>)
    requires Inv(cfg, s) && AllHonest(cfg, turns)
    ensures Inv(cfg, Run(s, cfg, turns))
    decreases |turns|
  {
    hide Inv, Honest, Dispatch;
    if turns != [] {
      DispatchKeeps(cfg, s, turns[0].host, turns[0].m);
      RunKeeps(cfg, Dispatch(s, cfg, turns[0].host, turns[0].m).0, turns[1..]);
    }
  }

  // ---- walk(5), clunk(5), remove(5) ----

  /** A walk that does not end the connection changes the fid table if and only if
      every element succeeds (or the new fid was the same already), and then only
      its new fid. */
  lemma WalkAllOrNothing(cfg: Config, s: Conn, host: Host, fid: nat, newfid: nat, names: seq<Name>)
    requires Inv(cfg, s) && Honest(cfg, host)
    ensures var (t, r) := DoWalk(s, cfg, host, fid, newfid, names);
            if r == Gone then t.fids == map[]
            else if r.Qids? && |r.qids| == |names|
            then fid in s.fids && s.fids[fid].mode.None? && newfid in t.fids && t.fids[newfid].mode.None?
                 && t == Set(s, newfid, t.fids[newfid])
            else t == s
  {
    hide Descends, WalkFrom, Honest;
    if fid in s.fids {
      var f := s.fids[fid];
      assert Sane(cfg, f);
      WalkStays(cfg, host, Walked(f.path, [], None), names);
    }
  }

  /** A walk from an open fid is refused, and nothing changes. */
  lemma NoWalkFromOpen(cfg: Config, s: Conn, host: Host, fid: nat, newfid: nat, names: seq<Name>)
    requires fid in s.fids && s.fids[fid].mode.Some?
    ensures DoWalk(s, cfg, host, fid, newfid, names) == (s, Error(EINVAL))
  {
  }

  predicate Names(m: Message, fid: nat) {
    match m
    case Tversion(_, _) => true
    case Tauth => false
    case Tflush => false
    case Tattach(f) => f == fid
    case Twalk(_, f, _) => f == fid
    case Topen(f, _, _, _) => f == fid
    case Tcreate(f, _, _, _, _, _) => f == fid
    case Tread(f, _, _, _) => f == fid
    case Twrite(f, _, _) => f == fid
    case Tclunk(f) => f == fid
    case Tremove(f, _) => f == fid
    case Tstat(_) => false
    case Twstat(f, _, _) => f == fid
    case Malformed(_) => false
  }

  /** The fid is as it was. */
  predicate SameFid(s: Conn, t: Conn, fid: nat) {
    (fid in t.fids <==> fid in s.fids) && (fid in s.fids ==> t.fids[fid] == s.fids[fid])
  }

  lemma CreateElsewhere(s: Conn, cfg: Config, host: Host, f: nat, name: Name, made: Made, mode: nat, effect: Effect, after: Host, fid: nat)
    requires fid != f && DoCreate(s, cfg, host, f, name, made, mode, effect, after).1 != Gone
    ensures SameFid(s, DoCreate(s, cfg, host, f, name, made, mode, effect, after).0, fid)
  {
    hide OpenDir, Join, Contains, Writes, Truncates, RemovesOnClose, Known;
  }

  lemma WstatElsewhere(s: Conn, cfg: Config, host: Host, f: nat, w: Changes, after: Host, fid: nat)
    requires fid != f && DoWstat(s, cfg, host, f, w, after).1 != Gone
    ensures SameFid(s, DoWstat(s, cfg, host, f, w, after).0, fid)
  {
    hide Renamed, Changed;
  }

  /** No message touches a fid it does not name, unless it ends the connection. */
  lemma OthersUntouched(cfg: Config, s: Conn, host: Host, m: Message, fid: nat)
    requires !Names(m, fid) && Dispatch(s, cfg, host, m).1 != Gone
    ensures SameFid(s, Dispatch(s, cfg, host, m).0, fid)
  {
    hide DoCreate, DoWstat, WalkFrom, OpenDir, NineDir.ReadDir, Writes, Truncates, RemovesOnClose, Known;
    match m
    case Tcreate(f, name, made, mode, effect, after) => CreateElsewhere(s, cfg, host, f, name, made, mode, effect, after, fid);
    case Twstat(f, w, after) => WstatElsewhere(s, cfg, host, f, w, after, fid);
    case _ =>
  }

  /** remove(5) drops the fid whether or not the file went, and clunk(5) always. */
  lemma RemoveAlwaysDrops(cfg: Config, s: Conn, host: Host, fid: nat, effect: Effect)
    requires fid in s.fids
    ensures fid !in Dispatch(s, cfg, host, Tremove(fid, effect)).0.fids
    ensures fid !in Dispatch(s, cfg, host, Tclunk(fid)).0.fids
  {
  }

  /** Failing leaves the table as it was, but for the messages whose file
      operation may have been done by then. */
  lemma ErrorKeepsTable(cfg: Config, s: Conn, host: Host, m: Message)
    requires Dispatch(s, cfg, host, m).1.Error? && !m.Tremove? && !m.Topen? && !m.Tcreate? && !m.Twstat?
    ensures Dispatch(s, cfg, host, m).0 == s
  {
    hide WalkFrom, OpenDir, NineDir.ReadDir, Known;
  }

  /** Every check of Topen is passed, and the open itself done. */
  predicate Opens(s: Conn, cfg: Config, host: Host, fid: nat, mode: nat, effect: Effect) {
    fid in s.fids && s.fids[fid].mode.None?
    && var f := s.fids[fid];
       host.stat(f.path).Ok?
       && (Writes(mode) || Truncates(mode) || RemovesOnClose(mode) ==> !cfg.readonly)
       && if host.stat(f.path).value.kind == Dir then mode % 4 == 0 && !Truncates(mode) && OpenDir(host, f.path, s.dotu).Ok?
          else effect == Did
  }

  /** A failed Topen has opened the fid exactly when the file went away between
      opening it and looking at it again; otherwise nothing has changed. */
  lemma OpenedByError(cfg: Config, s: Conn, host: Host, fid: nat, mode: nat, effect: Effect, after: Host)
    requires fid in s.fids && s.fids[fid].mode.None? && DoOpen(s, cfg, host, fid, mode, effect, after).1.Error?
    ensures var t := DoOpen(s, cfg, host, fid, mode, effect, after).0;
            t.fids[fid].mode.Some? <==> Opens(s, cfg, host, fid, mode, effect) && after.stat(s.fids[fid].path).Err?
    ensures var t := DoOpen(s, cfg, host, fid, mode, effect, after).0;
            t.fids[fid].mode.None? ==> t == s
  {
    hide OpenDir, Writes, Truncates, RemovesOnClose;
  }

  /** Once open, a fid stays open until it is dropped or walked over. */
  lemma StaysOpen(cfg: Config, s: Conn, host: Host, m: Message, fid: nat)
    requires fid in s.fids && s.fids[fid].mode.Some?
    ensures var t := Dispatch(s, cfg, host, m).0; fid in t.fids ==> t.fids[fid].mode == s.fids[fid].mode
  {
    hide WalkFrom, OpenDir, Join, Contains, NineDir.ReadDir, Renamed, Writes, Truncates, RemovesOnClose, Known;
  }

  // ---- a pass over an open directory ----

  function Counts(s: Conn, counts: seq<nat>): (cs: seq<nat>)
    ensures |cs| == |counts| && forall i :: 0 <= i < |cs| ==> cs[i] == Bounded(s, counts[i])
  {
    seq(|counts|, i requires 0 <= i < |counts| => Bounded(s, counts[i]))
  }

  datatype Progress = Progress(s: Conn, bytes: Bytes, offset: nat, failed: bool)

  /** Reads by one client, each at the offset the last one ended at. */
  function ReadOn(s: Conn, host: Host, fid: nat, counts: seq<nat>): Progress
    decreases |counts|
  {
    if counts == [] then Progress(s, [], 0, false)
    else
      var p := ReadOn(s, host, fid, counts[..|counts| - 1]);
      if p.failed then p
      else
        match DoRead(p.s, host, fid, p.offset, counts[|counts| - 1], Refused(EINVAL))
        case (t, Data(more)) => Progress(t, p.bytes + more, p.offset + |more|, false)
        case (t, _) => p.(failed := true)
  }

  ghost predicate OpenOn(s: Conn, fid: nat, path: string, msize: nat, dotu: bool) {
    fid in s.fids && s.fids[fid].mode.Some? && s.fids[fid].mode.value % 4 != 1 && s.fids[fid].ents.Some?
    && s.fids[fid].path == path && s.msize == msize && s.dotu == dotu
  }

  /** Reading an open directory that does not change: the bytes are those of a pass
      over its entries. */
  lemma {:induction false} ReadOnIsPass(s: Conn, host: Host, fid: nat, counts: seq<nat>, ents: seq<Bytes>)
    requires fid in s.fids && OpenOn(s, fid, s.fids[fid].path, s.msize, s.dotu)
    requires OpenDir(host, s.fids[fid].path, s.dotu) == Ok(ents) && NineDir.Solid(ents)
    ensures var p := ReadOn(s, host, fid, counts);
            var i := NineDir.Reached(ents, Counts(s, counts));
            !p.failed && p.bytes == NineDir.Joined(ents, 0, i) && p.offset == NineDir.Total(ents, i)
            && OpenOn(p.s, fid, s.fids[fid].path, s.msize, s.dotu) && (p.offset > 0 ==> p.s.fids[fid].ents == Some(ents))
    decreases |counts|
  {
    hide NineDir.Joined, NineDir.Total, NineDir.Solid, NineDir.Upto, OpenDir, NineDir.ReadDir;
    if counts == [] {
      NineDir.Nothing(ents);
    } else {
      var before, c := counts[..|counts| - 1], counts[|counts| - 1];
      ReadOnIsPass(s, host, fid, before, ents);
      var p := ReadOn(s, host, fid, before);
      var i := NineDir.Reached(ents, Counts(s, before));
      assert Counts(s, counts)[..|counts| - 1] == Counts(s, before);
      var j := NineDir.Upto(ents, i, Bounded(s, c));
      NineDir.ReadFrom(ents, i, Bounded(s, c));
      NineDir.JoinedSplit(ents, 0, i, j);
      TotalUp(ents, i, j);
    }
  }

  lemma TotalUp(ents: seq<Bytes>, i: nat, j: nat)
    requires NineDir.Solid(ents) && i <= j <= |ents|
    ensures NineDir.Total(ents, i) <= NineDir.Total(ents, j)
  {
    if i < j { NineDir.TotalGrows(ents, i, j); }
  }

  /** With counts that hold the next entry, the client gets every entry of the
      directory exactly once, in order and unsplit. */
  lemma WholeDirectoryRead(s: Conn, host: Host, fid: nat, counts: seq<nat>, ents: seq<Bytes>)
    requires fid in s.fids && OpenOn(s, fid, s.fids[fid].path, s.msize, s.dotu)
    requires OpenDir(host, s.fids[fid].path, s.dotu) == Ok(ents)
    requires NineDir.Enough(ents, Counts(s, counts)) && |counts| >= |ents|
    ensures var p := ReadOn(s, host, fid, counts); !p.failed && p.bytes == NineDir.Joined(ents, 0, |ents|)
  {
    hide NineDir.Joined, NineDir.Enough, NineDir.Solid;
    OpenDirSolid(host, s.fids[fid].path, s.dotu);
    ReadOnIsPass(s, host, fid, counts, ents);
    NineDir.PassAdvances(ents, Counts(s, counts));
  }
}
