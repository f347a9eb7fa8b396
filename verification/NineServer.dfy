/** Conn of tools/9pfsd.py as an object: a table of fids whose fields each message
    changes in place.  Every method is tied to its message of the model. */
module NineServer {
  import opened Basics
  import opened NinePaths
  import opened NineWire
  import opened NineModel
  import NineDir

  class Open {
    var path: string
    var qid: Qid
    var mode: Option<nat>
    var file: bool
    var ents: Option<seq<Bytes>>
    var offs: Option<seq<nat>>
    var rclose: bool

    constructor (path: string, qid: Qid)
      ensures Valid() && Value() == NewFid(path, qid)
    {
      this.path, this.qid := path, qid;
      mode, file, ents, offs, rclose := None, false, None, None, false;
    }

    /** diroffs goes with dirents. */
    predicate Valid()
      reads this
    {
      offs == if ents.Some? then Some(NineDir.Offsets(ents.value)) else None
    }

    ghost function Value(): Fid
      reads this
    {
      Fid(path, qid, mode, file, ents, rclose)
    }

    /** _opendir(): the snapshot, or the error with nothing changed. */
    method OpenDirectory(host: Host, dotu: bool) returns (errno: Option<nat>)
      modifies this`ents, this`offs
      ensures errno.Some? ==> OpenDir(host, path, dotu) == Err(errno.value) && ents == old(ents) && offs == old(offs)
      ensures errno.None? ==> OpenDir(host, path, dotu).Ok? && Valid() && ents == Some(OpenDir(host, path, dotu).value)
    {
      hide StatBytes, NineDir.Offsets;
      var listed := host.list(path);
      if listed.Err? {
        return Some(listed.errno);
      }
      var names := listed.value;
      var found: seq<Bytes> := [];
      for i := 0 to |names|
        invariant found == Entries(host, path, names[..i], dotu)
        modifies {}
      {
        assert names[..i + 1][..i] == names[..i];
        var a := host.entry(path, names[i]);
        if a.Some? { found := found + [StatBytes(a.value, dotu)]; }
      }
      assert names[..|names|] == names;
      var es, os := NineDir.Snapshot(found);
      ents, offs := Some(es), Some(os);
      errno := None;
    }

    /** _readdir() from a boundary other than the start. */
    method ReadOn(offset: nat, count: nat) returns (r: Outcome<Bytes>)
      requires Valid() && ents.Some? && offset > 0
      ensures r == NineDir.ReadDir(ents.value, offset, count)
    {
      var i := NineDir.IndexOf(offs.value, offset);
      if i == |offs.value| {
        return Err(EINVAL);
      }
      var out := NineDir.Page(ents.value, i, count);
      r := Ok(out);
    }
  }

  class Server {
    const cfg: Config
    var fids: map<nat, Open>
    var msize: nat
    var dotu: bool

    ghost predicate Valid()
      reads this, fids.Values
    {
      (forall fid :: fid in fids ==> fids[fid].Valid())
      && forall a, b :: a in fids && b in fids && a != b ==> fids[a] != fids[b]
    }

    ghost function Table(): map<nat, Fid>
      reads this, fids.Values
    {
      map fid | fid in fids :: fids[fid].Value()
    }

    ghost function View(): Conn
      reads this, fids.Values
    {
      Conn(Table(), msize, dotu)
    }

    constructor (cfg: Config, msize: nat)
      ensures Valid() && View() == Conn(map[], msize, true) && this.cfg == cfg
    {
      this.cfg, this.msize, dotu, fids := cfg, msize, true, map[];
    }

    /** do_version() */
    method Version(msize0: nat, version: string) returns (r: Reply)
      requires Valid()
      modifies this
      ensures Valid() && (View(), r) == DoVersion(old(View()), msize0, version)
    {
      fids := map[];
      if msize0 < msize { msize := msize0; }
      if msize < 256 { msize := 256; }
      if Known(version) {
        dotu := true;
        r := Negotiated(msize, "9P2000.u");
      } else {
        dotu := false;
        r := Negotiated(msize, if version == "9P2000" then "9P2000" else "unknown");
      }
    }

    /** A new fid, or one walked over. */
    method Put(fid: nat, f: Open)
      requires Valid() && f !in fids.Values && f.Valid()
      modifies this`fids
      ensures Valid() && View() == Set(old(View()), fid, f.Value())
      ensures fids == old(fids)[fid := f]
    {
      ghost var was := Table();
      fids := fids[fid := f];
      assert Table() == was[fid := f.Value()];
    }

    method Attach(host: Host, fid: nat) returns (r: Reply)
      requires Valid()
      modifies this`fids
      ensures Valid() && (View(), r) == DoAttach(old(View()), cfg, host, fid)
    {
      if fid in fids {
        return Error(EBADF);
      }
      var st := host.stat(cfg.root);
      if st.Err? {
        return Error(st.errno);
      }
      var f := new Open(cfg.root, st.value.qid);
      Put(fid, f);
      r := Qids([st.value.qid]);
    }

    /** The end of serve(). */
    method HangUp()
      modifies this`fids
      ensures Valid() && (View(), Gone) == Dropped(old(View()))
    {
      fids := map[];
    }

    /** The loop of do_walk(). */
    method WalkNames(host: Host, path0: string, names: seq<Name>) returns (path: string, qids: seq<Qid>, stopped: Option<Stop>)
      ensures Walked(path, qids, stopped) == WalkFrom(cfg, host, Walked(path0, [], None), names)
    {
      path, qids, stopped := path0, [], None;
      assert names[0..] == names;
      for i := 0 to |names|
        invariant WalkFrom(cfg, host, Walked(path, qids, None), names[i..]) == WalkFrom(cfg, host, Walked(path0, [], None), names)
        invariant stopped.None?
      {
        assert names[i..][0] == names[i] && names[i..][1..] == names[i + 1..];
        var next := Walk1(cfg, host, path, names[i]);
        if next.Not? {
          stopped := Some(next.why);
          return;
        }
        var st := host.stat(next.path);
        if st.Err? {
          stopped := Some(Errno(st.errno));
          return;
        }
        path, qids := next.path, qids + [st.value.qid];
      }
    }

    /** do_walk() */
    method Walk(host: Host, fid: nat, newfid: nat, names: seq<Name>) returns (r: Reply)
      requires Valid()
      modifies this`fids
      ensures Valid() && (View(), r) == DoWalk(old(View()), cfg, host, fid, newfid, names)
    {
      hide WalkFrom;
      if |names| > MAXWELEM {
        return Error(EINVAL);
      }
      if fid !in fids {
        return Error(EBADF);
      }
      var f := fids[fid];
      if f.mode.Some? {
        return Error(EINVAL);
      }
      if newfid != fid && newfid in fids {
        return Error(EBADF);
      }
      var path, qids, stopped := WalkNames(host, f.path, names);
      if stopped == Some(Raised) {
        HangUp();
        return Gone;
      }
      if stopped.Some? {
        return if qids == [] then Error(stopped.value.errno) else Qids(qids);
      }
      var g := new Open(path, if qids == [] then f.qid else qids[|qids| - 1]);
      Put(newfid, g);
      r := Qids(qids);
    }

    /** One fid's fields have changed. */
    ghost predicate Altered(was: map<nat, Fid>, fid: nat)
      reads this, fids.Values
    {
      fid in fids && Table() == was[fid := fids[fid].Value()]
    }

    /** The end of do_open() and do_create(). */
    method Settle(host: Host, fid: nat, mode: nat) returns (r: Reply)
      requires Valid() && fid in fids
      modifies fids[fid]
      ensures Valid() && (View(), r) == Finish(old(View()), host, fid, old(fids[fid].Value()), mode)
    {
      var f := fids[fid];
      ghost var was := Table();
      f.mode, f.rclose := Some(mode), RemovesOnClose(mode);
      var st := host.stat(f.path);
      if st.Err? {
        assert Altered(was, fid);
        return Error(st.errno);
      }
      f.qid := st.value.qid;
      assert Altered(was, fid);
      r := Opened(f.qid, if msize >= IOHDRSZ then msize - IOHDRSZ else 0);
    }

    /** The directory branch of do_open(). */
    method TakeSnapshot(host: Host, fid: nat) returns (errno: Option<nat>)
      requires Valid() && fid in fids
      modifies fids[fid]
      ensures Valid()
      ensures var f, d := old(fids[fid].Value()), OpenDir(host, old(fids[fid].path), dotu);
              if errno.Some? then d == Err(errno.value) && View() == old(View())
              else d.Ok? && View() == Set(old(View()), fid, f.(ents := Some(d.value)))
                   && fids[fid].Value() == f.(ents := Some(d.value))
    {
      hide OpenDir;
      ghost var was := Table();
      errno := fids[fid].OpenDirectory(host, dotu);
      assert Altered(was, fid);
      assert errno.Some? ==> Table() == was;
    }

    /** do_open() */
    method OpenFid(host: Host, fid: nat, mode: nat, effect: Effect, after: Host) returns (r: Reply)
      requires Valid()
      modifies fids.Values
      ensures Valid() && (View(), r) == DoOpen(old(View()), cfg, host, fid, mode, effect, after)
    {
      hide OpenDir, Finish, Writes, Truncates, RemovesOnClose;
      if fid !in fids {
        return Error(EBADF);
      }
      var f := fids[fid];
      if f.mode.Some? {
        return Error(EINVAL);
      }
      var st := host.stat(f.path);
      if st.Err? {
        return Error(st.errno);
      }
      if (Writes(mode) || Truncates(mode) || RemovesOnClose(mode)) && cfg.readonly {
        return Error(EROFS);
      }
      if st.value.kind == Dir {
        if mode % 4 != 0 || Truncates(mode) {
          return Error(EISDIR);
        }
        var errno := TakeSnapshot(host, fid);
        if errno.Some? {
          return Error(errno.value);
        }
      } else {
        if effect.Failed? {
          return Error(effect.errno);
        }
        ghost var was := Table();
        f.file := true;
        assert Altered(was, fid);
      }
      FinishSet(old(View()), after, fid, f.Value(), mode);
      r := Settle(after, fid, mode);
    }

    /** do_create() */
    method Create(host: Host, fid: nat, name: Name, made: Made, mode: nat, effect: Effect, after: Host) returns (r: Reply)
      requires Valid()
      modifies this`fids, fids.Values
      ensures Valid() && (View(), r) == DoCreate(old(View()), cfg, host, fid, name, made, mode, effect, after)
    {
      hide OpenDir, Finish, Join, Contains;
      if fid !in fids {
        return Error(EBADF);
      }
      if cfg.readonly {
        return Error(EROFS);
      }
      var f := fids[fid];
      if f.mode.Some? || name == "" || name == "." || name == ".." || '/' in name {
        return Error(EINVAL);
      }
      var st := host.stat(f.path);
      if st.Err? {
        return Error(st.errno);
      }
      if st.value.kind != Dir {
        return Error(ENOTDIR);
      }
      var made1 := Join(f.path, name);
      if !Contains(cfg, host, made1) {
        return Error(EACCES);
      }
      if Overflows(cfg, made) {
        HangUp();
        return Gone;
      }
      if BadValue(made, name) {
        return Error(EINVAL);
      }
      if effect.Failed? {
        return Error(effect.errno);
      }
      ghost var was := Table();
      f.path := made1;
      assert Altered(was, fid);
      r := Enter(after, fid, made, mode);
      assert View().msize == old(msize);
      FinishOver(old(View()), fid, old(f.Value()).(path := made1), after, mode);
    }

    /** What do_create() does once the object is made. */
    method Enter(after: Host, fid: nat, made: Made, mode: nat) returns (r: Reply)
      requires Valid() && fid in fids
      modifies fids[fid]
      ensures Valid()
      ensures var s, g := old(View()), old(fids[fid].Value());
              (View(), r) == if made.MakeDir? then
                               match OpenDir(after, g.path, s.dotu)
                               case Err(e) => (s, Error(e))
                               case Ok(ents) => Finish(s, after, fid, g.(ents := Some(ents)), mode)
                             else Finish(s, after, fid, if made.MakeFile? then g.(file := true) else g, mode)
    {
      hide OpenDir, Finish;
      if made.MakeDir? {
        var errno := TakeSnapshot(after, fid);
        if errno.Some? {
          return Error(errno.value);
        }
      } else if made.MakeFile? {
        ghost var was := Table();
        fids[fid].file := true;
        assert Altered(was, fid);
      }
      FinishSet(old(View()), after, fid, fids[fid].Value(), mode);
      r := Settle(after, fid, mode);
    }

    /** do_read() */
    method Read(host: Host, fid: nat, offset: nat, count: nat, file: Transfer) returns (r: Reply)
      requires Valid()
      modifies this`fids, fids.Values
      ensures Valid() && (View(), r) == DoRead(old(View()), host, fid, offset, count, file)
    {
      hide OpenDir, NineDir.ReadDir;
      if fid !in fids {
        return Error(EBADF);
      }
      var f := fids[fid];
      if f.mode.None? {
        return Error(EINVAL);
      }
      if f.mode.value % 4 == 1 {
        return Error(EACCES);
      }
      if f.ents.Some? {
        r := ReadEntries(host, fid, offset, Bounded(View0(), count));
      } else if !f.file {
        HangUp();
        r := Gone;
      } else {
        r := Seek(offset, file, if file.Moved? then Data(file.bytes) else Plainly);
      }
    }

    /** seek(), and the transfer that follows. */
    method Seek(offset: nat, file: Transfer, done: Reply) returns (r: Reply)
      requires Valid()
      modifies this`fids
      ensures Valid() && (View(), r) == Sought(old(View()), offset, file, done)
    {
      if file.Unseekable? {
        return Error(EIO);
      }
      if offset >= OFFMAX {
        HangUp();
        return Gone;
      }
      r := if file.Refused? then Error(file.errno) else done;
    }

    /** do_write() */
    method Write(fid: nat, offset: nat, file: Transfer) returns (r: Reply)
      requires Valid()
      modifies this`fids
      ensures Valid() && (View(), r) == DoWrite(old(View()), cfg, fid, offset, file)
    {
      if fid !in fids {
        return Error(EBADF);
      }
      if cfg.readonly {
        return Error(EROFS);
      }
      var f := fids[fid];
      if f.mode.None? {
        return Error(EINVAL);
      }
      if f.mode.value % 4 == 0 {
        return Error(EACCES);
      }
      if f.ents.Some? {
        return Error(EISDIR);
      }
      if !f.file {
        HangUp();
        r := Gone;
      } else {
        r := Seek(offset, file, Plainly);
      }
    }

    /** The parts of the connection that bound a read. */
    function View0(): Conn
      reads this
    {
      Conn(map[], msize, dotu)
    }

    /** _readdir(): a rewind takes a new snapshot. */
    method ReadEntries(host: Host, fid: nat, offset: nat, count: nat) returns (r: Reply)
      requires Valid() && fid in fids && fids[fid].ents.Some?
      modifies fids[fid]
      ensures Valid()
      ensures var s, f := old(View()), old(fids[fid].Value());
              (View(), r) == match (if offset == 0 then OpenDir(host, f.path, s.dotu) else Ok(f.ents.value))
                             case Err(e) => (s, Error(e))
                             case Ok(ents) =>
                               match NineDir.ReadDir(ents, offset, count)
                               case Err(e) => (s, Error(e))
                               case Ok(bytes) => (if offset == 0 then Set(s, fid, f.(ents := Some(ents))) else s, Data(bytes))
    {
      hide OpenDir;
      if offset == 0 {
        var errno := TakeSnapshot(host, fid);
        if errno.Some? {
          return Error(errno.value);
        }
        var bytes := NineDir.Page(fids[fid].ents.value, 0, count);
        r := Data(bytes);
      } else {
        var read := fids[fid].ReadOn(offset, count);
        r := if read.Err? then Error(read.errno) else Data(read.value);
      }
    }

    /** clunk() */
    method Forget(fid: nat)
      requires Valid()
      modifies this`fids
      ensures Valid() && View() == Drop(old(View()), fid)
    {
      ghost var was := Table();
      fids := fids - {fid};
      assert Table() == was - {fid};
    }

    /** do_clunk(), and what it asks the host to unlink. */
    method Clunk(fid: nat) returns (r: Reply, unlink: Option<string>)
      requires Valid()
      modifies this`fids
      ensures Valid() && (View(), r) == DoClunk(old(View()), fid)
      ensures unlink == Unlinks(old(View()), cfg, Tclunk(fid))
    {
      if fid !in fids {
        return Error(EBADF), None;
      }
      var rclose, path := fids[fid].rclose, fids[fid].path;
      Forget(fid);
      unlink := if rclose && !cfg.readonly then Some(path) else None;
      r := Plainly;
    }

    /** do_remove(): the fid goes first, whatever happens to the file. */
    method Remove(fid: nat, effect: Effect) returns (r: Reply, unlink: Option<string>)
      requires Valid()
      modifies this`fids
      ensures Valid() && (View(), r) == DoRemove(old(View()), cfg, fid, effect)
      ensures unlink == Unlinks(old(View()), cfg, Tremove(fid, effect))
    {
      if fid !in fids {
        return Error(EBADF), None;
      }
      var path := fids[fid].path;
      Forget(fid);
      if cfg.readonly {
        return Error(EROFS), None;
      }
      if path == cfg.root {
        return Error(EACCES), None;
      }
      unlink := Some(path);
      r := if effect.Failed? then Error(effect.errno) else Plainly;
    }

    /** do_wstat() */
    method Wstat(host: Host, fid: nat, w: Changes, after: Host) returns (r: Reply)
      requires Valid()
      modifies this`fids, fids.Values
      ensures Valid() && (View(), r) == DoWstat(old(View()), cfg, host, fid, w, after)
    {
      hide Renamed, Touched;
      if fid !in fids {
        return Error(EBADF);
      }
      if cfg.readonly {
        return Error(EROFS);
      }
      var f := fids[fid];
      ghost var was := Table();
      var moved := Renamed(cfg, host, f.path, w.name, w.rename);
      if moved.Not? {
        if moved.why.Raised? {
          HangUp();
          return Gone;
        }
        return Error(moved.why.errno);
      }
      f.path := moved.path;
      assert Altered(was, fid);
      r := Touch(after, fid, w);
    }

    method Touch(host: Host, fid: nat, w: Changes) returns (r: Reply)
      requires Valid() && fid in fids
      modifies this`fids
      ensures Valid() && (View(), r) == Touched(old(View()), cfg, host, fid, w)
    {
      hide Changed;
      var why := Change(host, fid, w);
      if why == Some(Raised) {
        HangUp();
        return Gone;
      }
      r := if why.Some? then Error(why.value.errno) else Plainly;
    }

    /** What do_wstat() does after the rename: the mode, the times, the length. */
    method Change(host: Host, fid: nat, w: Changes) returns (why: Option<Stop>)
      requires Valid() && fid in fids
      ensures why == Changed(cfg, host, fids[fid].Value(), w)
    {
      var f := fids[fid];
      var through := Through(cfg, host, f.path);
      if w.mode != NOTOUCH4 {
        if through {
          return Some(Errno(EINVAL));
        }
        if w.chmod.Failed? {
          return Some(Errno(w.chmod.errno));
        }
      }
      if w.atime != NOTOUCH4 || w.mtime != NOTOUCH4 {
        var st := if through then host.lstat(f.path) else host.stat(f.path);
        if st.Err? {
          return Some(Errno(st.errno));
        }
        if w.utime.Failed? {
          return Some(Errno(w.utime.errno));
        }
      }
      if w.length != NOTOUCH8 {
        if through {
          return Some(Errno(EINVAL));
        }
        if f.file && !(f.mode.Some? && Writes(f.mode.value)) {
          return Some(Errno(EIO));
        }
        if w.length >= OFFMAX {
          return Some(Raised);
        }
        if w.truncate.Failed? {
          return Some(Errno(w.truncate.errno));
        }
      }
      why := None;
    }
  }

  /** What a fid was before the last change does not matter to Finish. */
  lemma FinishSet(s: Conn, host: Host, fid: nat, f: Fid, mode: nat)
    ensures Finish(Set(s, fid, f), host, fid, f, mode) == Finish(s, host, fid, f, mode)
  {
    var g := f.(mode := Some(mode), rclose := RemovesOnClose(mode));
    assert s.fids[fid := f][fid := g] == s.fids[fid := g];
    if host.stat(f.path).Ok? {
      var q := g.(qid := host.stat(f.path).value.qid);
      assert s.fids[fid := f][fid := q] == s.fids[fid := q];
    }
  }

  lemma FinishOver(s: Conn, fid: nat, g: Fid, host: Host, mode: nat)
    ensures forall ents :: Finish(Set(s, fid, g), host, fid, g.(ents := ents), mode) == Finish(s, host, fid, g.(ents := ents), mode)
    ensures forall file :: Finish(Set(s, fid, g), host, fid, g.(file := file), mode) == Finish(s, host, fid, g.(file := file), mode)
    ensures Finish(Set(s, fid, g), host, fid, g, mode) == Finish(s, host, fid, g, mode)
  {
    forall ents ensures Finish(Set(s, fid, g), host, fid, g.(ents := ents), mode) == Finish(s, host, fid, g.(ents := ents), mode) {
      SetTwice(s, fid, g, g.(ents := ents), host, mode);
    }
    forall file ensures Finish(Set(s, fid, g), host, fid, g.(file := file), mode) == Finish(s, host, fid, g.(file := file), mode) {
      SetTwice(s, fid, g, g.(file := file), host, mode);
    }
    SetTwice(s, fid, g, g, host, mode);
  }

  lemma SetTwice(s: Conn, fid: nat, f: Fid, h: Fid, host: Host, mode: nat)
    ensures Finish(Set(s, fid, f), host, fid, h, mode) == Finish(s, host, fid, h, mode)
  {
    var g := h.(mode := Some(mode), rclose := RemovesOnClose(mode));
    assert s.fids[fid := f][fid := g] == s.fids[fid := g];
    if host.stat(h.path).Ok? {
      var q := g.(qid := host.stat(h.path).value.qid);
      assert s.fids[fid := f][fid := q] == s.fids[fid := q];
    }
  }
}
