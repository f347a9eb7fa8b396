/** What Tversion settles for tools/9pfsd.py and its client: the size of messages and
    the dialect, and that both are kept to until the next one. */
module NineSession {
  import opened Basics
  import opened NinePaths
  import opened NineWire
  import opened NineModel
  import opened NineRuns
  import NineDir

  const EXTENDED := "9P2000.u"
  const BARE := "9P2000"
  const LEAST: nat := 256

  // ---- the answer ----

  /** Both can take it, or it is the least that there is; and nothing larger is so. */
  ghost predicate Agreed(m: nat, offered: nat, had: nat) {
    m >= LEAST && ((m <= offered && m <= had) || m == LEAST)
    && forall k: nat :: k <= offered && k <= had ==> Above(m, k)
  }

  predicate Above(m: nat, k: nat) { k <= m }

  /** The extended dialect, or a variant of it. */
  ghost predicate AsksExtended(version: string) {
    exists rest :: version == EXTENDED + rest && (rest == "" || rest[0] == '.')
  }

  /** version(5): the server answers a dialect that was asked for, or unknown. */
  ghost predicate Spoken(asked: string, answered: string) {
    (answered == EXTENDED <==> AsksExtended(asked))
    && (answered == BARE <==> asked == BARE)
    && (answered == EXTENDED || answered == BARE || answered == "unknown")
  }

  lemma AsksKnown(version: string)
    ensures AsksExtended(version) <==> Known(version)
  {
    if Known(version) {
      var rest := version[|EXTENDED|..];
      assert EXTENDED <= "9P2000.u.";
      assert version == EXTENDED + rest && (rest == "" || rest[0] == '.');
    }
    if AsksExtended(version) {
      var rest :| version == EXTENDED + rest && (rest == "" || rest[0] == '.');
      if rest != "" {
        assert version[..|EXTENDED| + 1] == EXTENDED + [rest[0]] == "9P2000.u.";
      }
    }
  }

  /** do_version() agrees on the largest size that both can take, answers a dialect
      that was asked for, and forgets every fid. */
  lemma VersionAgrees(s: Conn, msize: nat, version: string)
    ensures var (t, r) := DoVersion(s, msize, version);
            r.Negotiated? && t.fids == map[] && Agreed(r.msize, msize, s.msize) && Spoken(version, r.version)
            && t.msize == r.msize && (t.dotu <==> r.version == EXTENDED)
  {
    hide Known, AsksExtended;
    AsksKnown(version);
    assert Known(BARE) ==> false by { KnownBare(); }
    var r := DoVersion(s, msize, version).1;
    assert forall k: nat :: k <= msize && k <= s.msize ==> Above(r.msize, k);
  }

  lemma KnownBare()
    ensures !Known(BARE)
  {
  }

  // ---- and afterwards ----

  lemma OthersAgree(cfg: Config, s: Conn, host: Host, m: Message)
    requires !m.Tversion?
    ensures var (t, r) := Dispatch(s, cfg, host, m); t.msize == s.msize && t.dotu == s.dotu && !r.Negotiated?
  {
    hide WalkFrom, OpenDir, Join, Contains, NineDir.ReadDir, Renamed, Changed, Writes, Truncates, RemovesOnClose, Overflows, BadValue, Bounded;
  }

  /** The last Rversion of a run. */
  function Last(s: Conn, cfg: Config, turns: seq<Turn>): Option<Reply>
    decreases |turns|
  {
    if turns == [] then None
    else
      var (t, r) := Dispatch(s, cfg, turns[0].host, turns[0].m);
      var later := Last(t, cfg, turns[1..]);
      if later.Some? then later else if r.Negotiated? then Some(r) else None
  }

  /** What was answered last is what is kept to. */
  ghost predicate Keeps(s: Conn, t: Conn, last: Option<Reply>) {
    if last.None? then t.msize == s.msize && t.dotu == s.dotu
    else last.value.Negotiated? && t.msize == last.value.msize && (t.dotu <==> last.value.version == EXTENDED)
  }

  /** Over every run: size and dialect are those of the last Rversion, and the size is
      never more than the first or the least. */
  lemma {:induction false} RunAgrees(s: Conn, cfg: Config, turns: seq<Turn>)
    ensures Keeps(s, Run(s, cfg, turns), Last(s, cfg, turns))
    ensures Run(s, cfg, turns).msize <= if s.msize > LEAST then s.msize else LEAST
    decreases |turns|
  {
    hide Dispatch, Spoken;
    if turns != [] {
      var (t, r) := Dispatch(s, cfg, turns[0].host, turns[0].m);
      OneAgrees(s, cfg, turns[0].host, turns[0].m);
      RunAgrees(t, cfg, turns[1..]);
    }
  }

  lemma OneAgrees(s: Conn, cfg: Config, host: Host, m: Message)
    ensures var (t, r) := Dispatch(s, cfg, host, m);
            if r.Negotiated? then t.msize == r.msize && (t.dotu <==> r.version == EXTENDED)
            else t.msize == s.msize && t.dotu == s.dotu
    ensures Dispatch(s, cfg, host, m).0.msize <= if s.msize > LEAST then s.msize else LEAST
  {
    hide Dispatch, Spoken;
    match m
    case Tversion(msize, version) =>
      VersionAgrees(s, msize, version);
      AnswersVersion(s, cfg, host, msize, version);
    case _ => OthersAgree(cfg, s, host, m);
  }

  lemma AnswersVersion(s: Conn, cfg: Config, host: Host, msize: nat, version: string)
    ensures Dispatch(s, cfg, host, Tversion(msize, version)) == DoVersion(s, msize, version)
  {
  }

  // ---- replies fit ----

  lemma {:induction false} UptoFits(ents: seq<Bytes>, i: nat, count: nat)
    requires i <= |ents|
    ensures |NineDir.Joined(ents, i, NineDir.Upto(ents, i, count))| <= count
    decreases |ents| - i
  {
    if i < |ents| && |ents[i]| <= count {
      UptoFits(ents, i + 1, count - |ents[i]|);
      NineDir.JoinedSplit(ents, i, i + 1, NineDir.Upto(ents, i, count));
      assert NineDir.Joined(ents, i, i + 1) == NineDir.Joined(ents, i, i) + ents[i] == ents[i];
    }
  }

  /** Over every run: what a directory read returns fits the size agreed on by then,
      with 24 bytes for its header, and the count that was asked for. */
  lemma ReadFits(s: Conn, cfg: Config, turns: seq<Turn>, host: Host, fid: nat, offset: nat, count: nat, file: Transfer)
    requires var t := Run(s, cfg, turns);
             fid in t.fids && t.fids[fid].ents.Some? && DoRead(t, host, fid, offset, count, file).1.Data?
    ensures var t := Run(s, cfg, turns);
            var bytes := DoRead(t, host, fid, offset, count, file).1.bytes;
            var last := Last(s, cfg, turns);
            var size := if last.Some? && last.value.Negotiated? then last.value.msize else s.msize;
            |bytes| <= count && (bytes == [] || |bytes| + IOHDRSZ <= size)
  {
    hide Run, Last, NineDir.Joined, NineDir.Upto, NineDir.Offsets, OpenDir;
    var t := Run(s, cfg, turns);
    RunAgrees(s, cfg, turns);
    var f := t.fids[fid];
    var ents := if offset == 0 then OpenDir(host, f.path, t.dotu) else Ok(f.ents.value);
    var i := if offset == 0 then 0 else NineDir.IndexOf(NineDir.Offsets(ents.value), offset);
    UptoFits(ents.value, i, Bounded(t, count));
  }

  /** And so does the transfer that an open suggests. */
  lemma UnitFits(s: Conn, cfg: Config, host: Host, m: Message)
    requires Dispatch(s, cfg, host, m).1.Opened?
    ensures var unit := Dispatch(s, cfg, host, m).1.iounit;
            unit + IOHDRSZ == s.msize || (s.msize < IOHDRSZ && unit == 0)
  {
    hide OpenDir, NineDir.ReadDir, Join, Contains, Writes, Truncates, RemovesOnClose, WalkFrom, Renamed, Changed, Bounded, Overflows, BadValue;
  }

  // ---- and are in the dialect ----

  ghost predicate Written(e: Bytes, dotu: bool) { exists a: Attr :: e == StatBytes(a, dotu) }

  ghost predicate AllWritten(ents: seq<Bytes>, dotu: bool) { forall i :: 0 <= i < |ents| ==> Written(ents[i], dotu) }

  ghost predicate InDialect(s: Conn) {
    forall fid :: fid in s.fids && s.fids[fid].ents.Some? ==> AllWritten(s.fids[fid].ents.value, s.dotu)
  }

  lemma {:induction false} EntriesWritten(host: Host, path: string, names: seq<Name>, dotu: bool)
    ensures AllWritten(Entries(host, path, names, dotu), dotu)
    decreases |names|
  {
    hide StatBytes;
    if names != [] { EntriesWritten(host, path, names[..|names| - 1], dotu); }
  }

  lemma OpenDirWritten(host: Host, path: string, dotu: bool)
    ensures OpenDir(host, path, dotu).Ok? ==> AllWritten(OpenDir(host, path, dotu).value, dotu)
  {
    hide AllWritten;
    if host.list(path).Ok? { EntriesWritten(host, path, host.list(path).value, dotu); }
  }

  lemma SetInDialect(s: Conn, fid: nat, f: Fid)
    requires InDialect(s) && (f.ents.Some? ==> AllWritten(f.ents.value, s.dotu))
    ensures InDialect(Set(s, fid, f))
  {
    hide AllWritten;
  }

  lemma HasDialect(s: Conn, fid: nat)
    requires InDialect(s) && fid in s.fids
    ensures s.fids[fid].ents.Some? ==> AllWritten(s.fids[fid].ents.value, s.dotu)
  {
    hide AllWritten;
  }

  lemma FinishInDialect(s: Conn, host: Host, fid: nat, f: Fid, mode: nat)
    requires InDialect(s) && (f.ents.Some? ==> AllWritten(f.ents.value, s.dotu))
    ensures InDialect(Finish(s, host, fid, f, mode).0)
  {
    hide InDialect, AllWritten, RemovesOnClose, Set;
    var g := f.(mode := Some(mode), rclose := RemovesOnClose(mode));
    SetInDialect(s, fid, g);
    if host.stat(f.path).Ok? { SetInDialect(s, fid, g.(qid := host.stat(f.path).value.qid)); }
  }

  lemma OpenInDialect(s: Conn, cfg: Config, host: Host, fid: nat, mode: nat, effect: Effect, after: Host)
    requires InDialect(s)
    ensures InDialect(DoOpen(s, cfg, host, fid, mode, effect, after).0)
  {
    hide InDialect, AllWritten, OpenDir, Finish, Writes, Truncates, RemovesOnClose;
    if fid in s.fids {
      var f := s.fids[fid];
      HasDialect(s, fid);
      OpenDirWritten(host, f.path, s.dotu);
      var d := OpenDir(host, f.path, s.dotu);
      if d.Ok? { FinishInDialect(s, after, fid, f.(ents := Some(d.value)), mode); }
      FinishInDialect(s, after, fid, f.(file := true), mode);
    }
  }

  lemma CreateInDialect(s: Conn, cfg: Config, host: Host, fid: nat, name: Name, made: Made, mode: nat, effect: Effect, after: Host)
    requires InDialect(s)
    ensures InDialect(DoCreate(s, cfg, host, fid, name, made, mode, effect, after).0)
  {
    hide InDialect, AllWritten, OpenDir, Finish, Set, Join, Contains, Overflows, BadValue, RemovesOnClose;
    DroppedInDialect(s);
    if fid in s.fids {
      var g := s.fids[fid].(path := Join(s.fids[fid].path, name));
      HasDialect(s, fid);
      OpenDirWritten(after, g.path, s.dotu);
      SetInDialect(s, fid, g);
      var d := OpenDir(after, g.path, s.dotu);
      if d.Ok? { FinishInDialect(s, after, fid, g.(ents := Some(d.value)), mode); }
      FinishInDialect(s, after, fid, g.(file := true), mode);
      FinishInDialect(s, after, fid, g, mode);
    }
  }

  lemma DroppedInDialect(s: Conn)
    ensures InDialect(Dropped(s).0)
  {
  }

  lemma ReadInDialect(s: Conn, host: Host, fid: nat, offset: nat, count: nat, file: Transfer)
    requires InDialect(s)
    ensures InDialect(DoRead(s, host, fid, offset, count, file).0)
  {
    hide InDialect, AllWritten, OpenDir, Set, NineDir.ReadDir, Bounded;
    DroppedInDialect(s);
    if fid in s.fids {
      var f := s.fids[fid];
      HasDialect(s, fid);
      OpenDirWritten(host, f.path, s.dotu);
      var d := OpenDir(host, f.path, s.dotu);
      if d.Ok? { SetInDialect(s, fid, f.(ents := Some(d.value))); }
      if f.ents.Some? { SetInDialect(s, fid, f.(ents := Some(f.ents.value))); }
    }
  }

  lemma WstatInDialect(s: Conn, cfg: Config, host: Host, fid: nat, w: Changes, after: Host)
    requires InDialect(s)
    ensures InDialect(DoWstat(s, cfg, host, fid, w, after).0)
  {
    hide AllWritten, Renamed, Changed;
  }

  lemma StepInDialect(s: Conn, cfg: Config, host: Host, m: Message)
    requires InDialect(s)
    ensures InDialect(Dispatch(s, cfg, host, m).0)
  {
    hide DoOpen, DoCreate, DoRead, DoWstat, WalkFrom, AllWritten, Known, Writes;
    match m
    case Topen(fid, mode, effect, after) => OpenInDialect(s, cfg, host, fid, mode, effect, after);
    case Tcreate(fid, name, made, mode, effect, after) => CreateInDialect(s, cfg, host, fid, name, made, mode, effect, after);
    case Tread(fid, offset, count, file) => ReadInDialect(s, host, fid, offset, count, file);
    case Twstat(fid, w, after) => WstatInDialect(s, cfg, host, fid, w, after);
    case _ =>
  }

  /** Over every run from a connection with no fids: every entry of an open directory is
      in the extended form if and only if 9P2000.u was answered last. */
  lemma {:induction false} RunInDialect(s: Conn, cfg: Config, turns: seq<Turn>)
    requires InDialect(s)
    ensures InDialect(Run(s, cfg, turns))
    decreases |turns|
  {
    hide Dispatch, InDialect;
    if turns != [] {
      StepInDialect(s, cfg, turns[0].host, turns[0].m);
      RunInDialect(Dispatch(s, cfg, turns[0].host, turns[0].m).0, cfg, turns[1..]);
    }
  }

  lemma EntriesInDialect(s: Conn, cfg: Config, turns: seq<Turn>, fid: nat, i: nat)
    requires s.fids == map[] && Last(s, cfg, turns).Some?
    requires var t := Run(s, cfg, turns); fid in t.fids && t.fids[fid].ents.Some? && i < |t.fids[fid].ents.value|
    ensures var e, last := Run(s, cfg, turns).fids[fid].ents.value[i], Last(s, cfg, turns).value;
            last.Negotiated? && Written(e, last.version == EXTENDED)
  {
    hide Run, Last, StatBytes;
    RunAgrees(s, cfg, turns);
    RunInDialect(s, cfg, turns);
    var t := Run(s, cfg, turns);
    assert AllWritten(t.fids[fid].ents.value, t.dotu);
    assert Written(t.fids[fid].ents.value[i], t.dotu);
  }
}
