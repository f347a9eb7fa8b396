/** What each 9P message is answered, and what it leaves of the fid table: where an element
    of a walk leads, when a file is opened, made, read, written or changed, and which error
    it is when it is not. */
module NineReplies {
  import opened Basics
  import opened NinePaths
  import opened NineWire
  import opened NineModel
  import Division
  import NineDir

  // ---- one element of a walk ----

  /** With -L a link may not lead out of the export. */
  predicate Permits(cfg: Config, host: Host, q: string) { cfg.follow ==> Inside(cfg.root, host.realpath(q)) }

  predicate Shortened(n: Name, name: Name) { (if |n| > 14 then n[..14] else n) == name }

  /** The i-th name and no other is cut to this one. */
  predicate OnlyOne(names: seq<Name>, name: Name, i: nat) {
    i < |names| && Shortened(names[i], name) && forall j :: 0 <= j < |names| && j != i ==> !Shortened(names[j], name)
  }

  ghost predicate ByShortName(cfg: Config, host: Host, path: string, name: Name, q: string) {
    !cfg.strict && |name| == 14 && host.list(path).Ok?
    && exists i: nat :: OnlyOne(host.list(path).value, name, i) && q == Join(path, host.list(path).value[i])
  }

  /** Where a name leads from a path, if anywhere. */
  ghost predicate Leads(cfg: Config, host: Host, path: string, name: Name, q: string) {
    if name == "." then q == path
    else if name == ".." then q == if path == cfg.root then path else Dirname(path)
    else
      var there := Join(path, name);
      name != "" && '/' !in name && '\0' !in name && Inside(cfg.root, host.realpath(Dirname(there))) && Permits(cfg, host, q)
      && match host.lstat(there)
         case Ok(_) => q == there
         case Err(e) => e == 2 && ByShortName(cfg, host, path, name, q)
  }

  lemma {:induction false} HitsNone(names: seq<Name>, name: Name)
    ensures Hits(names, name) == [] <==> forall j :: 0 <= j < |names| ==> !Shortened(names[j], name)
    decreases |names|
  {
    if names != [] {
      HitsNone(names[1..], name);
      assert forall j :: 0 < j < |names| ==> names[j] == names[1..][j - 1];
    }
  }

  lemma OneMoreOff(names: seq<Name>, name: Name, k: nat)
    requires names != [] && !Shortened(names[0], name)
    ensures OnlyOne(names, name, k) <==> k > 0 && OnlyOne(names[1..], name, k - 1)
  {
    hide Shortened;
    assert forall j :: 0 < j < |names| ==> names[j] == names[1..][j - 1];
    if k > 0 && OnlyOne(names[1..], name, k - 1) {
      forall j | 0 <= j < |names| && j != k
        ensures !Shortened(names[j], name)
      {
        if j > 0 { assert names[j] == names[1..][j - 1]; }
      }
    }
    if OnlyOne(names, name, k) {
      forall j | 0 <= j < |names| - 1 && j != k - 1
        ensures !Shortened(names[1..][j], name)
      {
        assert names[1..][j] == names[j + 1];
      }
    }
  }

  lemma {:induction false} HitsOne(names: seq<Name>, name: Name) returns (i: nat)
    ensures |Hits(names, name)| == 1 ==> OnlyOne(names, name, i) && Hits(names, name)[0] == names[i]
    ensures forall k: nat :: OnlyOne(names, name, k) ==> |Hits(names, name)| == 1 && k == i
    decreases |names|
  {
    hide Shortened, Hits;
    i := 0;
    if names != [] {
      HitsFirst(names, name);
      if Shortened(names[0], name) {
        HitsNone(names[1..], name);
        FirstOnly(names, name);
      } else {
        var k := HitsOne(names[1..], name);
        i := k + 1;
        OneMoreOff(names, name, i);
        forall m: nat | OnlyOne(names, name, m)
          ensures |Hits(names, name)| == 1 && m == i
        {
          OneMoreOff(names, name, m);
        }
      }
    } else {
      NoHits(name);
    }
  }

  lemma NoHits(name: Name)
    ensures Hits([], name) == []
  {
  }

  lemma HitsFirst(names: seq<Name>, name: Name)
    requires names != []
    ensures Hits(names, name) == (if Shortened(names[0], name) then [names[0]] else []) + Hits(names[1..], name)
  {
  }

  lemma FirstOnly(names: seq<Name>, name: Name)
    requires names != [] && Shortened(names[0], name)
    ensures OnlyOne(names, name, 0) <==> forall j :: 0 <= j < |names[1..]| ==> !Shortened(names[1..][j], name)
    ensures forall k: nat :: OnlyOne(names, name, k) ==> k == 0
  {
    hide Shortened;
    assert forall j :: 0 < j < |names| ==> names[j] == names[1..][j - 1];
    assert forall j :: 0 <= j < |names[1..]| ==> names[1..][j] == names[j + 1];
  }

  lemma ShortNameIs(cfg: Config, host: Host, path: string, name: Name, q: string)
    requires host.list(path).Ok?
    ensures var hits := Hits(host.list(path).value, name);
            ByShortName(cfg, host, path, name, q) <==> !cfg.strict && |name| == 14 && |hits| == 1 && q == Join(path, hits[0])
  {
    hide Hits, Join;
    var i := HitsOne(host.list(path).value, name);
  }

  /** walk1(): for every name and every path. */
  lemma ElementExactly(cfg: Config, host: Host, path: string, name: Name, q: string)
    ensures Walk1(cfg, host, path, name) == There(q) <==> Leads(cfg, host, path, name, q)
  {
    hide Hits, Join, ByShortName, Dirname, Inside;
    if host.list(path).Ok? {
      ShortNameIs(cfg, host, path, name, q);
    } else {
      NoList(cfg, host, path, name, q);
    }
  }

  lemma NoList(cfg: Config, host: Host, path: string, name: Name, q: string)
    requires host.list(path).Err?
    ensures !ByShortName(cfg, host, path, name, q)
  {
  }

  // ---- a walk ----

  /** Each name leads from one path to the next, and there is something there. */
  ghost predicate Chain(cfg: Config, host: Host, names: seq<Name>, paths: seq<string>, qids: seq<Qid>) {
    |paths| == |names| + 1 && |qids| == |names|
    && forall i :: 0 <= i < |names| ==> Links(cfg, host, paths[i], names[i], paths[i + 1], qids[i])
  }

  ghost predicate Links(cfg: Config, host: Host, path: string, name: Name, q: string, qid: Qid) {
    Leads(cfg, host, path, name, q) && host.stat(q).Ok? && host.stat(q).value.qid == qid
  }

  predicate Walkable(s: Conn, fid: nat, newfid: nat, names: seq<Name>) {
    |names| <= 16 && fid in s.fids && s.fids[fid].mode.None? && (newfid == fid || newfid !in s.fids)
  }

  lemma {:induction false} WalkChain(cfg: Config, host: Host, w: Walked, names: seq<Name>, paths: seq<string>, qids: seq<Qid>)
    requires w.stopped.None? && Chain(cfg, host, names, paths, qids) && paths[0] == w.path
    ensures WalkFrom(cfg, host, w, names) == Walked(paths[|names|], w.qids + qids, None)
    decreases |names|
  {
    hide Leads, Walk1;
    if names == [] {
      assert w.qids + qids == w.qids;
    } else {
      assert Links(cfg, host, paths[0], names[0], paths[1], qids[0]);
      ElementExactly(cfg, host, w.path, names[0], paths[1]);
      ChainRest(cfg, host, names, paths, qids);
      WalkChain(cfg, host, Walked(paths[1], w.qids + [qids[0]], None), names[1..], paths[1..], qids[1..]);
      assert w.qids + [qids[0]] + qids[1..] == w.qids + qids;
    }
  }

  lemma ChainRest(cfg: Config, host: Host, names: seq<Name>, paths: seq<string>, qids: seq<Qid>)
    requires Chain(cfg, host, names, paths, qids) && names != []
    ensures Chain(cfg, host, names[1..], paths[1..], qids[1..])
  {
    hide Links;
    forall i | 0 <= i < |names| - 1
      ensures Links(cfg, host, paths[1..][i], names[1..][i], paths[1..][i + 1], qids[1..][i])
    {
      assert Links(cfg, host, paths[i + 1], names[i + 1], paths[i + 2], qids[i + 1]);
    }
  }

  lemma ChainFirst(cfg: Config, host: Host, path: string, qid: Qid, names: seq<Name>, paths: seq<string>, qids: seq<Qid>)
    requires names != [] && Chain(cfg, host, names[1..], paths, qids) && Links(cfg, host, path, names[0], paths[0], qid)
    ensures Chain(cfg, host, names, [path] + paths, [qid] + qids)
  {
    hide Links;
    var ps, qs := [path] + paths, [qid] + qids;
    forall i | 0 <= i < |names|
      ensures Links(cfg, host, ps[i], names[i], ps[i + 1], qs[i])
    {
      if i > 0 { assert Links(cfg, host, paths[i - 1], names[1..][i - 1], paths[i], qids[i - 1]); }
    }
  }

  /** As far as a walk gets, and why it gets no further. */
  lemma {:induction false} WalkIs(cfg: Config, host: Host, w: Walked, names: seq<Name>) returns (k: nat, paths: seq<string>, qids: seq<Qid>)
    requires w.stopped.None?
    ensures k <= |names| && Chain(cfg, host, names[..k], paths, qids) && paths[0] == w.path
    ensures WalkFrom(cfg, host, w, names).qids == w.qids + qids
    ensures if k == |names| then WalkFrom(cfg, host, w, names) == Walked(paths[k], w.qids + qids, None)
            else WalkFrom(cfg, host, w, names).stopped.Some?
                 && forall q, qid :: !Links(cfg, host, paths[k], names[k], q, qid)
    decreases |names|
  {
    hide Leads, Walk1;
    k, paths, qids := 0, [w.path], [];
    assert w.qids + qids == w.qids;
    if names != [] {
      var r := Walk1(cfg, host, w.path, names[0]);
      if r.There? && host.stat(r.path).Ok? {
        var qid := host.stat(r.path).value.qid;
        ElementExactly(cfg, host, w.path, names[0], r.path);
        var j, ps, qs := WalkIs(cfg, host, Walked(r.path, w.qids + [qid], None), names[1..]);
        assert names[..j + 1][1..] == names[1..][..j];
        ChainFirst(cfg, host, w.path, qid, names[..j + 1], ps, qs);
        k, paths, qids := j + 1, [w.path] + ps, [qid] + qs;
        assert w.qids + [qid] + qs == w.qids + qids;
      } else {
        NoLink(cfg, host, w.path, names[0]);
      }
    }
  }

  lemma NoLink(cfg: Config, host: Host, path: string, name: Name)
    requires var r := Walk1(cfg, host, path, name); r.There? ==> host.stat(r.path).Err?
    ensures forall q, qid :: !Links(cfg, host, path, name, q, qid)
  {
    hide Leads, Walk1;
    forall q, qid
      ensures !Links(cfg, host, path, name, q, qid)
    {
      ElementExactly(cfg, host, path, name, q);
    }
  }

  /** walk(5): with every element found the new fid is what the last one leads to; with the
      first one missing it is an error, and with another the qids so far and no fid. */
  lemma WalkAnswered(s: Conn, cfg: Config, host: Host, fid: nat, newfid: nat, names: seq<Name>)
    returns (k: nat, paths: seq<string>, qids: seq<Qid>)
    requires Walkable(s, fid, newfid, names)
    ensures k <= |names| && Chain(cfg, host, names[..k], paths, qids) && paths[0] == s.fids[fid].path
    ensures k < |names| ==> forall q, qid :: !Links(cfg, host, paths[k], names[k], q, qid)
    ensures var (t, r) := DoWalk(s, cfg, host, fid, newfid, names);
            if r.Gone? then k < |names|
            else if k == |names| then
              r == Qids(qids)
              && t == s.(fids := s.fids[newfid := Fid(paths[k], if k == 0 then s.fids[fid].qid else qids[k - 1], None, false, None, false)])
            else t == s && if k == 0 then r.Error? else r == Qids(qids)
  {
    hide Walk1, Links, WalkFrom, Chain, DoWalk;
    var w := Walked(s.fids[fid].path, [], None);
    k, paths, qids := WalkIs(cfg, host, w, names);
    assert w.qids + qids == qids;
    assert names[..|names|] == names;
    ChainLength(cfg, host, names[..k], paths, qids);
    WalkReply(s, cfg, host, fid, newfid, names);
  }

  lemma ChainLength(cfg: Config, host: Host, names: seq<Name>, paths: seq<string>, qids: seq<Qid>)
    requires Chain(cfg, host, names, paths, qids)
    ensures |paths| == |names| + 1 && |qids| == |names|
  {
    hide Links;
  }

  lemma WalkReply(s: Conn, cfg: Config, host: Host, fid: nat, newfid: nat, names: seq<Name>)
    requires Walkable(s, fid, newfid, names)
    ensures var f := s.fids[fid];
            var w := WalkFrom(cfg, host, Walked(f.path, [], None), names);
            DoWalk(s, cfg, host, fid, newfid, names)
            == if w.stopped == Some(Raised) then (s.(fids := map[]), Gone)
               else if w.stopped.Some? then (s, if w.qids == [] then Error(w.stopped.value.errno) else Qids(w.qids))
               else (s.(fids := s.fids[newfid := Fid(w.path, if w.qids == [] then f.qid else w.qids[|w.qids| - 1], None, false, None, false)]), Qids(w.qids))
  {
    hide WalkFrom;
  }

  /** And a walk that is not one of these is refused: too many elements, a fid not known or
      open already, or a new one in use. */
  lemma WalkRefused(s: Conn, cfg: Config, host: Host, fid: nat, newfid: nat, names: seq<Name>)
    requires !Walkable(s, fid, newfid, names)
    ensures DoWalk(s, cfg, host, fid, newfid, names)
         == (s, Error(if |names| > 16 then 22 else if fid !in s.fids then 9 else if s.fids[fid].mode.Some? then 22 else 9))
  {
  }

  // ---- opening and making ----

  /** The mode of open(5): what it is for in the low two bits, to truncate in bit 4 and to
      remove on close in bit 6. */
  lemma ModeBits(mode: nat)
    ensures Truncates(mode) <==> mode % 0x20 >= 0x10
    ensures RemovesOnClose(mode) <==> mode % 0x80 >= 0x40
  {
    HalfOf(mode, 0x10);
    HalfOf(mode, 0x40);
  }

  lemma HalfOf(n: nat, w: nat)
    requires w == 0x10 || w == 0x40
    ensures n / w % 2 == 1 <==> n % (2 * w) >= w
  {
    var q, r := n / (2 * w), n % (2 * w);
    if r >= w {
      Division.Quotient(n, w, 2 * q + 1, r - w);
    } else {
      Division.Quotient(n, w, 2 * q, r);
    }
  }

  predicate Alters(mode: nat) { mode % 4 == 1 || mode % 4 == 2 || mode % 0x20 >= 0x10 || mode % 0x80 >= 0x40 }

  predicate Opens(s: Conn, cfg: Config, host: Host, fid: nat, mode: nat, effect: Effect) {
    fid in s.fids && s.fids[fid].mode.None?
    && var path := s.fids[fid].path;
       host.stat(path).Ok? && !(cfg.readonly && Alters(mode))
       && if host.stat(path).value.kind == Dir then mode % 4 == 0 && mode % 0x20 < 0x10 && host.list(path).Ok? else effect == Did
  }

  /** The file is open, in that mode, and its qid is read again; the unit suggested leaves
      room for 24 bytes. */
  predicate IsOpen(s: Conn, t: Conn, r: Reply, after: Host, fid: nat, g: Fid, mode: nat) {
    var st := after.stat(g.path);
    t == s.(fids := s.fids[fid := g.(mode := Some(mode), rclose := mode % 0x80 >= 0x40, qid := if st.Ok? then st.value.qid else g.qid)])
    && match st
       case Err(e) => r == Error(e)
       case Ok(v) => r == Opened(v.qid, if s.msize >= 24 then s.msize - 24 else 0)
  }

  /** Why a file is not opened. */
  predicate OpenError(s: Conn, cfg: Config, host: Host, fid: nat, mode: nat, effect: Effect, e: nat) {
    if fid !in s.fids then e == 9
    else if s.fids[fid].mode.Some? then e == 22
    else
      var path := s.fids[fid].path;
      if host.stat(path).Err? then e == host.stat(path).errno
      else if cfg.readonly && Alters(mode) then e == 30
      else if host.stat(path).value.kind != Dir then effect == Failed(e)
      else if mode % 4 != 0 || mode % 0x20 >= 0x10 then e == 21
      else host.list(path) == Err(e)
  }

  lemma FinishOpens(s: Conn, after: Host, fid: nat, g: Fid, mode: nat)
    ensures var (t, r) := Finish(s, after, fid, g, mode); IsOpen(s, t, r, after, fid, g, mode)
  {
    ModeBits(mode);
  }

  lemma OpenAnswered(s: Conn, cfg: Config, host: Host, fid: nat, mode: nat, effect: Effect, after: Host)
    ensures var (t, r) := DoOpen(s, cfg, host, fid, mode, effect, after);
            if Opens(s, cfg, host, fid, mode, effect) then
              var f := s.fids[fid];
              var dir := host.stat(f.path).value.kind == Dir;
              IsOpen(s, t, r, after, fid,
                     if dir then f.(ents := Some(Entries(host, f.path, host.list(f.path).value, s.dotu))) else f.(file := true), mode)
            else t == s && r.Error? && OpenError(s, cfg, host, fid, mode, effect, r.errno)
  {
    hide Finish, IsOpen, Entries, Bit;
    ModeBits(mode);
    if fid in s.fids {
      var f := s.fids[fid];
      if host.list(f.path).Ok? {
        FinishOpens(s, after, fid, f.(ents := Some(Entries(host, f.path, host.list(f.path).value, s.dotu))), mode);
      }
      FinishOpens(s, after, fid, f.(file := true), mode);
    }
  }

  /** A name that can be made, in a directory of the export. */
  predicate Makes(s: Conn, cfg: Config, host: Host, fid: nat, name: Name, made: Made) {
    fid in s.fids && !cfg.readonly && s.fids[fid].mode.None? && name != "" && name != "." && name != ".." && '/' !in name
    && var path := s.fids[fid].path;
       host.stat(path).Ok? && host.stat(path).value.kind == Dir && Inside(cfg.root, host.realpath(Dirname(Join(path, name))))
  }

  predicate MakeError(s: Conn, cfg: Config, host: Host, fid: nat, name: Name, e: nat) {
    if fid !in s.fids then e == 9
    else if cfg.readonly then e == 30
    else if s.fids[fid].mode.Some? || name == "" || name == "." || name == ".." || '/' in name then e == 22
    else
      var path := s.fids[fid].path;
      if host.stat(path).Err? then e == host.stat(path).errno
      else e == if host.stat(path).value.kind != Dir then 20 else 13
  }

  /** Tcreate: the fid moves to what was made and is open; a directory made that cannot be
      listed leaves it moved and not open. */
  lemma CreateAnswered(s: Conn, cfg: Config, host: Host, fid: nat, name: Name, made: Made, mode: nat, effect: Effect, after: Host)
    ensures var (t, r) := DoCreate(s, cfg, host, fid, name, made, mode, effect, after);
            if !Makes(s, cfg, host, fid, name, made) then t == s && r.Error? && MakeError(s, cfg, host, fid, name, r.errno)
            else if made.MakeDevice? && made.numbers.Some? && !cfg.device(made.numbers.value.0, made.numbers.value.1) then
              (t, r) == (s.(fids := map[]), Gone)
            else if made == MakeDevice(None) || '\0' in name then (t, r) == (s, Error(22))
            else if effect.Failed? then (t, r) == (s, Error(effect.errno))
            else
              var g := s.fids[fid].(path := Join(s.fids[fid].path, name));
              if made.MakeDir? && after.list(g.path).Err? then (t, r) == (s.(fids := s.fids[fid := g]), Error(after.list(g.path).errno))
              else
                IsOpen(s, t, r, after, fid,
                       if made.MakeDir? then g.(ents := Some(Entries(after, g.path, after.list(g.path).value, s.dotu)))
                       else if made.MakeFile? then g.(file := true) else g, mode)
  {
    hide Finish, IsOpen, Entries, Join, Dirname, Inside;
    if fid in s.fids {
      var g := s.fids[fid].(path := Join(s.fids[fid].path, name));
      if after.list(g.path).Ok? {
        FinishOpens(s, after, fid, g.(ents := Some(Entries(after, g.path, after.list(g.path).value, s.dotu))), mode);
      }
      FinishOpens(s, after, fid, g.(file := true), mode);
      FinishOpens(s, after, fid, g, mode);
    }
  }

  // ---- the other messages ----

  lemma AttachAnswered(s: Conn, cfg: Config, host: Host, fid: nat)
    ensures var (t, r) := DoAttach(s, cfg, host, fid);
            if fid in s.fids then (t, r) == (s, Error(9))
            else
              match host.stat(cfg.root)
              case Err(e) => (t, r) == (s, Error(e))
              case Ok(st) => r == Qids([st.qid]) && t == s.(fids := s.fids[fid := Fid(cfg.root, st.qid, None, false, None, false)])
  {
    hide Inside;
  }

  /** Reading a file: not before it is open, nor when it is open for writing only. */
  lemma FileRead(s: Conn, host: Host, fid: nat, offset: nat, count: nat, file: Transfer)
    requires fid in s.fids ==> s.fids[fid].ents.None?
    ensures var (t, r) := DoRead(s, host, fid, offset, count, file);
            if fid !in s.fids then (t, r) == (s, Error(9))
            else
              var f := s.fids[fid];
              if f.mode.None? then (t, r) == (s, Error(22))
              else if f.mode.value % 4 == 1 then (t, r) == (s, Error(13))
              else if f.file && file.Unseekable? then (t, r) == (s, Error(5))
              else if !f.file || offset >= 0x8000_0000_0000_0000 then (t, r) == (s.(fids := map[]), Gone)
              else (t, r) == (s, if file.Refused? then Error(file.errno) else Data(file.bytes))
  {
    hide NineDir.ReadDir, OpenDir;
  }

  /** Writing: not on a read-only share, nor before it is open, nor when it is open for
      reading only, nor a directory. */
  lemma FileWritten(s: Conn, cfg: Config, fid: nat, offset: nat, file: Transfer)
    ensures var (t, r) := DoWrite(s, cfg, fid, offset, file);
            if fid !in s.fids then (t, r) == (s, Error(9))
            else if cfg.readonly then (t, r) == (s, Error(30))
            else
              var f := s.fids[fid];
              if f.mode.None? then (t, r) == (s, Error(22))
              else if f.mode.value % 4 == 0 then (t, r) == (s, Error(13))
              else if f.ents.Some? then (t, r) == (s, Error(21))
              else if f.file && file.Unseekable? then (t, r) == (s, Error(5))
              else if !f.file || offset >= 0x8000_0000_0000_0000 then (t, r) == (s.(fids := map[]), Gone)
              else (t, r) == (s, if file.Refused? then Error(file.errno) else Plainly)
  {
    if fid in s.fids { BadOffset(s, fid, offset, file); }
  }

  lemma BadOffset(s: Conn, fid: nat, offset: nat, file: Transfer)
    ensures Sought(s, offset, file, Plainly)
         == if file.Unseekable? then (s, Error(5))
            else if offset >= 0x8000_0000_0000_0000 then (s.(fids := map[]), Gone)
            else (s, if file.Refused? then Error(file.errno) else Plainly)
  {
  }

  /** clunk(5), remove(5) and stat(5): the fid is gone after the first two, whatever came of
      them; the root is not removed. */
  lemma FidGone(s: Conn, cfg: Config, host: Host, fid: nat, effect: Effect)
    ensures var gone := s.(fids := s.fids - {fid});
            DoClunk(s, fid) == (if fid in s.fids then (gone, Plainly) else (s, Error(9)))
            && DoRemove(s, cfg, fid, effect)
               == (if fid !in s.fids then (s, Error(9))
                   else if cfg.readonly then (gone, Error(30))
                   else if s.fids[fid].path == cfg.root then (gone, Error(13))
                   else (gone, if effect.Failed? then Error(effect.errno) else Plainly))
            && DoStat(s, host, fid)
               == (s, if fid !in s.fids then Error(9)
                      else if host.stat(s.fids[fid].path).Err? then Error(host.stat(s.fids[fid].path).errno) else Plainly)
  {
  }

  // ---- wstat ----

  /** A rename leads to q if and only if there is none and q is where the file is, or the
      name is one, in the export, and nothing is there or it is the file itself. */
  lemma RenamedExactly(cfg: Config, host: Host, path: string, name: Name, effect: Effect, q: string)
    ensures Renamed(cfg, host, path, name, effect) == There(q)
       <==> if name == "" then q == path
            else q == Join(Dirname(path), name) && '/' !in name && name != "." && name != ".."
                 && Inside(cfg.root, host.realpath(Dirname(q)))
                 && (q == path || ('\0' !in name && host.lstat(q).Err? && effect == Did))
  {
    hide Join, Dirname, Inside;
  }

  /** A link is not changed through. */
  predicate Barred(cfg: Config, host: Host, path: string) { !cfg.follow && host.lstat(path).Ok? && host.lstat(path).value.kind == Link }

  predicate ModeDone(cfg: Config, host: Host, path: string, w: Changes) {
    w.mode != 0xffff_ffff ==> !Barred(cfg, host, path) && w.chmod == Did
  }

  predicate TimesDone(cfg: Config, host: Host, path: string, w: Changes) {
    w.atime != 0xffff_ffff || w.mtime != 0xffff_ffff ==>
      (if Barred(cfg, host, path) then host.lstat(path) else host.stat(path)).Ok? && w.utime == Did
  }

  /** A file that is open must be open for writing. */
  predicate LengthDone(cfg: Config, host: Host, f: Fid, w: Changes) {
    w.length != 0xffff_ffff_ffff_ffff ==>
      !Barred(cfg, host, f.path) && (f.file ==> f.mode.Some? && f.mode.value % 4 in {1, 2})
      && w.length < 0x8000_0000_0000_0000 && w.truncate == Did
  }

  /** Twstat succeeds if and only if all that was asked for was done, and moves the fid as
      soon as the rename was. */
  lemma WstatExactly(s: Conn, cfg: Config, host: Host, fid: nat, w: Changes, after: Host)
    ensures var (t, r) := DoWstat(s, cfg, host, fid, w, after);
            (fid !in s.fids ==> (t, r) == (s, Error(9)))
            && (fid in s.fids && cfg.readonly ==> (t, r) == (s, Error(30)))
            && (fid in s.fids && !cfg.readonly ==>
                  match Renamed(cfg, host, s.fids[fid].path, w.name, w.rename)
                  case There(q) =>
                    var f := s.fids[fid].(path := q);
                    (r == Plainly <==> ModeDone(cfg, after, q, w) && TimesDone(cfg, after, q, w) && LengthDone(cfg, after, f, w))
                    && (!r.Gone? ==> t == s.(fids := s.fids[fid := f]))
                  case Not(Errno(e)) => (t, r) == (s, Error(e))
                  case Not(Raised) => (t, r) == (s.(fids := map[]), Gone))
  {
    hide Renamed;
  }
}
