/** One connection of tools/9pfsd.py: the fid table under every message.  What
    the host says and does comes in with each message. */
module NineModel {
  import opened Basics
  import opened NinePaths
  import opened NineWire
  import NineDir

  type Name = string

  const EPERM: nat := 1
  const ENOENT: nat := 2
  const EIO: nat := 5
  const EBADF: nat := 9
  const EACCES: nat := 13
  const EEXIST: nat := 17
  const ENOTDIR: nat := 20
  const EISDIR: nat := 21
  const EINVAL: nat := 22
  const EROFS: nat := 30

  const MAXWELEM: nat := 16
  const DIRSIZ: nat := 14
  const IOHDRSZ: nat := 24

  // What a signed 64-bit offset cannot hold, and the values that mean "as it is".
  const OFFMAX: nat := 0x8000_0000_0000_0000
  const NOTOUCH4: nat := 0xffff_ffff
  const NOTOUCH8: nat := 0xffff_ffff_ffff_ffff

  datatype Kind = Dir | Link | Plain

  datatype Stat = Stat(kind: Kind, qid: Qid)

  /** The export's policy, and which device numbers the host's makedev() takes. */
  datatype Config = Config(root: string, readonly: bool, strict: bool, follow: bool, device: (int, int) -> bool)

  /** What the host answers while one message is served.  lstat is os.lstat; stat
      is Export.lstat, which may follow a link; entry is a listed name's attributes,
      if it has not vanished. */
  datatype Host = Host(
    realpath: string -> string,
    lstat: string -> Outcome<Stat>,
    stat: string -> Outcome<Stat>,
    list: string -> Outcome<seq<Name>>,
    entry: (string, Name) -> Option<Attr>)

  /** One client handle. */
  datatype Fid = Fid(path: string, qid: Qid, mode: Option<nat>, file: bool, ents: Option<seq<Bytes>>, rclose: bool)

  datatype Conn = Conn(fids: map<nat, Fid>, msize: nat, dotu: bool)

  datatype Reply =
    | Error(errno: nat)
    | Negotiated(msize: nat, version: string)
    | Qids(qids: seq<Qid>)
    | Opened(qid: Qid, iounit: nat)
    | Data(bytes: Bytes)
    | Plainly                        // a reply that says no more than that it worked
    | Gone                           // the connection ends

  /** How the message's own system call went. */
  datatype Effect = Did | Failed(errno: nat)

  // ---- policy ----

  /** contains(): the real path of the parent. */
  predicate Contains(cfg: Config, host: Host, path: string) { Inside(cfg.root, host.realpath(Dirname(path))) }

  /** admit() */
  function Admit(cfg: Config, host: Host, path: string): Outcome<string> {
    if cfg.follow && !Inside(cfg.root, host.realpath(path)) then Err(EACCES) else Ok(path)
  }

  function Hits(names: seq<Name>, name: Name): seq<Name>
    decreases |names|
  {
    if names == [] then []
    else (if (if |names[0]| > DIRSIZ then names[0][..DIRSIZ] else names[0]) == name then [names[0]] else []) + Hits(names[1..], name)
  }

  /** Why there is no path: an error for the client, or an exception that no
      handler catches and that ends the connection. */
  datatype Stop = Errno(errno: nat) | Raised

  datatype Found = There(path: string) | Not(why: Stop)

  function Answer(r: Outcome<string>): Found {
    match r
    case Ok(path) => There(path)
    case Err(e) => Not(Errno(e))
  }

  /** The host's calls take no name with a NUL in it: they raise ValueError, which
      is no OSError. */
  predicate Nul(name: Name) { '\0' in name }

  /** walk1() on a name that is there or not. */
  function Element(cfg: Config, host: Host, path: string, name: Name): Outcome<string> {
    var there := Join(path, name);
    match host.lstat(there)
    case Ok(_) => Admit(cfg, host, there)
    case Err(e) =>
      if e != ENOENT then Err(e)
      else if cfg.strict || |name| != DIRSIZ then Err(ENOENT)
      else
        var names :- host.list(path);
        var hits := Hits(names, name);
        if |hits| != 1 then Err(ENOENT) else Admit(cfg, host, Join(path, hits[0]))
  }

  /** walk1(): one element, with the fourteen-byte fallback. */
  function Walk1(cfg: Config, host: Host, path: string, name: Name): Found {
    if name == "" || '/' in name then Not(Errno(EINVAL))
    else if name == "." then There(path)
    else if name == ".." then There(if path == cfg.root then path else Dirname(path))
    else if !Contains(cfg, host, Join(path, name)) then Not(Errno(EACCES))
    else if Nul(name) then Not(Raised)
    else Answer(Element(cfg, host, path, name))
  }

  /** As far as a walk gets: where it is, what it has seen, and what stopped it. */
  datatype Walked = Walked(path: string, qids: seq<Qid>, stopped: Option<Stop>)

  function WalkFrom(cfg: Config, host: Host, w: Walked, names: seq<Name>): Walked
    decreases |names|
  {
    if names == [] || w.stopped.Some? then w
    else
      match Walk1(cfg, host, w.path, names[0])
      case Not(why) => w.(stopped := Some(why))
      case There(path) =>
        match host.stat(path)
        case Err(e) => w.(stopped := Some(Errno(e)))
        case Ok(st) => WalkFrom(cfg, host, Walked(path, w.qids + [st.qid], None), names[1..])
  }

  // ---- messages ----

  /** serve() catches the client's errors and OSError; anything else ends it. */
  function Dropped(s: Conn): (Conn, Reply) { (s.(fids := map[]), Gone) }

  function Set(s: Conn, fid: nat, f: Fid): Conn { s.(fids := s.fids[fid := f]) }

  predicate Bit(mode: nat, weight: nat)
    requires weight > 0
  {
    mode / weight % 2 == 1
  }

  predicate Truncates(mode: nat) { Bit(mode, 0x10) }

  predicate RemovesOnClose(mode: nat) { Bit(mode, 0x40) }

  predicate Writes(mode: nat) { mode % 4 == 1 || mode % 4 == 2 }

  predicate Known(version: string) { version == "9P2000.u" || "9P2000.u." <= version }

  function DoVersion(s: Conn, msize: nat, version: string): (Conn, Reply) {
    var m := if msize < s.msize then msize else s.msize;
    var least := if m < 256 then 256 else m;
    if Known(version) then (Conn(map[], least, true), Negotiated(least, "9P2000.u"))
    else if version == "9P2000" then (Conn(map[], least, false), Negotiated(least, "9P2000"))
    else (Conn(map[], least, false), Negotiated(least, "unknown"))
  }

  function NewFid(path: string, qid: Qid): Fid { Fid(path, qid, None, false, None, false) }

  function DoAttach(s: Conn, cfg: Config, host: Host, fid: nat): (Conn, Reply) {
    if fid in s.fids then (s, Error(EBADF))
    else
      match host.stat(cfg.root)
      case Err(e) => (s, Error(e))
      case Ok(st) => (Set(s, fid, NewFid(cfg.root, st.qid)), Qids([st.qid]))
  }

  function DoWalk(s: Conn, cfg: Config, host: Host, fid: nat, newfid: nat, names: seq<Name>): (Conn, Reply) {
    if |names| > MAXWELEM then (s, Error(EINVAL))
    else if fid !in s.fids then (s, Error(EBADF))
    else if s.fids[fid].mode.Some? then (s, Error(EINVAL))
    else if newfid != fid && newfid in s.fids then (s, Error(EBADF))
    else
      var f := s.fids[fid];
      var w := WalkFrom(cfg, host, Walked(f.path, [], None), names);
      if w.stopped == Some(Raised) then Dropped(s)
      else if w.stopped.Some? then (s, if w.qids == [] then Error(w.stopped.value.errno) else Qids(w.qids))
      else
        var qid := if w.qids == [] then f.qid else w.qids[|w.qids| - 1];
        (Set(s, newfid, NewFid(w.path, qid)), Qids(w.qids))
  }

  /** The entries of a directory as _opendir() snapshots them. */
  function Entries(host: Host, path: string, names: seq<Name>, dotu: bool): (ents: seq<Bytes>)
    decreases |names|
  {
    if names == [] then []
    else
      Entries(host, path, names[..|names| - 1], dotu)
      + match host.entry(path, names[|names| - 1])
        case None => []
        case Some(a) => [StatBytes(a, dotu)]
  }

  function OpenDir(host: Host, path: string, dotu: bool): Outcome<seq<Bytes>> {
    var names :- host.list(path);
    Ok(Entries(host, path, names, dotu))
  }

  /** The end of do_open() and do_create(): open, whatever the last lstat says. */
  function Finish(s: Conn, host: Host, fid: nat, f: Fid, mode: nat): (Conn, Reply) {
    var g := f.(mode := Some(mode), rclose := RemovesOnClose(mode));
    match host.stat(f.path)
    case Err(e) => (Set(s, fid, g), Error(e))
    case Ok(st) => (Set(s, fid, g.(qid := st.qid)), Opened(st.qid, if s.msize >= IOHDRSZ then s.msize - IOHDRSZ else 0))
  }

  function DoOpen(s: Conn, cfg: Config, host: Host, fid: nat, mode: nat, effect: Effect, after: Host): (Conn, Reply) {
    if fid !in s.fids then (s, Error(EBADF))
    else if s.fids[fid].mode.Some? then (s, Error(EINVAL))
    else
      var f := s.fids[fid];
      match host.stat(f.path)
      case Err(e) => (s, Error(e))
      case Ok(st) =>
        if (Writes(mode) || Truncates(mode) || RemovesOnClose(mode)) && cfg.readonly then (s, Error(EROFS))
        else if st.kind == Dir then
          if mode % 4 != 0 || Truncates(mode) then (s, Error(EISDIR))
          else
            match OpenDir(host, f.path, s.dotu)
            case Err(e) => (s, Error(e))
            case Ok(ents) => Finish(s, after, fid, f.(ents := Some(ents)), mode)
        else
          match effect
          case Failed(e) => (s, Error(e))
          case Did => Finish(s, after, fid, f.(file := true), mode)
  }

  /** What Tcreate's perm asks for; a device with the two numbers of its
      extension, if they are numbers. */
  datatype Made = MakeDir | MakeLink | MakePipe | MakeDevice(numbers: Option<(int, int)>) | MakeFile

  /** The numbers are more than the host's makedev() takes: OverflowError, which is
      neither OSError nor ValueError. */
  predicate Overflows(cfg: Config, made: Made) { made.MakeDevice? && made.numbers.Some? && !cfg.device(made.numbers.value.0, made.numbers.value.1) }

  /** do_create() turns ValueError into an error of its own. */
  predicate BadValue(made: Made, name: Name) { made == MakeDevice(None) || Nul(name) }

  function DoCreate(s: Conn, cfg: Config, host: Host, fid: nat, name: Name, made: Made, mode: nat, effect: Effect, after: Host)
    : (Conn, Reply)
  {
    if fid !in s.fids then (s, Error(EBADF))
    else if cfg.readonly then (s, Error(EROFS))
    else if s.fids[fid].mode.Some? then (s, Error(EINVAL))
    else if name == "" || name == "." || name == ".." || '/' in name then (s, Error(EINVAL))
    else
      var f := s.fids[fid];
      match host.stat(f.path)
      case Err(e) => (s, Error(e))
      case Ok(st) =>
        if st.kind != Dir then (s, Error(ENOTDIR))
        else if !Contains(cfg, host, Join(f.path, name)) then (s, Error(EACCES))
        else if Overflows(cfg, made) then Dropped(s)
        else if BadValue(made, name) then (s, Error(EINVAL))
        else
          match effect
          case Failed(e) => (s, Error(e))
          case Did =>
            var g := f.(path := Join(f.path, name));
            if made.MakeDir? then
              match OpenDir(after, g.path, s.dotu)
              case Err(e) => (Set(s, fid, g), Error(e))
              case Ok(ents) => Finish(s, after, fid, g.(ents := Some(ents)), mode)
            else Finish(s, after, fid, if made.MakeFile? then g.(file := true) else g, mode)
  }

  /** What a read or a write of the open file gave, if it can be sought in at all. */
  datatype Transfer = Moved(bytes: Bytes) | Refused(errno: nat) | Unseekable

  /** seek() and then the transfer.  An offset that no signed 64 bits hold raises
      ValueError or OverflowError. */
  function Sought(s: Conn, offset: nat, file: Transfer, done: Reply): (Conn, Reply) {
    if file.Unseekable? then (s, Error(EIO))
    else if offset >= OFFMAX then Dropped(s)
    else if file.Refused? then (s, Error(file.errno))
    else (s, done)
  }

  function Bounded(s: Conn, count: nat): nat {
    var most := if s.msize >= IOHDRSZ then s.msize - IOHDRSZ else 0;
    if count < most then count else most
  }

  function DoRead(s: Conn, host: Host, fid: nat, offset: nat, count: nat, file: Transfer): (Conn, Reply) {
    if fid !in s.fids then (s, Error(EBADF))
    else
      var f := s.fids[fid];
      if f.mode.None? then (s, Error(EINVAL))
      else if f.mode.value % 4 == 1 then (s, Error(EACCES))
      else if f.ents.Some? then
        match (if offset == 0 then OpenDir(host, f.path, s.dotu) else Ok(f.ents.value))
        case Err(e) => (s, Error(e))
        case Ok(ents) =>
          match NineDir.ReadDir(ents, offset, Bounded(s, count))
          case Err(e) => (s, Error(e))
          case Ok(bytes) => (if offset == 0 then Set(s, fid, f.(ents := Some(ents))) else s, Data(bytes))
      else if !f.file then Dropped(s)
      else Sought(s, offset, file, if file.Moved? then Data(file.bytes) else Plainly)
  }

  function DoWrite(s: Conn, cfg: Config, fid: nat, offset: nat, file: Transfer): (Conn, Reply) {
    if fid !in s.fids then (s, Error(EBADF))
    else
      var f := s.fids[fid];
      if cfg.readonly then (s, Error(EROFS))
      else if f.mode.None? then (s, Error(EINVAL))
      else if f.mode.value % 4 == 0 then (s, Error(EACCES))
      else if f.ents.Some? then (s, Error(EISDIR))
      else if !f.file then Dropped(s)
      else Sought(s, offset, file, Plainly)
  }

  function Drop(s: Conn, fid: nat): Conn { s.(fids := s.fids - {fid}) }

  /** What a message asks the host to unlink: clunk(5) of a fid opened to be removed
      on close, whatever comes of it, and remove(5). */
  function Unlinks(s: Conn, cfg: Config, m: Message): Option<string> {
    if cfg.readonly then None
    else
      match m
      case Tclunk(fid) => if fid in s.fids && s.fids[fid].rclose then Some(s.fids[fid].path) else None
      case Tremove(fid, _) => if fid in s.fids && s.fids[fid].path != cfg.root then Some(s.fids[fid].path) else None
      case _ => None
  }

  function DoClunk(s: Conn, fid: nat): (Conn, Reply) {
    if fid !in s.fids then (s, Error(EBADF)) else (Drop(s, fid), Plainly)
  }

  function DoRemove(s: Conn, cfg: Config, fid: nat, effect: Effect): (Conn, Reply) {
    if fid !in s.fids then (s, Error(EBADF))
    else
      var t := Drop(s, fid);
      if cfg.readonly then (t, Error(EROFS))
      else if s.fids[fid].path == cfg.root then (t, Error(EACCES))
      else
        match effect
        case Failed(e) => (t, Error(e))
        case Did => (t, Plainly)
  }

  function DoStat(s: Conn, host: Host, fid: nat): (Conn, Reply) {
    if fid !in s.fids then (s, Error(EBADF))
    else
      match host.stat(s.fids[fid].path)
      case Err(e) => (s, Error(e))
      case Ok(_) => (s, Plainly)
  }

  /** The rename of do_wstat(): the new path, or why not. */
  function Renamed(cfg: Config, host: Host, path: string, name: Name, effect: Effect): Found {
    if name == "" then There(path)
    else
      var moved := Join(Dirname(path), name);
      if '/' in name || name == "." || name == ".." then Not(Errno(EINVAL))
      else if !Contains(cfg, host, moved) then Not(Errno(EACCES))
      else if moved == path then There(path)
      else if Nul(name) then Not(Raised)
      else if host.lstat(moved).Ok? then Not(Errno(EEXIST))
      else
        match effect
        case Failed(e) => Not(Errno(e))
        case Did => There(moved)
  }

  /** What Twstat changes, and how each system call went. */
  datatype Changes = Changes(
    name: Name, mode: nat, atime: nat, mtime: nat, length: nat,
    rename: Effect, chmod: Effect, utime: Effect, truncate: Effect)

  /** A link is never changed through without -L. */
  predicate Through(cfg: Config, host: Host, path: string) {
    !cfg.follow && host.lstat(path).Ok? && host.lstat(path).value.kind == Link
  }

  /** The mode, the times and the length of the file now at path: what stops it. */
  function Changed(cfg: Config, host: Host, f: Fid, w: Changes): Option<Stop> {
    var through := Through(cfg, host, f.path);
    if w.mode != NOTOUCH4 && through then Some(Errno(EINVAL))
    else if w.mode != NOTOUCH4 && w.chmod.Failed? then Some(Errno(w.chmod.errno))
    else
      var times := Timed(host, f.path, through, w);
      if times.Some? then Some(Errno(times.value))
      else if w.length == NOTOUCH8 then None
      else if through then Some(Errno(EINVAL))
      else Resized(f, w)
  }

  function Timed(host: Host, path: string, through: bool, w: Changes): Option<nat> {
    if w.atime == NOTOUCH4 && w.mtime == NOTOUCH4 then None
    else
      var st := if through then host.lstat(path) else host.stat(path);
      if st.Err? then Some(st.errno) else if w.utime.Failed? then Some(w.utime.errno) else None
  }

  /** truncate(): an open file must be open for writing, and a length that no signed
      64 bits hold raises OverflowError. */
  function Resized(f: Fid, w: Changes): Option<Stop> {
    if f.file && !(f.mode.Some? && Writes(f.mode.value)) then Some(Errno(EIO))
    else if w.length >= OFFMAX then Some(Raised)
    else if w.truncate.Failed? then Some(Errno(w.truncate.errno))
    else None
  }

  function Touched(s: Conn, cfg: Config, host: Host, fid: nat, w: Changes): (Conn, Reply)
    requires fid in s.fids
  {
    match Changed(cfg, host, s.fids[fid], w)
    case None => (s, Plainly)
    case Some(Errno(e)) => (s, Error(e))
    case Some(Raised) => Dropped(s)
  }

  /** do_wstat(): the rename first; what follows may fail with the fid moved. */
  function DoWstat(s: Conn, cfg: Config, host: Host, fid: nat, w: Changes, after: Host): (Conn, Reply) {
    if fid !in s.fids then (s, Error(EBADF))
    else if cfg.readonly then (s, Error(EROFS))
    else
      match Renamed(cfg, host, s.fids[fid].path, w.name, w.rename)
      case Not(Raised) => Dropped(s)
      case Not(Errno(e)) => (s, Error(e))
      case There(path) =>
        Touched(Set(s, fid, s.fids[fid].(path := path)), cfg, after, fid, w)
  }

  // ---- any message ----

  datatype Message =
    | Tversion(msize: nat, version: string)
    | Tauth
    | Tflush
    | Tattach(fid: nat)
    | Twalk(fid: nat, newfid: nat, names: seq<Name>)
    | Topen(fid: nat, mode: nat, effect: Effect, after: Host)
    | Tcreate(fid: nat, name: Name, made: Made, mode: nat, effect: Effect, after: Host)
    | Tread(fid: nat, offset: nat, count: nat, file: Transfer)
    | Twrite(fid: nat, offset: nat, file: Transfer)
    | Tclunk(fid: nat)
    | Tremove(fid: nat, effect: Effect)
    | Tstat(fid: nat)
    | Twstat(fid: nat, changes: Changes, after: Host)
    | Malformed(errno: nat)

  /** dispatch() */
  function Dispatch(s: Conn, cfg: Config, host: Host, m: Message): (Conn, Reply) {
    match m
    case Tversion(msize, version) => DoVersion(s, msize, version)
    case Tauth => (s, Error(EPERM))
    case Tflush => (s, Plainly)
    case Tattach(fid) => DoAttach(s, cfg, host, fid)
    case Twalk(fid, newfid, names) => DoWalk(s, cfg, host, fid, newfid, names)
    case Topen(fid, mode, effect, after) => DoOpen(s, cfg, host, fid, mode, effect, after)
    case Tcreate(fid, name, made, mode, effect, after) => DoCreate(s, cfg, host, fid, name, made, mode, effect, after)
    case Tread(fid, offset, count, file) => DoRead(s, host, fid, offset, count, file)
    case Twrite(fid, offset, file) => DoWrite(s, cfg, fid, offset, file)
    case Tclunk(fid) => DoClunk(s, fid)
    case Tremove(fid, effect) => DoRemove(s, cfg, fid, effect)
    case Tstat(fid) => DoStat(s, host, fid)
    case Twstat(fid, changes, after) => DoWstat(s, cfg, host, fid, changes, after)
    case Malformed(e) => (s, Error(e))
  }

  /** recv_msg() takes no other size, and serve() stops at one. */
  predicate Misframed(s: Conn, size: nat) { size < 7 || size > s.msize + IOHDRSZ }

  /** One turn of serve(): a message as its first four bytes announce it. */
  function Serve(s: Conn, cfg: Config, host: Host, size: nat, m: Message): (Conn, Reply) {
    if Misframed(s, size) then Dropped(s) else Dispatch(s, cfg, host, m)
  }
}
