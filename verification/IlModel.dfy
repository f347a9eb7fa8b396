/** The Interlan NI1010 of libsimh/patches/pdp11_il.c as a state machine: what
    every driver command, frame arrival, poll and acknowledgement makes of the
    controller, with a log of what it has done to the guest. */
module IlModel {

  import opened Basics

  const RXQ: nat := 16                  // IL_RXQ, ni1010a.c's MAXRBUFS
  const HDRLEN: nat := 4
  const CRCLEN: nat := 4
  const MAXFRAME: nat := 1518           // 14 + 1500 + CRC
  const TXBUF: nat := 1582              // MAXFRAME + 64
  const BURST: nat := 200               // IL_BURST
  const MACLEN: nat := 6

  // ---- the guest, as far as the board can see it ----

  /** One access to the guest: which DMA transfers fault, what a read returns,
      and whether the host network takes a frame. */
  datatype Bus = Bus(writable: (nat, nat) -> bool, read: (nat, nat) -> Bytes, readable: (nat, nat) -> bool, sends: bool)

  /** A supplied receive buffer: UNIBUS address and programmed byte count. */
  datatype RxBuf = RxBuf(ba: nat, bc: nat)

  // ---- the registers ----

  type Word = v: int | 0 <= v < 0x1_0000

  datatype Status = Success | Retries | BadCmd | BufSiz | FrameSiz | Nxm

  function StatusCode(s: Status): nat {
    match s
    case Success => 0
    case Retries => 1
    case BadCmd => 2
    case BufSiz => 5
    case FrameSiz => 6
    case Nxm => 15
  }

  type Eua = e: int | 0 <= e < 4
  type Code = c: int | 0 <= c < 64

  /** What a driver writes to the command register: the extended address in
      bits 15-14, the command in 13-8, and the two interrupt enables. */
  datatype Order = Order(eua: Eua, code: Code, cie: bool, rie: bool)

  function Bit(v: Word, weight: nat): bool
    requires weight > 0
  {
    (v / weight) % 2 == 1
  }

  function ReadOrder(v: Word): Order {
    Order(v / 0x4000, (v / 0x100) % 64, Bit(v, 0x40), Bit(v, 0x10))
  }

  /** The command and status register: what was last ordered, the two done bits
      and the status field. */
  datatype Csr = Csr(order: Order, cdone: bool, rdone: bool, status: Status)

  function CsrBits(c: Csr): int {
    c.order.eua * 0x4000 + c.order.code * 0x100
    + (if c.cdone then 0x80 else 0) + (if c.order.cie then 0x40 else 0)
    + (if c.rdone then 0x20 else 0) + (if c.order.rie then 0x10 else 0) + StatusCode(c.status)
  }

  const DEFAULT_MAC: Bytes := [2, 7, 1, 0, 0, 1]

  /** il_dmaddr(): bits 17 and 16 of the UNIBUS address ride in the top of the
      command word, shifted up by two; the BAR holds the rest. */
  function DmaAddress(o: Order, bar: Word): (ba: nat)
    ensures ba < 0x4_0000
  {
    o.eua * 0x1_0000 + bar
  }

  datatype Cmd =
    | Reset | Online | Offline | Diag | Stat | Rcv | Flush | LdXmit | Xmit | Promisc(on: bool)
    | Loopback(on: bool) | LdPa | DefPa | Accepted | Unknown

  /** The switch of il_command().  The commands accepted and ignored are ALLMC,
      CALLMC, LDGRPS, RMGRPS, RCVERR, CRCVERR, ISA, CISA and DELAYS. */
  function Decode(c: Code): Cmd {
    if c == 0x3F then Reset
    else if c == 0x09 then Online
    else if c == 0x08 then Offline
    else if c == 0x0A then Diag
    else if c == 0x18 then Stat
    else if c == 0x20 then Rcv
    else if c == 0x30 then Flush
    else if c == 0x28 then LdXmit
    else if c == 0x29 then Xmit
    else if c == 0x04 then Promisc(true)
    else if c == 0x05 then Promisc(false)
    else if c == 0x01 || c == 0x02 then Loopback(true)
    else if c == 0x03 then Loopback(false)
    else if c == 0x2C then LdPa
    else if c == 0x0F then DefPa
    else if c in {0x10, 0x11, 0x2A, 0x2B, 0x06, 0x07, 0x0D, 0x0E, 0x19} then Accepted
    else Unknown
  }

  // ---- the controller ----

  /** The receive side: a ring of supplied buffers and the frame in flight. */
  datatype Rx = Rx(
    ring: seq<RxBuf>, head: nat, count: nat,
    frame: Bytes, off: nat, busy: bool,   // rxtotal is |frame|
    lost: bool)

  datatype Ints = Ints(
    cie: bool, rie: bool,
    cint: bool, rint: bool,
    cline: bool, rline: bool,             // the two requests on the bus
    rpend: nat)

  datatype Regs = Regs(csr: Csr, bar: Word, bcr: Word)

  datatype Mode = Mode(online: bool, promisc: bool, loopback: bool)

  datatype Counters = Counters(ipackets: nat, opackets: nat, ierrors: nat, oerrors: nat)

  datatype State = State(
    regs: Regs, ints: Ints, rx: Rx, tx: Bytes, mac: Bytes,
    mode: Mode, burst: nat, attached: bool, counters: Counters)

  // ---- the log ----

  /** One buffer used for a frame, and the bytes put in it. */
  datatype Part = Part(buf: RxBuf, bytes: Bytes)

  datatype End = Open | Complete | Truncated | Faulted | Flushed | Overrun

  datatype Delivery = Delivery(image: Bytes, parts: seq<Part>, end: End)

  /** Buffers taken (less those flushed unused), buffers used, and every frame
      begun. */
  datatype RxLog = RxLog(accepted: seq<RxBuf>, used: seq<RxBuf>, deliveries: seq<Delivery>)

  /** Completions raised, vectors returned, those of them with nothing pending,
      completions forgotten, and whether a RESET or FLUSH has been executed. */
  datatype IntLog = IntLog(raised: nat, vectors: nat, spurious: nat, forgotten: nat, cleared: bool)

  datatype Log = Log(rx: RxLog, ints: IntLog, sent: seq<Bytes>, reports: seq<(nat, Bytes)>)

  datatype World = World(dev: State, log: Log)

  const BLANK := Csr(Order(0, 0, false, false), false, false, Success)

  function Cleared(c: Csr): Csr { c.(cdone := false, rdone := false) }

  // ---- interrupts ----

  function SetCint(i: Ints): Ints {
    if i.cie then i.(cint := true, cline := true) else i
  }

  /** il_setrint(): one more completion, if the driver asked to hear of them. */
  function SetRint(i: Ints, l: IntLog): (Ints, IntLog) {
    if i.rie then (i.(rpend := i.rpend + 1, rint := true, rline := true), l.(raised := l.raised + 1))
    else (i, l)
  }

  /** il_rint_ack().  The bus grants the request, which drops the line, and the
      board answers with its vector or with nothing. */
  function AckReceive(i: Ints, l: IntLog): (Ints, IntLog, bool) {
    if !i.rint then (i.(rline := false), l, false)
    else
      var left := if i.rpend > 0 then i.rpend - 1 else 0;
      (i.(rpend := left, rint := left > 0, rline := left > 0),
       l.(vectors := l.vectors + 1, spurious := if i.rpend > 0 then l.spurious else l.spurious + 1),
       true)
  }

  function AckCommand(i: Ints): (Ints, bool) {
    if i.cint then (i.(cint := false, cline := false), true) else (i, false)
  }

  function Forget(i: Ints, l: IntLog): (Ints, IntLog) {
    (i.(rpend := 0), l.(forgotten := l.forgotten + i.rpend, cleared := true))
  }

  // ---- receive ----

  /** What a frame looks like in the guest: status, pad, length, frame, and
      four bytes in place of the CRC. */
  function Image(frame: Bytes, lost: bool): Bytes {
    var total := |frame| + CRCLEN;
    [if lost then 4 else 0, 0, total % 256, (total / 256) % 256] + frame + [0, 0, 0, 0]
  }

  function Clip(frame: Bytes): Bytes {
    if |frame| > MAXFRAME - CRCLEN then frame[..MAXFRAME - CRCLEN] else frame
  }

  predicate Ringed(x: Rx) { |x.ring| == RXQ && x.head < RXQ && x.count <= RXQ && x.off <= |x.frame| }

  function Extend(d: Delivery, p: Part, end: End): Delivery {
    Delivery(d.image, d.parts + [p], end)
  }

  /** The last delivery with one more buffer used on it. */
  function Used(l: RxLog, p: Part, end: End): RxLog {
    var ds := l.deliveries;
    l.(used := l.used + [p.buf],
       deliveries := if ds == [] then ds else ds[..|ds| - 1] + [Extend(ds[|ds| - 1], p, end)])
  }

  /** The last delivery abandoned. */
  function Abandoned(l: RxLog, end: End): RxLog {
    var ds := l.deliveries;
    if ds == [] then l else l.(deliveries := ds[..|ds| - 1] + [ds[|ds| - 1].(end := end)])
  }

  function Min(a: nat, b: nat): nat { if a < b then a else b }

  /** The bytes il_rxpump() puts in the buffer at the head: none if they fault. */
  function NextPart(x: Rx, bus: Bus): Part
    requires Ringed(x)
  {
    var rb := x.ring[x.head];
    var chunk := Min(|x.frame| - x.off, rb.bc);
    Part(rb, if bus.writable(rb.ba, chunk) then x.frame[x.off..x.off + chunk] else [])
  }

  /** Whether the frame goes on after that buffer.  A byte count that is not a
      multiple of 8 says "last buffer, truncate here". */
  function NextEnd(x: Rx, bus: Bus): End
    requires Ringed(x)
  {
    var rb := x.ring[x.head];
    var chunk := Min(|x.frame| - x.off, rb.bc);
    if !bus.writable(rb.ba, chunk) then Faulted
    else if x.off + chunk >= |x.frame| then Complete
    else if rb.bc % 8 != 0 then Truncated
    else Open
  }

  predicate Pumps(x: Rx) { x.busy && x.count > 0 }

  /** il_rxpump(): one buffer's worth of the frame in flight. */
  function PumpRx(x: Rx, l: RxLog, bus: Bus): (r: (Rx, RxLog))
    requires Ringed(x)
    ensures Ringed(r.0)
  {
    if !Pumps(x) then (x, l)
    else
      var p, end := NextPart(x, bus), NextEnd(x, bus);
      (x.(head := (x.head + 1) % RXQ, count := x.count - 1, off := x.off + |p.bytes|, busy := end == Open),
       Used(l, p, end))
  }

  /** The rest of il_rxpump(): the counters, the status field and the interrupt. */
  function Pump(w: World, bus: Bus): (v: World)
    requires Ringed(w.dev.rx)
    ensures Ringed(v.dev.rx)
  {
    var s := w.dev;
    if !Pumps(s.rx) then w
    else
      var (x, l) := PumpRx(s.rx, w.log.rx, bus);
      var end, c := NextEnd(s.rx, bus), s.counters;
      var csr := if end == Faulted then s.regs.csr.(status := Nxm) else s.regs.csr;
      var counters := if end == Faulted then c.(ierrors := c.ierrors + 1)
                      else if end == Open then c
                      else c.(ipackets := c.ipackets + 1);
      var (i, il) := SetRint(s.ints, w.log.ints);
      World(s.(regs := s.regs.(csr := csr.(rdone := true)), ints := i, rx := x, counters := counters),
            w.log.(rx := l, ints := il))
  }

  /** What il_deliver() does before it pumps.  Nothing here asks whether
      another frame is in flight. */
  function Begin(x: Rx, l: RxLog, frame: Bytes): (r: (Rx, RxLog))
    requires Ringed(x)
    ensures Ringed(r.0)
  {
    var image := Image(Clip(frame), x.lost);
    var l1 := if x.busy then Abandoned(l, Overrun) else l;
    (x.(lost := false, frame := image, off := 0, busy := true),
     l1.(deliveries := l1.deliveries + [Delivery(image, [], Open)]))
  }

  /** il_deliver(): a frame off the wire, or out of the transmitter in loopback. */
  function Deliver(w: World, frame: Bytes, bus: Bus): (v: World)
    requires Ringed(w.dev.rx)
    ensures Ringed(v.dev.rx)
  {
    var s := w.dev;
    if |frame| < 14 then w
    else if s.rx.count == 0 then
      World(s.(rx := s.rx.(lost := true), counters := s.counters.(ierrors := s.counters.ierrors + 1)), w.log)
    else
      var (x, l) := Begin(s.rx, w.log.rx, frame);
      Pump(World(s.(rx := x), w.log.(rx := l)), bus)
  }

  // ---- commands ----

  function StatRecord(s: State): (r: Bytes)
    requires |s.mac| == MACLEN
    ensures |r| == 66
  {
    var c := s.counters;
    [0, 0, 62, 0] + s.mac
    + [c.ipackets % 256, (c.ipackets / 256) % 256, 0, 0, c.opackets % 256, (c.opackets / 256) % 256]
    + seq(34, _ => 0)
    + [78, 73, 49, 48, 49, 48, 32, 32]         // "NI1010  "
    + [83, 73, 77, 72, 32, 32, 32, 32]         // "SIMH    "
  }

  /** RESET empties the ring but leaves the frame in flight, and the request. */
  function DoReset(w: World): World {
    var s := w.dev;
    var (i, il) := Forget(s.ints, w.log.ints);
    World(s.(mode := Mode(false, false, false), rx := s.rx.(head := 0, count := 0, lost := false),
             ints := i, burst := 0, tx := [], regs := s.regs.(csr := Cleared(s.regs.csr))),
          w.log.(rx := w.log.rx.(accepted := w.log.rx.used), ints := il))
  }

  function DoFlush(w: World): World {
    var s := w.dev;
    var (i, il) := Forget(s.ints, w.log.ints);
    var l := if s.rx.busy then Abandoned(w.log.rx, Flushed) else w.log.rx;
    World(s.(rx := s.rx.(head := 0, count := 0, busy := false), ints := i),
          w.log.(rx := l.(accepted := l.used), ints := il))
  }

  function DoStat(w: World, ba: nat, bus: Bus): (World, Status)
    requires |w.dev.mac| == MACLEN
  {
    var bc := w.dev.regs.bcr;
    var n := if 0 < bc < 66 then bc else 66;
    if bus.writable(ba, n) then
      (World(w.dev, w.log.(reports := w.log.reports + [(ba, StatRecord(w.dev)[..n])])), Success)
    else (w, Nxm)
  }

  function Supply(x: Rx, l: RxLog, buf: RxBuf): (r: (Rx, RxLog))
    requires Ringed(x) && x.count < RXQ
    ensures Ringed(r.0)
  {
    var n := (x.head + x.count) % RXQ;
    (x.(ring := x.ring[n := buf], count := x.count + 1), l.(accepted := l.accepted + [buf]))
  }

  function DoRcv(w: World, ba: nat, bus: Bus): (r: (World, Status))
    requires Ringed(w.dev.rx)
    ensures Ringed(r.0.dev.rx)
  {
    var s := w.dev;
    if s.rx.count >= RXQ then (w, BufSiz)
    else
      var (x, l) := Supply(s.rx, w.log.rx, RxBuf(ba, s.regs.bcr));
      (Pump(World(s.(rx := x), w.log.(rx := l)), bus), Success)
  }

  /** The frame on the wire: the board puts its own source address in. */
  function Outgoing(tx: Bytes, mac: Bytes): Bytes
    requires |tx| >= 6
  {
    var f := tx[..6] + mac + tx[6..];
    if |f| < 60 then f + seq(60 - |f|, _ => 0) else f
  }

  /** A DMA read that succeeds returns as many bytes as were asked for. */
  function Fetch(bus: Bus, ba: nat, n: nat): (r: Bytes)
    ensures |r| == n
  {
    var b := bus.read(ba, n);
    if |b| == n then b else seq(n, _ => 0)
  }

  function Transmit(w: World, out: Bytes, bus: Bus): (r: (World, Status))
    requires Ringed(w.dev.rx)
    ensures Ringed(r.0.dev.rx)
  {
    if w.dev.mode.loopback then (Deliver(w, out, bus), Success)
    else if !w.dev.attached then (w, Success)
    else if bus.sends then (World(w.dev, w.log.(sent := w.log.sent + [out])), Success)
    else
      var c := w.dev.counters;
      (World(w.dev.(counters := c.(oerrors := c.oerrors + 1)), w.log), Retries)
  }

  /** LDXMIT and XMIT: fragments are held until the one that sends. */
  function DoXmit(w: World, ba: nat, send: bool, bus: Bus): (r: (World, Status))
    requires Ringed(w.dev.rx)
    ensures Ringed(r.0.dev.rx)
  {
    var s := w.dev;
    var bc := s.regs.bcr;
    if |s.tx| + bc > TXBUF then (World(s.(tx := []), w.log), BufSiz)
    else if bc > 0 && !bus.readable(ba, bc) then (World(s.(tx := []), w.log), Nxm)
    else
      var tx := if bc > 0 then s.tx + Fetch(bus, ba, bc) else s.tx;
      if !send then (World(s.(tx := tx), w.log), Success)
      else if |tx| < 8 then (World(s.(tx := []), w.log), FrameSiz)
      else
        var (v, status) := Transmit(w, Outgoing(tx, s.mac), bus);
        var c := v.dev.counters;
        (World(v.dev.(tx := [], counters := c.(opackets := c.opackets + 1)), v.log), status)
  }

  /** The commands that only change a mode or an address. */
  function SetMode(w: World, m: Mode): World { World(w.dev.(mode := m), w.log) }

  function DoLdPa(w: World, ba: nat, bus: Bus): (World, Status) {
    if bus.readable(ba, MACLEN) then (World(w.dev.(mac := Fetch(bus, ba, MACLEN)), w.log), Success) else (w, Nxm)
  }

  function Execute(w: World, cmd: Cmd, ba: nat, bus: Bus): (r: (World, Status))
    requires Ringed(w.dev.rx) && |w.dev.mac| == MACLEN
    ensures Ringed(r.0.dev.rx)
  {
    match cmd
    case Reset => (DoReset(w), Success)
    case Online => (SetMode(w, w.dev.mode.(online := true)), Success)
    case Offline => (SetMode(w, w.dev.mode.(online := false)), Success)
    case Diag => (w, Success)
    case Stat => DoStat(w, ba, bus)
    case Rcv => DoRcv(w, ba, bus)
    case Flush => (DoFlush(w), Success)
    case LdXmit => DoXmit(w, ba, false, bus)
    case Xmit => DoXmit(w, ba, true, bus)
    case Promisc(on) => (SetMode(w, w.dev.mode.(promisc := on)), Success)
    case Loopback(on) => (SetMode(w, w.dev.mode.(loopback := on)), Success)
    case LdPa => DoLdPa(w, ba, bus)
    case DefPa => (World(w.dev.(mac := DEFAULT_MAC), w.log), Success)
    case Accepted => (w, Success)
    case Unknown => (w, BadCmd)
  }

  /** What is left in the command and status register: the done bits, what the
      driver wrote, and the command's own status. */
  function Answer(c: Csr, o: Order, status: Status): Csr {
    Csr(o, true, c.rdone, status)
  }

  function Enable(i: Ints, o: Order): Ints {
    i.(cie := o.cie, rie := o.rie)
  }

  /** il_command(): the enables are taken first, and whatever the command did to
      the status field, its own status is what is left there. */
  function Command(w: World, o: Order, bus: Bus): (v: World)
    requires Ringed(w.dev.rx) && |w.dev.mac| == MACLEN
    ensures Ringed(v.dev.rx)
  {
    var (v, status) := Execute(World(w.dev.(ints := Enable(w.dev.ints, o)), w.log),
                               Decode(o.code), DmaAddress(o, w.dev.regs.bar), bus);
    World(v.dev.(regs := v.dev.regs.(csr := Answer(v.dev.regs.csr, o, status)), ints := SetCint(v.dev.ints)), v.log)
  }

  // ---- polling ----

  datatype Polled = Polled(w: World, wire: seq<Bytes>, got: bool)

  /** il_svc()'s loop: frames are taken while there is a buffer for the next
      and none is in flight. */
  function Poll(w: World, wire: seq<Bytes>, bus: Bus): (r: Polled)
    requires Ringed(w.dev.rx)
    ensures Ringed(r.w.dev.rx)
    decreases |wire|
  {
    if w.dev.rx.busy || wire == [] then Polled(w, wire, false)
    else if wire[0] == [] then Polled(w, wire[1..], false)
    else
      var v := Deliver(w, wire[0], bus);
      if v.dev.rx.count > 0 && !v.dev.rx.busy then Poll(v, wire[1..], bus).(got := true)
      else Polled(v, wire[1..], true)
  }

  /** A burst of fast calls starts only when the last has run out. */
  function NextBurst(burst: nat, got: bool): (nat, bool) {
    var b := if got && burst == 0 then BURST else burst;
    if b > 0 then (b - 1, true) else (0, false)
  }

  datatype Serviced = Serviced(w: World, wire: seq<Bytes>, fast: bool)

  /** il_svc(): frames, then when to be called again.  Fast means about 200
      microseconds from now; otherwise the call rides the clock. */
  function Service(w: World, wire: seq<Bytes>, bus: Bus): (r: Serviced)
    requires Ringed(w.dev.rx)
    ensures Ringed(r.w.dev.rx)
  {
    var p := if w.dev.attached then Poll(Pump(w, bus), wire, bus) else Polled(w, wire, false);
    var (b, fast) := NextBurst(p.w.dev.burst, p.got);
    Serviced(World(p.w.dev.(burst := b), p.w.log), p.wire, fast)
  }

  /** il_reset(), the simulator's own reset.  It, too, leaves rxbusy alone. */
  function DeviceReset(w: World): World {
    var s := w.dev;
    var il := Forget(s.ints, w.log.ints).1;
    World(s.(regs := Regs(BLANK, 0, 0), ints := Ints(false, false, false, false, false, false, 0),
             mode := Mode(false, false, false), rx := s.rx.(head := 0, count := 0, lost := false), tx := [],
             mac := if s.mac == [0, 0, 0, 0, 0, 0] then DEFAULT_MAC else s.mac),
          w.log.(rx := w.log.rx.(accepted := w.log.rx.used), ints := il))
  }

  // ---- the registers ----

  /** A read clears the two done bits and leaves the status field. */
  function ReadCsr(r: Regs): (Regs, int) {
    (r.(csr := Cleared(r.csr)), CsrBits(r.csr))
  }
}
