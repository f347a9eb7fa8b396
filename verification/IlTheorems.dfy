/** What the invariant says of whole runs, and where the board does less than
    its comments hope. */
module IlTheorems {
  import opened Basics
  import opened IlModel
  import opened IlRuns

  // ---- frames ----

  /** The frame a driver takes out of the buffers: ilr_length counts the frame
      and the CRC, and starts after the four-byte header. */
  function TakeFrame(b: Bytes): Option<Bytes> {
    if |b| < HDRLEN then None
    else
      var length: int := (b[2] as int) + 256 * (b[3] as int);
      if length < CRCLEN || |b| < HDRLEN + length then None
      else Some(b[HDRLEN..HDRLEN + length - CRCLEN])
  }

  /** A complete delivery gives the guest exactly the frame that arrived. */
  lemma CompleteGivesFrame(d: Delivery, frame: Bytes, lost: bool)
    requires GoodDelivery(d) && d.end == Complete && d.image == Image(frame, lost)
    ensures TakeFrame(Handed(d.parts)) == Some(frame)
    ensures Handed(d.parts)[0] == if lost then 4 else 0
  {
    var b := Handed(d.parts);
    var total := |frame| + CRCLEN;
    assert total < 0x1_0000;
    assert (b[2] as int) + 256 * (b[3] as int) == total;
    assert b[HDRLEN..HDRLEN + total - CRCLEN] == frame;
  }

  /** A frame that meets a supplied buffer is begun, whole but for its tail
      beyond 1514 bytes, and marked if any was dropped since the last. */
  lemma DeliverBegins(w: World, frame: Bytes, bus: Bus)
    requires Inv(w) && |frame| >= 14 && w.dev.rx.count > 0
    ensures var ds := Deliver(w, frame, bus).log.rx.deliveries;
            |ds| == |w.log.rx.deliveries| + 1
            && ds[|ds| - 1].image == Image(Clip(frame), w.dev.rx.lost)
            && |ds[|ds| - 1].parts| == 1
  {
    var (x, l) := Begin(w.dev.rx, w.log.rx, frame);
    assert Pumps(x);
  }

  // ---- undisturbed runs ----

  ghost predicate Sound(bus: Bus) { forall ba: nat, n: nat :: bus.writable(ba, n) }

  predicate Undisturbed(l: RxLog) {
    forall i :: 0 <= i < |l.deliveries| ==> l.deliveries[i].end in {Open, Complete, Truncated}
  }

  /** No DMA failure, and no FLUSH or loopback while a frame is in flight. */
  ghost predicate Calm(w: World, e: Event) {
    match e
    case Issue(o, bus) =>
      Sound(bus)
      && (w.dev.rx.busy ==> Decode(o.code) != Flush && (Decode(o.code) == Xmit ==> !w.dev.mode.loopback))
    case Call(_, bus) => Sound(bus)
    case _ => true
  }

  ghost predicate CalmRun(w: World, es: seq<Event>)
    requires Inv(w)
    decreases |es|
  {
    es == [] || (Calm(w, es[0]) && CalmRun(Step(w, es[0]), es[1..]))
  }

  lemma PumpCalm(w: World, bus: Bus)
    requires Inv(w) && Sound(bus) && Undisturbed(w.log.rx)
    ensures Undisturbed(Pump(w, bus).log.rx)
  {
    if Pumps(w.dev.rx) {
      assert NextEnd(w.dev.rx, bus) != Faulted;
    }
  }

  lemma DeliverCalm(w: World, frame: Bytes, bus: Bus)
    requires Inv(w) && Sound(bus) && Undisturbed(w.log.rx) && !w.dev.rx.busy
    ensures Undisturbed(Deliver(w, frame, bus).log.rx)
  {
    if |frame| >= 14 && w.dev.rx.count > 0 {
      var (x, l) := Begin(w.dev.rx, w.log.rx, frame);
      BeginKeeps(w.dev.rx, w.log.rx, frame);
      PumpCalm(World(w.dev.(rx := x), w.log.(rx := l)), bus);
    }
  }

  lemma {:induction false} PollCalm(w: World, wire: seq<Bytes>, bus: Bus)
    requires Inv(w) && Sound(bus) && Undisturbed(w.log.rx)
    ensures Undisturbed(Poll(w, wire, bus).w.log.rx)
    decreases |wire|
  {
    if !w.dev.rx.busy && wire != [] && wire[0] != [] {
      var v := Deliver(w, wire[0], bus);
      DeliverWorld(w, wire[0], bus);
      DeliverCalm(w, wire[0], bus);
      if v.dev.rx.count > 0 && !v.dev.rx.busy { PollCalm(v, wire[1..], bus); }
    }
  }

  lemma RcvCalm(w: World, ba: nat, bus: Bus)
    requires Inv(w) && Sound(bus) && Undisturbed(w.log.rx)
    ensures Undisturbed(DoRcv(w, ba, bus).0.log.rx)
  {
    if w.dev.rx.count < RXQ {
      var buf := RxBuf(ba, w.dev.regs.bcr);
      SupplyKeeps(w.dev.rx, w.log.rx, buf);
      var (x, l) := Supply(w.dev.rx, w.log.rx, buf);
      PumpCalm(World(w.dev.(rx := x), w.log.(rx := l)), bus);
    }
  }

  lemma XmitCalm(w: World, ba: nat, send: bool, bus: Bus)
    requires Inv(w) && Sound(bus) && Undisturbed(w.log.rx) && (w.dev.rx.busy && send ==> !w.dev.mode.loopback)
    ensures Undisturbed(DoXmit(w, ba, send, bus).0.log.rx)
  {
    var bc := w.dev.regs.bcr;
    var tx := if bc > 0 then w.dev.tx + Fetch(bus, ba, bc) else w.dev.tx;
    if |tx| >= 8 && w.dev.mode.loopback && send { DeliverCalm(w, Outgoing(tx, w.dev.mac), bus); }
  }

  lemma ExecuteCalm(w: World, cmd: Cmd, ba: nat, bus: Bus)
    requires Inv(w) && Sound(bus) && Undisturbed(w.log.rx)
    requires w.dev.rx.busy ==> cmd != Flush && (cmd == Xmit ==> !w.dev.mode.loopback)
    ensures Undisturbed(Execute(w, cmd, ba, bus).0.log.rx)
  {
    match cmd
    case Rcv => RcvCalm(w, ba, bus);
    case LdXmit => XmitCalm(w, ba, false, bus);
    case Xmit => XmitCalm(w, ba, true, bus);
    case _ =>
  }

  lemma StepCalm(w: World, e: Event)
    requires Inv(w) && Calm(w, e) && Undisturbed(w.log.rx)
    ensures Undisturbed(Step(w, e).log.rx)
  {
    match e
    case Issue(o, bus) =>
      ExecuteCalm(World(w.dev.(ints := Enable(w.dev.ints, o)), w.log),
                  Decode(o.code), DmaAddress(o, w.dev.regs.bar), bus);
    case Call(wire, bus) =>
      if w.dev.attached {
        PumpWorld(w, bus);
        PumpCalm(w, bus);
        PollCalm(Pump(w, bus), wire, bus);
      }
    case _ =>
  }

  /** Over every calm run, every frame but the one in flight was handed over in
      full or cut short by a buffer whose count is not a multiple of 8; each
      delivery's buffers hold a prefix of its image, and the buffers were used
      in the order they were supplied. */
  lemma {:induction false} CalmDelivery(w: World, es: seq<Event>)
    requires Inv(w) && Undisturbed(w.log.rx) && CalmRun(w, es)
    ensures var v := Run(w, es);
            Undisturbed(v.log.rx)
            && (forall i :: 0 <= i < |v.log.rx.deliveries| ==> GoodDelivery(v.log.rx.deliveries[i]))
            && v.log.rx.accepted == AllBufs(v.log.rx.deliveries) + Waiting(v.dev.rx)
    decreases |es|
  {
    if es != [] {
      StepCalm(w, es[0]);
      CalmDelivery(Step(w, es[0]), es[1..]);
    }
  }

  // ---- interrupts ----

  predicate Clears(e: Event) {
    e.Power? || (e.Issue? && (Decode(e.o.code) == Reset || Decode(e.o.code) == Flush))
  }

  lemma {:induction false} PollCleared(w: World, wire: seq<Bytes>, bus: Bus)
    requires Ringed(w.dev.rx)
    ensures Poll(w, wire, bus).w.log.ints.cleared == w.log.ints.cleared
    decreases |wire|
  {
    if !w.dev.rx.busy && wire != [] && wire[0] != [] {
      var v := Deliver(w, wire[0], bus);
      if v.dev.rx.count > 0 && !v.dev.rx.busy { PollCleared(v, wire[1..], bus); }
    }
  }

  lemma XmitCleared(w: World, ba: nat, send: bool, bus: Bus)
    requires Ringed(w.dev.rx)
    ensures DoXmit(w, ba, send, bus).0.log.ints.cleared == w.log.ints.cleared
  {
  }

  lemma ExecuteCleared(w: World, cmd: Cmd, ba: nat, bus: Bus)
    requires Ringed(w.dev.rx) && |w.dev.mac| == MACLEN
    ensures Execute(w, cmd, ba, bus).0.log.ints.cleared == (w.log.ints.cleared || cmd == Reset || cmd == Flush)
  {
    match cmd
    case LdXmit => XmitCleared(w, ba, false, bus);
    case Xmit => XmitCleared(w, ba, true, bus);
    case _ =>
  }

  lemma StepCleared(w: World, e: Event)
    requires Inv(w)
    ensures Step(w, e).log.ints.cleared == (w.log.ints.cleared || Clears(e))
  {
    match e
    case Issue(o, bus) =>
      ExecuteCleared(World(w.dev.(ints := Enable(w.dev.ints, o)), w.log),
                     Decode(o.code), DmaAddress(o, w.dev.regs.bar), bus);
    case Call(wire, bus) =>
      if w.dev.attached { PollCleared(Pump(w, bus), wire, bus); }
    case _ =>
  }

  lemma {:induction false} RunCleared(w: World, es: seq<Event>)
    requires Inv(w)
    ensures Run(w, es).log.ints.cleared == (w.log.ints.cleared || exists i :: 0 <= i < |es| && Clears(es[i]))
    decreases |es|
  {
    if es != [] {
      StepCleared(w, es[0]);
      RunCleared(Step(w, es[0]), es[1..]);
      assert forall i :: 0 <= i < |es| - 1 ==> es[1..][i] == es[i + 1];
      if i :| 0 <= i < |es| && Clears(es[i]) {
        assert i == 0 || Clears(es[1..][i - 1]);
      }
    }
  }

  /** Receive interrupts are conserved: without RESET, FLUSH or a power reset,
      every completion raised is a vector returned or is pending, and the
      request is up exactly while one is pending. */
  lemma InterruptsConserved(es: seq<Event>)
    requires forall i :: 0 <= i < |es| ==> !Clears(es[i])
    ensures Inv(INITIAL)
    ensures var v := Run(INITIAL, es);
            v.log.ints.raised == v.log.ints.vectors + v.dev.ints.rpend
            && (v.dev.ints.rint <==> v.dev.ints.rpend > 0)
            && (v.dev.ints.rline <==> v.dev.ints.rpend > 0)
  {
    InitialInv();
    RunCleared(INITIAL, es);
  }

  /** In every run, a pending completion keeps its request asserted. */
  lemma PendingAsserts(es: seq<Event>)
    ensures Inv(INITIAL) && (Run(INITIAL, es).dev.ints.rpend > 0 ==> Run(INITIAL, es).dev.ints.rline)
  {
    InitialInv();
  }

  /** A vector with nothing pending comes only after a RESET or FLUSH, and is
      what one leaves behind exactly when the request was up. */
  lemma StaleRequest(w: World)
    requires Inv(w)
    ensures DoFlush(w).dev.ints.rpend == 0 && DoReset(w).dev.ints.rpend == 0
    ensures AckReceive(DoFlush(w).dev.ints, w.log.ints).2 <==> w.dev.ints.rint
    ensures AckReceive(DoReset(w).dev.ints, w.log.ints).2 <==> w.dev.ints.rint
    ensures w.log.ints.spurious > 0 ==> w.log.ints.cleared
  {
  }

  // ---- where the code does less ----

  lemma PumpUses(x: Rx, l: RxLog, bus: Bus)
    requires Receiving(x, l) && Pumps(x)
    ensures var ds := PumpRx(x, l, bus).1.deliveries;
            |ds| == |l.deliveries| && ds[|ds| - 1].parts == l.deliveries[|ds| - 1].parts + [NextPart(x, bus)]
  {
  }

  lemma RcvUses(w: World, ba: nat, bus: Bus)
    requires Ringed(w.dev.rx) && w.dev.rx.count < RXQ && w.dev.rx.busy
    ensures var (x, l) := Supply(w.dev.rx, w.log.rx, RxBuf(ba, w.dev.regs.bcr));
            DoRcv(w, ba, bus).0.log.rx == PumpRx(x, l, bus).1
  {
    hide NextPart, NextEnd;
  }

  /** RESET leaves the frame in flight: the first buffer supplied after it gets
      the bytes the old frame had reached. */
  lemma ResetKeepsFrame(w: World, ba: nat, bus: Bus)
    requires Inv(w) && w.dev.rx.busy
    requires bus.writable(ba, Min(|w.dev.rx.frame| - w.dev.rx.off, w.dev.regs.bcr))
    ensures var ds := DoRcv(DoReset(w), ba, bus).0.log.rx.deliveries;
            var n, x := |w.log.rx.deliveries|, w.dev.rx;
            n > 0 && |ds| == n
            && ds[n - 1].parts == w.log.rx.deliveries[n - 1].parts
               + [Part(RxBuf(ba, w.dev.regs.bcr), x.frame[x.off..x.off + Min(|x.frame| - x.off, w.dev.regs.bcr)])]
  {
    hide Inv, Receiving, DoReset, DoRcv, PumpRx, Supply;
    var v := DoReset(w);
    var buf := RxBuf(ba, w.dev.regs.bcr);
    ResetSupplied(w, buf);
    var (x1, l1) := Supply(v.dev.rx, v.log.rx, buf);
    RcvUses(v, ba, bus);
    PumpUses(x1, l1, bus);
  }

  /** The first buffer after RESET is at the head, and the frame where it was. */
  lemma ResetSupplied(w: World, buf: RxBuf)
    requires Inv(w) && w.dev.rx.busy
    ensures var v := DoReset(w);
            v.dev.regs.bcr == w.dev.regs.bcr && v.dev.rx.busy && Ringed(v.dev.rx) && v.dev.rx.count == 0
            && var (x, l) := Supply(v.dev.rx, v.log.rx, buf);
               Receiving(x, l) && Pumps(x) && x.ring[x.head] == buf && x.frame == w.dev.rx.frame && x.off == w.dev.rx.off
               && l.deliveries == w.log.rx.deliveries && l.deliveries != []
  {
    hide Counted, Delivering, InOrder;
    EmptyKeeps(w.dev.rx, w.log.rx, false);
    InFlight(w.dev.rx, w.log.rx);
    SupplyKeeps(DoReset(w).dev.rx, DoReset(w).log.rx, buf);
  }

  /** A frame is in flight after RESET exactly when one was before, and never
      after FLUSH. */
  lemma OnlyFlushStops(w: World)
    requires Inv(w)
    ensures DoReset(w).dev.rx.busy == w.dev.rx.busy && !DoFlush(w).dev.rx.busy
    ensures w.dev.rx.busy ==>
              |DoFlush(w).log.rx.deliveries| == |w.log.rx.deliveries|
              && DoFlush(w).log.rx.deliveries[|w.log.rx.deliveries| - 1].end == Flushed
  {
  }

  /** A loopback transmission abandons the frame in flight exactly when there is
      one and a buffer is waiting. */
  lemma LoopbackOverruns(w: World, out: Bytes, bus: Bus)
    requires Inv(w) && |out| >= 14 && w.dev.mode.loopback && w.dev.rx.busy
    ensures var n := |w.log.rx.deliveries|;
            var ds := Transmit(w, out, bus).0.log.rx.deliveries;
            n > 0 && |ds| >= n && (ds[n - 1].end == Overrun <==> w.dev.rx.count > 0)
  {
    if w.dev.rx.count > 0 { DeliverBegins(w, out, bus); }
  }

  // ---- transmission ----

  datatype Fragment = Fragment(ba: nat, bc: Word)

  function Joined(fs: seq<Fragment>, bus: Bus): Bytes {
    if fs == [] then [] else Joined(fs[..|fs| - 1], bus) + Fetch(bus, fs[|fs| - 1].ba, fs[|fs| - 1].bc)
  }

  predicate AllReadable(fs: seq<Fragment>, bus: Bus) {
    forall i :: 0 <= i < |fs| ==> bus.readable(fs[i].ba, fs[i].bc)
  }

  /** The driver's way with a packet in pieces: the byte count, then LDXMIT. */
  function LoadAll(w: World, fs: seq<Fragment>, bus: Bus): (v: World)
    requires Ringed(w.dev.rx)
    ensures Ringed(v.dev.rx)
  {
    if fs == [] then w
    else
      var f, v := fs[|fs| - 1], LoadAll(w, fs[..|fs| - 1], bus);
      DoXmit(World(v.dev.(regs := v.dev.regs.(bcr := f.bc)), v.log), f.ba, false, bus).0
  }

  lemma {:induction false} FragmentsHeld(w: World, fs: seq<Fragment>, bus: Bus)
    requires Ringed(w.dev.rx) && AllReadable(fs, bus) && |w.dev.tx| + |Joined(fs, bus)| <= TXBUF
    ensures var v := LoadAll(w, fs, bus);
            v.dev.tx == w.dev.tx + Joined(fs, bus) && v.log == w.log
            && v.dev.(regs := w.dev.regs, tx := w.dev.tx) == w.dev
    decreases |fs|
  {
    if fs == [] {
      assert w.dev.tx + [] == w.dev.tx;
    } else {
      var f := fs[|fs| - 1];
      FragmentsHeld(w, fs[..|fs| - 1], bus);
      assert bus.readable(f.ba, f.bc);
      assert (w.dev.tx + Joined(fs[..|fs| - 1], bus)) + Fetch(bus, f.ba, f.bc)
          == w.dev.tx + (Joined(fs[..|fs| - 1], bus) + Fetch(bus, f.ba, f.bc));
      if f.bc == 0 { assert Fetch(bus, f.ba, f.bc) == []; }
    }
  }

  /** A packet in any number of fragments leaves as one frame, and nothing
      leaves before the last of them. */
  lemma FragmentsSentOnce(w: World, fs: seq<Fragment>, last: Fragment, bus: Bus)
    requires Inv(w) && w.dev.tx == [] && w.dev.attached && !w.dev.mode.loopback && bus.sends
    requires AllReadable(fs, bus) && bus.readable(last.ba, last.bc)
    requires 8 <= |Joined(fs, bus) + Fetch(bus, last.ba, last.bc)| <= TXBUF
    ensures var u := LoadAll(w, fs, bus);
            var v := DoXmit(World(u.dev.(regs := u.dev.regs.(bcr := last.bc)), u.log), last.ba, true, bus).0;
            u.log == w.log && v.dev.tx == []
            && v.log.sent == w.log.sent + [Outgoing(Joined(fs, bus) + Fetch(bus, last.ba, last.bc), w.dev.mac)]
  {
    FragmentsHeld(w, fs, bus);
    assert [] + Joined(fs, bus) == Joined(fs, bus);
    if last.bc == 0 {
      assert Joined(fs, bus) + Fetch(bus, last.ba, last.bc) == Joined(fs, bus);
    }
  }

  /** That frame: destination, the board's own address, the rest, and zeros up
      to sixty bytes. */
  lemma OutgoingParts(packet: Bytes, mac: Bytes)
    requires |packet| >= 8 && |mac| == MACLEN
    ensures var out := Outgoing(packet, mac);
            |packet| + 6 <= |out| && out[..6] == packet[..6] && out[6..12] == mac
            && out[12..|packet| + 6] == packet[6..]
            && (|out| > |packet| + 6 ==> |out| == 60)
            && forall i :: |packet| + 6 <= i < |out| ==> out[i] == 0
  {
    var out := Outgoing(packet, mac);
    assert out[12..|packet| + 6] == packet[6..];
  }

  // ---- registers ----

  /** After a command the driver reads CDONE and that command's status, and
      reading again finds the same status and no CDONE. */
  lemma StatusSurvivesRead(w: World, o: Order, bus: Bus)
    requires Inv(w)
    ensures var status := Execute(World(w.dev.(ints := Enable(w.dev.ints, o)), w.log), Decode(o.code),
                                  DmaAddress(o, w.dev.regs.bar), bus).1;
            var (r1, first) := ReadCsr(Command(w, o, bus).dev.regs);
            var second := ReadCsr(r1).1;
            0 <= second < 0x1_0000 && 0 <= first < 0x1_0000
            && Bit(first, 0x80) && first % 16 == StatusCode(status)
            && !Bit(second, 0x80) && !Bit(second, 0x20) && second % 16 == StatusCode(status)
            && ReadOrder(first) == ReadOrder(second) == o
  {
    CsrFields(Command(w, o, bus).dev.regs.csr);
    CsrFields(Cleared(Command(w, o, bus).dev.regs.csr));
  }

  lemma Quotient(v: int, k: int, q: int, r: int)
    requires k in {0x10, 0x20, 0x40, 0x80, 0x100, 0x4000} && v == q * k + r && 0 <= r < k
    ensures v / k == q && v % k == r
  {
  }

  function Flag(b: bool): nat { if b then 1 else 0 }

  lemma StatusSmall(s: Status)
    ensures StatusCode(s) < 16
  {
  }

  /** The fields of the register are read back from its bits. */
  lemma CsrFields(c: Csr)
    ensures 0 <= CsrBits(c) < 0x1_0000
    ensures ReadOrder(CsrBits(c)) == c.order && CsrBits(c) % 16 == StatusCode(c.status)
    ensures Bit(CsrBits(c), 0x80) == c.cdone && Bit(CsrBits(c), 0x20) == c.rdone
  {
    hide StatusCode, ReadOrder, Bit;
    StatusSmall(c.status);
    var o, v, st := c.order, CsrBits(c), StatusCode(c.status);
    var a, b, x, y := Flag(c.cdone), Flag(o.cie), Flag(c.rdone), Flag(o.rie);
    var e, n: int := o.eua, o.code;
    assert v == e * 0x4000 + n * 0x100 + a * 0x80 + b * 0x40 + x * 0x20 + y * 0x10 + st;
    HighFields(v, e, n, a * 0x80 + b * 0x40 + x * 0x20 + y * 0x10 + st);
    BitAt(v, 0x80, e * 64 + n, a, b * 0x40 + x * 0x20 + y * 0x10 + st);
    BitAt(v, 0x40, e * 128 + n * 2 + a, b, x * 0x20 + y * 0x10 + st);
    BitAt(v, 0x20, e * 256 + n * 4 + a * 2 + b, x, y * 0x10 + st);
    BitAt(v, 0x10, e * 512 + n * 8 + a * 4 + b * 2 + x, y, st);
    OrderRead(v, o);
    Quotient(v, 0x10, e * 1024 + n * 16 + a * 8 + b * 4 + x * 2 + y, st);
  }

  lemma HighFields(v: Word, e: int, n: int, rest: int)
    requires 0 <= e < 4 && 0 <= n < 64 && 0 <= rest < 0x100 && v == e * 0x4000 + n * 0x100 + rest
    ensures v / 0x4000 == e && (v / 0x100) % 64 == n
  {
    Quotient(v, 0x4000, e, n * 0x100 + rest);
    Quotient(v, 0x100, e * 64 + n, rest);
  }

  lemma BitAt(v: Word, k: nat, q: int, b: int, r: int)
    requires k in {0x10, 0x20, 0x40, 0x80} && 0 <= b < 2 && 0 <= r < k && v == (q * 2 + b) * k + r
    ensures Bit(v, k) <==> b == 1
  {
    Quotient(v, k, q * 2 + b, r);
  }

  lemma OrderRead(v: Word, o: Order)
    requires v / 0x4000 == o.eua && (v / 0x100) % 64 == o.code && Bit(v, 0x40) == o.cie && Bit(v, 0x10) == o.rie
    ensures ReadOrder(v) == o
  {
  }

  /** The status of a receive command never tells of a faulted transfer: the
      pump's NXM is overwritten by the command's own success. */
  lemma ReceiveHidesFault(w: World, o: Order, bus: Bus)
    requires Inv(w) && Decode(o.code) == Rcv
    ensures Command(w, o, bus).dev.regs.csr.status == if w.dev.rx.count >= RXQ then BufSiz else Success
  {
  }

  /** The driver's split of an 18-bit address is undone. */
  lemma AddressJoined(a: nat, v: Word)
    requires a < 0x4_0000 && v / 0x4000 == a / 0x1_0000
    ensures DmaAddress(ReadOrder(v), a % 0x1_0000) == a
  {
  }
}
