/** Runs of the NI1010 from power-up in which the code does less than its comments
    or its driver expect. */
module IlCases {
  import opened Basics
  import opened IlModel
  import opened IlRuns
  import opened IlTheorems
  import opened IlPolling

  function Zeros(ba: nat, n: nat): Bytes { seq(n, _ => 0) }

  /** No transfer faults and the host network takes every frame. */
  const OPEN := Bus((ba, n) => true, Zeros, (ba, n) => true, true)

  const FRAME: Bytes := [1, 2, 3, 4, 5, 6, 7, 8, 9, 10, 11, 12, 13, 14]

  /** The driver's way with a command, its receive interrupt enabled. */
  function Do(code: Code): Event { Issue(Order(0, code, false, true), OPEN) }

  const RCV: Code := 0x20
  const FLUSH: Code := 0x30
  const RESET: Code := 0x3F
  const LOOPBACK: Code := 0x01
  const XMIT: Code := 0x29

  /** Before and after any number of frames taken whole. */
  predicate Ready(w: World) {
    Inv(w) && w.dev.attached && !w.dev.rx.busy && w.dev.rx.count == 0
  }

  // ---- one buffer supplied, one frame taken ----

  function Supplied(w: World, bc: Word): World
    requires Inv(w)
  {
    var v := Step(w, SetBcr(bc)); Step(v, Do(RCV))
  }

  lemma SupplyOne(w: World, bc: Word)
    requires Inv(w) && w.dev.attached && !w.dev.rx.busy && w.dev.rx.count < RXQ
    ensures var v, x := Supplied(w, bc), w.dev.rx;
            Inv(v) && v.dev.attached && v.dev.mode == w.dev.mode && v.dev.ints.rie && v.log.rx.deliveries == w.log.rx.deliveries
            && v.dev.ints.rpend == w.dev.ints.rpend && v.dev.ints.rint == w.dev.ints.rint && v.dev.burst == w.dev.burst
            && v.dev.regs.bcr == bc && v.dev.regs.bar == w.dev.regs.bar && v.dev.tx == w.dev.tx && v.dev.mac == w.dev.mac
            && v.dev.rx.ring == x.ring[(x.head + x.count) % RXQ := RxBuf(w.dev.regs.bar, bc)]
            && v.dev.rx.head == x.head && v.dev.rx.count == x.count + 1 && !v.dev.rx.busy && v.dev.rx.lost == x.lost
  {
    hide Receiving, Counted;
    RingIn(w);
  }

  lemma RingIn(w: World)
    requires Inv(w)
    ensures Ringed(w.dev.rx)
  {
  }

  /** A frame that meets a buffer goes into it as far as it holds. */
  lemma FrameTaken(w: World)
    requires Inv(w) && w.dev.attached && !w.dev.rx.busy && w.dev.rx.count > 0 && w.dev.ints.rie
    ensures var v, x := Step(w, Call([FRAME], OPEN)), w.dev.rx;
            var buf, image := x.ring[x.head], Image(FRAME, x.lost);
            var part := Part(buf, image[..Min(22, buf.bc)]);
            Inv(v) && v.dev.attached && v.dev.mode == w.dev.mode && v.dev.ints.rie && v.dev.regs.bar == w.dev.regs.bar
            && v.dev.regs.bcr == w.dev.regs.bcr && v.dev.tx == w.dev.tx && v.dev.mac == w.dev.mac
            && v.dev.ints.rpend == w.dev.ints.rpend + 1 && v.dev.ints.rint
            && v.dev.rx.ring == x.ring && v.dev.rx.head == (x.head + 1) % RXQ && v.dev.rx.count == x.count - 1
            && v.dev.rx.frame == image && v.dev.rx.off == Min(22, buf.bc) && !v.dev.rx.lost
            && v.dev.rx.busy == (buf.bc < 22 && buf.bc % 8 == 0)
            && |v.log.rx.deliveries| == |w.log.rx.deliveries| + 1
            && v.log.rx.deliveries[|w.log.rx.deliveries|].parts == [part]
  {
    hide Receiving, Counted;
    RingIn(w);
    assert |Image(FRAME, w.dev.rx.lost)| == 22;
    assert Pump(w, OPEN) == w;
    var v := Deliver(w, FRAME, OPEN);
    assert [FRAME][0] == FRAME && [FRAME][1..] == [];
    assert Poll(w, [FRAME], OPEN).w == v;
  }

  // ---- traffic that never stops ----

  /** A buffer and a frame, over and over. */
  function Traffic(n: nat): seq<Event> {
    if n == 0 then [] else [SetBcr(64), Do(RCV), Call([FRAME], OPEN)] + Traffic(n - 1)
  }

  lemma PacesOn(w: World, e: Event, es: seq<Event>)
    requires Inv(w)
    ensures Paces(w, [e] + es) == if e.Call? then [Service(w, e.wire, e.bus).fast] + Paces(Step(w, e), es) else Paces(Step(w, e), es)
  {
    hide Step, Service;
    assert ([e] + es)[1..] == es;
  }

  /** One round: the call is fast and the board ready again. */
  lemma OneRound(w: World)
    requires Ready(w)
    ensures var u := Supplied(w, 64);
            Inv(u) && Ringed(u.dev.rx) && Service(u, [FRAME], OPEN).fast && Ready(Step(u, Call([FRAME], OPEN)))
  {
    hide Inv, Step, Service, Pump, Do, Supplied;
    var u := Supplied(w, 64);
    RingStays(w);
    SupplyOne(w, 64);
    RingIn(u);
    assert u.dev.rx.ring[u.dev.rx.head].bc == 64;
    FrameTaken(u);
    ServiceSchedules(u, [FRAME], OPEN);
    IdlePump(u);
  }

  lemma RoundPaces(w: World, es: seq<Event>)
    requires Inv(w)
    ensures var u := Supplied(w, 64);
            Ringed(u.dev.rx)
            && Paces(w, [SetBcr(64), Do(RCV), Call([FRAME], OPEN)] + es)
               == [Service(u, [FRAME], OPEN).fast] + Paces(Step(u, Call([FRAME], OPEN)), es)
  {
    hide Inv, Step, Service, Do;
    var call := Call([FRAME], OPEN);
    RingIn(Supplied(w, 64));
    NotACall();
    PacesOn(w, SetBcr(64), [Do(RCV), call] + es);
    PacesOn(Step(w, SetBcr(64)), Do(RCV), [call] + es);
    PacesOn(Supplied(w, 64), call, es);
    assert [SetBcr(64), Do(RCV), call] + es == [SetBcr(64)] + ([Do(RCV), call] + es);
    assert [Do(RCV), call] + es == [Do(RCV)] + ([call] + es);
  }

  /** The comment at lines 848-850 has a clock-paced poll after every burst.  Here is
      a run, as long as one likes, in which no call is. */
  lemma {:induction false} SteadyTraffic(w: World, n: nat)
    requires Ready(w)
    ensures |Paces(w, Traffic(n))| == n && forall i :: 0 <= i < n ==> Paces(w, Traffic(n))[i]
    decreases n
  {
    hide Inv, Step, Service, Do, Supplied;
    if n > 0 {
      OneRound(w);
      RoundPaces(w, Traffic(n - 1));
      SteadyTraffic(Step(Supplied(w, 64), Call([FRAME], OPEN)), n - 1);
    }
  }

  lemma RingStays(w: World)
    requires Inv(w)
    ensures w.dev.rx.head < RXQ && |w.dev.rx.ring| == RXQ
  {
  }

  lemma NotACall()
    ensures !Do(RCV).Call?
  {
  }

  lemma IdlePump(w: World)
    requires Inv(w) && !w.dev.rx.busy
    ensures Pump(w, OPEN) == w
  {
  }

  /** It starts at power-up. */
  lemma ReadyAtStart()
    ensures Inv(INITIAL) && Ready(Step(INITIAL, Attach(true)))
  {
    InitialInv();
  }

  // ---- an interrupt with nothing pending ----

  const START := Step(INITIAL, Attach(true))

  /** FLUSH after a frame leaves the request up, and the driver gets a vector for a
      buffer it no longer has. */
  lemma FlushLeavesRequest()
    ensures Ready(START) && Inv(Step(Supplied(START, 64), Call([FRAME], OPEN)))
    ensures var v := Step(Step(Supplied(START, 64), Call([FRAME], OPEN)), Do(FLUSH));
            v.dev.ints.rint && v.dev.ints.rpend == 0 && Step(v, TakeReceive).log.ints.spurious == v.log.ints.spurious + 1
  {
    OneFrame();
    FlushRequest(Step(Supplied(START, 64), Call([FRAME], OPEN)));
  }

  /** RESET too. */
  lemma ResetLeavesRequest()
    ensures Ready(START) && Inv(Step(Supplied(START, 64), Call([FRAME], OPEN)))
    ensures var v := Step(Step(Supplied(START, 64), Call([FRAME], OPEN)), Do(RESET));
            v.dev.ints.rint && v.dev.ints.rpend == 0 && Step(v, TakeReceive).log.ints.spurious == v.log.ints.spurious + 1
  {
    OneFrame();
    FlushRequest(Step(Supplied(START, 64), Call([FRAME], OPEN)));
  }

  lemma OneFrame()
    ensures Ready(START) && Inv(Supplied(START, 64))
    ensures var w := Step(Supplied(START, 64), Call([FRAME], OPEN)); Inv(w) && w.dev.ints.rint
  {
    hide Step, Inv, Supplied;
    ReadyAtStart();
    RingStays(START);
    SupplyOne(START, 64);
    FrameTaken(Supplied(START, 64));
  }

  lemma FlushRequest(w: World)
    requires Inv(w) && w.dev.ints.rint
    ensures var v := Step(w, Do(FLUSH));
            v.dev.ints.rint && v.dev.ints.rpend == 0 && Step(v, TakeReceive).log.ints.spurious == v.log.ints.spurious + 1
    ensures var v := Step(w, Do(RESET));
            v.dev.ints.rint && v.dev.ints.rpend == 0 && Step(v, TakeReceive).log.ints.spurious == v.log.ints.spurious + 1
  {
    hide Receiving, Abandoned;
  }

  // ---- a frame that outlives RESET ----

  /** Eight bytes of the frame, then RESET, then a buffer of 64: it gets the other
      fourteen. */
  lemma FrameOutlivesReset()
    ensures Ready(START) && Inv(Step(Supplied(START, 8), Call([FRAME], OPEN)))
    ensures var v := Step(Step(Supplied(START, 8), Call([FRAME], OPEN)), Do(RESET));
            var ds, image := Supplied(v, 64).log.rx.deliveries, Image(FRAME, false);
            |ds| == 1 && ds[0].parts == [Part(RxBuf(0, 8), image[..8]), Part(RxBuf(0, 64), image[8..])]
  {
    hide Inv, Step, Supplied;
    ReadyAtStart();
    StartIs();
    RingStays(START);
    SupplyOne(START, 8);
    FrameTaken(Supplied(START, 8));
    var w := Step(Supplied(START, 8), Call([FRAME], OPEN));
    ResetThenBuffer(w);
  }

  lemma StartIs()
    ensures START.log.rx.deliveries == [] && START.dev.regs.bar == 0 && !START.dev.rx.lost && START.dev.rx.head == 0
    ensures START.dev.mac == DEFAULT_MAC && START.dev.tx == [] && START.dev.mode == Mode(false, false, false)
  {
  }

  lemma ResetThenBuffer(w: World)
    requires Inv(w) && w.dev.rx.busy && w.dev.rx.off <= |w.dev.rx.frame| <= 64 && |w.log.rx.deliveries| == 1
    ensures var ds, x := Supplied(Step(w, Do(RESET)), 64).log.rx.deliveries, w.dev.rx;
            |ds| == 1 && ds[0].parts == w.log.rx.deliveries[0].parts + [Part(RxBuf(w.dev.regs.bar, 64), x.frame[x.off..])]
  {
    hide Receiving, Counted, PumpRx, NextEnd, StatusCode;
    RingIn(w);
    var u := Step(Step(w, Do(RESET)), SetBcr(64));
    assert u.dev.rx == w.dev.rx.(head := 0, count := 0, lost := false) && u.log.rx.deliveries == w.log.rx.deliveries;
    RingIn(u);
    var e := World(u.dev.(ints := Enable(u.dev.ints, Order(0, RCV, false, true))), u.log);
    RcvUses(e, u.dev.regs.bar, OPEN);
    BufferTakes(e.dev.rx, e.log.rx, RxBuf(u.dev.regs.bar, 64));
  }

  lemma BufferTakes(x: Rx, l: RxLog, buf: RxBuf)
    requires Ringed(x) && x.busy && x.count == 0 && x.head == 0 && |x.frame| - x.off <= buf.bc && l.deliveries != []
    ensures var (x1, l1) := Supply(x, l, buf);
            PumpRx(x1, l1, OPEN).1.deliveries
            == l.deliveries[..|l.deliveries| - 1]
               + [Extend(l.deliveries[|l.deliveries| - 1], Part(buf, x.frame[x.off..]), NextEnd(x1, OPEN))]
  {
    assert x.frame[x.off..] == x.frame[x.off..x.off + (|x.frame| - x.off)];
  }

  // ---- a frame that loopback overruns ----

  /** Two buffers of 8, a frame, and a packet sent in loopback: the frame that came
      first is never finished. */
  lemma LoopbackOverrunsOne()
    ensures Ready(START) && Inv(Supplied(START, 8)) && Inv(Supplied(Supplied(START, 8), 8))
    ensures var w := Step(Supplied(Supplied(START, 8), 8), Call([FRAME], OPEN));
            var v := Step(Step(w, Do(LOOPBACK)), Do(XMIT));
            |v.log.rx.deliveries| == 2 && v.log.rx.deliveries[0].end == Overrun
  {
    hide Inv, Step, Supplied;
    ReadyAtStart();
    StartIs();
    RingStays(START);
    SupplyOne(START, 8);
    SupplyOne(Supplied(START, 8), 8);
    FrameTaken(Supplied(Supplied(START, 8), 8));
    SendInLoopback(Step(Supplied(Supplied(START, 8), 8), Call([FRAME], OPEN)));
  }

  lemma SendInLoopback(w: World)
    requires Inv(w) && w.dev.rx.busy && w.dev.rx.count > 0 && w.dev.regs.bcr == 8 && w.dev.tx == [] && |w.log.rx.deliveries| == 1
    ensures var v := Step(Step(w, Do(LOOPBACK)), Do(XMIT));
            |v.log.rx.deliveries| == 2 && v.log.rx.deliveries[0].end == Overrun
  {
    hide Receiving, Counted, Deliver, StatusCode, Outgoing;
    var u := Step(w, Do(LOOPBACK));
    LoopbackOn(w);
    var e := World(u.dev.(ints := Enable(u.dev.ints, Order(0, XMIT, false, true))), u.log);
    var out := Outgoing(Fetch(OPEN, u.dev.regs.bar, 8), e.dev.mac);
    assert [] + Fetch(OPEN, u.dev.regs.bar, 8) == Fetch(OPEN, u.dev.regs.bar, 8);
    OutgoingParts(Fetch(OPEN, u.dev.regs.bar, 8), e.dev.mac);
    LoopbackOverruns(e, out, OPEN);
    DeliverBegins(e, out, OPEN);
  }

  lemma LoopbackOn(w: World)
    requires Inv(w)
    ensures var u := Step(w, Do(LOOPBACK));
            u.dev.mode.loopback && u.dev.rx == w.dev.rx && u.log.rx == w.log.rx && u.dev.regs.bcr == w.dev.regs.bcr && u.dev.tx == w.dev.tx
    ensures var u := Step(w, Do(LOOPBACK));
            Inv(World(u.dev.(ints := Enable(u.dev.ints, Order(0, XMIT, false, true))), u.log))
  {
    hide Receiving;
  }
}
