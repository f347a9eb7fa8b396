/** The two packet counts, and the bytes of a frame as the guest gets it. */
module IlCounts {
  import opened Basics
  import opened IlModel
  import opened IlRuns
  import IlCommands
  import IlReports

  // ---- frames ----

  /** Whether one was dropped before it, nothing, the length with the four last bytes, the
      frame, and zeros where its check would be. */
  lemma ImageBytes(frame: Bytes, lost: bool)
    ensures var b, n := Image(frame, lost), |frame|;
            |b| == n + 8 && b[0] == (if lost then 0x04 else 0) && b[1] == 0 && IlReports.Holds(b, 2, n + 4)
            && b[4..4 + n] == frame && b[4 + n..] == [0, 0, 0, 0]
  {
    IlReports.LowHigh(|frame| + 4);
  }

  // ---- packets received ----

  predicate Whole(d: Delivery) { d.end == Complete || d.end == Truncated }

  function Received(ds: seq<Delivery>): nat {
    if ds == [] then 0 else Received(ds[..|ds| - 1]) + if Whole(ds[|ds| - 1]) then 1 else 0
  }

  /** The count is that of the frames the guest has had to their end. */
  predicate Tallies(w: World) { w.dev.counters.ipackets == Received(w.log.rx.deliveries) }

  lemma PumpTallies(w: World, bus: Bus)
    requires Inv(w) && Tallies(w)
    ensures Tallies(Pump(w, bus))
  {
    hide InOrder, GoodDelivery, Counted, NextPart, Handed;
    if Pumps(w.dev.rx) {
      var ds := w.log.rx.deliveries;
      var more := Pump(w, bus).log.rx.deliveries;
      LastIsOpen(w);
      assert more[..|more| - 1] == ds[..|ds| - 1];
    }
  }

  lemma LastIsOpen(w: World)
    requires Inv(w) && w.dev.rx.busy
    ensures LastOpen(w.log.rx.deliveries)
  {
    hide InOrder, GoodDelivery, Counted, Handed;
  }

  lemma AbandonTallies(ds: seq<Delivery>, end: End)
    requires LastOpen(ds) && end != Complete && end != Truncated
    ensures Received(ds[..|ds| - 1] + [ds[|ds| - 1].(end := end)]) == Received(ds)
  {
    var more := ds[..|ds| - 1] + [ds[|ds| - 1].(end := end)];
    assert more[..|more| - 1] == ds[..|ds| - 1];
  }

  lemma DeliverTallies(w: World, frame: Bytes, bus: Bus)
    requires Inv(w) && Tallies(w)
    ensures Tallies(Deliver(w, frame, bus))
  {
    hide InOrder, Delivering, Counted, Handed, Pump, Image, Received;
    if |frame| >= 14 && w.dev.rx.count > 0 {
      var (x, l) := Begin(w.dev.rx, w.log.rx, frame);
      BeginKeeps(w.dev.rx, w.log.rx, frame);
      var v := World(w.dev.(rx := x), w.log.(rx := l));
      var ds := w.log.rx.deliveries;
      if w.dev.rx.busy {
        LastIsOpen(w);
        AbandonTallies(ds, Overrun);
        OpenTallies(ds[..|ds| - 1] + [ds[|ds| - 1].(end := Overrun)], Delivery(x.frame, [], Open));
      } else {
        OpenTallies(ds, Delivery(x.frame, [], Open));
      }
      assert Tallies(v);
      PumpTallies(v, bus);
    }
  }

  lemma OpenTallies(ds: seq<Delivery>, d: Delivery)
    requires d.end == Open
    ensures Received(ds + [d]) == Received(ds)
  {
    assert (ds + [d])[..|ds|] == ds;
  }

  lemma {:induction false} PollTallies(w: World, wire: seq<Bytes>, bus: Bus)
    requires Inv(w) && Tallies(w)
    ensures Tallies(Poll(w, wire, bus).w)
    decreases |wire|
  {
    hide Inv, Deliver, Tallies;
    IlCommands.InvRinged(w);
    if !w.dev.rx.busy && wire != [] && wire[0] != [] {
      var v := Deliver(w, wire[0], bus);
      DeliverWorld(w, wire[0], bus);
      DeliverTallies(w, wire[0], bus);
      if v.dev.rx.count > 0 && !v.dev.rx.busy { PollTallies(v, wire[1..], bus); }
    }
  }

  lemma XmitTallies(w: World, ba: nat, send: bool, bus: Bus)
    requires Inv(w) && Tallies(w)
    ensures Tallies(DoXmit(w, ba, send, bus).0)
  {
    hide Inv, Deliver, Outgoing, Fetch, Received;
    IlCommands.InvRinged(w);
    var bc := w.dev.regs.bcr;
    var tx := if bc > 0 then w.dev.tx + Fetch(bus, ba, bc) else w.dev.tx;
    if |tx| >= 8 { DeliverTallies(w, Outgoing(tx, w.dev.mac), bus); }
  }

  lemma RcvTallies(w: World, ba: nat, bus: Bus)
    requires Inv(w) && Tallies(w)
    ensures Tallies(DoRcv(w, ba, bus).0)
  {
    hide Receiving, Counted, Pump, Received;
    IlCommands.InvRinged(w);
    if w.dev.rx.count < RXQ {
      var buf := RxBuf(ba, w.dev.regs.bcr);
      var (x, l) := Supply(w.dev.rx, w.log.rx, buf);
      SupplyKeeps(w.dev.rx, w.log.rx, buf);
      PumpTallies(World(w.dev.(rx := x), w.log.(rx := l)), bus);
    }
  }

  lemma ExecuteTallies(w: World, cmd: Cmd, ba: nat, bus: Bus)
    requires Inv(w) && Tallies(w)
    ensures Tallies(Execute(w, cmd, ba, bus).0)
  {
    hide Inv, DoXmit, DoRcv, Received, Fetch;
    IlCommands.InvRinged(w);
    match cmd
    case Xmit => XmitTallies(w, ba, true, bus);
    case LdXmit => XmitTallies(w, ba, false, bus);
    case Rcv => RcvTallies(w, ba, bus);
    case Flush =>
      if w.dev.rx.busy {
        LastIsOpen(w);
        AbandonTallies(w.log.rx.deliveries, Flushed);
      }
    case _ =>
  }

  lemma StepTallies(w: World, e: Event)
    requires Inv(w) && Tallies(w)
    ensures Tallies(Step(w, e))
  {
    hide Receiving, Counted, Execute, Poll, Pump, Received;
    IlCommands.InvRinged(w);
    match e
    case Issue(o, bus) =>
      IlCommands.EnabledInv(w, o);
      ExecuteTallies(World(w.dev.(ints := Enable(w.dev.ints, o)), w.log), Decode(o.code), DmaAddress(o, w.dev.regs.bar), bus);
    case Call(wire, bus) =>
      if w.dev.attached {
        PumpWorld(w, bus);
        PumpTallies(w, bus);
        PollTallies(Pump(w, bus), wire, bus);
      }
    case _ =>
  }

  lemma {:induction false} RunTallies(w: World, es: seq<Event>)
    requires Inv(w) && Tallies(w)
    ensures Tallies(Run(w, es))
    decreases |es|
  {
    hide Inv, Step, Tallies;
    if es != [] {
      StepTallies(w, es[0]);
      RunTallies(Step(w, es[0]), es[1..]);
    }
  }

  // ---- packets sent ----

  /** A XMIT that gets as far as sending: it is not too long, its last part is read, and
      there are eight bytes at least. */
  predicate Transmits(w: World, e: Event) {
    match e
    case Issue(o, bus) =>
      var n := w.dev.regs.bcr;
      o.code == 0x29 && 8 <= |w.dev.tx| + n <= 1582 && (n > 0 ==> bus.readable(o.eua * 0x1_0000 + w.dev.regs.bar, n))
    case _ => false
  }

  function Transmitted(w: World, es: seq<Event>): nat
    requires Inv(w)
    decreases |es|
  {
    if es == [] then 0 else (if Transmits(w, es[0]) then 1 else 0) + Transmitted(Step(w, es[0]), es[1..])
  }

  lemma PumpSends(w: World, frame: Bytes, bus: Bus)
    requires Ringed(w.dev.rx)
    ensures Pump(w, bus).dev.counters.opackets == w.dev.counters.opackets
    ensures Deliver(w, frame, bus).dev.counters.opackets == w.dev.counters.opackets
  {
    hide Begin, PumpRx, NextEnd;
  }

  lemma {:induction false} PollSends(w: World, wire: seq<Bytes>, bus: Bus)
    requires Ringed(w.dev.rx)
    ensures Poll(w, wire, bus).w.dev.counters.opackets == w.dev.counters.opackets
    decreases |wire|
  {
    hide Deliver;
    if !w.dev.rx.busy && wire != [] && wire[0] != [] {
      var v := Deliver(w, wire[0], bus);
      PumpSends(w, wire[0], bus);
      if v.dev.rx.count > 0 && !v.dev.rx.busy { PollSends(v, wire[1..], bus); }
    }
  }

  lemma XmitSends(w: World, ba: nat, send: bool, bus: Bus)
    requires Ringed(w.dev.rx) && |w.dev.mac| == MACLEN
    ensures var n := w.dev.regs.bcr;
            var sends := send && 8 <= |w.dev.tx| + n <= 1582 && (n > 0 ==> bus.readable(ba, n));
            DoXmit(w, ba, send, bus).0.dev.counters.opackets == w.dev.counters.opackets + if sends then 1 else 0
  {
    hide Deliver, Outgoing, Fetch;
    var bc := w.dev.regs.bcr;
    var tx := if bc > 0 then w.dev.tx + Fetch(bus, ba, bc) else w.dev.tx;
    if |tx| >= 8 { PumpSends(w, Outgoing(tx, w.dev.mac), bus); }
  }

  lemma RcvSends(w: World, ba: nat, bus: Bus)
    requires Ringed(w.dev.rx)
    ensures DoRcv(w, ba, bus).0.dev.counters.opackets == w.dev.counters.opackets
  {
    hide Pump;
    if w.dev.rx.count < RXQ {
      var (x, l) := Supply(w.dev.rx, w.log.rx, RxBuf(ba, w.dev.regs.bcr));
      PumpSends(World(w.dev.(rx := x), w.log.(rx := l)), [], bus);
    }
  }

  lemma StepSends(w: World, e: Event)
    requires Inv(w)
    ensures Step(w, e).dev.counters.opackets == w.dev.counters.opackets + if Transmits(w, e) then 1 else 0
  {
    hide Inv, DoXmit, DoRcv, Poll, Pump, Fetch;
    IlCommands.InvRinged(w);
    match e
    case Issue(o, bus) =>
      var x := World(w.dev.(ints := Enable(w.dev.ints, o)), w.log);
      var ba := DmaAddress(o, w.dev.regs.bar);
      XmitSends(x, ba, true, bus);
      XmitSends(x, ba, false, bus);
      RcvSends(x, ba, bus);
    case Call(wire, bus) =>
      if w.dev.attached {
        PumpSends(w, [], bus);
        PollSends(Pump(w, bus), wire, bus);
      }
    case _ =>
  }

  lemma {:induction false} RunSends(w: World, es: seq<Event>)
    requires Inv(w)
    ensures Run(w, es).dev.counters.opackets == w.dev.counters.opackets + Transmitted(w, es)
    decreases |es|
  {
    hide Inv, Step, Transmits;
    if es != [] {
      StepSends(w, es[0]);
      RunSends(Step(w, es[0]), es[1..]);
    }
  }

  /** From power-up, over every run: the board has counted as received the frames that the
      guest had to their end, cut short or not, and as sent those that it was told to send
      and could. */
  lemma PacketsCounted(es: seq<Event>)
    ensures Inv(INITIAL)
    ensures var v := Run(INITIAL, es);
            v.dev.counters.ipackets == Received(v.log.rx.deliveries) && v.dev.counters.opackets == Transmitted(INITIAL, es)
  {
    hide Inv, Run, Transmitted;
    InitialInv();
    RunTallies(INITIAL, es);
    RunSends(INITIAL, es);
  }

  // ---- errors ----

  /** A frame that finds no buffer leaves a mark for the next one and counts as an error; a
      short one leaves nothing. */
  lemma FrameDropped(w: World, frame: Bytes, bus: Bus)
    requires Ringed(w.dev.rx) && w.dev.rx.count == 0
    ensures var v := Deliver(w, frame, bus);
            v == if |frame| < 14 then w
                 else World(w.dev.(rx := w.dev.rx.(lost := true),
                                   counters := w.dev.counters.(ierrors := w.dev.counters.ierrors + 1)), w.log)
  {
  }

  /** Using a buffer is an error if and only if the transfer to it faults; the driver is
      told so in the status, and that it has a buffer back. */
  lemma BufferUsed(w: World, bus: Bus)
    requires Ringed(w.dev.rx) && w.dev.rx.busy && w.dev.rx.count > 0
    ensures var x, v := w.dev.rx, Pump(w, bus);
            var buf := x.ring[x.head];
            var n := if |x.frame| - x.off < buf.bc then |x.frame| - x.off else buf.bc;
            var faults := !bus.writable(buf.ba, n);
            v.dev.counters.ierrors == w.dev.counters.ierrors + (if faults then 1 else 0)
            && StatusCode(v.dev.regs.csr.status) == (if faults then 15 else StatusCode(w.dev.regs.csr.status))
            && v.dev.regs.csr.rdone && v.dev.rx.count == x.count - 1
            && v.log.rx.used == w.log.rx.used + [buf]
  {
  }
}
