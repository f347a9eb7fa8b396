/** What every run of the NI1010 keeps. */
module IlRuns {
  import opened Basics
  import opened IlModel

  // ---- the ring is a queue ----

  function Queue(ring: seq<RxBuf>, head: nat, count: nat): (q: seq<RxBuf>)
    requires |ring| == RXQ && head < RXQ
    ensures |q| == count
    decreases count
  {
    if count == 0 then [] else [ring[head]] + Queue(ring, (head + 1) % RXQ, count - 1)
  }

  function Waiting(x: Rx): seq<RxBuf>
    requires Ringed(x)
  {
    Queue(x.ring, x.head, x.count)
  }

  lemma {:induction false} QueueAt(ring: seq<RxBuf>, head: nat, count: nat, i: nat)
    requires |ring| == RXQ && head < RXQ && i < count
    ensures Queue(ring, head, count)[i] == ring[(head + i) % RXQ]
    decreases count
  {
    if i > 0 { QueueAt(ring, (head + 1) % RXQ, count - 1, i - 1); }
  }

  lemma SlotsApart(a: nat, b: nat)
    requires a < b < a + RXQ
    ensures a % RXQ != b % RXQ
  {
  }

  /** Supplying a buffer puts it last, and disturbs no other. */
  lemma Enqueue(ring: seq<RxBuf>, head: nat, count: nat, b: RxBuf)
    requires |ring| == RXQ && head < RXQ && count < RXQ
    ensures Queue(ring[(head + count) % RXQ := b], head, count + 1) == Queue(ring, head, count) + [b]
  {
    var ring' := ring[(head + count) % RXQ := b];
    var l, r := Queue(ring', head, count + 1), Queue(ring, head, count) + [b];
    forall i | 0 <= i <= count
      ensures l[i] == r[i]
    {
      QueueAt(ring', head, count + 1, i);
      if i < count {
        QueueAt(ring, head, count, i);
        SlotsApart(head + i, head + count);
      }
    }
  }

  // ---- deliveries ----

  function Handed(parts: seq<Part>): Bytes {
    if parts == [] then [] else Handed(parts[..|parts| - 1]) + parts[|parts| - 1].bytes
  }

  function Bufs(parts: seq<Part>): seq<RxBuf> {
    if parts == [] then [] else Bufs(parts[..|parts| - 1]) + [parts[|parts| - 1].buf]
  }

  function AllBufs(ds: seq<Delivery>): seq<RxBuf> {
    if ds == [] then [] else AllBufs(ds[..|ds| - 1]) + Bufs(ds[|ds| - 1].parts)
  }

  /** A frame of 14 to 1514 bytes between its header and its stand-in CRC. */
  predicate IsImage(image: Bytes) {
    22 <= |image| <= MAXFRAME + HDRLEN
    && image == Image(image[HDRLEN..|image| - CRCLEN], image[0] == 4)
  }

  /** A buffer filled to its programmed count, which asks for another. */
  predicate Chains(p: Part) { |p.bytes| == p.buf.bc && p.buf.bc % 8 == 0 }

  predicate AllChain(parts: seq<Part>) { forall i :: 0 <= i < |parts| ==> Chains(parts[i]) }

  /** Every buffer but the last asked for another, and did not finish the frame. */
  predicate LastEnds(d: Delivery) {
    d.parts != [] && AllChain(d.parts[..|d.parts| - 1]) && |Handed(d.parts[..|d.parts| - 1])| < |d.image|
  }

  predicate GoodDelivery(d: Delivery) {
    IsImage(d.image)
    && (forall i :: 0 <= i < |d.parts| ==> |d.parts[i].bytes| <= d.parts[i].buf.bc)
    && Handed(d.parts) <= d.image
    && match d.end
       case Complete => LastEnds(d) && Handed(d.parts) == d.image
       case Truncated =>
         LastEnds(d) && |Handed(d.parts)| < |d.image|
         && var p := d.parts[|d.parts| - 1]; |p.bytes| == p.buf.bc && p.buf.bc % 8 != 0
       case Faulted => LastEnds(d) && d.parts[|d.parts| - 1].bytes == []
       case _ => AllChain(d.parts) && |Handed(d.parts)| < |d.image|
  }

  // ---- the invariant ----

  /** Buffers are used in the order they were supplied, once each. */
  predicate InOrder(x: Rx, l: RxLog)
    requires Ringed(x)
  {
    l.accepted == l.used + Waiting(x) && l.used == AllBufs(l.deliveries)
  }

  predicate LastOpen(ds: seq<Delivery>) { ds != [] && ds[|ds| - 1].end == Open }

  predicate Delivering(x: Rx, l: RxLog) {
    var ds := l.deliveries;
    (forall i :: 0 <= i < |ds| ==> GoodDelivery(ds[i]))
    && (forall i :: 0 <= i < |ds| - 1 ==> ds[i].end != Open)
    && (x.busy <==> LastOpen(ds))
    && (x.busy ==> x.frame == ds[|ds| - 1].image && x.off == |Handed(ds[|ds| - 1].parts)|)
  }

  predicate Receiving(x: Rx, l: RxLog) { Ringed(x) && InOrder(x, l) && Delivering(x, l) }

  /** Every completion raised is acknowledged, pending, or was forgotten by a
      RESET or FLUSH, and a pending one keeps its request asserted. */
  predicate Counted(i: Ints, l: IntLog) {
    (i.rline <==> i.rint) && (i.rpend > 0 ==> i.rint)
    && l.raised + l.spurious == l.vectors + i.rpend + l.forgotten
    && (!l.cleared ==> l.forgotten == 0 && l.spurious == 0 && (i.rint <==> i.rpend > 0))
  }

  predicate Inv(w: World) {
    Receiving(w.dev.rx, w.log.rx) && Counted(w.dev.ints, w.log.ints) && |w.dev.mac| == MACLEN && |w.dev.tx| <= TXBUF
  }

  // ---- each piece keeps it ----

  lemma AppendPart(parts: seq<Part>, p: Part)
    ensures Handed(parts + [p]) == Handed(parts) + p.bytes && Bufs(parts + [p]) == Bufs(parts) + [p.buf]
  {
    assert (parts + [p])[..|parts|] == parts;
  }

  lemma AppendDelivery(ds: seq<Delivery>, d: Delivery)
    ensures AllBufs(ds + [d]) == AllBufs(ds) + Bufs(d.parts)
  {
    assert (ds + [d])[..|ds|] == ds;
  }

  lemma ReplaceLast(ds: seq<Delivery>, d: Delivery)
    requires ds != []
    ensures AllBufs(ds[..|ds| - 1] + [d]) == AllBufs(ds[..|ds| - 1]) + Bufs(d.parts)
    ensures AllBufs(ds) == AllBufs(ds[..|ds| - 1]) + Bufs(ds[|ds| - 1].parts)
  {
    AppendDelivery(ds[..|ds| - 1], d);
  }

  lemma InterruptsCount(i: Ints, l: IntLog)
    requires Counted(i, l)
    ensures Counted(SetRint(i, l).0, SetRint(i, l).1)
    ensures Counted(AckReceive(i, l).0, AckReceive(i, l).1)
    ensures Counted(Forget(i, l).0, Forget(i, l).1)
  {
  }

  /** The part that a pump adds keeps its delivery well formed. */
  lemma PartFits(d: Delivery, x: Rx, bus: Bus)
    requires GoodDelivery(d) && d.end == Open && Ringed(x) && x.frame == d.image && x.off == |Handed(d.parts)|
    ensures var p := NextPart(x, bus);
            GoodDelivery(Extend(d, p, NextEnd(x, bus))) && |Handed(d.parts + [p])| == x.off + |p.bytes|
  {
    hide IsImage, Bufs;
    var p := NextPart(x, bus);
    var off := x.off + |p.bytes|;
    AppendPart(d.parts, p);
    assert (d.parts + [p])[..|d.parts|] == d.parts;
    assert Handed(d.parts) == d.image[..x.off];
    assert d.image[..x.off] + p.bytes == d.image[..off];
  }

  /** Taking the buffer at the head off the queue and onto the used ones. */
  lemma UsedInOrder(x: Rx, l: RxLog, p: Part, end: End)
    requires Ringed(x) && InOrder(x, l) && x.count > 0 && p.buf == x.ring[x.head] && l.deliveries != []
    ensures l.accepted == (l.used + [p.buf]) + Queue(x.ring, (x.head + 1) % RXQ, x.count - 1)
    ensures AllBufs(Used(l, p, end).deliveries) == l.used + [p.buf]
  {
    var ds := l.deliveries;
    var d := ds[|ds| - 1];
    ReplaceLast(ds, Extend(d, p, end));
    AppendPart(d.parts, p);
    Regroup(l.used, [p.buf], Queue(x.ring, (x.head + 1) % RXQ, x.count - 1));
    Regroup(AllBufs(ds[..|ds| - 1]), Bufs(d.parts), [p.buf]);
  }

  lemma Regroup(a: seq<RxBuf>, b: seq<RxBuf>, c: seq<RxBuf>)
    ensures a + (b + c) == (a + b) + c
  {
  }

  lemma UsedDelivers(x: Rx, l: RxLog, p: Part, end: End, x': Rx)
    requires Delivering(x, l) && x.busy
    requires var d := l.deliveries[|l.deliveries| - 1];
             GoodDelivery(Extend(d, p, end)) && (end == Open ==> x'.off == |Handed(d.parts + [p])|)
    requires x'.frame == x.frame && (x'.busy <==> end == Open)
    ensures Delivering(x', Used(l, p, end))
  {
    hide GoodDelivery, InOrder;
  }

  /** What is known of the frame in flight. */
  lemma InFlight(x: Rx, l: RxLog)
    requires Delivering(x, l) && x.busy
    ensures LastOpen(l.deliveries)
    ensures var d := l.deliveries[|l.deliveries| - 1]; GoodDelivery(d) && x.frame == d.image && x.off == |Handed(d.parts)|
  {
    hide GoodDelivery, Handed;
  }

  lemma PumpOrder(x: Rx, l: RxLog, bus: Bus)
    requires Ringed(x) && InOrder(x, l) && Pumps(x) && l.deliveries != []
    ensures InOrder(PumpRx(x, l, bus).0, PumpRx(x, l, bus).1)
  {
    hide NextEnd, Queue, AllBufs, Bufs;
    UsedInOrder(x, l, NextPart(x, bus), NextEnd(x, bus));
  }

  lemma PumpKeeps(x: Rx, l: RxLog, bus: Bus)
    requires Receiving(x, l)
    ensures Receiving(PumpRx(x, l, bus).0, PumpRx(x, l, bus).1)
  {
    hide GoodDelivery, Delivering, InOrder, Handed, NextPart, NextEnd, Used;
    if Pumps(x) {
      InFlight(x, l);
      PartFits(l.deliveries[|l.deliveries| - 1], x, bus);
      PumpOrder(x, l, bus);
      UsedDelivers(x, l, NextPart(x, bus), NextEnd(x, bus), PumpRx(x, l, bus).0);
    }
  }

  lemma ImageIsImage(frame: Bytes, lost: bool)
    requires 14 <= |frame| <= MAXFRAME - CRCLEN
    ensures IsImage(Image(frame, lost))
  {
    var im := Image(frame, lost);
    assert im[HDRLEN..|im| - CRCLEN] == frame;
  }

  lemma AbandonKeeps(x: Rx, l: RxLog, end: End)
    requires Receiving(x, l) && x.busy && (end == Flushed || end == Overrun)
    ensures Receiving(x.(busy := false), Abandoned(l, end))
  {
    hide GoodDelivery, Handed, Bufs, AllBufs, Queue;
    var ds := l.deliveries;
    var d := ds[|ds| - 1];
    ReplaceLast(ds, d.(end := end));
    EndGood(d, end);
  }

  lemma EndGood(d: Delivery, end: End)
    requires GoodDelivery(d) && d.end == Open && (end == Flushed || end == Overrun)
    ensures GoodDelivery(d.(end := end))
  {
    hide IsImage;
  }

  lemma NewGood(image: Bytes)
    requires IsImage(image)
    ensures GoodDelivery(Delivery(image, [], Open)) && Handed([]) == [] && Bufs([]) == []
  {
  }

  lemma BeginKeeps(x: Rx, l: RxLog, frame: Bytes)
    requires Receiving(x, l) && |frame| >= 14
    ensures Receiving(Begin(x, l, frame).0, Begin(x, l, frame).1)
  {
    hide Receiving, Image, Clip;
    if x.busy {
      AbandonKeeps(x, l, Overrun);
      BeginIdle(x.(busy := false), Abandoned(l, Overrun), frame);
    } else {
      BeginIdle(x, l, frame);
    }
  }

  lemma BeginIdle(x: Rx, l: RxLog, frame: Bytes)
    requires Receiving(x, l) && !x.busy && |frame| >= 14
    ensures Receiving(Begin(x, l, frame).0, Begin(x, l, frame).1)
  {
    hide GoodDelivery, IsImage, Image, Handed, Bufs, AllBufs, Queue;
    var image := Image(Clip(frame), x.lost);
    ImageIsImage(Clip(frame), x.lost);
    NewGood(image);
    AppendDelivery(l.deliveries, Delivery(image, [], Open));
  }

  lemma SupplyKeeps(x: Rx, l: RxLog, buf: RxBuf)
    requires Receiving(x, l) && x.count < RXQ
    ensures Receiving(Supply(x, l, buf).0, Supply(x, l, buf).1)
  {
    hide GoodDelivery, LastOpen, Handed, AllBufs, Queue;
    Enqueue(x.ring, x.head, x.count, buf);
    assert (l.used + Waiting(x)) + [buf] == l.used + (Waiting(x) + [buf]);
  }

  /** Emptying the ring, as RESET and FLUSH do. */
  lemma EmptyKeeps(x: Rx, l: RxLog, lost: bool)
    requires Receiving(x, l)
    ensures Receiving(x.(head := 0, count := 0, lost := lost), l.(accepted := l.used))
  {
  }

  // ---- the operations keep it ----

  lemma PumpWorld(w: World, bus: Bus)
    requires Inv(w)
    ensures Inv(Pump(w, bus))
  {
    PumpKeeps(w.dev.rx, w.log.rx, bus);
    InterruptsCount(w.dev.ints, w.log.ints);
  }

  lemma DeliverWorld(w: World, frame: Bytes, bus: Bus)
    requires Inv(w)
    ensures Inv(Deliver(w, frame, bus))
  {
    if |frame| >= 14 && w.dev.rx.count > 0 {
      var (x, l) := Begin(w.dev.rx, w.log.rx, frame);
      BeginKeeps(w.dev.rx, w.log.rx, frame);
      PumpWorld(World(w.dev.(rx := x), w.log.(rx := l)), bus);
    }
  }

  lemma ResetWorld(w: World)
    requires Inv(w)
    ensures Inv(DoReset(w)) && Inv(DeviceReset(w))
  {
    EmptyKeeps(w.dev.rx, w.log.rx, false);
    InterruptsCount(w.dev.ints, w.log.ints);
  }

  lemma FlushWorld(w: World)
    requires Inv(w)
    ensures Inv(DoFlush(w))
  {
    var x, l := w.dev.rx, w.log.rx;
    if x.busy {
      AbandonKeeps(x, l, Flushed);
      EmptyKeeps(x.(busy := false), Abandoned(l, Flushed), x.lost);
    } else {
      EmptyKeeps(x, l, x.lost);
    }
    InterruptsCount(w.dev.ints, w.log.ints);
  }

  lemma RcvWorld(w: World, ba: nat, bus: Bus)
    requires Inv(w)
    ensures Inv(DoRcv(w, ba, bus).0)
  {
    if w.dev.rx.count < RXQ {
      var buf := RxBuf(ba, w.dev.regs.bcr);
      SupplyKeeps(w.dev.rx, w.log.rx, buf);
      var (x, l) := Supply(w.dev.rx, w.log.rx, buf);
      PumpWorld(World(w.dev.(rx := x), w.log.(rx := l)), bus);
    }
  }

  lemma TransmitWorld(w: World, out: Bytes, bus: Bus)
    requires Inv(w)
    ensures Inv(Transmit(w, out, bus).0)
  {
    hide Deliver, Receiving, Counted;
    if w.dev.mode.loopback { DeliverWorld(w, out, bus); }
  }

  lemma XmitWorld(w: World, ba: nat, send: bool, bus: Bus)
    requires Inv(w)
    ensures Inv(DoXmit(w, ba, send, bus).0)
  {
    hide Transmit, Counted, Outgoing;
    var bc := w.dev.regs.bcr;
    var tx := if bc > 0 then w.dev.tx + Fetch(bus, ba, bc) else w.dev.tx;
    if |tx| >= 8 {
      TransmitWorld(w, Outgoing(tx, w.dev.mac), bus);
      assert Inv(Transmit(w, Outgoing(tx, w.dev.mac), bus).0);
    }
  }

  lemma ExecuteWorld(w: World, cmd: Cmd, ba: nat, bus: Bus)
    requires Inv(w)
    ensures Inv(Execute(w, cmd, ba, bus).0)
  {
    match cmd
    case Reset => ResetWorld(w);
    case Rcv => RcvWorld(w, ba, bus);
    case Flush => FlushWorld(w);
    case LdXmit => XmitWorld(w, ba, false, bus);
    case Xmit => XmitWorld(w, ba, true, bus);
    case _ =>
  }

  lemma CommandWorld(w: World, o: Order, bus: Bus)
    requires Inv(w)
    ensures Inv(Command(w, o, bus))
  {
    var e := World(w.dev.(ints := Enable(w.dev.ints, o)), w.log);
    ExecuteWorld(e, Decode(o.code), DmaAddress(o, w.dev.regs.bar), bus);
  }

  lemma {:induction false} PollWorld(w: World, wire: seq<Bytes>, bus: Bus)
    requires Inv(w)
    ensures Inv(Poll(w, wire, bus).w)
    decreases |wire|
  {
    if !w.dev.rx.busy && wire != [] && wire[0] != [] {
      var v := Deliver(w, wire[0], bus);
      DeliverWorld(w, wire[0], bus);
      if v.dev.rx.count > 0 && !v.dev.rx.busy { PollWorld(v, wire[1..], bus); }
    }
  }

  lemma ServiceWorld(w: World, wire: seq<Bytes>, bus: Bus)
    requires Inv(w)
    ensures Inv(Service(w, wire, bus).w)
  {
    if w.dev.attached {
      PumpWorld(w, bus);
      PollWorld(Pump(w, bus), wire, bus);
    }
  }

  // ---- every run ----

  /** What can happen to the board, each with the bus as it then is. */
  datatype Event =
    | SetBar(v: Word)
    | SetBcr(v: Word)
    | ReadStatus
    | Issue(o: Order, bus: Bus)
    | Call(wire: seq<Bytes>, bus: Bus)
    | TakeReceive
    | TakeCommand
    | Attach(on: bool)
    | Power

  function Step(w: World, e: Event): (v: World)
    requires Inv(w)
    ensures Inv(v)
  {
    var s := w.dev;
    match e
    case SetBar(v) => World(s.(regs := s.regs.(bar := v)), w.log)
    case SetBcr(v) => World(s.(regs := s.regs.(bcr := v)), w.log)
    case ReadStatus => World(s.(regs := ReadCsr(s.regs).0), w.log)
    case Issue(o, bus) => CommandWorld(w, o, bus); Command(w, o, bus)
    case Call(wire, bus) => ServiceWorld(w, wire, bus); Service(w, wire, bus).w
    case TakeReceive =>
      var (i, l, got) := AckReceive(s.ints, w.log.ints);
      InterruptsCount(s.ints, w.log.ints);
      World(s.(ints := i), w.log.(ints := l))
    case TakeCommand => World(s.(ints := AckCommand(s.ints).0), w.log)
    case Attach(on) => World(s.(attached := on), w.log)
    case Power => ResetWorld(w); DeviceReset(w)
  }

  function Run(w: World, es: seq<Event>): (v: World)
    requires Inv(w)
    ensures Inv(v)
    decreases |es|
  {
    if es == [] then w else Run(Step(w, es[0]), es[1..])
  }

  const INITIAL := World(
    State(Regs(BLANK, 0, 0), Ints(false, false, false, false, false, false, 0),
          Rx(seq(RXQ, _ => RxBuf(0, 0)), 0, 0, [], 0, false, false), [], DEFAULT_MAC,
          Mode(false, false, false), 0, false, Counters(0, 0, 0, 0)),
    Log(RxLog([], [], []), IntLog(0, 0, 0, 0, false), [], []))

  lemma InitialInv()
    ensures Inv(INITIAL)
  {
  }
}
