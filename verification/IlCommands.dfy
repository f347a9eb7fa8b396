/** What each command code does, as the driver writes it and reads its status back; the
    interrupt that follows; and the two packet counts. */
module IlCommands {
  import opened Basics
  import opened IlModel
  import opened IlRuns

  // Accepted and ignored: the self-test, the address filters, and what governs bad frames
  // and interrupt timing.
  const IGNORED: set<int> := {0x0A, 0x10, 0x11, 0x2A, 0x2B, 0x06, 0x07, 0x0D, 0x0E, 0x19}

  const OBEYED: set<int> :=
    {0x3F, 0x09, 0x08, 0x18, 0x20, 0x30, 0x28, 0x29, 0x04, 0x05, 0x01, 0x02, 0x03, 0x2C, 0x0F}

  /** Nothing is sent, received or taken; at most a mode or the address is another. */
  predicate Only(w: World, v: World, mode: Mode, mac: Bytes) {
    v.log == w.log && v.dev.rx == w.dev.rx && v.dev.tx == w.dev.tx && v.dev.burst == w.dev.burst
    && v.dev.counters == w.dev.counters && v.dev.mode == mode && v.dev.mac == mac
  }

  function StatusOf(v: World): nat { StatusCode(v.dev.regs.csr.status) }

  /** A code that is not obeyed: some are accepted, and the others are said to be bad. */
  lemma OtherCodes(w: World, o: Order, bus: Bus)
    requires Inv(w) && o.code !in OBEYED
    ensures var v := Step(w, Issue(o, bus));
            StatusOf(v) == (if o.code in IGNORED then 0 else 2) && Only(w, v, w.dev.mode, w.dev.mac)
  {
    hide Inv, DoXmit, DoRcv, DoFlush, DoReset, DoStat, DoLdPa;
    InvRinged(w);
  }

  /** The codes that only change a mode. */
  lemma ModeCodes(w: World, o: Order, bus: Bus)
    requires Inv(w)
    ensures var v := Step(w, Issue(o, bus));
            var c, m, mac := o.code, w.dev.mode, w.dev.mac;
            (c == 0x09 || c == 0x08 ==> StatusOf(v) == 0 && Only(w, v, m.(online := c == 0x09), mac))
            && (c == 0x04 || c == 0x05 ==> StatusOf(v) == 0 && Only(w, v, m.(promisc := c == 0x04), mac))
            && (c == 0x01 || c == 0x02 || c == 0x03 ==> StatusOf(v) == 0 && Only(w, v, m.(loopback := c != 0x03), mac))
  {
    hide Inv, DoXmit, DoRcv, DoFlush, DoReset, DoStat, DoLdPa;
    InvRinged(w);
  }

  /** What is read by DMA is what the guest has there. */
  lemma Fetched(bus: Bus, ba: nat, n: nat)
    requires |bus.read(ba, n)| == n
    ensures Fetch(bus, ba, n) == bus.read(ba, n)
  {
  }

  /** The default address, and one from the guest's memory. */
  lemma AddressCodes(w: World, o: Order, bus: Bus)
    requires Inv(w)
    ensures var v := Step(w, Issue(o, bus));
            var c, m, ba := o.code, w.dev.mode, o.eua * 0x1_0000 + w.dev.regs.bar;
            (c == 0x0F ==> StatusOf(v) == 0 && Only(w, v, m, [0x02, 0x07, 0x01, 0x00, 0x00, 0x01]))
            && (c == 0x2C ==> if bus.readable(ba, 6) then StatusOf(v) == 0 && Only(w, v, m, Fetch(bus, ba, 6))
                              else StatusOf(v) == 15 && Only(w, v, m, w.dev.mac))
  {
    hide Inv, DoXmit, DoRcv, DoFlush, DoReset, DoStat, Fetch;
    InvRinged(w);
  }

  lemma InvRinged(w: World)
    requires Inv(w)
    ensures Ringed(w.dev.rx) && |w.dev.mac| == MACLEN
  {
    hide InOrder, Delivering, Counted;
  }

  /** RESET, FLUSH and a receive buffer. */
  lemma BufferCodes(w: World, o: Order, bus: Bus)
    requires Inv(w)
    ensures var v := Step(w, Issue(o, bus));
            var c, x := o.code, v.dev.rx;
            (c == 0x3F ==> StatusOf(v) == 0 && x.count == 0 && !x.lost && v.dev.tx == [] && v.dev.mode == Mode(false, false, false)
                           && x.frame == w.dev.rx.frame && x.off == w.dev.rx.off && x.busy == w.dev.rx.busy)
            && (c == 0x30 ==> StatusOf(v) == 0 && x.count == 0 && !x.busy && v.dev.tx == w.dev.tx && v.dev.mode == w.dev.mode)
            && (c == 0x20 ==> StatusOf(v) == if w.dev.rx.count == 16 then 5 else 0)
  {
    hide Inv, DoXmit, DoStat, Fetch, Pump, Forget;
    InvRinged(w);
  }

  /** The simulator's reset: registers, interrupts and modes clear, no buffer and no
      fragment, but the frame in flight as it was. */
  lemma PowerClears(w: World)
    requires Inv(w)
    ensures var s, t := w.dev, Step(w, Power).dev;
            CsrBits(t.regs.csr) == 0 && t.regs.bar == 0 && t.regs.bcr == 0
            && t.ints == Ints(false, false, false, false, false, false, 0) && t.mode == Mode(false, false, false)
            && t.rx.count == 0 && !t.rx.lost && t.tx == [] && t.attached == s.attached && t.counters == s.counters
            && t.rx.busy == s.rx.busy && t.rx.frame == s.rx.frame && t.rx.off == s.rx.off
  {
    hide Inv, Forget;
    InvRinged(w);
  }

  /** Transmitting: fragments may not pass 1582 bytes, are held until the one that sends,
      and are gone after it or after an error. */
  lemma TransmitCodes(w: World, o: Order, bus: Bus)
    requires Inv(w) && (o.code == 0x28 || o.code == 0x29)
    ensures var v := Step(w, Issue(o, bus));
            var held, n := w.dev.tx, w.dev.regs.bcr;
            var ba := o.eua * 0x1_0000 + w.dev.regs.bar;
            if |held| + n > 1582 then StatusOf(v) == 5 && v.dev.tx == [] && v.log == w.log
            else if n > 0 && !bus.readable(ba, n) then StatusOf(v) == 15 && v.dev.tx == [] && v.log == w.log
            else if o.code == 0x28 then
              StatusOf(v) == 0 && v.log == w.log && v.dev.tx == held + (if n > 0 then Fetch(bus, ba, n) else [])
            else
              v.dev.tx == []
              && StatusOf(v) == if |held| + n < 8 then 6
                                else if w.dev.mode.loopback || !w.dev.attached || bus.sends then 0 else 1
  {
    hide Inv, Fetch, Deliver, Outgoing;
    InvRinged(w);
    if w.dev.regs.bcr == 0 { assert w.dev.tx + [] == w.dev.tx; }
  }

  // ---- the command interrupt ----

  predicate Asks(e: Event) { e.Issue? && e.o.cie }

  predicate Settles(e: Event) { e.TakeCommand? || e.Power? }

  /** Some command since the last acknowledgment was given with its interrupt enabled. */
  function Outstanding(es: seq<Event>): bool
    decreases |es|
  {
    es != [] && var e := es[|es| - 1]; Asks(e) || (!Settles(e) && Outstanding(es[..|es| - 1]))
  }

  lemma DeliverCommand(w: World, frame: Bytes, bus: Bus)
    requires Ringed(w.dev.rx)
    ensures SameRequest(w, Deliver(w, frame, bus)) && SameRequest(w, Pump(w, bus))
  {
    hide Begin, PumpRx, NextEnd;
  }

  predicate SameRequest(w: World, v: World) {
    v.dev.ints.cint == w.dev.ints.cint && v.dev.ints.cline == w.dev.ints.cline && v.dev.ints.cie == w.dev.ints.cie
  }

  lemma {:induction false} PollCommand(w: World, wire: seq<Bytes>, bus: Bus)
    requires Ringed(w.dev.rx)
    ensures SameRequest(w, Poll(w, wire, bus).w)
    decreases |wire|
  {
    hide Deliver;
    if !w.dev.rx.busy && wire != [] && wire[0] != [] {
      var v := Deliver(w, wire[0], bus);
      DeliverCommand(w, wire[0], bus);
      if v.dev.rx.count > 0 && !v.dev.rx.busy { PollCommand(v, wire[1..], bus); }
    }
  }

  lemma ExecuteCommand(w: World, cmd: Cmd, ba: nat, bus: Bus)
    requires Inv(w)
    ensures SameRequest(w, Execute(w, cmd, ba, bus).0)
  {
    hide Inv, Deliver, Pump, Outgoing, Fetch;
    InvRinged(w);
    match cmd
    case Xmit => XmitCommand(w, ba, true, bus);
    case LdXmit => XmitCommand(w, ba, false, bus);
    case Rcv => RcvCommand(w, ba, bus);
    case _ =>
  }

  lemma RcvCommand(w: World, ba: nat, bus: Bus)
    requires Ringed(w.dev.rx)
    ensures SameRequest(w, DoRcv(w, ba, bus).0)
  {
    hide Pump;
    if w.dev.rx.count < RXQ {
      var (x, l) := Supply(w.dev.rx, w.log.rx, RxBuf(ba, w.dev.regs.bcr));
      DeliverCommand(World(w.dev.(rx := x), w.log.(rx := l)), [], bus);
    }
  }

  lemma XmitCommand(w: World, ba: nat, send: bool, bus: Bus)
    requires Ringed(w.dev.rx) && |w.dev.mac| == MACLEN
    ensures SameRequest(w, DoXmit(w, ba, send, bus).0)
  {
    hide Deliver, Outgoing, Fetch;
    var bc := w.dev.regs.bcr;
    var tx := if bc > 0 then w.dev.tx + Fetch(bus, ba, bc) else w.dev.tx;
    if |tx| >= 8 { DeliverCommand(w, Outgoing(tx, w.dev.mac), bus); }
  }

  lemma StepCommand(w: World, e: Event)
    requires Inv(w) && w.dev.ints.cint == w.dev.ints.cline
    ensures var i := Step(w, e).dev.ints;
            i.cint == i.cline == (Asks(e) || (!Settles(e) && w.dev.ints.cint))
  {
    hide Inv, Execute, Poll, Pump;
    InvRinged(w);
    match e
    case Issue(o, bus) =>
      var x := World(w.dev.(ints := Enable(w.dev.ints, o)), w.log);
      EnabledInv(w, o);
      ExecuteCommand(x, Decode(o.code), DmaAddress(o, w.dev.regs.bar), bus);
    case Call(wire, bus) =>
      if w.dev.attached {
        DeliverCommand(w, [], bus);
        PollCommand(Pump(w, bus), wire, bus);
      }
    case _ =>
  }

  lemma EnabledInv(w: World, o: Order)
    requires Inv(w)
    ensures Inv(World(w.dev.(ints := Enable(w.dev.ints, o)), w.log))
  {
    hide InOrder, Delivering;
  }

  lemma {:induction false} RunSnoc(w: World, es: seq<Event>)
    requires Inv(w) && es != []
    ensures Run(w, es) == Step(Run(w, es[..|es| - 1]), es[|es| - 1])
    decreases |es|
  {
    hide Inv, Step;
    if |es| > 1 {
      assert es[1..][..|es| - 2] == es[..|es| - 1][1..];
      RunSnoc(Step(w, es[0]), es[1..]);
    } else {
      assert Run(w, es[..0]) == w;
      RunOne(w, es);
    }
  }

  lemma RunOne(w: World, es: seq<Event>)
    requires Inv(w) && |es| == 1
    ensures Run(w, es) == Step(w, es[0])
  {
    hide Inv, Step;
    assert es[1..] == [];
  }

  /** After every run: the command request is up, and its vector given, if and only if a
      command with its interrupt enabled has come since the last acknowledgment. */
  lemma {:induction false} CommandRequest(es: seq<Event>)
    ensures Inv(INITIAL)
    ensures var i := Run(INITIAL, es).dev.ints;
            i.cint == i.cline == Outstanding(es) && AckCommand(i).1 == Outstanding(es)
    decreases |es|
  {
    hide Inv, Run, Step;
    InitialInv();
    if es == [] {
      RunNone(INITIAL);
    } else {
      CommandRequest(es[..|es| - 1]);
      RunSnoc(INITIAL, es);
      StepCommand(Run(INITIAL, es[..|es| - 1]), es[|es| - 1]);
    }
  }

  lemma RunNone(w: World)
    requires Inv(w)
    ensures Run(w, []) == w
  {
    hide Inv;
  }
}
