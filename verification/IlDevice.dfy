/** The controller as the C program keeps it: one static context that every
    function changes in place.  Each method is tied to its step of the model;
    the log is ghost. */
module IlDevice {
  import opened Basics
  import opened IlModel
  import IlRuns

  type Slot = i: int | 0 <= i < RXQ
  type Filling = n: int | 0 <= n <= RXQ
  type Mac = m: Bytes | |m| == MACLEN witness [0, 0, 0, 0, 0, 0]

  class Device {
    var regs: Regs
    var ints: Ints
    var mode: Mode
    var counters: Counters
    const rxq: array<RxBuf>
    var rxqHead: Slot
    var rxqCount: Filling
    var rxburst: nat
    var rxframe: Bytes              // the first rxtotal bytes of the buffer
    var rxoff: nat
    var rxbusy: bool
    var lost: bool
    var tx: Bytes                   // the first txlen bytes of the buffer
    var mac: Mac
    var attached: bool
    ghost var log: Log

    ghost predicate Valid()
      reads this, rxq
    {
      rxq.Length == RXQ && rxoff <= |rxframe|
    }

    ghost function Receiver(): (x: Rx)
      reads this, rxq
      requires Valid()
      ensures Ringed(x)
    {
      Rx(rxq[..], rxqHead, rxqCount, rxframe, rxoff, rxbusy, lost)
    }

    ghost function View(): (w: World)
      reads this, rxq
      requires Valid()
      ensures Ringed(w.dev.rx) && |w.dev.mac| == MACLEN
    {
      World(State(regs, ints, Receiver(), tx, mac, mode, rxburst, attached, counters), log)
    }

    constructor ()
      ensures Valid() && fresh(rxq) && View() == IlRuns.INITIAL
    {
      rxq := new RxBuf[RXQ](_ => RxBuf(0, 0));
      regs, ints := Regs(BLANK, 0, 0), Ints(false, false, false, false, false, false, 0);
      mode, counters := Mode(false, false, false), Counters(0, 0, 0, 0);
      rxqHead, rxqCount, rxburst, rxframe, rxoff, rxbusy, lost := 0, 0, 0, [], 0, false, false;
      tx, mac, attached := [], DEFAULT_MAC, false;
      log := Log(RxLog([], [], []), IntLog(0, 0, 0, 0, false), [], []);
      new;
      assert rxq[..] == IlRuns.INITIAL.dev.rx.ring;
    }

    // ---- interrupts ----

    /** il_setcint() */
    method SetCommandInterrupt()
      modifies this`regs, this`ints
      ensures regs == old(regs).(csr := old(regs).csr.(cdone := true)) && ints == SetCint(old(ints))
    {
      regs := regs.(csr := regs.csr.(cdone := true));
      if ints.cie {
        ints := ints.(cint := true, cline := true);
      }
    }

    /** il_setrint() */
    method SetReceiveInterrupt()
      modifies this`regs, this`ints, this`log
      ensures regs == old(regs).(csr := old(regs).csr.(rdone := true))
      ensures (ints, log.ints) == SetRint(old(ints), old(log).ints) && log == old(log).(ints := log.ints)
    {
      regs := regs.(csr := regs.csr.(rdone := true));
      if ints.rie {
        ints := ints.(rpend := ints.rpend + 1);
        ints := ints.(rint := true, rline := true);
        log := log.(ints := log.ints.(raised := log.ints.raised + 1));
      }
    }

    /** il_cint_ack() */
    method AcknowledgeCommand() returns (vector: bool)
      modifies this`ints
      ensures (ints, vector) == AckCommand(old(ints))
    {
      if ints.cint {
        ints := ints.(cint := false, cline := false);
        return true;
      }
      return false;
    }

    /** il_rint_ack(), the bus dropping the request as it grants it. */
    method AcknowledgeReceive() returns (vector: bool)
      modifies this`ints, this`log
      ensures (ints, log.ints, vector) == AckReceive(old(ints), old(log).ints) && log == old(log).(ints := log.ints)
    {
      ints := ints.(rline := false);
      if !ints.rint { return false; }
      log := log.(ints := log.ints.(vectors := log.ints.vectors + 1,
                                    spurious := if ints.rpend > 0 then log.ints.spurious else log.ints.spurious + 1));
      if ints.rpend > 0 { ints := ints.(rpend := ints.rpend - 1); }
      if ints.rpend > 0 {
        ints := ints.(rline := true);
      } else {
        ints := ints.(rint := false, rline := false);
      }
      return true;
    }

    /** il_rd() of the command and status register. */
    method ReadStatus() returns (data: int)
      modifies this`regs
      ensures (regs, data) == ReadCsr(old(regs))
    {
      data := CsrBits(regs.csr);
      regs := regs.(csr := regs.csr.(cdone := false, rdone := false));
    }

    // ---- receive ----

    /** il_rxpump()'s transfer, and how the frame stands after it. */
    method MoveBytes(bus: Bus) returns (end: End)
      requires Valid() && rxbusy && rxqCount > 0
      modifies this`rxqHead, this`rxqCount, this`rxoff, this`rxbusy, this`log
      ensures Valid()
      ensures (Receiver(), log.rx) == PumpRx(old(Receiver()), old(log).rx, bus) && log == old(log).(rx := log.rx)
      ensures end == NextEnd(old(Receiver()), bus)
    {
      hide Used, Extend;
      ghost var x := Receiver();
      var rb := rxq[rxqHead];
      var chunk := |rxframe| - rxoff;
      if chunk > rb.bc { chunk := rb.bc; }
      log := log.(rx := PumpRx(x, log.rx, bus).1);
      if !bus.writable(rb.ba, chunk) {
        rxbusy, end := false, Faulted;
      } else {
        rxoff := rxoff + chunk;
        end := if rxoff >= |rxframe| then Complete else if rb.bc % 8 != 0 then Truncated else Open;
        rxbusy := end == Open;
      }
      rxqHead := (rxqHead + 1) % RXQ;
      rxqCount := rxqCount - 1;
    }

    /** The transfer with its counters and status, before the interrupt. */
    method FillBuffer(bus: Bus)
      requires Valid() && rxbusy && rxqCount > 0
      modifies this`regs, this`counters, this`rxqHead, this`rxqCount, this`rxoff, this`rxbusy, this`log
      ensures Valid()
      ensures (Receiver(), log.rx) == PumpRx(old(Receiver()), old(log).rx, bus) && log == old(log).(rx := log.rx)
      ensures var end, c := NextEnd(old(Receiver()), bus), old(counters);
              regs == (if end == Faulted then old(regs).(csr := old(regs).csr.(status := Nxm)) else old(regs))
              && counters == if end == Faulted then c.(ierrors := c.ierrors + 1)
                             else if end == Open then c
                             else c.(ipackets := c.ipackets + 1)
    {
      hide PumpRx, NextEnd;
      var end := MoveBytes(bus);
      if end == Faulted {
        counters := counters.(ierrors := counters.ierrors + 1);
        regs := regs.(csr := regs.csr.(status := Nxm));
      } else if end != Open {
        counters := counters.(ipackets := counters.ipackets + 1);
      }
    }

    /** il_rxpump() */
    method RxPump(bus: Bus)
      requires Valid()
      modifies this`regs, this`ints, this`counters, this`rxqHead, this`rxqCount, this`rxoff, this`rxbusy, this`log
      ensures Valid()
      ensures View() == Pump(old(View()), bus)
    {
      hide PumpRx, SetRint;
      if !rxbusy || rxqCount == 0 { return; }
      FillBuffer(bus);
      SetReceiveInterrupt();
    }

    /** il_deliver() */
    method DeliverFrame(frame: Bytes, bus: Bus)
      requires Valid()
      modifies this`regs, this`ints, this`counters, this`rxqHead, this`rxqCount, this`rxoff, this`rxbusy,
               this`rxframe, this`lost, this`log
      ensures Valid()
      ensures View() == Deliver(old(View()), frame, bus)
    {
      hide Pump, Begin;
      if |frame| >= 14 {
        if rxqCount == 0 {
          lost := true;
          counters := counters.(ierrors := counters.ierrors + 1);
        } else {
          StartFrame(frame);
          RxPump(bus);
        }
      }
    }

    method StartFrame(frame: Bytes)
      requires Valid()
      modifies this`rxframe, this`lost, this`rxoff, this`rxbusy, this`log
      ensures Valid()
      ensures (Receiver(), log.rx) == Begin(old(Receiver()), old(log).rx, frame) && log == old(log).(rx := log.rx)
    {
      log := log.(rx := Begin(Receiver(), log.rx, frame).1);
      rxframe := Image(Clip(frame), lost);
      lost := false;
      rxoff := 0;
      rxbusy := true;
    }

    // ---- polling ----

    /** il_svc()'s loop: eth_read until there is nothing, no buffer, or a frame
        still in flight. */
    method PollWire(wire0: seq<Bytes>, bus: Bus) returns (wire: seq<Bytes>, got: bool)
      requires Valid()
      modifies this`regs, this`ints, this`counters, this`rxqHead, this`rxqCount, this`rxoff, this`rxbusy,
               this`rxframe, this`lost, this`log
      ensures Valid()
      ensures Poll(old(View()), wire0, bus) == Polled(View(), wire, got)
    {
      wire, got := wire0, false;
      while true
        invariant Valid()
        invariant Poll(old(View()), wire0, bus) == var p := Poll(View(), wire, bus); p.(got := got || p.got)
        decreases |wire|
      {
        if rxbusy || wire == [] { return; }
        var frame := wire[0];
        if frame == [] {
          wire := wire[1..];
          return;
        }
        DeliverFrame(frame, bus);
        wire, got := wire[1..], true;
        if rxqCount == 0 || rxbusy { return; }
      }
    }

    /** il_svc(): true when it asks to be called again in about 200 microseconds. */
    method Serve(wire0: seq<Bytes>, bus: Bus) returns (wire: seq<Bytes>, fast: bool)
      requires Valid()
      modifies this
      ensures Valid()
      ensures Service(old(View()), wire0, bus) == Serviced(View(), wire, fast)
    {
      var got := false;
      wire := wire0;
      if attached {
        RxPump(bus);
        wire, got := PollWire(wire0, bus);
      }
      fast := Schedule(got);
    }

    method Schedule(got: bool) returns (fast: bool)
      modifies this`rxburst
      ensures (rxburst, fast) == NextBurst(old(rxburst), got)
    {
      if got && rxburst == 0 { rxburst := BURST; }
      if rxburst > 0 {
        rxburst := rxburst - 1;
        fast := true;
      } else {
        fast := false;
      }
    }

    // ---- commands ----

    /** il_command() */
    method WriteCommand(o: Order, bus: Bus)
      requires Valid()
      modifies this, rxq
      ensures Valid()
      ensures View() == Command(old(View()), o, bus)
    {
      ints := ints.(cie := o.cie, rie := o.rie);
      ghost var w := View();
      assert w == World(old(View()).dev.(ints := Enable(old(View()).dev.ints, o)), old(View()).log);
      var status := Perform(Decode(o.code), DmaAddress(o, regs.bar), bus);
      regs := regs.(csr := Csr(o, regs.csr.cdone, regs.csr.rdone, status));
      SetCommandInterrupt();
    }

    /** The switch of il_command(). */
    method Perform(cmd: Cmd, ba: nat, bus: Bus) returns (status: Status)
      requires Valid()
      modifies this, rxq
      ensures Valid()
      ensures (View(), status) == Execute(old(View()), cmd, ba, bus)
    {
      status := Success;
      match cmd
      case Reset => ResetBoard();
      case Online => mode := mode.(online := true);
      case Offline => mode := mode.(online := false);
      case Diag =>
      case Stat => status := Report(ba, bus);
      case Rcv => status := SupplyBuffer(ba, bus);
      case Flush => FlushRing();
      case LdXmit => status := Load(ba, false, bus);
      case Xmit => status := Load(ba, true, bus);
      case Promisc(on) => mode := mode.(promisc := on);
      case Loopback(on) => mode := mode.(loopback := on);
      case LdPa =>
        if bus.readable(ba, MACLEN) { mac := Fetch(bus, ba, MACLEN); } else { status := Nxm; }
      case DefPa => mac := DEFAULT_MAC;
      case Accepted =>
      case Unknown => status := BadCmd;
    }

    method ResetBoard()
      requires Valid()
      modifies this
      ensures Valid()
      ensures View() == DoReset(old(View()))
    {
      ghost var ring := rxq[..];
      log := log.(rx := log.rx.(accepted := log.rx.used), ints := Forget(ints, log.ints).1);
      mode := Mode(false, false, false);
      rxqHead, rxqCount, rxburst := 0, 0, 0;
      ints := ints.(rpend := 0);
      tx := [];
      lost := false;
      regs := regs.(csr := regs.csr.(cdone := false, rdone := false));
      assert rxq[..] == ring;
    }

    method FlushRing()
      requires Valid()
      modifies this
      ensures Valid()
      ensures View() == DoFlush(old(View()))
    {
      ghost var l := if rxbusy then Abandoned(log.rx, Flushed) else log.rx;
      log := log.(rx := l.(accepted := l.used), ints := Forget(ints, log.ints).1);
      rxqHead, rxqCount := 0, 0;
      rxbusy := false;
      ints := ints.(rpend := 0);
    }

    method Report(ba: nat, bus: Bus) returns (status: Status)
      requires Valid()
      modifies this`log
      ensures Valid()
      ensures (View(), status) == DoStat(old(View()), ba, bus)
    {
      var n := if regs.bcr != 0 && regs.bcr < 66 then regs.bcr else 66;
      if !bus.writable(ba, n) { return Nxm; }
      log := log.(reports := log.reports + [(ba, StatRecord(View().dev)[..n])]);
      return Success;
    }

    method SupplyBuffer(ba: nat, bus: Bus) returns (status: Status)
      requires Valid()
      modifies this, rxq
      ensures Valid()
      ensures (View(), status) == DoRcv(old(View()), ba, bus)
    {
      if rxqCount >= RXQ { return BufSiz; }
      PutBuffer(RxBuf(ba, regs.bcr));
      RxPump(bus);
      return Success;
    }

    method PutBuffer(buf: RxBuf)
      requires Valid() && rxqCount < RXQ
      modifies this`rxqCount, this`log, rxq
      ensures Valid()
      ensures (Receiver(), log.rx) == Supply(old(Receiver()), old(log).rx, buf) && log == old(log).(rx := log.rx)
    {
      var n := (rxqHead + rxqCount) % RXQ;
      rxq[n] := buf;
      rxqCount := rxqCount + 1;
      log := log.(rx := log.rx.(accepted := log.rx.accepted + [buf]));
    }

    /** LDXMIT and XMIT */
    method Load(ba: nat, send: bool, bus: Bus) returns (status: Status)
      requires Valid()
      modifies this
      ensures Valid()
      ensures (View(), status) == DoXmit(old(View()), ba, send, bus)
    {
      hide Outgoing, Fetch, Transmit, Ringed;
      if |tx| + regs.bcr > TXBUF {
        tx := [];
        return BufSiz;
      }
      if regs.bcr != 0 && !bus.readable(ba, regs.bcr) {
        tx := [];
        return Nxm;
      }
      var held := if regs.bcr != 0 then tx + Fetch(bus, ba, regs.bcr) else tx;
      if !send {
        tx := held;
        return Success;
      }
      if |held| < 8 {
        tx := [];
        return FrameSiz;
      }
      status := Send(Outgoing(held, mac), bus);
      counters := counters.(opackets := counters.opackets + 1);
      tx := [];
    }

    method Send(out: Bytes, bus: Bus) returns (status: Status)
      requires Valid()
      modifies this`regs, this`ints, this`counters, this`rxqHead, this`rxqCount, this`rxoff, this`rxbusy,
               this`rxframe, this`lost, this`log
      ensures Valid()
      ensures (View(), status) == Transmit(old(View()), out, bus)
    {
      status := Success;
      if mode.loopback {
        DeliverFrame(out, bus);
      } else if attached {
        if bus.sends {
          log := log.(sent := log.sent + [out]);
        } else {
          counters := counters.(oerrors := counters.oerrors + 1);
          status := Retries;
        }
      }
    }
  }
}
