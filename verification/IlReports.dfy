/** What the driver is told by STAT: the board's address, which it learns from nothing
    else, and how many packets came and went. */
module IlReports {
  import opened Basics
  import opened IlModel
  import opened IlRuns
  import opened Division

  const STATLEN: nat := 66

  // The command codes, as the driver writes them.
  const STAT := 0x18
  const LDPA := 0x2C
  const DEFPA := 0x0F
  const XMIT := 0x29

  const FACTORY: Bytes := [0x02, 0x07, 0x01, 0x00, 0x00, 0x01]

  // ---- one report ----

  function Chars(s: string): (b: Bytes)
    requires forall i :: 0 <= i < |s| ==> s[i] as int < 256
    ensures |b| == |s| && forall i :: 0 <= i < |s| ==> b[i] == s[i] as int
  {
    if s == "" then []
    else
      var c: Byte := s[|s| - 1] as int;
      Chars(s[..|s| - 1]) + [c]
  }

  /** Two bytes, low first, hold n modulo 2^16. */
  predicate Holds(r: Bytes, at: nat, n: nat)
    requires at + 2 <= |r|
  {
    var low: nat, high: nat := r[at], r[at + 1];
    low + 256 * high == n % 0x1_0000
  }

  predicate Blank(r: Bytes, from: nat, to: nat)
    requires to <= |r|
  {
    forall i :: from <= i < to ==> r[i] == 0
  }

  /** The record: its length, the address, the two counts and the two names. */
  predicate IsRecord(r: Bytes, mac: Bytes, received: nat, sent: nat) {
    |r| == STATLEN && Blank(r, 0, 2) && Holds(r, 2, 62) && r[4..10] == mac && Holds(r, 10, received) && Blank(r, 12, 14)
    && Holds(r, 14, sent) && Blank(r, 16, 50) && r[50..58] == Chars("NI1010  ") && r[58..66] == Chars("SIMH    ")
  }

  lemma LowHigh(n: nat)
    ensures n % 256 + 256 * ((n / 256) % 256) == n % 0x1_0000
  {
    var q := n / 256;
    assert n == 256 * q + n % 256 && q == 256 * (q / 256) + q % 256;
    Quotient(n, 0x1_0000, q / 256, n % 256 + 256 * (q % 256));
  }

  lemma RecordIs(s: State)
    requires |s.mac| == MACLEN
    ensures IsRecord(StatRecord(s), s.mac, s.counters.ipackets, s.counters.opackets)
  {
    var r := StatRecord(s);
    LowHigh(s.counters.ipackets);
    LowHigh(s.counters.opackets);
    assert r[4..10] == s.mac;
    assert r[50..58] == Chars("NI1010  ");
    assert r[58..66] == Chars("SIMH    ");
  }

  // ---- the address, over a run ----

  /** The address that an event gives the board, if it does: one read from the guest,
      the default, or the default at power-up if it had none. */
  function Gives(w: World, e: Event): Option<Bytes> {
    match e
    case Issue(o, bus) =>
      var ba := o.eua * 0x1_0000 + w.dev.regs.bar;
      if o.code == LDPA && bus.readable(ba, MACLEN) then Some(Fetch(bus, ba, MACLEN))
      else if o.code == DEFPA then Some(FACTORY)
      else None
    case Power => if w.dev.mac == [0, 0, 0, 0, 0, 0] then Some(FACTORY) else None
    case _ => None
  }

  function LastGiven(w: World, es: seq<Event>): Option<Bytes>
    requires Inv(w)
    decreases |es|
  {
    if es == [] then None
    else
      var later := LastGiven(Step(w, es[0]), es[1..]);
      if later.Some? then later else Gives(w, es[0])
  }

  lemma {:induction false} PollAddress(w: World, wire: seq<Bytes>, bus: Bus)
    requires Ringed(w.dev.rx)
    ensures Poll(w, wire, bus).w.dev.mac == w.dev.mac
    decreases |wire|
  {
    if !w.dev.rx.busy && wire != [] && wire[0] != [] {
      var v := Deliver(w, wire[0], bus);
      if v.dev.rx.count > 0 && !v.dev.rx.busy { PollAddress(v, wire[1..], bus); }
    }
  }

  lemma XmitAddress(w: World, ba: nat, send: bool, bus: Bus)
    requires Inv(w)
    ensures DoXmit(w, ba, send, bus).0.dev.mac == w.dev.mac
  {
    hide Outgoing, Counted, Receiving;
  }

  lemma ExecuteAddress(w: World, o: Order, bus: Bus)
    requires Inv(w)
    ensures Execute(w, Decode(o.code), DmaAddress(o, w.dev.regs.bar), bus).0.dev.mac
         == if Gives(w, Issue(o, bus)).Some? then Gives(w, Issue(o, bus)).value else w.dev.mac
  {
    hide DoXmit, Receiving, Counted;
    XmitAddress(w, DmaAddress(o, w.dev.regs.bar), false, bus);
    XmitAddress(w, DmaAddress(o, w.dev.regs.bar), true, bus);
  }

  lemma StepAddress(w: World, e: Event)
    requires Inv(w)
    ensures Step(w, e).dev.mac == if Gives(w, e).Some? then Gives(w, e).value else w.dev.mac
  {
    hide Execute, Poll, InOrder, Delivering;
    match e
    case Issue(o, bus) => ExecuteAddress(World(w.dev.(ints := Enable(w.dev.ints, o)), w.log), o, bus);
    case Call(wire, bus) => if w.dev.attached { PollAddress(Pump(w, bus), wire, bus); }
    case _ =>
  }

  /** Over every run: the board has the address last given to it, or the one it had. */
  lemma {:induction false} RunAddress(w: World, es: seq<Event>)
    requires Inv(w)
    ensures Run(w, es).dev.mac == if LastGiven(w, es).Some? then LastGiven(w, es).value else w.dev.mac
    decreases |es|
  {
    hide Inv, Step, Gives;
    if es != [] {
      StepAddress(w, es[0]);
      RunAddress(Step(w, es[0]), es[1..]);
    }
  }

  /** The report that w's STAT leaves behind, if the guest's memory takes it. */
  ghost predicate Reported(t: World, v: World, ba: nat, n: nat, mac: Bytes)
    requires n <= STATLEN
  {
    exists r :: IsRecord(r, mac, t.dev.counters.ipackets, t.dev.counters.opackets)
                && v.log.reports == t.log.reports + [(ba, r[..n])]
  }

  lemma StatIs(w: World, ba: nat, bus: Bus)
    requires |w.dev.mac| == MACLEN
    ensures var n := if 0 < w.dev.regs.bcr < STATLEN then w.dev.regs.bcr else STATLEN;
            var (v, status) := DoStat(w, ba, bus);
            v.dev == w.dev
            && if bus.writable(ba, n) then Reported(w, v, ba, n, w.dev.mac) && status == Success
               else v.log.reports == w.log.reports && status == Nxm
  {
    hide StatRecord, IsRecord;
    RecordIs(w.dev);
  }

  /** After every run: STAT reports the address last loaded, defaulted or present at the
      start, and the counts; as much of the record as was asked for, and all of it when
      none or too much was. */
  lemma StatReports(w: World, es: seq<Event>, o: Order, bus: Bus)
    requires Inv(w) && o.code == STAT
    ensures var t := Run(w, es);
            var v := Step(t, Issue(o, bus));
            var ba, n := o.eua * 0x1_0000 + t.dev.regs.bar, if 0 < t.dev.regs.bcr < STATLEN then t.dev.regs.bcr else STATLEN;
            var given := LastGiven(w, es);
            if bus.writable(ba, n) then
              Reported(t, v, ba, n, if given.Some? then given.value else w.dev.mac) && v.dev.regs.csr.status == Success
            else v.log.reports == t.log.reports && v.dev.regs.csr.status == Nxm
  {
    hide Run, LastGiven, DoStat, IsRecord, InOrder, Delivering;
    RunAddress(w, es);
    var t := Run(w, es);
    StatIs(World(t.dev.(ints := Enable(t.dev.ints, o)), t.log), DmaAddress(o, t.dev.regs.bar), bus);
  }
}
