/** When the NI1010 asks to be polled again: the burst after a frame, over whole
    runs of the board. */
module IlPolling {
  import opened Basics
  import opened IlModel
  import opened IlRuns

  // ---- a series of calls ----

  /** Which of a series of calls ask for a fast one next, when got says which of them
      find a frame. */
  function Calls(burst: nat, got: seq<bool>): (fast: seq<bool>)
    ensures |fast| == |got|
    decreases |got|
  {
    if got == [] then []
    else
      var (b, fast) := NextBurst(burst, got[0]);
      [fast] + Calls(b, got[1..])
  }

  function After(burst: nat, got: seq<bool>): nat
    decreases |got|
  {
    if got == [] then burst else After(NextBurst(burst, got[0]).0, got[1..])
  }

  lemma {:induction false} QuietCalls(burst: nat, got: seq<bool>, i: nat)
    requires i < |got| && forall j :: 0 <= j <= i ==> !got[j]
    ensures Calls(burst, got)[i] <==> i < burst
    decreases |got|
  {
    if i > 0 { QuietCalls(NextBurst(burst, got[0]).0, got[1..], i - 1); }
  }

  lemma {:induction false} ClockExactly(burst: nat, got: seq<bool>, i: nat)
    requires i < |got|
    ensures !Calls(burst, got)[i] <==> After(burst, got[..i]) == 0 && !got[i]
    decreases |got|
  {
    if i == 0 {
      assert got[..0] == [];
    } else {
      ClockExactly(NextBurst(burst, got[0]).0, got[1..], i - 1);
      assert got[..i][0] == got[0] && got[..i][1..] == got[1..][..i - 1];
    }
  }

  // ---- the calls of a run ----

  /** il_svc()'s first read finds a frame: something is attached, no frame is in
      flight once a chain has been served, and one has come. */
  predicate Finds(w: World, wire: seq<Bytes>, bus: Bus)
    requires Inv(w)
  {
    w.dev.attached && !Pump(w, bus).dev.rx.busy && wire != [] && wire[0] != []
  }

  /** For each call of the run, whether it finds a frame... */
  function Founds(w: World, es: seq<Event>): seq<bool>
    requires Inv(w)
    decreases |es|
  {
    if es == [] then []
    else (if es[0].Call? then [Finds(w, es[0].wire, es[0].bus)] else []) + Founds(Step(w, es[0]), es[1..])
  }

  /** ...and whether it asks to be called again in about 200 microseconds. */
  function Paces(w: World, es: seq<Event>): seq<bool>
    requires Inv(w)
    decreases |es|
  {
    if es == [] then []
    else (if es[0].Call? then [Service(w, es[0].wire, es[0].bus).fast] else []) + Paces(Step(w, es[0]), es[1..])
  }

  lemma {:induction false} PollBurst(w: World, wire: seq<Bytes>, bus: Bus)
    requires Ringed(w.dev.rx)
    ensures Poll(w, wire, bus).w.dev.burst == w.dev.burst
    ensures Poll(w, wire, bus).got <==> !w.dev.rx.busy && wire != [] && wire[0] != []
    decreases |wire|
  {
    if !w.dev.rx.busy && wire != [] && wire[0] != [] {
      var v := Deliver(w, wire[0], bus);
      if v.dev.rx.count > 0 && !v.dev.rx.busy { PollBurst(v, wire[1..], bus); }
    }
  }

  lemma PumpBurst(w: World, bus: Bus)
    requires Ringed(w.dev.rx)
    ensures Pump(w, bus).dev.burst == w.dev.burst
  {
  }

  /** il_svc() counts and schedules by whether a frame came. */
  lemma ServiceSchedules(w: World, wire: seq<Bytes>, bus: Bus)
    requires Inv(w)
    ensures var r := Service(w, wire, bus);
            (r.w.dev.burst, r.fast) == NextBurst(w.dev.burst, Finds(w, wire, bus))
  {
    hide Poll, Pump;
    PumpBurst(w, bus);
    if w.dev.attached { PollBurst(Pump(w, bus), wire, bus); }
  }

  predicate Resets(e: Event) { e.Issue? && Decode(e.o.code) == Reset }

  lemma TransmitBurst(w: World, out: Bytes, bus: Bus)
    requires Inv(w)
    ensures Transmit(w, out, bus).0.dev.burst == w.dev.burst
  {
  }

  lemma XmitBurst(w: World, ba: nat, send: bool, bus: Bus)
    requires Inv(w)
    ensures DoXmit(w, ba, send, bus).0.dev.burst == w.dev.burst
  {
    hide Transmit, Outgoing, Counted, Receiving;
    var bc := w.dev.regs.bcr;
    var tx := if bc > 0 then w.dev.tx + Fetch(bus, ba, bc) else w.dev.tx;
    if |tx| >= 8 { TransmitBurst(w, Outgoing(tx, w.dev.mac), bus); }
  }

  lemma ExecuteBurst(w: World, cmd: Cmd, ba: nat, bus: Bus)
    requires Inv(w)
    ensures Execute(w, cmd, ba, bus).0.dev.burst == if cmd == Reset then 0 else w.dev.burst
  {
    hide DoXmit, Receiving, Counted;
    match cmd
    case LdXmit => XmitBurst(w, ba, false, bus);
    case Xmit => XmitBurst(w, ba, true, bus);
    case _ =>
  }

  /** Only a call and RESET change the counter. */
  lemma StepBurst(w: World, e: Event)
    requires Inv(w)
    ensures Step(w, e).dev.burst == if e.Call? then NextBurst(w.dev.burst, Finds(w, e.wire, e.bus)).0
                                   else if Resets(e) then 0
                                   else w.dev.burst
  {
    hide Execute, Service, Receiving;
    match e
    case Issue(o, bus) =>
      ExecuteBurst(World(w.dev.(ints := Enable(w.dev.ints, o)), w.log), Decode(o.code), DmaAddress(o, w.dev.regs.bar), bus);
    case Call(wire, bus) => ServiceSchedules(w, wire, bus);
    case _ =>
  }

  /** The calls of any run without RESET are paced by the frames they find. */
  lemma {:induction false} RunPaces(w: World, es: seq<Event>)
    requires Inv(w) && forall i :: 0 <= i < |es| ==> !Resets(es[i])
    ensures Paces(w, es) == Calls(w.dev.burst, Founds(w, es))
    ensures Run(w, es).dev.burst == After(w.dev.burst, Founds(w, es))
    decreases |es|
  {
    hide Inv, Step, Service, Finds;
    if es != [] {
      StepBurst(w, es[0]);
      RunPaces(Step(w, es[0]), es[1..]);
      var rest := Founds(Step(w, es[0]), es[1..]);
      if es[0].Call? {
        ServiceSchedules(w, es[0].wire, es[0].bus);
        assert Founds(w, es)[0] == Finds(w, es[0].wire, es[0].bus) && Founds(w, es)[1..] == rest;
      } else {
        assert Founds(w, es) == rest;
      }
    }
  }

  // ---- when a call rides the clock ----

  /** Nothing comes off the wire. */
  predicate Silent(e: Event) { e.Call? ==> e.wire == [] || e.wire[0] == [] }

  lemma {:induction false} SilentFinds(w: World, es: seq<Event>)
    requires Inv(w) && forall i :: 0 <= i < |es| ==> Silent(es[i])
    ensures forall j :: 0 <= j < |Founds(w, es)| ==> !Founds(w, es)[j]
    decreases |es|
  {
    hide Inv, Step;
    if es != [] { SilentFinds(Step(w, es[0]), es[1..]); }
  }

  /** With no arrivals the unit is back on the clock as soon as its window has run
      out, and not before. */
  lemma QuietRun(w: World, es: seq<Event>, i: nat)
    requires Inv(w) && forall k :: 0 <= k < |es| ==> !Resets(es[k]) && Silent(es[k])
    requires i < |Paces(w, es)|
    ensures Paces(w, es)[i] <==> i < w.dev.burst
  {
    hide Inv;
    RunPaces(w, es);
    SilentFinds(w, es);
    QuietCalls(w.dev.burst, Founds(w, es), i);
  }

  /** A call rides the clock exactly when the window that the earlier ones opened has
      run out and it finds no frame. */
  lemma ClockRun(w: World, es: seq<Event>, i: nat)
    requires Inv(w) && (forall k :: 0 <= k < |es| ==> !Resets(es[k])) && i < |Paces(w, es)|
    ensures |Founds(w, es)| == |Paces(w, es)|
    ensures !Paces(w, es)[i] <==> After(w.dev.burst, Founds(w, es)[..i]) == 0 && !Founds(w, es)[i]
  {
    hide Inv;
    RunPaces(w, es);
    ClockExactly(w.dev.burst, Founds(w, es), i);
  }

  /** A burst never lasts longer than 200 calls, whatever the run. */
  lemma {:induction false} BurstBounded(w: World, es: seq<Event>)
    requires Inv(w) && w.dev.burst < BURST
    ensures Run(w, es).dev.burst < BURST
    decreases |es|
  {
    hide Inv, Step, Finds;
    if es != [] {
      StepBurst(w, es[0]);
      BurstBounded(Step(w, es[0]), es[1..]);
    }
  }
}
