/** The two Telnet filters: tools/ipnxweb.py, which drops all negotiation, and
    app/ipnx/TelnetFilter.swift, which refuses it.  RFC 854 and RFC 855. */
module Telnet {

  import opened Basics

  const IAC: Byte := 255
  const DONT: Byte := 254
  const DO: Byte := 253
  const WONT: Byte := 252
  const WILL: Byte := 251
  const SB: Byte := 250
  const SE: Byte := 240

  predicate Verb(b: Byte) { b == DO || b == DONT || b == WILL || b == WONT }

  // ---- streams ----

  /** What a Telnet stream is made of. */
  datatype Item = Data(b: Byte) | Escaped | Command(b: Byte) | Option(verb: Byte, opt: Byte) | Sub(body: Bytes)

  predicate Proper(i: Item) {
    match i
    case Data(b) => b != IAC
    case Escaped => true
    case Command(b) => b != IAC && !Verb(b) && b != SB
    case Option(verb, _) => Verb(verb)
    case Sub(_) => true
  }

  predicate AllProper(items: seq<Item>) { forall k :: 0 <= k < |items| ==> Proper(items[k]) }

  /** A subnegotiation's own 255s are doubled. */
  function Doubled(body: Bytes): Bytes {
    if body == [] then [] else (if body[0] == IAC then [IAC, IAC] else [body[0]]) + Doubled(body[1..])
  }

  function Encode(i: Item): Bytes {
    match i
    case Data(b) => [b]
    case Escaped => [IAC, IAC]
    case Command(b) => [IAC, b]
    case Option(verb, opt) => [IAC, verb, opt]
    case Sub(body) => [IAC, SB] + Doubled(body) + [IAC, SE]
  }

  function Stream(items: seq<Item>): Bytes
    decreases |items|
  {
    if items == [] then [] else Stream(items[..|items| - 1]) + Encode(items[|items| - 1])
  }

  function DataOf(i: Item): Bytes { match i case Data(b) => [b] case Escaped => [IAC] case _ => [] }

  /** What the far end meant to be read. */
  function Meant(items: seq<Item>): Bytes
    decreases |items|
  {
    if items == [] then [] else Meant(items[..|items| - 1]) + DataOf(items[|items| - 1])
  }

  // ---- ipnxweb.py ----

  datatype State = Normal | IacSeen | OptSeen | InSub | SubIac

  function Next(s: State, b: Byte): State {
    match s
    case Normal => if b == IAC then IacSeen else Normal
    case IacSeen => if b == IAC then Normal else if Verb(b) then OptSeen else if b == SB then InSub else Normal
    case OptSeen => Normal
    case InSub => if b == IAC then SubIac else InSub
    case SubIac => if b == SE then Normal else InSub
  }

  function Given(s: State, b: Byte): Bytes {
    if s == Normal && b != IAC then [b] else if s == IacSeen && b == IAC then [IAC] else []
  }

  function Fed(s: State, data: Bytes): (State, Bytes)
    decreases |data|
  {
    if data == [] then (s, [])
    else
      var (t, out) := Fed(s, data[..|data| - 1]);
      (Next(t, data[|data| - 1]), out + Given(t, data[|data| - 1]))
  }

  class Filter {
    var state: State

    constructor ()
      ensures state == Normal
    {
      state := Normal;
    }

    /** feed() */
    method Feed(data: Bytes) returns (out: Bytes)
      modifies this
      ensures (state, out) == Fed(old(state), data)
    {
      out := [];
      for i := 0 to |data|
        invariant (state, out) == Fed(old(state), data[..i])
      {
        var b := data[i];
        ghost var was, before := state, out;
        assert data[..i + 1][..i] == data[..i];
        match state {
          case Normal =>
            if b == IAC { state := IacSeen; } else { out := out + [b]; }
          case IacSeen =>
            if b == IAC {
              out := out + [IAC];
              state := Normal;
            } else if Verb(b) {
              state := OptSeen;
            } else if b == SB {
              state := InSub;
            } else {
              state := Normal;
            }
          case OptSeen =>
            state := Normal;
          case InSub =>
            if b == IAC { state := SubIac; }
          case SubIac =>
            state := if b == SE then Normal else InSub;
        }
        assert out == before + Given(was, b);
      }
      assert data[..|data|] == data;
    }
  }

  lemma {:induction false} FedTwice(s: State, a: Bytes, b: Bytes)
    ensures var (t, out) := Fed(s, a);
            var (u, more) := Fed(t, b);
            Fed(s, a + b) == (u, out + more)
    decreases |b|
  {
    if b == [] {
      assert a + b == a;
      assert Fed(s, a).1 + [] == Fed(s, a).1;
    } else {
      assert (a + b)[..|a + b| - 1] == a + b[..|b| - 1];
      FedTwice(s, a, b[..|b| - 1]);
      var (t, out) := Fed(s, a);
      var (u, more) := Fed(t, b[..|b| - 1]);
      assert out + (more + Given(u, b[|b| - 1])) == (out + more) + Given(u, b[|b| - 1]);
    }
  }

  function Joined(chunks: seq<Bytes>): Bytes
    decreases |chunks|
  {
    if chunks == [] then [] else Joined(chunks[..|chunks| - 1]) + chunks[|chunks| - 1]
  }

  function FedChunks(s: State, chunks: seq<Bytes>): (State, Bytes)
    decreases |chunks|
  {
    if chunks == [] then (s, [])
    else
      var (t, out) := FedChunks(s, chunks[..|chunks| - 1]);
      var (u, more) := Fed(t, chunks[|chunks| - 1]);
      (u, out + more)
  }

  /** However a stream is cut, the output is that of the whole. */
  lemma {:induction false} CutsDoNotMatter(s: State, chunks: seq<Bytes>)
    ensures FedChunks(s, chunks) == Fed(s, Joined(chunks))
    decreases |chunks|
  {
    hide Fed;
    if chunks == [] {
      FedNothing(s);
    } else {
      CutsDoNotMatter(s, chunks[..|chunks| - 1]);
      FedTwice(s, Joined(chunks[..|chunks| - 1]), chunks[|chunks| - 1]);
    }
  }

  lemma FedNothing(s: State)
    ensures Fed(s, []) == (s, [])
  {
  }

  lemma FedSnoc(s: State, a: Bytes, b: Byte)
    ensures Fed(s, a + [b]) == (Next(Fed(s, a).0, b), Fed(s, a).1 + Given(Fed(s, a).0, b))
  {
    assert (a + [b])[..|a|] == a;
  }

  lemma {:induction false} BodySwallowed(body: Bytes)
    ensures Fed(InSub, Doubled(body)) == (InSub, [])
    decreases |body|
  {
    if body != [] {
      var head: Bytes := if body[0] == IAC then [IAC, IAC] else [body[0]];
      Steps(InSub, head);
      BodySwallowed(body[1..]);
      FedTwice(InSub, head, Doubled(body[1..]));
    }
  }

  /** One byte, or two. */
  lemma Steps(s: State, data: Bytes)
    requires 1 <= |data| <= 2
    ensures |data| == 1 ==> Fed(s, data) == (Next(s, data[0]), Given(s, data[0]))
    ensures |data| == 2 ==> Fed(s, data) == (Next(Next(s, data[0]), data[1]), Given(s, data[0]) + Given(Next(s, data[0]), data[1]))
  {
    hide Given, Next;
    assert [] + [data[0]] == [data[0]];
    FedNothing(s);
    FedSnoc(s, [], data[0]);
    assert [] + Given(s, data[0]) == Given(s, data[0]);
    assert Fed(s, [data[0]]) == (Next(s, data[0]), Given(s, data[0]));
    if |data| == 2 {
      FedSnoc(s, [data[0]], data[1]);
      assert [data[0]] + [data[1]] == data;
    } else {
      assert [data[0]] == data;
    }
  }

  /** An item gives its data and leaves the filter where it was. */
  lemma ItemFed(i: Item)
    requires Proper(i)
    ensures Fed(Normal, Encode(i)) == (Normal, DataOf(i))
  {
    match i
    case Data(b) => Steps(Normal, [b]);
    case Escaped =>
      Steps(Normal, [IAC, IAC]);
      assert Given(Normal, IAC) + Given(IacSeen, IAC) == [IAC];
    case Command(b) =>
      Steps(Normal, [IAC, b]);
      assert Given(Normal, IAC) + Given(IacSeen, b) == [];
    case Option(verb, opt) =>
      Steps(Normal, [IAC, verb]);
      assert Given(Normal, IAC) + Given(IacSeen, verb) == [];
      FedSnoc(Normal, [IAC, verb], opt);
      assert [IAC, verb] + [opt] == Encode(i);
    case Sub(body) => SubFed(body);
  }

  lemma SubFed(body: Bytes)
    ensures Fed(Normal, [IAC, SB] + Doubled(body) + [IAC, SE]) == (Normal, [])
  {
    hide Fed;
    Steps(Normal, [IAC, SB]);
    assert Given(Normal, IAC) + Given(IacSeen, SB) == [];
    assert Fed(Normal, [IAC, SB]) == (InSub, []);
    BodySwallowed(body);
    FedTwice(Normal, [IAC, SB], Doubled(body));
    assert Fed(Normal, [IAC, SB]).1 + Fed(InSub, Doubled(body)).1 == [];
    assert Fed(Normal, [IAC, SB] + Doubled(body)) == (InSub, []);
    Steps(InSub, [IAC, SE]);
    assert Given(InSub, IAC) + Given(SubIac, SE) == [];
    FedTwice(Normal, [IAC, SB] + Doubled(body), [IAC, SE]);
  }

  lemma {:induction false} StreamFed(items: seq<Item>)
    requires AllProper(items)
    ensures Fed(Normal, Stream(items)) == (Normal, Meant(items))
    decreases |items|
  {
    hide Fed, Encode, DataOf;
    if items == [] {
      FedNothing(Normal);
    } else {
      StreamFed(items[..|items| - 1]);
      ItemFed(items[|items| - 1]);
      FedTwice(Normal, Stream(items[..|items| - 1]), Encode(items[|items| - 1]));
    }
  }

  /** Every stream of data, doubled 255s, commands, options and subnegotiations
      comes out as exactly its data, however it is cut into chunks. */
  lemma ExactlyTheData(items: seq<Item>, chunks: seq<Bytes>)
    requires AllProper(items) && Joined(chunks) == Stream(items)
    ensures FedChunks(Normal, chunks) == (Normal, Meant(items))
  {
    StreamFed(items);
    CutsDoNotMatter(Normal, chunks);
  }

  // ---- TelnetFilter.swift ----

  datatype Mode = AtData | AtIac | AtOption(verb: Byte)

  datatype Yield = Yield(payload: Bytes, reply: Bytes, commands: Bytes)

  const NOTHING := Yield([], [], [])

  function Both(a: Yield, b: Yield): Yield { Yield(a.payload + b.payload, a.reply + b.reply, a.commands + b.commands) }

  function Then(m: Mode, b: Byte): Mode {
    match m
    case AtData => if b == IAC then AtIac else AtData
    case AtIac => if b != IAC && Verb(b) then AtOption(b) else AtData
    case AtOption(_) => AtData
  }

  function Refusal(verb: Byte, opt: Byte): Bytes {
    if verb == DO then [IAC, WONT, opt] else if verb == WILL then [IAC, DONT, opt] else []
  }

  function Yielded(refuses: bool, m: Mode, b: Byte): Yield {
    match m
    case AtData => if b == IAC then NOTHING else Yield([b], [], [])
    case AtIac => if b == IAC then Yield([b], [], []) else if Verb(b) then NOTHING else Yield([], [], [b])
    case AtOption(verb) => Yield([], if refuses then Refusal(verb, b) else [], [])
  }

  function Filtered(refuses: bool, m: Mode, data: Bytes): (Mode, Yield)
    decreases |data|
  {
    if data == [] then (m, NOTHING)
    else
      var (n, y) := Filtered(refuses, m, data[..|data| - 1]);
      (Then(n, data[|data| - 1]), Both(y, Yielded(refuses, n, data[|data| - 1])))
  }

  class SwiftFilter {
    const refuses: bool
    var mode: Mode

    constructor (refuses: bool)
      ensures mode == AtData && this.refuses == refuses
    {
      this.refuses, mode := refuses, AtData;
    }

    method Filter(input: Bytes) returns (payload: Bytes, reply: Bytes, commands: Bytes)
      modifies this
      ensures (mode, Yield(payload, reply, commands)) == Filtered(refuses, old(mode), input)
    {
      payload, reply, commands := [], [], [];
      for i := 0 to |input|
        invariant (mode, Yield(payload, reply, commands)) == Filtered(refuses, old(mode), input[..i])
      {
        var b := input[i];
        ghost var was, before := mode, Yield(payload, reply, commands);
        assert input[..i + 1][..i] == input[..i];
        match mode {
          case AtData =>
            if b == IAC { mode := AtIac; } else { payload := payload + [b]; }
          case AtIac =>
            if b == IAC {
              payload := payload + [b];
              mode := AtData;
            } else if Verb(b) {
              mode := AtOption(b);
            } else {
              commands := commands + [b];
              mode := AtData;
            }
          case AtOption(verb) =>
            if refuses {
              if verb == DO {
                reply := reply + [IAC, WONT, b];
              } else if verb == WILL {
                reply := reply + [IAC, DONT, b];
              }
            }
            mode := AtData;
        }
        assert Yield(payload, reply, commands) == Both(before, Yielded(refuses, was, b));
      }
      assert input[..|input|] == input;
    }
  }

  lemma BothTwice(a: Yield, b: Yield, c: Yield)
    ensures Both(Both(a, b), c) == Both(a, Both(b, c)) && Both(a, NOTHING) == a && Both(NOTHING, a) == a
  {
  }

  lemma {:induction false} FilteredTwice(refuses: bool, m: Mode, a: Bytes, b: Bytes)
    ensures var (n, y) := Filtered(refuses, m, a);
            var (o, z) := Filtered(refuses, n, b);
            Filtered(refuses, m, a + b) == (o, Both(y, z))
    decreases |b|
  {
    hide Both, Yielded, Then;
    var (n, y) := Filtered(refuses, m, a);
    if b == [] {
      assert a + b == a;
      BothTwice(y, NOTHING, NOTHING);
    } else {
      var c := b[|b| - 1];
      assert (a + b)[..|a + b| - 1] == a + b[..|b| - 1];
      FilteredTwice(refuses, m, a, b[..|b| - 1]);
      var (o, z) := Filtered(refuses, n, b[..|b| - 1]);
      BothTwice(y, z, Yielded(refuses, o, c));
    }
  }

  lemma Combined(a: Yield, b: Yield, c: Yield)
    requires a.payload + b.payload == c.payload && a.reply + b.reply == c.reply && a.commands + b.commands == c.commands
    ensures Both(a, b) == c
  {
  }

  lemma FilteredSnoc(refuses: bool, m: Mode, a: Bytes, b: Byte)
    ensures var (n, y) := Filtered(refuses, m, a);
            Filtered(refuses, m, a + [b]) == (Then(n, b), Both(y, Yielded(refuses, n, b)))
  {
    assert (a + [b])[..|a|] == a;
  }

  lemma FilteredSteps(refuses: bool, m: Mode, data: Bytes)
    requires 1 <= |data| <= 2
    ensures |data| == 1 ==> Filtered(refuses, m, data) == (Then(m, data[0]), Yielded(refuses, m, data[0]))
    ensures |data| == 2 ==>
              Filtered(refuses, m, data)
              == (Then(Then(m, data[0]), data[1]), Both(Yielded(refuses, m, data[0]), Yielded(refuses, Then(m, data[0]), data[1])))
  {
    hide Both, Yielded;
    assert [] + [data[0]] == [data[0]];
    FilteredSnoc(refuses, m, [], data[0]);
    BothTwice(Yielded(refuses, m, data[0]), NOTHING, NOTHING);
    if |data| == 2 {
      FilteredSnoc(refuses, m, [data[0]], data[1]);
      assert [data[0]] + [data[1]] == data;
    } else {
      assert [data[0]] == data;
    }
  }

  /** To the Swift filter SB is a command like any other, and what follows is data. */
  function SwiftOf(refuses: bool, i: Item): Yield {
    match i
    case Data(b) => Yield([b], [], [])
    case Escaped => Yield([IAC], [], [])
    case Command(b) => Yield([], [], [b])
    case Option(verb, opt) => Yield([], if refuses then Refusal(verb, opt) else [], [])
    case Sub(body) => Yield(body, [], [SB, SE])
  }

  function SwiftMeant(refuses: bool, items: seq<Item>): Yield
    decreases |items|
  {
    if items == [] then NOTHING else Both(SwiftMeant(refuses, items[..|items| - 1]), SwiftOf(refuses, items[|items| - 1]))
  }

  lemma HeadPassed(refuses: bool, b: Byte)
    ensures Filtered(refuses, AtData, if b == IAC then [IAC, IAC] else [b]) == (AtData, Yield([b], [], []))
  {
    hide Filtered, Both;
    if b == IAC {
      FilteredSteps(refuses, AtData, [IAC, IAC]);
      Combined(NOTHING, Yield([IAC], [], []), Yield([IAC], [], []));
    } else {
      FilteredSteps(refuses, AtData, [b]);
    }
  }

  lemma {:induction false} BodyPassed(refuses: bool, body: Bytes)
    ensures Filtered(refuses, AtData, Doubled(body)) == (AtData, Yield(body, [], []))
    decreases |body|
  {
    hide Filtered, Both;
    if body == [] {
      FilteredNothing(refuses, AtData);
    } else {
      var head: Bytes := if body[0] == IAC then [IAC, IAC] else [body[0]];
      HeadPassed(refuses, body[0]);
      BodyPassed(refuses, body[1..]);
      FilteredTwice(refuses, AtData, head, Doubled(body[1..]));
      assert [body[0]] + body[1..] == body;
      Combined(Yield([body[0]], [], []), Yield(body[1..], [], []), Yield(body, [], []));
    }
  }

  lemma ItemFiltered(refuses: bool, i: Item)
    requires Proper(i)
    ensures Filtered(refuses, AtData, Encode(i)) == (AtData, SwiftOf(refuses, i))
  {
    match i
    case Data(b) => FilteredSteps(refuses, AtData, [b]);
    case Escaped => HeadPassed(refuses, IAC);
    case Command(b) =>
      FilteredSteps(refuses, AtData, [IAC, b]);
      Combined(NOTHING, Yield([], [], [b]), Yield([], [], [b]));
    case Option(verb, opt) =>
      FilteredSteps(refuses, AtData, [IAC, verb]);
      Combined(NOTHING, NOTHING, NOTHING);
      FilteredSnoc(refuses, AtData, [IAC, verb], opt);
      Combined(NOTHING, Yielded(refuses, AtOption(verb), opt), SwiftOf(refuses, i));
      assert [IAC, verb] + [opt] == Encode(i);
    case Sub(body) => SubFiltered(refuses, body);
  }

  /** What is answered to an option, byte by byte: DO is refused with WONT and WILL with
      DONT, if anything is refused, and nothing is said to DONT and WONT. */
  lemma OptionAnswered(refuses: bool, verb: Byte, opt: Byte)
    requires 251 <= verb <= 254
    ensures Filtered(refuses, AtData, [255, verb, opt]).1
         == Yield([], if refuses && verb == 253 then [255, 252, opt] else if refuses && verb == 251 then [255, 254, opt] else [], [])
  {
    hide Filtered;
    ItemFiltered(refuses, Option(verb, opt));
  }

  lemma SubFiltered(refuses: bool, body: Bytes)
    ensures Filtered(refuses, AtData, [IAC, SB] + Doubled(body) + [IAC, SE]) == (AtData, Yield(body, [], [SB, SE]))
  {
    hide Filtered, Both;
    FilteredSteps(refuses, AtData, [IAC, SB]);
    Combined(NOTHING, Yield([], [], [SB]), Yield([], [], [SB]));
    BodyPassed(refuses, body);
    FilteredTwice(refuses, AtData, [IAC, SB], Doubled(body));
    Combined(Yield([], [], [SB]), Yield(body, [], []), Yield(body, [], [SB]));
    FilteredSteps(refuses, AtData, [IAC, SE]);
    Combined(NOTHING, Yield([], [], [SE]), Yield([], [], [SE]));
    FilteredTwice(refuses, AtData, [IAC, SB] + Doubled(body), [IAC, SE]);
    Combined(Yield(body, [], [SB]), Yield([], [], [SE]), Yield(body, [], [SB, SE]));
  }

  /** The Swift filter on every stream: the data and the bodies of subnegotiations,
      one refusal for each DO or WILL in order, and the commands. */
  lemma {:induction false} SwiftStream(refuses: bool, items: seq<Item>)
    requires AllProper(items)
    ensures Filtered(refuses, AtData, Stream(items)) == (AtData, SwiftMeant(refuses, items))
    decreases |items|
  {
    hide Filtered, Encode, SwiftOf, Both;
    if items == [] {
      SwiftNothing(refuses);
    } else {
      SwiftStream(refuses, items[..|items| - 1]);
      ItemFiltered(refuses, items[|items| - 1]);
      FilteredTwice(refuses, AtData, Stream(items[..|items| - 1]), Encode(items[|items| - 1]));
    }
  }

  lemma SwiftNothing(refuses: bool)
    ensures Filtered(refuses, AtData, []) == (AtData, NOTHING)
  {
  }

  function FilteredChunks(refuses: bool, m: Mode, chunks: seq<Bytes>): (Mode, Yield)
    decreases |chunks|
  {
    if chunks == [] then (m, NOTHING)
    else
      var (n, y) := FilteredChunks(refuses, m, chunks[..|chunks| - 1]);
      var (o, z) := Filtered(refuses, n, chunks[|chunks| - 1]);
      (o, Both(y, z))
  }

  /** The state outlives a call here too: however a stream is cut, payload, refusals
      and commands are those of the whole. */
  lemma {:induction false} SwiftCutsDoNotMatter(refuses: bool, m: Mode, chunks: seq<Bytes>)
    ensures FilteredChunks(refuses, m, chunks) == Filtered(refuses, m, Joined(chunks))
    decreases |chunks|
  {
    hide Filtered, Both;
    if chunks == [] {
      assert Filtered(refuses, m, []) == (m, NOTHING) by { FilteredNothing(refuses, m); }
    } else {
      SwiftCutsDoNotMatter(refuses, m, chunks[..|chunks| - 1]);
      FilteredTwice(refuses, m, Joined(chunks[..|chunks| - 1]), chunks[|chunks| - 1]);
    }
  }

  lemma FilteredNothing(refuses: bool, m: Mode)
    ensures Filtered(refuses, m, []) == (m, NOTHING)
  {
  }

  predicate QuietSubs(items: seq<Item>) { forall k :: 0 <= k < |items| && items[k].Sub? ==> items[k].body == [] }

  lemma {:induction false} PayloadLength(refuses: bool, items: seq<Item>)
    ensures |SwiftMeant(refuses, items).payload| >= |Meant(items)|
    ensures |SwiftMeant(refuses, items).payload| == |Meant(items)| ==> QuietSubs(items)
    ensures QuietSubs(items) ==> SwiftMeant(refuses, items).payload == Meant(items)
    decreases |items|
  {
    if items != [] {
      var before := items[..|items| - 1];
      PayloadLength(refuses, before);
      assert QuietSubs(items) <==> QuietSubs(before) && (items[|items| - 1].Sub? ==> items[|items| - 1].body == []) by {
        assert forall k :: 0 <= k < |before| ==> before[k] == items[k];
      }
    }
  }

  /** The two filters give the same payload on exactly the streams without a
      subnegotiation that says anything. */
  lemma SamePayload(refuses: bool, items: seq<Item>)
    requires AllProper(items)
    ensures Filtered(refuses, AtData, Stream(items)).1.payload == Fed(Normal, Stream(items)).1 <==> QuietSubs(items)
  {
    SwiftStream(refuses, items);
    StreamFed(items);
    PayloadLength(refuses, items);
  }
}
