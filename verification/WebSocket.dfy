/** ws_frame(), ws_read() and recv_exact() of tools/ipnxweb.py: the frames of
    sections 5.2 and 5.3 of RFC 6455, written one way and read back. */
module WebSocket {

  import opened Basics
  import Division

  const LARGEST: nat := 0x10_0000
  const WRITABLE: nat := 0x1_0000_0000_0000_0000

  type Opcode = o: nat | o < 16

  type Mask = k: Bytes | |k| == 4 witness [0, 0, 0, 0]

  // ---- bytes of a number, and the mask ----

  function BigEndian(n: nat, width: nat): (bs: Bytes)
    ensures |bs| == width
    decreases width
  {
    if width == 0 then [] else BigEndian(n / 256, width - 1) + [n % 256]
  }

  function Value(bs: Bytes): nat
    decreases |bs|
  {
    if bs == [] then 0 else Value(bs[..|bs| - 1]) * 256 + bs[|bs| - 1]
  }

  function Power(width: nat): (p: nat)
    ensures p > 0
  {
    if width == 0 then 1 else 256 * Power(width - 1)
  }

  lemma {:induction false} ValueBack(n: nat, width: nat)
    requires n < Power(width)
    ensures Value(BigEndian(n, width)) == n
    decreases width
  {
    if width > 0 {
      ValueBack(n / 256, width - 1);
      assert BigEndian(n, width)[..width - 1] == BigEndian(n / 256, width - 1);
    }
  }

  lemma Powers()
    ensures Power(2) == 0x1_0000 && Power(8) == WRITABLE
  {
    assert Power(4) == 0x1_0000_0000;
    assert Power(6) == 0x1_0000_0000_0000;
  }

  /** The exclusive or of two numbers of so many bits. */
  function Xor(a: nat, b: nat, bits: nat): nat
    decreases bits
  {
    if bits == 0 then 0 else (if a % 2 == b % 2 then 0 else 1) + 2 * Xor(a / 2, b / 2, bits - 1)
  }

  function TwoTo(bits: nat): nat { if bits == 0 then 1 else 2 * TwoTo(bits - 1) }

  lemma {:induction false} XorTwice(a: nat, b: nat, bits: nat)
    requires a < TwoTo(bits)
    ensures Xor(a, b, bits) < TwoTo(bits) && Xor(Xor(a, b, bits), b, bits) == a
    decreases bits
  {
    if bits > 0 {
      XorTwice(a / 2, b / 2, bits - 1);
      assert Xor(a, b, bits) / 2 == Xor(a / 2, b / 2, bits - 1);
    }
  }

  lemma {:induction false} XorFits(a: nat, b: nat, bits: nat)
    ensures Xor(a, b, bits) < TwoTo(bits)
    decreases bits
  {
    if bits > 0 { XorFits(a / 2, b / 2, bits - 1); }
  }

  function XorByte(a: Byte, b: Byte): Byte {
    XorFits(a, b, 8);
    assert TwoTo(8) == 256;
    Xor(a, b, 8)
  }

  function Masked(payload: Bytes, key: Mask): (bs: Bytes)
    ensures |bs| == |payload|
  {
    seq(|payload|, i requires 0 <= i < |payload| => XorByte(payload[i], key[i % 4]))
  }

  lemma MaskedTwice(payload: Bytes, key: Mask)
    ensures Masked(Masked(payload, key), key) == payload
  {
    assert TwoTo(8) == 256;
    forall i | 0 <= i < |payload| ensures XorByte(XorByte(payload[i], key[i % 4]), key[i % 4]) == payload[i] {
      XorTwice(payload[i], key[i % 4], 8);
    }
  }

  // ---- writing ----

  function Head(opcode: Opcode, n: nat, mask: Byte): Bytes
    requires mask == 0 || mask == 128
  {
    [128 + opcode]
    + if n < 126 then [mask + n]
      else if n < 0x1_0000 then [mask + 126] + BigEndian(n, 2)
      else [mask + 127] + BigEndian(n, 8)
  }

  /** ws_frame(): a server's frame is never masked. */
  function Served(opcode: Opcode, payload: Bytes): Bytes { Head(opcode, |payload|, 0) + payload }

  /** A client's always is. */
  function Sent(opcode: Opcode, payload: Bytes, key: Mask): Bytes {
    Head(opcode, |payload|, 128) + key + Masked(payload, key)
  }

  /** The k-th byte from the left. */
  lemma {:induction false} BigEndianAt(n: nat, width: nat, k: nat)
    requires k < width
    ensures BigEndian(n, width)[k] == n / Power(width - 1 - k) % 256
    decreases width
  {
    if k < width - 1 {
      BigEndianAt(n / 256, width - 1, k);
      Division.DivDiv(n, 256, Power(width - 2 - k));
    } else {
      assert Power(0) == 1;
    }
  }

  predicate BitAt(n: nat, k: nat)
    decreases k
  {
    if k == 0 then n % 2 == 1 else BitAt(n / 2, k - 1)
  }

  /** A bit of the exclusive or: set where the two differ. */
  lemma {:induction false} XorBit(a: nat, b: nat, bits: nat, k: nat)
    requires k < bits
    ensures BitAt(Xor(a, b, bits), k) <==> BitAt(a, k) != BitAt(b, k)
    decreases bits
  {
    var x, rest := Xor(a, b, bits), Xor(a / 2, b / 2, bits - 1);
    assert x / 2 == rest;
    if k > 0 { XorBit(a / 2, b / 2, bits - 1, k - 1); }
  }

  /** Section 5.3 of RFC 6455: the i-th byte is masked with the key's byte i modulo 4. */
  lemma MaskedBit(payload: Bytes, key: Mask, i: nat, k: nat)
    requires i < |payload| && k < 8
    ensures BitAt(Masked(payload, key)[i], k) <==> BitAt(payload[i], k) != BitAt(key[i % 4], k)
  {
    XorBit(payload[i], key[i % 4], 8, k);
  }

  /** Section 5.2 of RFC 6455: a whole message in one frame, the opcode, no mask, and the
      length in as many bytes as its size asks for, high byte first. */
  predicate Announces(s: Bytes, n: nat) {
    if n < 126 then |s| == 2 && s[1] == n
    else if n < 0x1_0000 then |s| == 4 && s[1] == 126 && s[2] == n / 256 && s[3] == n % 256
    else |s| == 10 && s[1] == 127 && forall k :: 2 <= k < 10 ==> s[k] == n / Power(9 - k) % 256
  }

  lemma LengthOfTwo(n: nat)
    requires n < 0x1_0000
    ensures BigEndian(n, 2) == [n / 256, n % 256]
  {
    BigEndianAt(n, 2, 0);
    BigEndianAt(n, 2, 1);
    assert Power(0) == 1 && Power(1) == 256;
  }

  lemma ServedBytes(opcode: Opcode, payload: Bytes)
    requires |payload| < WRITABLE
    ensures var s, h := Served(opcode, payload), |Served(opcode, payload)| - |payload|;
            h >= 2 && s[0] == 0x80 + opcode && Announces(s[..h], |payload|) && s[h..] == payload
  {
    hide BigEndian, Power;
    var n := |payload|;
    var head := Head(opcode, n, 0);
    assert Served(opcode, payload)[..|head|] == head;
    if 126 <= n < 0x1_0000 {
      LengthOfTwo(n);
    } else if n >= 0x1_0000 {
      forall k | 2 <= k < 10 ensures head[k] == n / Power(9 - k) % 256 {
        BigEndianAt(n, 8, k - 2);
        assert head[k] == BigEndian(n, 8)[k - 2];
      }
    }
  }

  // ---- reading ----

  /** What ws_read() makes of the bytes still to come: (None, None), or a frame and
      the bytes it leaves. */
  datatype Got = Closed | Frame(opcode: Opcode, payload: Bytes, rest: Bytes)

  function Width(n: nat): nat { if n == 126 then 2 else if n == 127 then 8 else 0 }

  function Read(s: Bytes): Got {
    if |s| < 2 then Closed
    else
      var w := Width(s[1] % 128);
      if |s| < 2 + w then Closed
      else Payload(s[0] % 16, s[1] >= 128, Length(s), s[2 + w..])
  }

  function Length(s: Bytes): nat
    requires |s| >= 2 && |s| >= 2 + Width(s[1] % 128)
  {
    var w := Width(s[1] % 128);
    if w == 0 then s[1] % 128 else Value(s[2..2 + w])
  }

  function Payload(opcode: Opcode, masked: bool, n: nat, s: Bytes): Got {
    if n > LARGEST then Closed
    else if !masked then if |s| < n then Closed else Frame(opcode, s[..n], s[n..])
    else if |s| < 4 + n then Closed
    else Frame(opcode, Masked(s[4..4 + n], s[..4]), s[4 + n..])
  }

  lemma HeadRead(opcode: Opcode, n: nat, mask: Byte, rest: Bytes)
    requires n < WRITABLE && (mask == 0 || mask == 128)
    ensures Read(Head(opcode, n, mask) + rest) == Payload(opcode, mask == 128, n, rest)
  {
    hide Payload, BigEndian, Value, Power;
    var s := Head(opcode, n, mask) + rest;
    Powers();
    if 126 <= n {
      var w := if n < 0x1_0000 then 2 else 8;
      ValueBack(n, w);
      assert s[2..2 + w] == BigEndian(n, w);
      assert s[2 + w..] == rest;
    } else {
      assert s[2..] == rest;
    }
  }

  /** A frame this server writes reads back as it was, whatever follows it, if and
      only if it is no longer than the reader allows... */
  lemma ServedRead(opcode: Opcode, payload: Bytes, rest: Bytes)
    requires |payload| < WRITABLE
    ensures Read(Served(opcode, payload) + rest) == if |payload| <= LARGEST then Frame(opcode, payload, rest) else Closed
  {
    hide Read, Head;
    HeadRead(opcode, |payload|, 0, payload + rest);
    assert Served(opcode, payload) + rest == Head(opcode, |payload|, 0) + (payload + rest);
  }

  /** ...and so does a client's, under any mask. */
  lemma SentRead(opcode: Opcode, payload: Bytes, key: Mask, rest: Bytes)
    requires |payload| < WRITABLE
    ensures Read(Sent(opcode, payload, key) + rest) == if |payload| <= LARGEST then Frame(opcode, payload, rest) else Closed
  {
    hide Read, Head, Masked;
    var body := Masked(payload, key);
    HeadRead(opcode, |payload|, 128, key + body + rest);
    assert Sent(opcode, payload, key) + rest == Head(opcode, |payload|, 128) + (key + body + rest);
    var s := key + body + rest;
    assert s[..4] == key && s[4..4 + |payload|] == body && s[4 + |payload|..] == rest;
    MaskedTwice(payload, key);
  }

  // ---- a whole connection ----

  datatype Message = Message(opcode: Opcode, payload: Bytes, key: Mask)

  datatype Heard = Heard(opcode: Opcode, payload: Bytes)

  function Stream(ms: seq<Message>): Bytes {
    if ms == [] then [] else Sent(ms[0].opcode, ms[0].payload, ms[0].key) + Stream(ms[1..])
  }

  lemma ReadShrinks(s: Bytes)
    ensures Read(s).Frame? ==> |Read(s).rest| < |s|
  {
    hide Value, Masked;
  }

  /** What bridge() hears: frames until the reader gives up. */
  function AllRead(s: Bytes): seq<Heard>
    decreases |s|
  {
    match Read(s)
    case Closed => []
    case Frame(o, p, rest) => ReadShrinks(s); [Heard(o, p)] + AllRead(rest)
  }

  /** The messages up to the first that is too long. */
  function Allowed(ms: seq<Message>): seq<Heard> {
    if ms == [] || |ms[0].payload| > LARGEST then []
    else [Heard(ms[0].opcode, ms[0].payload)] + Allowed(ms[1..])
  }

  predicate Writable(ms: seq<Message>) { forall i :: 0 <= i < |ms| ==> |ms[i].payload| < WRITABLE }

  /** The reader hears what a client sent, message by message, to the first one over
      the limit and nothing from there on. */
  lemma {:induction false} StreamRead(ms: seq<Message>)
    requires Writable(ms)
    ensures AllRead(Stream(ms)) == Allowed(ms)
    decreases |ms|
  {
    hide Read, Sent;
    if ms == [] {
      assert Read([]) == Closed by { NothingRead(); }
    } else {
      SentRead(ms[0].opcode, ms[0].payload, ms[0].key, Stream(ms[1..]));
      StreamRead(ms[1..]);
    }
  }

  lemma NothingRead()
    ensures Read([]) == Closed
  {
  }

  /** A frame that reads, reads the same whatever follows it, and not before its
      last byte has come. */
  lemma NotBefore(s: Bytes, j: nat, more: Bytes)
    requires Read(s).Frame? && j <= |s|
    ensures var c := |s| - |Read(s).rest|;
            0 < c <= |s| && s[c..] == Read(s).rest
            && (j < c ==> Read(s[..j]) == Closed)
            && Read(s[..c] + more) == Frame(Read(s).opcode, Read(s).payload, more)
  {
    hide Masked, Length, Payload;
    var w := Width(s[1] % 128);
    PayloadNotBefore(s[0] % 16, s[1] >= 128, Length(s), s[2 + w..], if j >= 2 + w then j - 2 - w else 0, more);
    var c := |s| - |Read(s).rest|;
    assert s[2 + w..][..c - 2 - w] == s[2 + w..c];
    assert (s[..c] + more)[2 + w..] == s[2 + w..c] + more;
    SameHead(s, s[..c] + more);
    if 2 + w <= j < c {
      SameHead(s, s[..j]);
      assert s[..j][2 + w..] == s[2 + w..][..j - 2 - w];
    }
  }

  lemma SameHead(s: Bytes, t: Bytes)
    requires |s| >= 2 && 2 + Width(s[1] % 128) <= |s| && 2 + Width(s[1] % 128) <= |t|
    requires t[..2 + Width(s[1] % 128)] == s[..2 + Width(s[1] % 128)]
    ensures Read(t) == Payload(s[0] % 16, s[1] >= 128, Length(s), t[2 + Width(s[1] % 128)..])
  {
    hide Payload, Value;
    var w := Width(s[1] % 128);
    assert t[..2 + w][0] == s[..2 + w][0] && t[..2 + w][1] == s[..2 + w][1];
    assert t[2..2 + w] == t[..2 + w][2..] && s[2..2 + w] == s[..2 + w][2..];
  }

  lemma PayloadNotBefore(opcode: Opcode, masked: bool, n: nat, s: Bytes, j: nat, more: Bytes)
    requires Payload(opcode, masked, n, s).Frame? && j <= |s|
    ensures var c := |s| - |Payload(opcode, masked, n, s).rest|;
            0 <= c <= |s| && s[c..] == Payload(opcode, masked, n, s).rest && Payload(opcode, masked, n, s).opcode == opcode
            && (j < c ==> Payload(opcode, masked, n, s[..j]) == Closed)
            && Payload(opcode, masked, n, s[..c] + more) == Frame(opcode, Payload(opcode, masked, n, s).payload, more)
  {
    hide Masked;
    var c := if masked then 4 + n else n;
    var t := s[..c] + more;
    if masked {
      assert t[..4] == s[..4] && t[4..4 + n] == s[4..4 + n];
    } else {
      assert t[..n] == s[..n];
    }
    assert t[c..] == more;
  }

  /** ws_frame() spends no more bytes on a length than any frame that reads the same. */
  lemma Shortest(s: Bytes, opcode: Opcode, payload: Bytes)
    requires Read(s) == Frame(opcode, payload, [])
    ensures |Served(opcode, payload)| <= |s|
  {
    hide Masked;
    var w := Width(s[1] % 128);
    if w == 2 { TwoBytes(s[2..4]); }
  }

  lemma TwoBytes(bs: Bytes)
    requires |bs| == 2
    ensures Value(bs) < 0x1_0000
  {
    assert Value(bs[..1]) == bs[..1][0];
  }

  // ---- the socket ----

  /** What is still to come, in the pieces the network will bring it in. */
  class Socket {
    var pieces: seq<Bytes>

    ghost predicate Valid()
      reads this
    {
      forall i :: 0 <= i < |pieces| ==> pieces[i] != []
    }

    ghost function Coming(): Bytes
      reads this
    {
      Joined(pieces)
    }

    constructor (ps: seq<Bytes>)
      requires forall i :: 0 <= i < |ps| ==> ps[i] != []
      ensures Valid() && Coming() == Joined(ps)
    {
      pieces := ps;
    }

    /** recv(): some of what has come, and nothing only at the end. */
    method Recv(n: nat) returns (chunk: Bytes)
      requires Valid() && n > 0
      modifies this
      ensures Valid() && old(Coming()) == chunk + Coming() && |chunk| <= n
      ensures chunk == [] <==> old(Coming()) == []
    {
      if pieces == [] { return []; }
      JoinedFirst(pieces);
      if |pieces[0]| <= n {
        chunk := pieces[0];
        pieces := pieces[1..];
      } else {
        var first := pieces[0];
        chunk := first[..n];
        JoinedHead(first[..n], first[n..], pieces[1..]);
        pieces := [first[n..]] + pieces[1..];
      }
    }

    /** recv_exact() */
    method RecvExact(n: nat) returns (out: Option<Bytes>)
      requires Valid()
      modifies this
      ensures Valid()
      ensures out == if |old(Coming())| < n then None else Some(old(Coming())[..n])
      ensures out.Some? ==> Coming() == old(Coming())[n..]
    {
      var got: Bytes := [];
      while |got| < n
        invariant Valid() && |got| <= n && old(Coming()) == got + Coming()
        decreases n - |got|
      {
        var chunk := Recv(n - |got|);
        if chunk == [] { return None; }
        got := got + chunk;
      }
      return Some(got);
    }

    /** ws_read() */
    method ReadFrame() returns (r: Option<(Opcode, Bytes)>)
      requires Valid()
      modifies this
      ensures Valid()
      ensures match Read(old(Coming()))
              case Closed => r == None
              case Frame(o, p, rest) => r == Some((o, p)) && Coming() == rest
    {
      hide Masked, Value, Payload;
      ghost var s := Coming();
      var hdr := RecvExact(2);
      if hdr == None { return None; }
      var opcode, masked, n := hdr.value[0] % 16, hdr.value[1] >= 128, hdr.value[1] % 128;
      if n == 126 || n == 127 {
        var ext := RecvExact(if n == 126 then 2 else 8);
        if ext == None { return None; }
        assert s[2..][..Width(n)] == s[2..2 + Width(n)] && s[2..][Width(n)..] == s[2 + Width(n)..];
        n := Value(ext.value);
      }
      r := ReadPayload(opcode, masked, n);
    }

    method ReadPayload(opcode: Opcode, masked: bool, n: nat) returns (r: Option<(Opcode, Bytes)>)
      requires Valid()
      modifies this
      ensures Valid()
      ensures match Payload(opcode, masked, n, old(Coming()))
              case Closed => r == None
              case Frame(o, p, rest) => r == Some((o, p)) && Coming() == rest
    {
      hide Masked;
      if n > LARGEST { return None; }
      ghost var s := Coming();
      var key: Bytes := [];
      if masked {
        var k := RecvExact(4);
        if k == None { return None; }
        key := k.value;
      }
      var payload := RecvExact(n);
      if payload == None { return None; }
      if masked { assert s[4..][..n] == s[4..4 + n] && s[4..][n..] == s[4 + n..]; }
      return Some((opcode, if masked then Masked(payload.value, key) else payload.value));
    }
  }

  function Joined(ps: seq<Bytes>): Bytes { if ps == [] then [] else ps[0] + Joined(ps[1..]) }

  lemma JoinedFirst(ps: seq<Bytes>)
    requires ps != [] && ps[0] != []
    ensures Joined(ps) == ps[0] + Joined(ps[1..]) != []
  {
  }

  lemma JoinedHead(a: Bytes, b: Bytes, ps: seq<Bytes>)
    ensures Joined([a + b] + ps) == a + Joined([b] + ps)
  {
    assert ([a + b] + ps)[1..] == ps && ([b] + ps)[1..] == ps;
  }
}
