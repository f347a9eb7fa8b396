/** ar(1) archives, and the reader of tools/unpack-nested-ar.py, which scans for
    headers and takes what lies between them. */
module Archive {

  import opened Basics

  const MAGIC: string := "!<arch>\n"
  const HDR: nat := 60

  // ---- fields ----

  predicate Space(c: char) { c == ' ' || c == '\t' || c == '\n' || c == '\r' || c as int == 11 || c as int == 12 }

  function StripLeft(s: string): string {
    if s != "" && Space(s[0]) then StripLeft(s[1..]) else s
  }

  function StripRight(s: string): string {
    if s != "" && Space(s[|s| - 1]) then StripRight(s[..|s| - 1]) else s
  }

  function Strip(s: string): string { StripRight(StripLeft(s)) }

  predicate Digits(s: string) { s != "" && forall c :: c in s ==> '0' <= c <= '9' }

  function DigitValue(c: char): nat { if '0' <= c <= '9' then c as int - '0' as int else 0 }

  function Value(s: string): nat { if s == "" then 0 else Value(s[..|s| - 1]) * 10 + DigitValue(s[|s| - 1]) }

  predicate NameChar(c: char) {
    'A' <= c <= 'Z' || 'a' <= c <= 'z' || '0' <= c <= '9' || c == '_' || c == '.' || c == '-' || c == '+' || c == '/'
  }

  function Name(h: string): string
    requires |h| == HDR
  {
    Strip(h[0..16])
  }

  /** The decimal size, if it is one. */
  function Size(h: string): Option<nat>
    requires |h| == HDR
  {
    if Digits(Strip(h[48..58])) then Some(Value(Strip(h[48..58]))) else None
  }

  predicate Trailed(h: string)
    requires |h| == HDR
  {
    h[58] == '`' && h[59] == '\n'
  }

  /** The four tests of headers(). */
  predicate Passes(h: string)
    requires |h| == HDR
  {
    Trailed(h) && Name(h) != "" && (forall c :: c in Name(h) ==> NameChar(c)) && Size(h).Some? && Digits(Strip(h[40..48]))
  }

  // ---- archives ----

  datatype Member = Member(header: string, body: string)

  /** A header that passes, with the right size. */
  predicate Right(m: Member) { |m.header| == HDR && Passes(m.header) && Size(m.header) == Some(|m.body|) }

  predicate AllRight(ms: seq<Member>) { forall i :: 0 <= i < |ms| ==> Right(ms[i]) }

  function Padding(n: nat): string { if n % 2 == 1 then "\n" else "" }

  function Written(m: Member): string { m.header + m.body + Padding(|m.body|) }

  function Serialised(ms: seq<Member>): string
    decreases |ms|
  {
    if ms == [] then MAGIC else Serialised(ms[..|ms| - 1]) + Written(ms[|ms| - 1])
  }

  /** Where the i-th member starts. */
  function Offset(ms: seq<Member>, i: nat): nat
    requires i <= |ms|
  {
    if i == 0 then |MAGIC| else Offset(ms, i - 1) + |Written(ms[i - 1])|
  }

  lemma {:induction false} OffsetPrefix(ms: seq<Member>, m: Member, i: nat)
    requires i <= |ms|
    ensures Offset(ms + [m], i) == Offset(ms, i)
    decreases i
  {
    if i > 0 { OffsetPrefix(ms, m, i - 1); }
  }

  /** Magic, headers, bodies and padding account for every byte. */
  lemma {:induction false} EveryByte(ms: seq<Member>)
    ensures |Serialised(ms)| == Offset(ms, |ms|)
    decreases |ms|
  {
    if ms != [] {
      var before, m := ms[..|ms| - 1], ms[|ms| - 1];
      EveryByte(before);
      assert before + [m] == ms;
      OffsetPrefix(before, m, |before|);
    }
  }

  lemma {:induction false} OffsetsGrow(ms: seq<Member>, i: nat, j: nat)
    requires AllRight(ms) && i < j <= |ms|
    ensures Offset(ms, i) + HDR <= Offset(ms, j)
    decreases j
  {
    hide Passes, Size;
    if i < j - 1 { OffsetsGrow(ms, i, j - 1); }
    assert Right(ms[j - 1]);
  }

  lemma SliceFirst(a: string, b: string, i: nat, j: nat)
    requires i <= j <= |a|
    ensures (a + b)[i..j] == a[i..j]
  {
  }

  lemma SliceSecond(a: string, b: string)
    ensures (a + b)[|a|..|a| + |b|] == b
  {
  }

  lemma OffsetsUp(ms: seq<Member>, i: nat)
    requires i < |ms|
    ensures Offset(ms, i + 1) == Offset(ms, i) + |Written(ms[i])|
  {
  }

  lemma {:induction false} OffsetUpto(ms: seq<Member>, i: nat)
    requires i <= |ms|
    ensures Offset(ms, i) <= Offset(ms, |ms|)
    decreases |ms| - i
  {
    if i < |ms| { OffsetUpto(ms, i + 1); }
  }

  lemma Relast(ms: seq<Member>)
    requires ms != []
    ensures ms[..|ms| - 1] + [ms[|ms| - 1]] == ms
  {
  }

  lemma SerialisedLast(ms: seq<Member>)
    requires ms != []
    ensures Serialised(ms) == Serialised(ms[..|ms| - 1]) + Written(ms[|ms| - 1])
  {
    hide Written;
  }

  /** Each member lies where its offset says. */
  lemma {:induction false} MemberAt(ms: seq<Member>, i: nat)
    requires i < |ms|
    ensures Offset(ms, i) <= Offset(ms, i + 1) <= |Serialised(ms)|
    ensures Serialised(ms)[Offset(ms, i)..Offset(ms, i + 1)] == Written(ms[i])
    decreases |ms|
  {
    hide Serialised, Written, Offset;
    var before, m := ms[..|ms| - 1], ms[|ms| - 1];
    EveryByte(before);
    EveryByte(ms);
    Relast(ms);
    SerialisedLast(ms);
    OffsetsUp(ms, i);
    OffsetUpto(ms, i + 1);
    OffsetPrefix(before, m, i);
    if i < |before| {
      MemberAt(before, i);
      OffsetPrefix(before, m, i + 1);
      SliceFirst(Serialised(before), Written(m), Offset(ms, i), Offset(ms, i + 1));
    } else {
      SliceSecond(Serialised(before), Written(m));
    }
  }

  lemma Parts(d: string, o: nat, a: string, b: string, c: string)
    requires o + |a| + |b| + |c| <= |d| && d[o..o + |a| + |b| + |c|] == a + b + c
    ensures d[o..o + |a|] == a && d[o + |a|..o + |a| + |b|] == b
  {
    var w := d[o..o + |a| + |b| + |c|];
    assert forall k :: 0 <= k < |w| ==> d[o + k] == w[k];
    assert forall k :: 0 <= k < |a| ==> w[k] == a[k];
    assert forall k :: 0 <= k < |b| ==> w[|a| + k] == b[k];
  }

  lemma PartsAt(ms: seq<Member>, i: nat)
    requires i < |ms| && |ms[i].header| == HDR
    ensures var d, o := Serialised(ms), Offset(ms, i);
            o + HDR + |ms[i].body| + |Padding(|ms[i].body|)| == Offset(ms, i + 1) <= |d|
            && d[o..o + HDR] == ms[i].header && d[o + HDR..o + HDR + |ms[i].body|] == ms[i].body
  {
    hide Serialised, Offset, Padding;
    MemberAt(ms, i);
    OffsetsUp(ms, i);
    Parts(Serialised(ms), Offset(ms, i), ms[i].header, ms[i].body, Padding(|ms[i].body|));
  }

  datatype Found = Found(name: string, body: string)

  // ---- unpack-nested-ar.py: scanning for headers ----

  predicate HeaderAt(data: string, off: nat) { off + HDR <= |data| && Passes(data[off..off + HDR]) }

  /** The offsets from MAGIC up to end at which a header passes. */
  function Scanned(data: string, end: nat): seq<nat>
    decreases end
  {
    if end <= |MAGIC| then []
    else Scanned(data, end - 1) + if HeaderAt(data, end - 1) then [end - 1] else []
  }

  /** headers() */
  method Headers(data: string) returns (out: seq<nat>)
    ensures out == Scanned(data, ScanEnd(data))
  {
    out := [];
    if |data| + 1 >= |MAGIC| + HDR {
      for off := |MAGIC| to |data| - HDR + 1
        invariant out == Scanned(data, off)
      {
        if Passes(data[off..off + HDR]) { out := out + [off]; }
      }
    }
  }

  /** What lies between a header and the next, if anything, without its padding. */
  function Between(data: string, off: nat, end: nat): string
    requires off + HDR <= |data| && end <= |data|
  {
    var body := if off + HDR <= end then data[off + HDR..end] else "";
    match Size(data[off..off + HDR])
    case None => body
    case Some(n) => if n % 2 == 1 && |body| == n + 1 then body[..n] else body
  }

  function EndOf(data: string, offs: seq<nat>, i: nat): nat
    requires i < |offs|
  {
    if i + 1 < |offs| then offs[i + 1] else |data|
  }

  predicate InData(data: string, offs: seq<nat>) { forall i :: 0 <= i < |offs| ==> offs[i] + HDR <= |data| }

  lemma {:induction false} ScannedInData(data: string, end: nat)
    ensures InData(data, Scanned(data, end))
    decreases end
  {
    hide Passes;
    if end > |MAGIC| { ScannedInData(data, end - 1); }
  }

  function ScanEnd(data: string): nat { if |data| + 1 >= |MAGIC| + HDR then |data| - HDR + 1 else 0 }

  function MemberFrom(data: string, offs: seq<nat>, i: nat): Found
    requires InData(data, offs) && i < |offs|
  {
    Found(Name(data[offs[i]..offs[i] + HDR]), Between(data, offs[i], EndOf(data, offs, i)))
  }

  /** members() */
  method Members(data: string) returns (out: seq<Found>)
    ensures var offs := Scanned(data, ScanEnd(data));
            InData(data, offs) && |out| == |offs| && forall i :: 0 <= i < |offs| ==> out[i] == MemberFrom(data, offs, i)
  {
    hide Scanned, Strip;
    var offs := Headers(data);
    ScannedInData(data, ScanEnd(data));
    out := [];
    for i := 0 to |offs|
      invariant |out| == i
      invariant forall k :: 0 <= k < i ==> out[k] == MemberFrom(data, offs, k)
    {
      var off, end := offs[i], EndOf(data, offs, i);
      var h := data[off..off + HDR];
      var body := if off + HDR <= end then data[off + HDR..end] else "";
      var size := Size(h);
      if size.Some? && size.value % 2 == 1 && |body| == size.value + 1 { body := body[..size.value]; }
      out := out + [Found(Name(h), body)];
    }
  }

  /** No text of the archive looks like a header. */
  predicate OnlyHeaders(ms: seq<Member>) {
    forall off :: 0 <= off <= |Serialised(ms)| && HeaderAt(Serialised(ms), off) ==> exists i :: 0 <= i < |ms| && off == Offset(ms, i)
  }

  function Offsets(ms: seq<Member>, n: nat): (offs: seq<nat>)
    requires n <= |ms|
    ensures |offs| == n && forall i :: 0 <= i < n ==> offs[i] == Offset(ms, i)
  {
    seq(n, i requires 0 <= i < n => Offset(ms, i))
  }

  lemma {:induction false} ScanFinds(ms: seq<Member>, end: nat, n: nat)
    requires AllRight(ms) && OnlyHeaders(ms) && n <= |ms| && end <= |Serialised(ms)|
    requires forall i :: 0 <= i < |ms| ==> (Offset(ms, i) < end <==> i < n)
    ensures Scanned(Serialised(ms), end) == Offsets(ms, n)
    decreases end
  {
    hide Passes, Serialised, Offset, Right;
    if end <= |MAGIC| {
      if n > 0 { OffsetLeast(ms, 0); }
    } else {
      var off := end - 1;
      if n > 0 && Offset(ms, n - 1) == off {
        forall i | 0 <= i < |ms| ensures Offset(ms, i) < off <==> i < n - 1 {
          if i < n - 1 { OffsetsGrow(ms, i, n - 1); }
        }
        ScanFinds(ms, off, n - 1);
        TrueHeader(ms, n - 1);
        assert Offsets(ms, n) == Offsets(ms, n - 1) + [off];
      } else {
        forall i | 0 <= i < |ms| ensures (Offset(ms, i) < off <==> i < n) && Offset(ms, i) != off {
          if i < n - 1 { OffsetsGrow(ms, i, n - 1); }
        }
        ScanFinds(ms, off, n);
        assert !HeaderAt(Serialised(ms), off);
      }
    }
  }

  lemma {:induction false} OffsetLeast(ms: seq<Member>, i: nat)
    requires i <= |ms|
    ensures Offset(ms, i) >= |MAGIC|
    decreases i
  {
    if i > 0 { OffsetLeast(ms, i - 1); }
  }

  lemma TrueHeader(ms: seq<Member>, i: nat)
    requires AllRight(ms) && i < |ms|
    ensures HeaderAt(Serialised(ms), Offset(ms, i))
  {
    hide Passes, Serialised, Offset;
    assert Right(ms[i]);
    PartsAt(ms, i);
  }

  /** Where nothing else looks like a header, the scan finds the headers... */
  lemma ScanningFinds(ms: seq<Member>)
    requires AllRight(ms) && OnlyHeaders(ms) && ms != []
    ensures Scanned(Serialised(ms), ScanEnd(Serialised(ms))) == Offsets(ms, |ms|)
  {
    hide Scanned, Passes, OnlyHeaders, Serialised, Offset;
    assert Right(ms[0]);
    PartsAt(ms, 0);
    OffsetLeast(ms, 0);
    EveryByte(ms);
    forall i | 0 <= i < |ms| ensures Offset(ms, i) < |Serialised(ms)| - HDR + 1 {
      OffsetsGrow(ms, i, |ms|);
    }
    ScanFinds(ms, |Serialised(ms)| - HDR + 1, |ms|);
  }

  /** ...and what lies between them is the bodies as written. */
  lemma BodyBetween(ms: seq<Member>, i: nat)
    requires AllRight(ms) && i < |ms|
    ensures var d, o, e := Serialised(ms), Offset(ms, i), Offset(ms, i + 1);
            o + HDR <= e <= |d| && (i + 1 == |ms| ==> e == |d|)
            && d[o..o + HDR] == ms[i].header && Between(d, o, e) == ms[i].body
  {
    hide Serialised, Passes, Offset, Size;
    EveryByte(ms);
    assert Right(ms[i]);
    PartsAt(ms, i);
    var d, o, n := Serialised(ms), Offset(ms, i), |ms[i].body|;
    if n % 2 == 1 { Shortened(d, o + HDR, o + HDR + n, Offset(ms, i + 1)); }
  }

  lemma Shortened(d: string, a: nat, b: nat, c: nat)
    requires a <= b <= c <= |d|
    ensures d[a..c][..b - a] == d[a..b]
  {
  }
}
