/** Buf and Parse of tools/9pfsd.py: little-endian numbers and counted strings,
    written and read back. */
module NineWire {
  import opened Basics
  import opened Division

  datatype Outcome<+T> = Ok(value: T) | Err(errno: nat) {
    predicate IsFailure() { Err? }
    function PropagateFailure<U>(): Outcome<U> requires Err? { Err(errno) }
    function Extract(): T requires Ok? { value }
  }

  const EPROTO: nat := 71

  // ---- numbers ----

  function Pow256(n: nat): (p: nat)
    ensures p > 0
  {
    if n == 0 then 1 else 256 * Pow256(n - 1)
  }

  /** The low n bytes of v, lowest first. */
  function Low(v: nat, n: nat): (b: Bytes)
    ensures |b| == n
    decreases n
  {
    if n == 0 then [] else [v % 256] + Low(v / 256, n - 1)
  }

  function Value(b: Bytes): nat {
    if b == [] then 0 else b[0] + 256 * Value(b[1..])
  }

  lemma DivMod(v: nat, p: nat)
    requires p > 0
    ensures v % 256 + 256 * ((v / 256) % p) == v % (256 * p)
  {
    var q := v / 256;
    assert v == 256 * q + v % 256;
    assert q == p * (q / p) + q % p;
    var r := 256 * (q % p) + v % 256;
    assert v == (256 * p) * (q / p) + r by { assert 256 * (p * (q / p)) == (256 * p) * (q / p); }
    assert 0 <= r < 256 * p;
    Remainder(v, 256 * p, q / p, r);
  }

  /** A number is read back modulo its width, as the masks say. */
  lemma {:induction false} LowValue(v: nat, n: nat)
    ensures Value(Low(v, n)) == v % Pow256(n)
    decreases n
  {
    if n > 0 {
      LowValue(v / 256, n - 1);
      assert Low(v, n)[1..] == Low(v / 256, n - 1);
      DivMod(v, Pow256(n - 1));
    }
  }

  lemma Widths()
    ensures Pow256(1) == 0x100 && Pow256(2) == 0x1_0000 && Pow256(4) == 0x1_0000_0000
    ensures Pow256(8) == 0x1_0000_0000_0000_0000
  {
    assert Pow256(0) == 1 && Pow256(1) == 256 && Pow256(2) == 256 * Pow256(1) && Pow256(3) == 256 * Pow256(2);
    assert Pow256(4) == 256 * Pow256(3) && Pow256(5) == 256 * Pow256(4) && Pow256(6) == 256 * Pow256(5);
    assert Pow256(7) == 256 * Pow256(6) && Pow256(8) == 256 * Pow256(7);
  }

  // ---- fields ----

  datatype Field = Int(width: nat, v: nat) | Text(s: Bytes)

  datatype Shape = Fixed(width: nat) | Counted

  function Encode(f: Field): Bytes {
    match f
    case Int(w, v) => Low(v, w)
    case Text(s) => Low(|s|, 2) + s
  }

  function EncodeAll(fs: seq<Field>): Bytes
    decreases |fs|
  {
    if fs == [] then [] else EncodeAll(fs[..|fs| - 1]) + Encode(fs[|fs| - 1])
  }

  function ShapeOf(f: Field): Shape { match f case Int(w, _) => Fixed(w) case Text(_) => Counted }

  function Shapes(fs: seq<Field>): (ss: seq<Shape>)
    ensures |ss| == |fs| && forall i :: 0 <= i < |fs| ==> ss[i] == ShapeOf(fs[i])
  {
    seq(|fs|, i requires 0 <= i < |fs| => ShapeOf(fs[i]))
  }

  /** What comes back: a number cut to its width. */
  function Cut(f: Field): Field { match f case Int(w, v) => Int(w, v % Pow256(w)) case Text(s) => f }

  function CutAll(fs: seq<Field>): (cs: seq<Field>)
    ensures |cs| == |fs| && forall i :: 0 <= i < |fs| ==> cs[i] == Cut(fs[i])
  {
    seq(|fs|, i requires 0 <= i < |fs| => Cut(fs[i]))
  }

  /** A string's length goes in two bytes. */
  predicate Fits(f: Field) { f.Text? ==> |f.s| < 0x1_0000 }

  predicate AllFit(fs: seq<Field>) { forall i :: 0 <= i < |fs| ==> Fits(fs[i]) }

  // ---- Parse ----

  /** need() */
  function Need(d: Bytes, i: nat, n: nat): Outcome<(Bytes, nat)>
    requires i <= |d|
  {
    if i + n > |d| then Err(EPROTO) else Ok((d[i..i + n], i + n))
  }

  function ReadField(d: Bytes, i: nat, sh: Shape): (r: Outcome<(Field, nat)>)
    requires i <= |d|
    ensures r.Ok? ==> i <= r.value.1 <= |d|
  {
    match sh
    case Fixed(w) =>
      var (b, j) :- Need(d, i, w);
      Ok((Int(w, Value(b)), j))
    case Counted =>
      var (n, j) :- Need(d, i, 2);
      var (s, k) :- Need(d, j, Value(n));
      Ok((Text(s), k))
  }

  function ReadAll(d: Bytes, i: nat, shapes: seq<Shape>): (r: Outcome<(seq<Field>, nat)>)
    requires i <= |d|
    ensures r.Ok? ==> i <= r.value.1 <= |d|
    decreases |shapes|
  {
    if shapes == [] then Ok(([], i))
    else
      var (fs, j) :- ReadAll(d, i, shapes[..|shapes| - 1]);
      var (f, k) :- ReadField(d, j, shapes[|shapes| - 1]);
      Ok((fs + [f], k))
  }

  /** What was written at i. */
  predicate At(d: Bytes, i: nat, b: Bytes) { i + |b| <= |d| && d[i..i + |b|] == b }

  lemma AtSplit(d: Bytes, i: nat, a: Bytes, b: Bytes)
    requires At(d, i, a + b)
    ensures At(d, i, a) && At(d, i + |a|, b)
  {
    assert d[i..i + |a|] == (a + b)[..|a|];
    assert d[i + |a|..i + |a| + |b|] == (a + b)[|a|..];
  }

  lemma FieldReads(d: Bytes, i: nat, f: Field)
    requires At(d, i, Encode(f)) && Fits(f)
    ensures ReadField(d, i, ShapeOf(f)) == Ok((Cut(f), i + |Encode(f)|))
  {
    match f
    case Int(w, v) => LowValue(v, w);
    case Text(s) =>
      AtSplit(d, i, Low(|s|, 2), s);
      LowValue(|s|, 2);
      Widths();
  }

  /** Fields written one after another are read back in order, each number modulo
      its width, and reading ends where writing did. */
  lemma {:induction false} AllRead(d: Bytes, i: nat, fs: seq<Field>)
    requires At(d, i, EncodeAll(fs)) && AllFit(fs)
    ensures ReadAll(d, i, Shapes(fs)) == Ok((CutAll(fs), i + |EncodeAll(fs)|))
    decreases |fs|
  {
    hide ReadField, Encode, At, Cut, Fits;
    if fs == [] {
      NothingAt(d, i);
    } else {
      var before, f := fs[..|fs| - 1], fs[|fs| - 1];
      AtSplit(d, i, EncodeAll(before), Encode(f));
      AllRead(d, i, before);
      FieldReads(d, i + |EncodeAll(before)|, f);
      assert Shapes(fs)[..|fs| - 1] == Shapes(before);
      assert CutAll(fs) == CutAll(before) + [Cut(f)];
    }
  }

  lemma NothingAt(d: Bytes, i: nat)
    requires At(d, i, [])
    ensures i <= |d|
  {
  }

  /** The two agree on at least what both have. */
  lemma ShortField(d: Bytes, i: nat, f: Field, e: Bytes)
    requires At(e, i, Encode(f)) && Fits(f) && d <= e && i <= |d| < i + |Encode(f)|
    ensures ReadField(d, i, ShapeOf(f)) == Err(EPROTO)
  {
    match f
    case Int(w, v) =>
    case Text(s) =>
      AtSplit(e, i, Low(|s|, 2), s);
      LowValue(|s|, 2);
      Widths();
      if i + 2 <= |d| { assert d[i..i + 2] == e[i..i + 2]; }
  }

  /** A message cut short anywhere is an error, never a wrong answer. */
  lemma {:induction false} ShortMessage(d: Bytes, i: nat, fs: seq<Field>, e: Bytes)
    requires At(e, i, EncodeAll(fs)) && AllFit(fs) && d <= e && i <= |d| < i + |EncodeAll(fs)|
    ensures ReadAll(d, i, Shapes(fs)) == Err(EPROTO)
    decreases |fs|
  {
    hide ReadField, Encode, Fits;
    var before, f := fs[..|fs| - 1], fs[|fs| - 1];
    AtSplit(e, i, EncodeAll(before), Encode(f));
    assert Shapes(fs)[..|fs| - 1] == Shapes(before);
    var j := i + |EncodeAll(before)|;
    if |d| < j {
      ShortMessage(d, i, before, e);
    } else {
      assert d[i..j] == e[i..j];
      AllRead(d, i, before);
      ShortField(d, j, f, e);
    }
  }

  // ---- a stat entry ----

  /** Type, version and path number. */
  datatype Qid = Qid(kind: nat, version: nat, path: nat)

  datatype Attr = Attr(qid: Qid, mode: nat, atime: nat, mtime: nat, length: nat, name: Bytes, user: Bytes, group: Bytes,
                       extension: Bytes, uid: nat, gid: nat)

  function QidFields(q: Qid): seq<Field> { [Int(1, q.kind), Int(4, q.version), Int(8, q.path)] }

  function StatFields(a: Attr, dotu: bool): seq<Field> {
    [Int(2, 0), Int(4, 0)] + QidFields(a.qid)
    + [Int(4, a.mode), Int(4, a.atime), Int(4, a.mtime), Int(8, a.length), Text(a.name), Text(a.user), Text(a.group), Text(a.user)]
    + if dotu then [Text(a.extension), Int(4, a.uid), Int(4, a.gid), Int(4, a.uid)] else []
  }

  /** stat_bytes(): the entry's own size, which counts what follows it. */
  function StatBytes(a: Attr, dotu: bool): Bytes {
    var body := EncodeAll(StatFields(a, dotu));
    Low(|body|, 2) + body
  }

  predicate FitsWire(a: Attr) {
    |a.name| < 0x1_0000 && |a.user| < 0x1_0000 && |a.group| < 0x1_0000 && |a.extension| < 0x1_0000
  }

  /** An entry anywhere in a reply gives its fields back, and leads to the next
      entry exactly when its size fits the two bytes it has. */
  lemma StatReads(d: Bytes, i: nat, a: Attr, dotu: bool)
    requires At(d, i, StatBytes(a, dotu)) && FitsWire(a)
    ensures var fs := StatFields(a, dotu);
            ReadAll(d, i + 2, Shapes(fs)) == Ok((CutAll(fs), i + |StatBytes(a, dotu)|))
    ensures Value(d[i..i + 2]) + 2 == |StatBytes(a, dotu)| <==> |StatBytes(a, dotu)| - 2 < 0x1_0000
  {
    hide ReadAll, StatFields, EncodeAll, Low, Value;
    var fs := StatFields(a, dotu);
    var body := EncodeAll(fs);
    AtSplit(d, i, Low(|body|, 2), body);
    StatFits(a, dotu);
    AllRead(d, i + 2, fs);
    LowValue(|body|, 2);
    Widths();
  }

  lemma StatFits(a: Attr, dotu: bool)
    requires FitsWire(a)
    ensures AllFit(StatFields(a, dotu))
  {
  }

  /** The shorter form ends where the longer one goes on: bare 9P2000 is the
      entry up to muid. */
  lemma BareIsPrefix(a: Attr)
    ensures EncodeAll(StatFields(a, false)) <= EncodeAll(StatFields(a, true))
    ensures |StatBytes(a, true)| == |StatBytes(a, false)| + 14 + |a.extension|
  {
    hide Encode;
    var bare, more := StatFields(a, false), [Text(a.extension), Int(4, a.uid), Int(4, a.gid), Int(4, a.uid)];
    assert StatFields(a, true) == bare + more;
    EncodeConcat(bare, more);
    EncodeConcat([], more);
    FourFields(more[0], more[1], more[2], more[3]);
    Lengths(a);
  }

  lemma Lengths(a: Attr)
    ensures |Encode(Text(a.extension))| == 2 + |a.extension| && |Encode(Int(4, a.uid))| == 4 && |Encode(Int(4, a.gid))| == 4
  {
  }

  lemma FourFields(a: Field, b: Field, c: Field, d: Field)
    ensures |EncodeAll([a, b, c, d])| == |Encode(a)| + |Encode(b)| + |Encode(c)| + |Encode(d)|
  {
    hide Encode, EncodeAll;
    EncodeSnoc([a, b, c], d);
    EncodeSnoc([a, b], c);
    EncodeSnoc([a], b);
    EncodeSnoc([], a);
    assert [a, b, c] + [d] == [a, b, c, d] && [a, b] + [c] == [a, b, c] && [a] + [b] == [a, b] && [] + [a] == [a];
    NoFields();
  }

  lemma NoFields()
    ensures EncodeAll([]) == []
  {
  }

  lemma EncodeSnoc(fs: seq<Field>, f: Field)
    ensures EncodeAll(fs + [f]) == EncodeAll(fs) + Encode(f)
  {
    assert (fs + [f])[..|fs|] == fs;
  }

  lemma {:induction false} EncodeConcat(a: seq<Field>, b: seq<Field>)
    ensures EncodeAll(a + b) == EncodeAll(a) + EncodeAll(b)
    decreases |b|
  {
    hide Encode;
    if b == [] {
      assert a + b == a;
    } else {
      assert (a + b)[..|a + b| - 1] == a + b[..|b| - 1];
      EncodeConcat(a, b[..|b| - 1]);
    }
  }

  // ---- the objects ----

  class Buf {
    var b: Bytes

    constructor ()
      ensures b == []
    {
      b := [];
    }

    /** u8, u16, u32 and u64 */
    method Number(width: nat, v: nat)
      modifies this
      ensures b == old(b) + Encode(Int(width, v))
    {
      var rest, n := v, 0;
      while n < width
        invariant n <= width && b + Low(rest, width - n) == old(b) + Low(v, width)
      {
        assert b + ([rest % 256] + Low(rest / 256, width - n - 1)) == (b + [rest % 256]) + Low(rest / 256, width - n - 1);
        b := b + [rest % 256];
        rest, n := rest / 256, n + 1;
      }
    }

    method String(s: Bytes)
      modifies this
      ensures b == old(b) + Encode(Text(s))
    {
      hide Low;
      Number(2, |s|);
      b := b + s;
    }
  }

  class Parse {
    const d: Bytes
    var i: nat

    predicate Valid()
      reads this
    {
      i <= |d|
    }

    constructor (data: Bytes)
      ensures Valid() && d == data && i == 0
    {
      d, i := data, 0;
    }

    /** need(): nothing is taken when there is not enough. */
    method Take(n: nat) returns (r: Outcome<Bytes>)
      requires Valid()
      modifies this
      ensures Valid()
      ensures r.Ok? ==> Need(d, old(i), n) == Ok((r.value, i))
      ensures r.Err? ==> Need(d, old(i), n) == Err(r.errno) && i == old(i)
    {
      if i + n > |d| {
        return Err(EPROTO);
      }
      r := Ok(d[i..i + n]);
      i := i + n;
    }

    method Read(sh: Shape) returns (r: Outcome<Field>)
      requires Valid()
      modifies this
      ensures Valid()
      ensures r.Ok? ==> ReadField(d, old(i), sh) == Ok((r.value, i))
      ensures r.Err? ==> ReadField(d, old(i), sh) == Err(r.errno)
    {
      match sh
      case Fixed(w) =>
        var t := Take(w);
        r := if t.Err? then Err(t.errno) else Ok(Int(w, Value(t.value)));
      case Counted =>
        var n := Take(2);
        if n.Err? { return Err(n.errno); }
        var s := Take(Value(n.value));
        r := if s.Err? then Err(s.errno) else Ok(Text(s.value));
    }
  }
}
