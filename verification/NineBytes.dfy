/** What goes on the wire, byte by byte: the numbers and strings of section 5 of the Plan 9
    Programmer's Manual, and the directory entry of its stat(5). */
module NineBytes {
  import opened Basics
  import opened NineWire
  import Division

  function Weight(k: nat): (w: nat)
    ensures w > 0
  {
    if k == 0 then 1 else 256 * Weight(k - 1)
  }

  /** A number in w bytes, the least significant first. */
  function Number(v: nat, w: nat): (b: Bytes)
    ensures |b| == w && forall k :: 0 <= k < w ==> b[k] == v / Weight(k) % 256
  {
    seq(w, k requires 0 <= k < w => v / Weight(k) % 256)
  }

  /** A string: its length in two bytes, and its bytes. */
  function Counted(s: Bytes): Bytes { Number(|s|, 2) + s }

  lemma {:induction false} LowIs(v: nat, w: nat)
    ensures Low(v, w) == Number(v, w)
    decreases w
  {
    if w > 0 {
      LowIs(v / 256, w - 1);
      forall k | 0 <= k < w
        ensures Low(v, w)[k] == v / Weight(k) % 256
      {
        if k == 0 {
          assert v / 1 == v;
        } else {
          Division.DivDiv(v, 256, Weight(k - 1));
          assert Low(v, w)[k] == Number(v / 256, w - 1)[k - 1];
        }
      }
    }
  }

  lemma NumberIs(v: nat, w: nat)
    ensures Encode(Int(w, v)) == Number(v, w)
  {
    LowIs(v, w);
  }

  lemma TextIs(s: Bytes)
    ensures Encode(Text(s)) == Counted(s)
  {
    LowIs(|s|, 2);
  }

  lemma {:induction false} FieldsIs(fs: seq<Field>)
    ensures fs != [] ==> EncodeAll(fs) == Encode(fs[0]) + EncodeAll(fs[1..])
  {
    hide Encode, EncodeAll;
    if fs != [] {
      assert [fs[0]] + fs[1..] == fs;
      EncodeConcat([fs[0]], fs[1..]);
      EncodeSnoc([], fs[0]);
      NoFields();
      assert [] + [fs[0]] == [fs[0]] && [] + Encode(fs[0]) == Encode(fs[0]);
    }
  }

  lemma ThreeFields(a: Field, b: Field, c: Field)
    ensures EncodeAll([a, b, c]) == Encode(a) + Encode(b) + Encode(c)
  {
    hide Encode, EncodeAll;
    FieldsIs([a, b, c]);
    FieldsIs([b, c]);
    FieldsIs([c]);
    NoFields();
    assert [a, b, c][1..] == [b, c] && [b, c][1..] == [c] && [c][1..] == [];
  }

  lemma FourFieldsIs(a: Field, b: Field, c: Field, d: Field)
    ensures EncodeAll([a, b, c, d]) == Encode(a) + Encode(b) + Encode(c) + Encode(d)
  {
    hide Encode, EncodeAll;
    FieldsIs([a, b, c, d]);
    ThreeFields(b, c, d);
    assert [a, b, c, d][1..] == [b, c, d];
  }

  /** Type and dev, which are zero, and the qid: its kind, version and path. */
  function Front(q: Qid): Bytes {
    Number(0, 2) + Number(0, 4) + Number(q.kind, 1) + Number(q.version, 4) + Number(q.path, 8)
  }

  /** The mode, the times and the length. */
  function Middle(a: Attr): Bytes {
    Number(a.mode, 4) + Number(a.atime, 4) + Number(a.mtime, 4) + Number(a.length, 8)
  }

  /** The name, the owner, the group, and who wrote it last, who is the owner again. */
  function Names(a: Attr): Bytes { Counted(a.name) + Counted(a.user) + Counted(a.group) + Counted(a.user) }

  /** What 9P2000.u adds: a link's target or a device, and the three in numbers. */
  function Extra(a: Attr): Bytes { Counted(a.extension) + Number(a.uid, 4) + Number(a.gid, 4) + Number(a.uid, 4) }

  lemma FrontIs(q: Qid)
    ensures EncodeAll([Int(2, 0), Int(4, 0)] + QidFields(q)) == Front(q)
  {
    hide Encode, EncodeAll, Number;
    var fs := [Int(2, 0), Int(4, 0)] + QidFields(q);
    FieldsIs(fs);
    FieldsIs(fs[1..]);
    assert fs[1..][1..] == QidFields(q);
    ThreeFields(Int(1, q.kind), Int(4, q.version), Int(8, q.path));
    NumberIs(0, 2);
    NumberIs(0, 4);
    NumberIs(q.kind, 1);
    NumberIs(q.version, 4);
    NumberIs(q.path, 8);
  }

  lemma MiddleIs(a: Attr)
    ensures EncodeAll([Int(4, a.mode), Int(4, a.atime), Int(4, a.mtime), Int(8, a.length)]) == Middle(a)
  {
    hide Encode, EncodeAll, Number;
    FourFieldsIs(Int(4, a.mode), Int(4, a.atime), Int(4, a.mtime), Int(8, a.length));
    NumberIs(a.mode, 4);
    NumberIs(a.atime, 4);
    NumberIs(a.mtime, 4);
    NumberIs(a.length, 8);
  }

  lemma NamesAre(a: Attr)
    ensures EncodeAll([Text(a.name), Text(a.user), Text(a.group), Text(a.user)]) == Names(a)
  {
    hide Encode, EncodeAll, Number, Counted;
    FourFieldsIs(Text(a.name), Text(a.user), Text(a.group), Text(a.user));
    TextIs(a.name);
    TextIs(a.user);
    TextIs(a.group);
  }

  lemma ExtraIs(a: Attr)
    ensures EncodeAll([Text(a.extension), Int(4, a.uid), Int(4, a.gid), Int(4, a.uid)]) == Extra(a)
  {
    hide Encode, EncodeAll, Number, Counted;
    FourFieldsIs(Text(a.extension), Int(4, a.uid), Int(4, a.gid), Int(4, a.uid));
    TextIs(a.extension);
    NumberIs(a.uid, 4);
    NumberIs(a.gid, 4);
  }

  /** A directory entry, every byte of it, in the plain and in the extended form. */
  lemma EntryBytes(a: Attr, dotu: bool)
    ensures var body := Front(a.qid) + Middle(a) + Names(a) + if dotu then Extra(a) else [];
            StatBytes(a, dotu) == Number(|body|, 2) + body
  {
    hide Encode, EncodeAll, Number, Counted, Front, Middle, Names, Extra, Low, QidFields;
    var front := [Int(2, 0), Int(4, 0)] + QidFields(a.qid);
    var middle := [Int(4, a.mode), Int(4, a.atime), Int(4, a.mtime), Int(8, a.length)];
    var names := [Text(a.name), Text(a.user), Text(a.group), Text(a.user)];
    var extra := if dotu then [Text(a.extension), Int(4, a.uid), Int(4, a.gid), Int(4, a.uid)] else [];
    assert StatFields(a, dotu) == ((front + middle) + names) + extra;
    EncodeConcat((front + middle) + names, extra);
    EncodeConcat(front + middle, names);
    EncodeConcat(front, middle);
    FrontIs(a.qid);
    MiddleIs(a);
    NamesAre(a);
    ExtraIs(a);
    NoFields();
    LowIs(|EncodeAll(StatFields(a, dotu))|, 2);
  }
}
