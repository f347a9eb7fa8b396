/** Reading a file of a V8 or V10 filesystem, as tools/v8fs.py and tools/v10fs.py
    do: the same algorithms over blocks of 1024 and of 4096 bytes. */
module Blocks {
  import opened Basics
  import opened Division

  const NADDR: nat := 13
  const DIRECT: nat := 10

  /** Every block has the filesystem's size; past the end of the image it is zeros. */
  datatype Disk = Disk(size: nat, words: nat, block: nat -> Bytes) {
    /** BSIZE is four times NINDIR: 1024 and 256, or 4096 and 1024. */
    ghost predicate Valid() { words > 1 && size == 4 * words && forall n :: |block(n)| == size }
  }

  datatype Inode = Inode(size: nat, addr: seq<nat>)

  predicate Whole(ip: Inode) { |ip.addr| == NADDR }

  /** u32() */
  function Word(b: Bytes, o: nat): nat
    requires o + 4 <= |b|
  {
    var b1: nat, b2: nat, b3: nat := b[o + 1], b[o + 2], b[o + 3];
    b[o] + b1 * 0x100 + b2 * 0x1_0000 + b3 * 0x100_0000
  }

  // ---- where a logical block is ----

  /** Which address to start from, and which word of each indirect block to take. */
  datatype Slot = Straight(i: nat) | Through(level: nat, digits: seq<nat>)

  function Pow(n: nat, k: nat): (p: nat)
    ensures n > 0 ==> p > 0
  {
    if k == 0 then 1 else n * Pow(n, k - 1)
  }

  /** The k base-n digits of v, the most significant first. */
  function Digits(n: nat, v: nat, k: nat): (ds: seq<nat>)
    requires n > 0
    ensures |ds| == k && forall i :: 0 <= i < k ==> ds[i] < n
    decreases k
  {
    if k == 0 then [] else Digits(n, v / n, k - 1) + [v % n]
  }

  function Number(n: nat, ds: seq<nat>): nat
    decreases |ds|
  {
    if ds == [] then 0 else Number(n, ds[..|ds| - 1]) * n + ds[|ds| - 1]
  }

  /** The first block mapped through a level: the direct ones and those of the
      levels before it. */
  function Start(n: nat, level: nat): nat
    decreases level
  {
    if level == 0 then DIRECT else Start(n, level - 1) + Pow(n, level)
  }

  function Locate(n: nat, bn: nat): (s: Option<Slot>)
    requires n > 0
    ensures s.Some? ==> ValidSlot(n, s.value)
  {
    if bn < DIRECT then Some(Straight(bn))
    else if bn < Start(n, 1) then Some(Through(0, Digits(n, bn - Start(n, 0), 1)))
    else if bn < Start(n, 2) then Some(Through(1, Digits(n, bn - Start(n, 1), 2)))
    else if bn < Start(n, 3) then Some(Through(2, Digits(n, bn - Start(n, 2), 3)))
    else None
  }

  predicate ValidSlot(n: nat, s: Slot) {
    match s
    case Straight(i) => i < DIRECT
    case Through(level, digits) => level < 3 && |digits| == level + 1 && forall i :: 0 <= i < |digits| ==> digits[i] < n
  }

  /** The block number that a slot stands for. */
  function BlockOf(n: nat, s: Slot): nat {
    match s
    case Straight(i) => i
    case Through(level, digits) => Start(n, level) + Number(n, digits)
  }

  lemma DivStep(v: nat, n: nat, p: nat)
    requires n > 0 && p > 0 && v < n * p
    ensures v / n < p
  {
    var q := v / n;
    assert v == n * q + v % n;
    if q >= p { Monotone(n, p, q); }
  }

  lemma LastDigit(n: nat, v: nat, k: nat)
    requires n > 0 && k > 0
    ensures Number(n, Digits(n, v, k)) == Number(n, Digits(n, v / n, k - 1)) * n + v % n
  {
    var ds := Digits(n, v, k);
    assert ds[..k - 1] == Digits(n, v / n, k - 1) && ds[k - 1] == v % n;
  }

  lemma Recombined(v: nat, n: nat)
    requires n > 0
    ensures (v / n) * n + v % n == v
  {
  }

  lemma {:induction false} NumberOfDigits(n: nat, v: nat, k: nat)
    requires n > 0 && v < Pow(n, k)
    ensures Number(n, Digits(n, v, k)) == v
    decreases k
  {
    if k > 0 {
      DivStep(v, n, Pow(n, k - 1));
      NumberOfDigits(n, v / n, k - 1);
      LastDigit(n, v, k);
      Recombined(v, n);
    }
  }

  lemma {:induction false} DigitsOfNumber(n: nat, ds: seq<nat>)
    requires n > 0 && forall i :: 0 <= i < |ds| ==> ds[i] < n
    ensures Digits(n, Number(n, ds), |ds|) == ds
    decreases |ds|
  {
    if ds != [] {
      var before, d := ds[..|ds| - 1], ds[|ds| - 1];
      DigitsOfNumber(n, before);
      Joined(Number(n, before), d, n);
      assert before + [d] == ds;
    }
  }

  lemma {:induction false} NumberBelow(n: nat, ds: seq<nat>)
    requires n > 0 && forall i :: 0 <= i < |ds| ==> ds[i] < n
    ensures Number(n, ds) < Pow(n, |ds|)
    decreases |ds|
  {
    if ds != [] {
      NumberBelow(n, ds[..|ds| - 1]);
      Place(n, Number(n, ds[..|ds| - 1]), ds[|ds| - 1], Pow(n, |ds| - 1));
    }
  }

  lemma Place(n: nat, v: nat, d: nat, p: nat)
    requires d < n && v < p
    ensures v * n + d < n * p
  {
    Monotone(n, v + 1, p);
    assert n * (v + 1) == v * n + n;
  }

  lemma Starts(n: nat)
    ensures Start(n, 0) == DIRECT && Start(n, 1) == DIRECT + Pow(n, 1)
    ensures Start(n, 2) == Start(n, 1) + Pow(n, 2) && Start(n, 3) == Start(n, 2) + Pow(n, 3)
  {
  }

  /** Every mapped block has one slot, and is the block of that slot... */
  lemma LocateFinds(n: nat, bn: nat)
    requires n > 0
    ensures Locate(n, bn).Some? <==> bn < Start(n, 3)
    ensures Locate(n, bn).Some? ==> ValidSlot(n, Locate(n, bn).value) && BlockOf(n, Locate(n, bn).value) == bn
  {
    hide Pow, Digits, Number;
    Starts(n);
    if DIRECT <= bn < Start(n, 1) { NumberOfDigits(n, bn - Start(n, 0), 1); }
    if Start(n, 1) <= bn < Start(n, 2) { NumberOfDigits(n, bn - Start(n, 1), 2); }
    if Start(n, 2) <= bn < Start(n, 3) { NumberOfDigits(n, bn - Start(n, 2), 3); }
  }

  /** ...and every slot that a disk has is that of one block: the map from blocks
      to slots is a bijection. */
  lemma SlotFound(n: nat, s: Slot)
    requires n > 0 && ValidSlot(n, s)
    ensures Locate(n, BlockOf(n, s)) == Some(s)
  {
    hide Pow, Digits, Number;
    Starts(n);
    if s.Through? {
      DigitsOfNumber(n, s.digits);
      NumberBelow(n, s.digits);
    }
  }

  // ---- bmap ----

  /** The tree of indirect blocks: one word of each block on the way, and nothing below a hole. */
  function Follow(d: Disk, nb: nat, digits: seq<nat>): nat
    requires d.Valid() && forall i :: 0 <= i < |digits| ==> digits[i] < d.words
    decreases |digits|
  {
    if digits == [] then nb
    else if nb == 0 then 0
    else Follow(d, Word(d.block(nb), 4 * digits[0]), digits[1..])
  }

  /** The physical block of logical block bn, or zero. */
  function Mapped(d: Disk, ip: Inode, bn: nat): nat
    requires d.Valid() && Whole(ip)
  {
    match Locate(d.words, bn)
    case None => 0
    case Some(Straight(i)) => ip.addr[i]
    case Some(Through(level, digits)) => Follow(d, ip.addr[DIRECT + level], digits)
  }

  /** A digit as the loop computes it. */
  lemma {:induction false} DigitAt(n: nat, v: nat, k: nat, sh: nat)
    requires n > 0 && sh < k
    ensures Digits(n, v, k)[k - 1 - sh] == (v / Pow(n, sh)) % n
    decreases k
  {
    if sh == 0 {
      assert Pow(n, 0) == 1;
    } else {
      DigitAt(n, v / n, k - 1, sh - 1);
      DivDiv(v, n, Pow(n, sh - 1));
    }
  }

  /** bmap()'s inner loop. */
  method Descend(d: Disk, top: nat, v: nat, level: nat) returns (nb: nat)
    requires d.Valid()
    ensures nb == Follow(d, top, Digits(d.words, v, level + 1))
  {
    hide Digits;
    nb := top;
    ghost var ds := Digits(d.words, v, level + 1);
    assert ds[0..] == ds;
    for i := 0 to level + 1
      invariant Follow(d, nb, ds[i..]) == Follow(d, top, ds)
    {
      assert ds[i..][0] == ds[i] && ds[i..][1..] == ds[i + 1..];
      if nb == 0 {
        return 0;
      }
      DigitAt(d.words, v, level + 1, level - i);
      var index := (v / Pow(d.words, level - i)) % d.words;
      nb := Word(d.block(nb), 4 * index);
    }
    assert ds[level + 1..] == [];
  }

  /** bmap() */
  method Bmap(d: Disk, ip: Inode, bn: nat) returns (nb: nat)
    requires d.Valid() && Whole(ip)
    ensures nb == Mapped(d, ip, bn)
  {
    hide Follow, Digits, Pow;
    Starts(d.words);
    if bn < DIRECT {
      return ip.addr[bn];
    }
    var left := bn - DIRECT;
    for level := 0 to 3
      invariant left == bn - Start(d.words, level) && bn >= Start(d.words, level)
    {
      var span := Pow(d.words, level + 1);
      if left < span {
        nb := Descend(d, ip.addr[DIRECT + level], left, level);
        return;
      }
      left := left - span;
    }
    nb := 0;
  }

  // ---- read ----

  /** A hole reads as zeros. */
  function Content(d: Disk, pb: nat, i: nat): Byte
    requires d.Valid()
  {
    if pb == 0 || i >= d.size then 0 else d.block(pb)[i]
  }

  function Share(k: nat, size: nat): nat
    requires size > 0
  {
    k / size
  }

  function Rest(k: nat, size: nat): nat
    requires size > 0
  {
    k % size
  }

  /** The byte of the file at offset k. */
  function ByteAt(d: Disk, ip: Inode, k: nat): Byte
    requires d.Valid() && Whole(ip)
  {
    Content(d, Mapped(d, ip, Share(k, d.size)), Rest(k, d.size))
  }

  /** read(): exactly size bytes, each from where bmap puts it, holes as zeros. */
  method Read(d: Disk, ip: Inode) returns (data: Bytes)
    requires d.Valid() && Whole(ip)
    ensures |data| == ip.size && forall k :: 0 <= k < ip.size ==> data[k] == ByteAt(d, ip, k)
  {
    hide Mapped;
    var out: Bytes := [];
    var bs := d.size;
    var count := (ip.size + bs - 1) / bs;
    Ceiling(ip.size, bs);
    for i := 0 to count
      invariant |out| == i * bs && forall k :: 0 <= k < |out| ==> out[k] == ByteAt(d, ip, k)
    {
      var pb := Bmap(d, ip, i);
      var b: Bytes := if pb != 0 then d.block(pb) else seq(bs, _ => 0);
      forall k | i * bs <= k < i * bs + bs ensures b[k - i * bs] == ByteAt(d, ip, k) {
        Joined(i, k - i * bs, bs);
      }
      Next(i, bs);
      out := out + b;
    }
    data := out[..ip.size];
  }

  lemma Next(i: nat, bs: nat)
    ensures (i + 1) * bs == i * bs + bs
  {
  }

  lemma Ceiling(size: nat, bs: nat)
    requires bs > 0
    ensures ((size + bs - 1) / bs) * bs >= size
  {
    var v := size + bs - 1;
    var q := v / bs;
    assert v == bs * q + v % bs;
    assert q * bs == bs * q;
  }

  // ---- the inode list ----

  const INODE: nat := 64

  /** inode(): which block, and where in it. */
  function InodeBlock(per: nat, num: nat): nat
    requires per > 0
  {
    (num + 2 * per - 1) / per
  }

  function InodeOffset(per: nat, num: nat): nat
    requires per > 0
  {
    (num + 2 * per - 1) % per * INODE
  }

  /** Inode 1 is the first of block 2, and the others follow it without a gap, none
      across a block's end. */
  lemma InodePlace(per: nat, num: nat)
    requires per > 0 && num > 0
    ensures InodeBlock(per, num) * (per * INODE) + InodeOffset(per, num) == 2 * (per * INODE) + (num - 1) * INODE
    ensures InodeOffset(per, num) + INODE <= per * INODE
  {
    var v := num + 2 * per - 1;
    var q, r := v / per, v % per;
    assert v == per * q + r;
    assert q * (per * INODE) == (per * q) * INODE;
    assert (per * q + r) * INODE == (per * q) * INODE + r * INODE;
    assert v * INODE == 2 * (per * INODE) + (num - 1) * INODE;
  }
}
