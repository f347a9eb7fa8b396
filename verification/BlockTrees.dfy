/** A disk laid out from trees of addresses is read back by bmap() and read(). */
module BlockTrees {
  import opened Basics
  import opened Blocks

  /** An address as the filesystem writes it: four bytes, low byte first. */
  function Encoded(a: nat): (b: Bytes)
    ensures |b| == 4
  {
    [a % 256, a / 256 % 256, a / 0x1_0000 % 256, a / 0x100_0000 % 256]
  }

  /** A block, or a hole if its address is zero, and what its words lead to. */
  datatype Tree = Tree(at: nat, below: seq<Tree>)

  const MOST: nat := 0x1_0000_0000

  /** The disk has the tree: each indirect block holds the addresses of what is below it. */
  ghost predicate Holds(d: Disk, t: Tree, depth: nat)
    requires d.Valid()
    decreases depth
  {
    depth == 0 || t.at == 0 || (|t.below| == d.words && forall i :: 0 <= i < d.words ==> HoldsAt(d, t, depth, i))
  }

  ghost predicate HoldsAt(d: Disk, t: Tree, depth: nat, i: nat)
    requires d.Valid() && depth > 0 && i < |t.below| && i < d.words
    decreases depth, 0
  {
    t.below[i].at < MOST && d.block(t.at)[4 * i..4 * i + 4] == Encoded(t.below[i].at) && Holds(d, t.below[i], depth - 1)
  }

  /** The address below the tree at the digits; below a hole all is hole. */
  function At(t: Tree, digits: seq<nat>): nat
    decreases |digits|
  {
    if digits == [] then t.at
    else if t.at == 0 || digits[0] >= |t.below| then 0
    else At(t.below[digits[0]], digits[1..])
  }

  /** The ten direct addresses and the three trees of an inode. */
  datatype Layout = Layout(direct: seq<nat>, trees: seq<Tree>)

  ghost predicate Laid(d: Disk, ip: Inode, l: Layout)
    requires d.Valid() && Whole(ip)
  {
    |l.direct| == DIRECT && |l.trees| == 3
    && (forall i :: 0 <= i < DIRECT ==> ip.addr[i] == l.direct[i])
    && forall k :: 0 <= k < 3 ==> ip.addr[DIRECT + k] == l.trees[k].at && Holds(d, l.trees[k], k + 1)
  }

  function AddressAt(l: Layout, s: Slot): nat
    requires |l.direct| == DIRECT && |l.trees| == 3
    requires s.Straight? ==> s.i < DIRECT
    requires s.Through? ==> s.level < 3
  {
    match s
    case Straight(i) => l.direct[i]
    case Through(level, digits) => At(l.trees[level], digits)
  }

  lemma DigitsBack(a: nat)
    requires a < MOST
    ensures a == a % 256 + a / 256 % 256 * 0x100 + a / 0x1_0000 % 256 * 0x1_0000 + a / 0x100_0000 % 256 * 0x100_0000
  {
    var b := a / 256;
    var c := b / 256;
    assert a / 0x1_0000 == c && a / 0x100_0000 == c / 256;
  }

  /** Four bytes read as the number they were written for. */
  lemma WordBack(b: Bytes, o: nat, a: nat)
    requires o + 4 <= |b| && a < MOST && b[o..o + 4] == Encoded(a)
    ensures Word(b, o) == a
  {
    var e := Encoded(a);
    assert b[o] == b[o..o + 4][0] == e[0] && b[o + 1] == b[o..o + 4][1] == e[1];
    assert b[o + 2] == b[o..o + 4][2] == e[2] && b[o + 3] == b[o..o + 4][3] == e[3];
    DigitsBack(a);
  }

  lemma {:induction false} FollowsTree(d: Disk, t: Tree, digits: seq<nat>)
    requires d.Valid() && Holds(d, t, |digits|) && forall i :: 0 <= i < |digits| ==> digits[i] < d.words
    ensures Follow(d, t.at, digits) == At(t, digits)
    decreases |digits|
  {
    hide Word, Encoded;
    if digits != [] && t.at != 0 {
      var i := digits[0];
      assert HoldsAt(d, t, |digits|, i);
      WordBack(d.block(t.at), 4 * i, t.below[i].at);
      FollowsTree(d, t.below[i], digits[1..]);
    }
  }

  /** bmap() at every level: the block of a slot has the address that the layout has
      there. */
  lemma MappedAsLaid(d: Disk, ip: Inode, l: Layout, s: Slot)
    requires d.Valid() && Whole(ip) && Laid(d, ip, l) && ValidSlot(d.words, s)
    ensures Mapped(d, ip, BlockOf(d.words, s)) == AddressAt(l, s)
  {
    hide Locate, BlockOf, Holds, Follow, At;
    SlotFound(d.words, s);
    if s.Through? { FollowsTree(d, l.trees[s.level], s.digits); }
  }

  /** Past the last block that three levels map, all is hole. */
  lemma PastTheTrees(d: Disk, ip: Inode, bn: nat)
    requires d.Valid() && Whole(ip)
    requires bn >= DIRECT + d.words + d.words * d.words + d.words * d.words * d.words
    ensures Mapped(d, ip, bn) == 0
  {
    hide Follow, Digits;
    Powers(d.words);
    LocateFinds(d.words, bn);
  }

  lemma Powers(n: nat)
    ensures Start(n, 3) == DIRECT + n + n * n + n * n * n
  {
    assert Pow(n, 0) == 1 && Pow(n, 1) == n && Pow(n, 2) == n * n;
    assert Pow(n, 3) == n * (n * n) == n * n * n;
    Starts(n);
  }

  /** The k-th byte of the file is where the layout has its block, and zero in a hole. */
  ghost predicate ByteLaid(d: Disk, l: Layout, data: Bytes, k: nat, s: Slot)
    requires d.Valid() && |l.direct| == DIRECT && |l.trees| == 3 && k < |data| && ValidSlot(d.words, s)
  {
    BlockOf(d.words, s) == k / d.size
    && var a := AddressAt(l, s);
       data[k] == if a == 0 then 0 else d.block(a)[k % d.size]
  }

  ghost predicate LaidAt(d: Disk, l: Layout, data: Bytes, k: nat)
    requires d.Valid() && |l.direct| == DIRECT && |l.trees| == 3 && k < |data|
  {
    exists s :: ValidSlot(d.words, s) && ByteLaid(d, l, data, k, s)
  }

  /** read() gives every byte that was laid out, through every level of indirection. */
  lemma LaidIsRead(d: Disk, ip: Inode, l: Layout, data: Bytes, k: nat)
    requires d.Valid() && Whole(ip) && Laid(d, ip, l) && k < |data| && LaidAt(d, l, data, k)
    ensures ByteAt(d, ip, k) == data[k]
  {
    hide Mapped, BlockOf, Holds;
    var s :| ValidSlot(d.words, s) && ByteLaid(d, l, data, k, s);
    MappedAsLaid(d, ip, l, s);
  }
}
