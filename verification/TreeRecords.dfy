/** Directories as they lie on the disk, sixteen bytes an entry, and what readdir()
    of tools/v8fs.py and tools/v10fs.py makes of them. */
module TreeRecords {

  import opened Basics
  import opened TreeWalk

  /** One record: an i-number, a name, and what follows it if it is under fourteen
      bytes, of which the first is a NUL. */
  datatype Slot = Slot(inum: Inum, name: Name, rest: string)

  predicate NulFree(s: string) { forall i :: 0 <= i < |s| ==> s[i] != '\0' }

  predicate Fits(sl: Slot) {
    |sl.name| + |sl.rest| == 14 && NulFree(sl.name) && (sl.rest != "" ==> sl.rest[0] == '\0')
  }

  predicate AllFit(slots: seq<Slot>) { forall i :: 0 <= i < |slots| ==> Fits(slots[i]) }

  /** The number's low byte first. */
  function Bytes16(n: Inum): (s: string)
    ensures |s| == 2
  {
    [(n % 256) as char, (n / 256) as char]
  }

  function Record(sl: Slot): string { Bytes16(sl.inum) + sl.name + sl.rest }

  function Laid(slots: seq<Slot>): string
    decreases |slots|
  {
    if slots == [] then "" else Laid(slots[..|slots| - 1]) + Record(slots[|slots| - 1])
  }

  /** In use, and not a dot. */
  predicate Shown(sl: Slot) { sl.inum > 0 && sl.name != "." && sl.name != ".." }

  function Listing(slots: seq<Slot>): seq<Entry>
    decreases |slots|
  {
    if slots == [] then []
    else Listing(slots[..|slots| - 1]) + if Shown(slots[|slots| - 1]) then [Entry(slots[|slots| - 1].name, slots[|slots| - 1].inum)] else []
  }

  lemma NulFreeTail(s: string)
    requires NulFree(s) && s != ""
    ensures s[0] != '\0' && NulFree(s[1..])
  {
  }

  lemma {:induction false} CutAt(name: string, rest: string)
    requires NulFree(name) && (rest != "" ==> rest[0] == '\0')
    ensures Cut(name + rest) == name
    decreases |name|
  {
    if name == "" {
      assert "" + rest == rest;
    } else {
      NulFreeTail(name);
      assert (name + rest)[1..] == name[1..] + rest;
      CutAt(name[1..], rest);
    }
  }

  lemma InumBack(n: Inum, s: string, o: nat)
    requires o + 2 <= |s| && s[o..o + 2] == Bytes16(n)
    ensures Inum16(s, o) == n
  {
    assert s[o] == s[o..o + 2][0] && s[o + 1] == s[o..o + 2][1];
  }

  lemma RecordBack(sl: Slot, s: string, o: nat)
    requires Fits(sl) && o + 16 <= |s| && s[o..o + 16] == Record(sl)
    ensures Inum16(s, o) == sl.inum && Cut(s[o + 2..o + 16]) == sl.name && (Kept(s, o) <==> Shown(sl))
  {
    hide Cut, Bytes16, Inum16;
    assert s[o..o + 2] == s[o..o + 16][..2] == Bytes16(sl.inum);
    assert s[o + 2..o + 16] == s[o..o + 16][2..] == sl.name + sl.rest;
    InumBack(sl.inum, s, o);
    CutAt(sl.name, sl.rest);
  }

  lemma {:induction false} LaidLength(slots: seq<Slot>)
    requires AllFit(slots)
    ensures |Laid(slots)| == 16 * |slots|
    decreases |slots|
  {
    if slots != [] {
      assert Fits(slots[|slots| - 1]);
      LaidLength(slots[..|slots| - 1]);
    }
  }

  lemma {:induction false} RecordsBack(slots: seq<Slot>, more: string)
    requires AllFit(slots)
    ensures |Laid(slots)| == 16 * |slots| && Records(Laid(slots) + more, |slots|) == Listing(slots)
    decreases |slots|
  {
    hide Record, Kept, Inum16, Cut, Fits, Shown;
    LaidLength(slots);
    if slots != [] {
      var before, last := slots[..|slots| - 1], slots[|slots| - 1];
      var all := Laid(slots) + more;
      LaidLength(before);
      assert Fits(last);
      assert |Record(last)| == 16;
      assert all == Laid(before) + (Record(last) + more);
      RecordsBack(before, Record(last) + more);
      assert all[16 * |before|..16 * |before| + 16] == Record(last);
      RecordBack(last, all, 16 * |before|);
    }
  }

  /** readdir() lists the records in use in their order, each under its i-number and
      its name up to a NUL, without the dots, and passes over what is left at the end. */
  lemma DirectoryRead(slots: seq<Slot>, more: string)
    requires AllFit(slots) && |more| < 16
    ensures var data := Laid(slots) + more; Records(data, |data| / 16) == Listing(slots)
  {
    hide Records, Laid, Listing;
    RecordsBack(slots, more);
  }

  /** Characters that stand for bytes. */
  predicate AreBytes(s: string) { forall i :: 0 <= i < |s| ==> s[i] as int < 256 }

  lemma {:induction false} NameEnd(s: string) returns (k: nat)
    ensures k <= |s| && NulFree(s[..k]) && (k < |s| ==> s[k] == '\0')
  {
    k := 0;
    if s != "" && s[0] != '\0' {
      var j := NameEnd(s[1..]);
      k := j + 1;
      assert forall i :: 1 <= i < k ==> s[..k][i] == s[1..][..j][i - 1];
    }
  }

  /** Sixteen bytes are always some record. */
  lemma IsRecord(s: string) returns (sl: Slot)
    requires |s| == 16 && AreBytes(s)
    ensures Fits(sl) && Record(sl) == s
  {
    var k := NameEnd(s[2..]);
    var low, high := s[0] as int, s[1] as int;
    sl := Slot(low + 256 * high, s[2..][..k], s[2..][k..]);
    assert Bytes16(low + 256 * high) == s[..2];
    assert s == s[..2] + sl.name + sl.rest;
  }

  /** And any bytes at all are a directory so laid out. */
  lemma {:induction false} IsLaid(data: string) returns (slots: seq<Slot>, more: string)
    requires AreBytes(data)
    ensures AllFit(slots) && |more| < 16 && data == Laid(slots) + more
    decreases |data|
  {
    hide Record, Fits;
    if |data| < 16 {
      slots, more := [], data;
    } else {
      var n := |data| / 16;
      var o := 16 * (n - 1);
      var before, none := IsLaid(data[..o]);
      LaidLength(before);
      var sl := IsRecord(data[o..o + 16]);
      slots, more := before + [sl], data[o + 16..];
      assert slots[..|before|] == before;
      assert data == data[..o] + data[o..o + 16] + more;
    }
  }
}
