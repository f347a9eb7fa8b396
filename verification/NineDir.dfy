/** Reading an open directory of tools/9pfsd.py: a snapshot of entries, and the
    offsets at which a read may go on. */
module NineDir {
  import opened Basics
  import opened NineWire

  const EINVAL: nat := 22

  /** diroffs: where each entry starts, and where the last ends. */
  function Total(ents: seq<Bytes>, i: nat): nat
    requires i <= |ents|
  {
    if i == 0 then 0 else Total(ents, i - 1) + |ents[i - 1]|
  }

  function Offsets(ents: seq<Bytes>): (offs: seq<nat>)
    ensures |offs| == |ents| + 1
    decreases |ents|
  {
    if ents == [] then [0] else Offsets(ents[..|ents| - 1]) + [Total(ents, |ents|)]
  }

  lemma {:induction false} OffsetAt(ents: seq<Bytes>, i: nat)
    requires i <= |ents|
    ensures Offsets(ents)[i] == Total(ents, i)
    decreases |ents|
  {
    if i < |ents| {
      var before := ents[..|ents| - 1];
      OffsetAt(before, i);
      TotalSnoc(before, ents[|ents| - 1], i);
      assert before + [ents[|ents| - 1]] == ents;
    }
  }

  function Joined(ents: seq<Bytes>, i: nat, j: nat): Bytes
    requires i <= j <= |ents|
    decreases j
  {
    if i == j then [] else Joined(ents, i, j - 1) + ents[j - 1]
  }

  /** list.index(): the first place of an offset, or none. */
  function IndexOf(offs: seq<nat>, offset: nat): (i: nat)
    ensures i <= |offs|
    ensures i < |offs| ==> offs[i] == offset
    ensures forall k :: 0 <= k < i ==> offs[k] != offset
    decreases |offs|
  {
    if offs == [] then 0 else if offs[0] == offset then 0 else 1 + IndexOf(offs[1..], offset)
  }

  /** Where a read from entry i of at most count bytes stops: no entry is split. */
  function Upto(ents: seq<Bytes>, i: nat, count: nat): (j: nat)
    requires i <= |ents|
    ensures i <= j <= |ents|
    decreases |ents| - i
  {
    if i == |ents| || |ents[i]| > count then i else Upto(ents, i + 1, count - |ents[i]|)
  }

  /** _readdir() on the snapshot: from offset 0, or from an entry's boundary. */
  function ReadDir(ents: seq<Bytes>, offset: nat, count: nat): Outcome<Bytes> {
    var i := if offset == 0 then 0 else IndexOf(Offsets(ents), offset);
    if i > |ents| then Err(EINVAL) else Ok(Joined(ents, i, Upto(ents, i, count)))
  }

  /** The loop of _readdir(). */
  method Page(ents: seq<Bytes>, i0: nat, count: nat) returns (out: Bytes)
    requires i0 <= |ents|
    ensures out == Joined(ents, i0, Upto(ents, i0, count))
  {
    out := [];
    var i := i0;
    while i < |ents| && |out| + |ents[i]| <= count
      invariant i0 <= i <= |ents| && |out| <= count && out == Joined(ents, i0, i)
      invariant Upto(ents, i0, count) == Upto(ents, i, count - |out|)
      decreases |ents| - i
    {
      out := out + ents[i];
      i := i + 1;
    }
  }

  /** The loop of _opendir() over the encoded entries. */
  method Snapshot(found: seq<Bytes>) returns (ents: seq<Bytes>, offs: seq<nat>)
    ensures ents == found && offs == Offsets(ents)
  {
    var pos := 0;
    ents, offs := [], [0];
    for n := 0 to |found|
      invariant ents == found[..n] && pos == Total(ents, n) && offs == Offsets(ents)
    {
      var more := ents + [found[n]];
      OffsetsSnoc(ents, found[n]);
      LastTotal(ents, found[n]);
      pos := pos + |found[n]|;
      ents, offs := more, offs + [pos];
    }
  }

  lemma OffsetsSnoc(ents: seq<Bytes>, e: Bytes)
    ensures Offsets(ents + [e]) == Offsets(ents) + [Total(ents + [e], |ents| + 1)]
  {
    hide Total;
    assert (ents + [e])[..|ents|] == ents;
  }

  lemma LastTotal(ents: seq<Bytes>, e: Bytes)
    ensures Total(ents + [e], |ents| + 1) == Total(ents, |ents|) + |e|
  {
    TotalSnoc(ents, e, |ents|);
  }

  lemma {:induction false} TotalSnoc(ents: seq<Bytes>, e: Bytes, i: nat)
    requires i <= |ents|
    ensures Total(ents + [e], i) == Total(ents, i)
    decreases i
  {
    if i > 0 { TotalSnoc(ents, e, i - 1); }
  }

  // ---- offsets ----

  predicate Solid(ents: seq<Bytes>) { forall i :: 0 <= i < |ents| ==> ents[i] != [] }

  /** Every entry has its two-byte size at least. */
  lemma StatSolid(a: Attr, dotu: bool)
    ensures StatBytes(a, dotu) != []
  {
  }

  lemma {:induction false} TotalGrows(ents: seq<Bytes>, i: nat, j: nat)
    requires Solid(ents) && i < j <= |ents|
    ensures Total(ents, i) < Total(ents, j)
    decreases j
  {
    if i < j - 1 { TotalGrows(ents, i, j - 1); }
  }

  lemma {:induction false} JoinedLength(ents: seq<Bytes>, i: nat, j: nat)
    requires i <= j <= |ents|
    ensures |Joined(ents, i, j)| == Total(ents, j) - Total(ents, i)
    decreases j
  {
    if i < j { JoinedLength(ents, i, j - 1); }
  }

  lemma IndexOfTotal(ents: seq<Bytes>, i: nat)
    requires Solid(ents) && i <= |ents|
    ensures IndexOf(Offsets(ents), Total(ents, i)) == i
  {
    var k := IndexOf(Offsets(ents), Total(ents, i));
    OffsetAt(ents, i);
    if k < i {
      OffsetAt(ents, k);
      TotalGrows(ents, k, i);
    }
  }

  /** The offsets accepted are the entries' boundaries and no others. */
  lemma OffsetsAccepted(ents: seq<Bytes>, offset: nat, count: nat)
    requires Solid(ents)
    ensures ReadDir(ents, offset, count).Ok? <==> exists i :: 0 <= i <= |ents| && offset == Total(ents, i)
  {
    if i :| 0 <= i <= |ents| && offset == Total(ents, i) {
      IndexOfTotal(ents, i);
    }
    var k := IndexOf(Offsets(ents), offset);
    if k <= |ents| { OffsetAt(ents, k); }
    assert offset == 0 ==> offset == Total(ents, 0);
  }

  // ---- a whole pass ----

  /** What a read from an entry boundary gives, and where the next one starts. */
  lemma ReadFrom(ents: seq<Bytes>, i: nat, count: nat)
    requires Solid(ents) && i <= |ents|
    ensures var j := Upto(ents, i, count);
            ReadDir(ents, Total(ents, i), count) == Ok(Joined(ents, i, j))
            && Total(ents, i) + |Joined(ents, i, j)| == Total(ents, j)
  {
    IndexOfTotal(ents, i);
    if i > 0 { TotalGrows(ents, 0, i); }
    JoinedLength(ents, i, Upto(ents, i, count));
  }

  /** One pass: each read starts where the last one ended. */
  function Pass(ents: seq<Bytes>, offset: nat, counts: seq<nat>): Outcome<(Bytes, nat)>
    decreases |counts|
  {
    if counts == [] then Ok(([], offset))
    else
      var (before, at) :- Pass(ents, offset, counts[..|counts| - 1]);
      var more :- ReadDir(ents, at, counts[|counts| - 1]);
      Ok((before + more, at + |more|))
  }

  /** The entry a pass has got to. */
  function Reached(ents: seq<Bytes>, counts: seq<nat>): (i: nat)
    ensures i <= |ents|
    decreases |counts|
  {
    if counts == [] then 0 else Upto(ents, Reached(ents, counts[..|counts| - 1]), counts[|counts| - 1])
  }

  lemma {:induction false} JoinedSplit(ents: seq<Bytes>, i: nat, j: nat, k: nat)
    requires i <= j <= k <= |ents|
    ensures Joined(ents, i, j) + Joined(ents, j, k) == Joined(ents, i, k)
    decreases k
  {
    if j < k {
      JoinedSplit(ents, i, j, k - 1);
      assert Joined(ents, i, j) + (Joined(ents, j, k - 1) + ents[k - 1]) == (Joined(ents, i, j) + Joined(ents, j, k - 1)) + ents[k - 1];
    }
  }

  /** Whatever the counts, a pass never fails, and has read the first entries,
      whole and in order, each once. */
  lemma {:induction false} PassReads(ents: seq<Bytes>, counts: seq<nat>)
    requires Solid(ents)
    ensures var i := Reached(ents, counts); Pass(ents, 0, counts) == Ok((Joined(ents, 0, i), Total(ents, i)))
    decreases |counts|
  {
    hide Joined, Total, Upto;
    if counts == [] {
      Nothing(ents);
    } else {
      var before, c := counts[..|counts| - 1], counts[|counts| - 1];
      PassReads(ents, before);
      var i := Reached(ents, before);
      ReadFrom(ents, i, c);
      JoinedSplit(ents, 0, i, Upto(ents, i, c));
    }
  }

  lemma Nothing(ents: seq<Bytes>)
    ensures Joined(ents, 0, 0) == [] && Total(ents, 0) == 0
  {
  }

  /** Each count is large enough for the entry it comes to. */
  predicate Enough(ents: seq<Bytes>, counts: seq<nat>)
    decreases |counts|
  {
    counts == []
    || (Enough(ents, counts[..|counts| - 1])
        && var i := Reached(ents, counts[..|counts| - 1]); i < |ents| ==> |ents[i]| <= counts[|counts| - 1])
  }

  lemma {:induction false} PassAdvances(ents: seq<Bytes>, counts: seq<nat>)
    requires Enough(ents, counts)
    ensures Reached(ents, counts) >= |counts| || Reached(ents, counts) == |ents|
    decreases |counts|
  {
    if counts != [] {
      PassAdvances(ents, counts[..|counts| - 1]);
    }
  }

  /** With counts that hold the next entry, a pass of as many reads as there are
      entries has read the whole directory, and the next read is empty. */
  lemma PassCompletes(ents: seq<Bytes>, counts: seq<nat>, count: nat)
    requires Solid(ents) && Enough(ents, counts) && |counts| >= |ents|
    ensures Pass(ents, 0, counts) == Ok((Joined(ents, 0, |ents|), Total(ents, |ents|)))
    ensures ReadDir(ents, Total(ents, |ents|), count) == Ok([])
  {
    hide Joined, Total;
    PassReads(ents, counts);
    PassAdvances(ents, counts);
    ReadFrom(ents, |ents|, count);
    JoinedEmpty(ents, |ents|);
  }

  lemma JoinedEmpty(ents: seq<Bytes>, i: nat)
    requires i <= |ents|
    ensures Joined(ents, i, i) == []
  {
  }

  /** An empty reply means the end, or a count too small for the next entry: the
      client cannot tell the two apart. */
  lemma EmptyExactly(ents: seq<Bytes>, i: nat, count: nat)
    requires Solid(ents) && i <= |ents|
    ensures ReadDir(ents, Total(ents, i), count) == Ok([]) <==> i == |ents| || count < |ents[i]|
  {
    ReadFrom(ents, i, count);
    var j := Upto(ents, i, count);
    JoinedLength(ents, i, j);
    if i < j { TotalGrows(ents, i, j); }
  }
}
