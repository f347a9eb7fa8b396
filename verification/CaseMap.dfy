/** CaseMap of tools/netfsd.py: reading CASEMAP back, and how far that undoes
    the importer's escaping. */
module CaseMap {
  import opened Names
  import opened Collisions

  /** A directory already read: its true path, and what its rows were filed
      under. */
  datatype Prefix = Prefix(to: Path, from: Path)

  datatype Maps = Maps(
    toTrue: map<Path, map<Name, Name>>,      // stored directory -> stored -> true
    toStored: map<Path, map<Name, Name>>,    // stored directory -> true -> stored
    prefixes: seq<Prefix>)

  /** The first column of a row: the root is written as a dot. */
  function Field(p: Path): Path { if p == [] then ["."] else p }

  function Unfield(f: Path): Path { if f == ["."] then [] else f }

  /** The inner loop of __init__: every earlier prefix is tried on the path as
      rewritten so far. */
  function Rewrite(sp: Path, ps: seq<Prefix>): Path
    decreases |ps|
  {
    if ps == [] then sp
    else Rewrite(if Above(ps[0].from, sp) then ps[0].to + sp[|ps[0].from|..] else sp, ps[1..])
  }

  function Filed(m: map<Path, map<Name, Name>>, d: Path, k: Name, v: Name): map<Path, map<Name, Name>> {
    m[d := (if d in m then m[d] else map[])[k := v]]
  }

  /** One row of the file, whose first column is r.parent. */
  function AddRow(m: Maps, r: Row): Maps {
    var sp := Rewrite(r.parent, m.prefixes);
    Maps(Filed(m.toTrue, Unfield(sp), r.stored, r.shown),
         Filed(m.toStored, Unfield(sp), r.shown, r.stored),
         m.prefixes + [Prefix(sp + [r.stored], r.parent + [r.shown])])
  }

  function Read(rows: seq<Row>): Maps {
    if rows == [] then Maps(map[], map[], []) else AddRow(Read(rows[..|rows| - 1]), rows[|rows| - 1])
  }

  function Lookup(m: map<Path, map<Name, Name>>, d: Path, n: Name): Name {
    if d in m && n in m[d] then m[d][n] else n
  }

  class Map {
    var toTrue: map<Path, map<Name, Name>>
    var toStored: map<Path, map<Name, Name>>

    /** __init__, over the rows in the order of the file. */
    constructor (rows: seq<Row>)
      ensures toTrue == Read(rows).toTrue && toStored == Read(rows).toStored
    {
      var tt: map<Path, map<Name, Name>> := map[];
      var ts: map<Path, map<Name, Name>> := map[];
      var prefixes: seq<Prefix> := [];
      for i := 0 to |rows|
        invariant Maps(tt, ts, prefixes) == Read(rows[..i])
      {
        var r := rows[i];
        var sp := r.parent;
        for j := 0 to |prefixes|
          invariant Rewrite(r.parent, prefixes) == Rewrite(sp, prefixes[j..])
        {
          if Above(prefixes[j].from, sp) {
            sp := prefixes[j].to + sp[|prefixes[j].from|..];
          }
          assert prefixes[j..][1..] == prefixes[j + 1..];
        }
        assert rows[..i + 1][..i] == rows[..i];
        tt := Filed(tt, Unfield(sp), r.stored, r.shown);
        ts := Filed(ts, Unfield(sp), r.shown, r.stored);
        prefixes := prefixes + [Prefix(sp + [r.stored], r.parent + [r.shown])];
      }
      assert rows[..|rows|] == rows;
      toTrue, toStored := tt, ts;
    }

    /** What the guest should see for a name that is on disk. */
    function Shown(parent: Path, onDisk: Name): Name
      reads this
    {
      Lookup(toTrue, parent, onDisk)
    }

    /** What is on disk for a name the guest asked for. */
    function OnDisk(parent: Path, shown: Name): Name
      reads this
    {
      Lookup(toStored, parent, shown)
    }
  }

  // ---- what the importer writes ----

  /** Free of percent signs, and no component a dot. */
  predicate Clean(p: Path) { forall i :: 0 <= i < |p| ==> Plain(p[i]) && p[i] != "." }

  /** Renamed names are escaped, and have a capital to escape. */
  predicate Escapes(ren: Renaming) {
    forall q :: q in ren ==> q != [] && Clean(q) && HasUpper(Leaf(q)) && ren[q] == Escape(Leaf(q))
  }

  function RowAt(ren: Renaming, q: Path): Row
    requires q != []
  {
    Row(Field(Parent(q)), StoredLeaf(ren, q), Leaf(q))
  }

  predicate Rootless(qs: seq<Path>) { forall i :: 0 <= i < |qs| ==> qs[i] != [] }

  /** The file's rows for the renamed paths in the order written. */
  function RowsOf(ren: Renaming, qs: seq<Path>): (rows: seq<Row>)
    requires Rootless(qs)
    decreases |qs|
  {
    if qs == [] then [] else RowsOf(ren, qs[..|qs| - 1]) + [RowAt(ren, qs[|qs| - 1])]
  }

  predicate Among(p: Path, qs: seq<Path>, n: nat)
    requires n <= |qs|
  {
    exists k :: 0 <= k < n && qs[k] == p
  }

  /** Each is a renamed path, and those above it come before it. */
  predicate ParentsFirst(ren: Renaming, qs: seq<Path>) {
    (forall i :: 0 <= i < |qs| ==> qs[i] in ren)
    && forall i, n :: 0 <= i < |qs| && 0 <= n < |qs[i]| && qs[i][..n] in ren ==> Among(qs[i][..n], qs, i)
  }

  /** The rows of the whole renaming. */
  predicate Written(ren: Renaming, qs: seq<Path>) {
    ParentsFirst(ren, qs) && forall p :: p in ren ==> Among(p, qs, |qs|)
  }

  // ---- where a row is filed ----

  /** Length of the shortest renamed prefix of p that is not at the top, from k
      on; zero if there is none. */
  function Shallowest(ren: Renaming, p: Path, k: nat): (n: nat)
    requires 2 <= k
    ensures n == 0 || (k <= n <= |p| && p[..n] in ren)
    ensures forall i :: k <= i <= |p| && (n == 0 || i < n) ==> p[..i] !in ren
    decreases |p| + 1 - k
  {
    if k > |p| then 0 else if p[..k] in ren then k else Shallowest(ren, p, k + 1)
  }

  /** Where the reader files the rows of p: one renamed component is spelled as
      stored, the shallowest below the top. */
  function FiledAt(ren: Renaming, p: Path): (f: Path)
    ensures |f| == |p|
  {
    var n := Shallowest(ren, p, 2);
    if n == 0 then p else p[..n - 1] + [ren[p[..n]]] + p[n..]
  }

  lemma {:induction false} RewriteNone(sp: Path, ps: seq<Prefix>)
    requires forall j :: 0 <= j < |ps| ==> !Above(ps[j].from, sp)
    ensures Rewrite(sp, ps) == sp
    decreases |ps|
  {
    if ps != [] {
      assert forall j :: 0 <= j < |ps| - 1 ==> ps[1..][j] == ps[j + 1];
      RewriteNone(sp, ps[1..]);
    }
  }

  lemma {:induction false} RewriteOnce(sp: Path, ps: seq<Prefix>, j: nat)
    requires j < |ps| && Above(ps[j].from, sp)
    requires forall i :: 0 <= i < j ==> !Above(ps[i].from, sp)
    requires forall i :: j < i < |ps| ==> !Above(ps[i].from, ps[j].to + sp[|ps[j].from|..])
    ensures Rewrite(sp, ps) == ps[j].to + sp[|ps[j].from|..]
    decreases |ps|
  {
    assert forall i :: 0 <= i < |ps| - 1 ==> ps[1..][i] == ps[i + 1];
    if j == 0 {
      RewriteNone(ps[0].to + sp[|ps[0].from|..], ps[1..]);
    } else {
      RewriteOnce(sp, ps[1..], j - 1);
    }
  }
}
