/** The two programs that write CASEMAP, and what netfsd makes of each file. */
module CaseMapSources {
  import opened Names
  import opened Collisions
  import opened CaseMap
  import opened CaseMapProof
  import V8Import
  import V8Extract

  // ---- tools/v8-import.py ----

  function ShownPaths(fs: seq<V8Import.Flat>): (qs: seq<Path>)
    ensures |qs| == |fs| && forall i :: 0 <= i < |fs| ==> qs[i] == fs[i].shown
  {
    seq(|fs|, i requires 0 <= i < |fs| => fs[i].shown)
  }

  /** The collisions in the order of their joined true paths. */
  predicate Sorted(fs: seq<V8Import.Flat>) {
    forall i, j :: 0 <= i < j < |fs| ==> !V8Extract.Less(Text(fs[j].shown), Text(fs[i].shown))
  }

  /** The rows that write() prints: directory, stored name, true name. */
  function ImportRows(fs: seq<V8Import.Flat>): seq<Row>
    requires forall i :: 0 <= i < |fs| ==> fs[i].shown != [] && fs[i].stored != []
    decreases |fs|
  {
    if fs == [] then []
    else
      var f := fs[|fs| - 1];
      ImportRows(fs[..|fs| - 1]) + [Row(Field(Parent(f.shown)), Leaf(f.stored), Leaf(f.shown))]
  }

  lemma {:induction false} LessPrefix(a: string, b: string)
    requires b != ""
    ensures V8Extract.Less(a, a + b)
    decreases |a|
  {
    if a != "" {
      assert (a + b)[1..] == a[1..] + b;
      LessPrefix(a[1..], b);
    }
  }

  /** A directory's joined path sorts before those of what it holds. */
  lemma {:induction false} TextBefore(p: Path, n: nat)
    requires 0 < n < |p|
    ensures V8Extract.Less(Text(p[..n]), Text(p))
    decreases |p|
  {
    var d := Parent(p);
    var tail := "/" + Leaf(p);
    assert Text(p) == Text(d) + tail;
    LessPrefix(Text(d), tail);
    if n < |d| {
      assert d[..n] == p[..n];
      TextBefore(d, n);
      V8Extract.LessTransitive(Text(p[..n]), Text(d), Text(p));
    } else {
      assert d == p[..n];
    }
  }

  /** Sorted by path, every directory's row is before those beneath it. */
  lemma SortedWritten(ren: Renaming, fs: seq<V8Import.Flat>)
    requires Escapes(ren) && Sorted(fs)
    requires forall i :: 0 <= i < |fs| ==> fs[i].shown in ren
    requires forall p :: p in ren ==> exists i :: 0 <= i < |fs| && fs[i].shown == p
    ensures Written(ren, ShownPaths(fs))
  {
    var qs := ShownPaths(fs);
    forall p | p in ren ensures Among(p, qs, |qs|) {
      var i :| 0 <= i < |fs| && fs[i].shown == p;
      assert qs[i] == p;
    }
    forall i, n | 0 <= i < |qs| && 0 <= n < |qs[i]| && qs[i][..n] in ren
      ensures Among(qs[i][..n], qs, i)
    {
      var k :| 0 <= k < |fs| && fs[k].shown == qs[i][..n];
      TextBefore(qs[i], n);
      assert qs[k] == qs[i][..n] && k != i;
      assert fs[i].shown == qs[i];
    }
  }

  lemma {:induction false} ImportRowsAre(ren: Renaming, fs: seq<V8Import.Flat>)
    requires forall i :: 0 <= i < |fs| ==> fs[i].shown != [] && fs[i].stored != []
    requires forall i :: 0 <= i < |fs| ==> fs[i].stored == Stored(ren, fs[i].shown)
    ensures Rootless(ShownPaths(fs))
    ensures ImportRows(fs) == RowsOf(ren, ShownPaths(fs))
    decreases |fs|
  {
    if fs != [] {
      var before, f := fs[..|fs| - 1], fs[|fs| - 1];
      ImportRowsAre(ren, before);
      var qs := ShownPaths(fs);
      assert qs[..|qs| - 1] == ShownPaths(before);
      assert Leaf(f.stored) == StoredLeaf(ren, f.shown);
    }
  }

  /** What the tape holds: percent-free names, none of them a dot. */
  predicate CleanTape(es: seq<V8Import.Entry>) {
    V8Import.Sound(es) && forall i :: 0 <= i < |es| ==> Clean(es[i].path)
  }

  lemma TreePathClean(es: seq<V8Import.Entry>, p: Path)
    requires CleanTape(es) && p in V8Import.AllPaths(V8Import.Build(es))
    ensures Clean(p)
  {
    V8Import.BuildTidy(es);
    V8Import.AllPathsAre(V8Import.Build(es), p);
    V8Import.BuildPaths(es, p);
    var i :| 0 <= i < |es| && Above(p, es[i].path);
    assert forall k :: 0 <= k < |p| ==> p[k] == es[i].path[k];
  }

  lemma RenamesEscape(es: seq<V8Import.Entry>)
    requires CleanTape(es)
    ensures Escapes(V8Import.Renames(V8Import.Build(es)))
  {
    var cs := V8Import.Build(es);
    V8Import.BuildTidy(es);
    forall q | q in V8Import.Renames(cs)
      ensures q != [] && Clean(q) && HasUpper(Leaf(q)) && V8Import.Renames(cs)[q] == Escape(Leaf(q))
    {
      V8Import.RenamedHasRival(cs, q);
      TreePathClean(es, q);
    }
  }

  /** The collisions of a tape, as write() sorts them. */
  ghost predicate CollisionsOf(fs: seq<V8Import.Flat>, es: seq<V8Import.Entry>)
    requires V8Import.Sound(es)
  {
    Sorted(fs) && forall f :: f in fs <==> f in V8Import.Reported(V8Import.Build(es), 0, [], [])
  }

  lemma CollisionsWritten(es: seq<V8Import.Entry>, fs: seq<V8Import.Flat>)
    requires CleanTape(es) && CollisionsOf(fs, es)
    ensures var ren := V8Import.Renames(V8Import.Build(es));
            Escapes(ren) && Written(ren, ShownPaths(fs))
            && forall i :: 0 <= i < |fs| ==> fs[i].shown != [] && fs[i].stored == Stored(ren, fs[i].shown)
  {
    var cs := V8Import.Build(es);
    var ren := V8Import.Renames(cs);
    V8Import.BuildTidy(es);
    RenamesEscape(es);
    forall i | 0 <= i < |fs|
      ensures fs[i].shown in ren && fs[i].stored == Stored(ren, fs[i].shown)
    {
      assert fs[i] in fs;
      V8Import.ReportedLoses(cs, cs, 0, [], fs[i]);
      V8Import.FlattenStores(cs, cs, 0, [], fs[i]);
    }
    forall p | p in ren
      ensures exists i :: 0 <= i < |fs| && fs[i].shown == p
    {
      V8Import.ReportIsRenaming(es, p);
      assert V8Import.Flat(p, Stored(ren, p)) in fs;
    }
    SortedWritten(ren, fs);
  }

  /** For every tape: the server reading the importer's CASEMAP finds each
      emitted file at its stored path, and shows the stored path under its true
      name, if and only if the file's path is recoverable: no renamed component
      below an escaped top-level directory or below two escaped ones. */
  lemma ImportRecovered(es: seq<V8Import.Entry>, fs: seq<V8Import.Flat>, f: V8Import.Flat)
    requires CleanTape(es) && CollisionsOf(fs, es)
    requires f in V8Import.Flatten(V8Import.Build(es), 0, [], [])
    requires forall i :: 0 <= i < |fs| ==> fs[i].shown != [] && fs[i].stored != []
    ensures var m := Read(ImportRows(fs));
            var ok := Recoverable(V8Import.Renames(V8Import.Build(es)), f.shown);
            (OnDiskPath(m, f.shown) == f.stored <==> ok) && (ShownPath(m, f.stored) == f.shown <==> ok)
  {
    var cs := V8Import.Build(es);
    var ren := V8Import.Renames(cs);
    V8Import.BuildTidy(es);
    CollisionsWritten(es, fs);
    ImportRowsAre(ren, fs);
    V8Import.FlattenStores(cs, cs, 0, [], f);
    TreePathClean(es, f.shown);
    ReadBack(ren, ShownPaths(fs), f.shown);
  }

  /** A path that collides with one that has no capital is escaped. */
  lemma CapitalLoses(es: seq<V8Import.Entry>, i: nat, j: nat, p: Path, q: Path)
    requires CleanTape(es) && i < |es| && j < |es| && p != [] && q != [] && Above(p, es[i].path) && Above(q, es[j].path)
    requires Collide(p, q) && !HasUpper(Leaf(q))
    ensures p in V8Import.Renames(V8Import.Build(es))
  {
    var cs := V8Import.Build(es);
    V8Import.BuildTidy(es);
    V8Import.BuildPaths(es, p);
    V8Import.BuildPaths(es, q);
    V8Import.AllPathsAre(cs, p);
    V8Import.AllPathsAre(cs, q);
    V8Import.ImportResolves(cs);
  }

  function TapeOf(paths: seq<Path>): (es: seq<V8Import.Entry>)
    ensures |es| == |paths| && forall i :: 0 <= i < |es| ==> es[i] == V8Import.Entry(paths[i], i)
  {
    seq(|paths|, i requires 0 <= i < |paths| => V8Import.Entry(paths[i], i))
  }

  /** A file of the tape with a renamed component whose place in the map is lost is
      stored by the importer, and never found by the server. */
  lemma LostOnTape(es: seq<V8Import.Entry>, fs: seq<V8Import.Flat>, i: nat) returns (f: V8Import.Flat)
    requires CleanTape(es) && CollisionsOf(fs, es) && i < |es|
    requires forall k :: 0 <= k < |fs| ==> fs[k].shown != [] && fs[k].stored != []
    requires !Recoverable(V8Import.Renames(V8Import.Build(es)), es[i].path)
    ensures f in V8Import.Flatten(V8Import.Build(es), 0, [], []) && f.shown == es[i].path
    ensures OnDiskPath(Read(ImportRows(fs)), es[i].path) != f.stored
    ensures ShownPath(Read(ImportRows(fs)), f.stored) != es[i].path
  {
    hide CollisionsOf, Recoverable, OnDiskPath, ShownPath, V8Import.Build, V8Import.Renames, V8Import.Flatten, Read, ImportRows;
    f := V8Import.TapeEmitted(es, i);
    ImportRecovered(es, fs, f);
  }

  /** A tape with a file below an escaped top-level directory... */
  const TOP_TAPE := TapeOf([["a"], ["A", "b"], ["A", "B"]])

  lemma TopTape()
    ensures CleanTape(TOP_TAPE) && TOP_TAPE[2].path == ["A", "B"]
    ensures !Recoverable(V8Import.Renames(V8Import.Build(TOP_TAPE)), ["A", "B"])
  {
    hide V8Import.Build, V8Import.Renames;
    var es, p := TOP_TAPE, ["A", "B"];
    TopClean();
    assert p[..1] == ["A"] && p[..2] == p && p[..1][..1] == ["A"];
    var ren := V8Import.Renames(V8Import.Build(es));
    assert ["A"] in ren by {
      Colliding("A", "a", []);
      CapitalLoses(es, 2, 0, ["A"], ["a"]);
    }
    assert p in ren by {
      Colliding("B", "b", ["A"]);
      assert ["A"] + ["B"] == p && ["A"] + ["b"] == ["A", "b"];
      CapitalLoses(es, 2, 1, p, ["A", "b"]);
    }
    assert RenamedAt(ren, p, 2) && RenamedAt(ren, p[..1], 1);
  }

  lemma TopClean()
    ensures CleanTape(TOP_TAPE)
  {
  }

  /** ...and one with a file below two escaped directories. */
  const TWO_TAPE := TapeOf([["d", "a"], ["d", "A", "b"], ["d", "A", "B", "c"], ["d", "A", "B", "C"]])

  lemma TwoTape()
    ensures CleanTape(TWO_TAPE) && TWO_TAPE[3].path == ["d", "A", "B", "C"]
    ensures !Recoverable(V8Import.Renames(V8Import.Build(TWO_TAPE)), ["d", "A", "B", "C"])
  {
    hide V8Import.Build, V8Import.Renames, V8Import.Sound, Clean;
    var es, p := TWO_TAPE, ["d", "A", "B", "C"];
    TwoClean();
    var q := p[..3];
    assert q == ["d", "A", "B"] && q[..2] == ["d", "A"] && q[..3] == q && p[..4] == p;
    var ren := V8Import.Renames(V8Import.Build(es));
    assert q[..2] in ren by {
      Colliding("A", "a", ["d"]);
      assert ["d"] + ["A"] == ["d", "A"] && ["d"] + ["a"] == ["d", "a"];
      CapitalLoses(es, 3, 0, ["d", "A"], ["d", "a"]);
    }
    assert q in ren by {
      Colliding("B", "b", ["d", "A"]);
      assert ["d", "A"] + ["B"] == q && ["d", "A"] + ["b"] == ["d", "A", "b"];
      CapitalLoses(es, 3, 1, q, ["d", "A", "b"]);
    }
    assert p in ren by {
      Colliding("C", "c", q);
      assert q + ["C"] == p && q + ["c"] == ["d", "A", "B", "c"];
      CapitalLoses(es, 3, 2, p, ["d", "A", "B", "c"]);
    }
    assert RenamedAt(ren, p, 4) && RenamedAt(ren, q, 2) && RenamedAt(ren, q, 3);
  }

  lemma TwoClean()
    ensures CleanTape(TWO_TAPE)
  {
  }

  lemma Colliding(big: Name, small: Name, d: Path)
    requires |big| == |small| == 1 && 'A' <= big[0] <= 'Z' && small[0] as int == big[0] as int + 32
    ensures Collide(d + [big], d + [small]) && !HasUpper(small) && Leaf(d + [small]) == small
  {
    assert Lower(big) == Lower(small);
    assert Parent(d + [big]) == d && Parent(d + [small]) == d;
  }

  // ---- tools/v8extract.py ----

  /** A tree's renaming, seen from the share root that holds the tree. */
  function Under(tree: Name, ren: Renaming): Renaming {
    map p | p in (set q | q in ren :: [tree] + q) :: ren[p[1..]]
  }

  lemma UnderIs(tree: Name, ren: Renaming, p: Path)
    ensures p in Under(tree, ren) <==> p != [] && p[0] == tree && p[1..] in ren
    ensures p in Under(tree, ren) ==> Under(tree, ren)[p] == ren[p[1..]]
  {
    if p != [] && p[0] == tree {
      assert p == [tree] + p[1..];
    }
    assert forall q :: ([tree] + q)[1..] == q;
  }

  lemma {:induction false} UnderStored(tree: Name, ren: Renaming, p: Path)
    requires [] !in ren
    ensures Stored(Under(tree, ren), [tree] + p) == [tree] + Stored(ren, p)
    decreases |p|
  {
    var q := [tree] + p;
    UnderIs(tree, ren, q);
    assert q[1..] == p;
    if p != [] {
      assert Parent(q) == [tree] + Parent(p);
      UnderStored(tree, ren, Parent(p));
    } else {
      assert Parent(q) == [];
    }
  }

  function RowPaths(tree: Name, rows: seq<Row>): (qs: seq<Path>)
    ensures |qs| == |rows| && forall i :: 0 <= i < |rows| ==> qs[i] == [tree] + RowPath(rows[i])
  {
    seq(|rows|, i requires 0 <= i < |rows| => [tree] + RowPath(rows[i]))
  }

  /** The rows as main() prints them: the tree's name before each directory. */
  function ExtractRows(tree: Name, rows: seq<Row>): seq<Row>
    decreases |rows|
  {
    if rows == [] then []
    else
      var r := rows[|rows| - 1];
      ExtractRows(tree, rows[..|rows| - 1]) + [Row([tree] + r.parent, r.stored, r.shown)]
  }

  predicate RowsRecord(ren: Renaming, rows: seq<Row>) {
    forall i :: 0 <= i < |rows| ==> RowPath(rows[i]) in ren && ren[RowPath(rows[i])] == rows[i].stored
  }

  lemma UnderRow(tree: Name, ren: Renaming, r: Row)
    requires RowPath(r) in ren && ren[RowPath(r)] == r.stored && tree != "."
    ensures RowAt(Under(tree, ren), [tree] + RowPath(r)) == Row([tree] + r.parent, r.stored, r.shown)
  {
    var q := [tree] + RowPath(r);
    UnderIs(tree, ren, q);
    assert q[1..] == RowPath(r) && Parent(q) == [tree] + r.parent && Leaf(q) == r.shown;
  }

  lemma {:induction false} ExtractRowsAre(tree: Name, ren: Renaming, rows: seq<Row>)
    requires RowsRecord(ren, rows) && tree != "."
    ensures Rootless(RowPaths(tree, rows)) && ExtractRows(tree, rows) == RowsOf(Under(tree, ren), RowPaths(tree, rows))
    decreases |rows|
  {
    if rows != [] {
      ExtractRowsAre(tree, ren, rows[..|rows| - 1]);
      var qs := RowPaths(tree, rows);
      assert qs[..|qs| - 1] == RowPaths(tree, rows[..|rows| - 1]);
      UnderRow(tree, ren, rows[|rows| - 1]);
    }
  }

  lemma UnderEscapes(tree: Name, ren: Renaming)
    requires Escapes(ren) && Plain(tree) && tree != "."
    ensures Escapes(Under(tree, ren))
  {
    forall q | q in Under(tree, ren)
      ensures q != [] && Clean(q) && HasUpper(Leaf(q)) && Under(tree, ren)[q] == Escape(Leaf(q))
    {
      UnderIs(tree, ren, q);
      var p := q[1..];
      assert Clean(p) && forall k :: 1 <= k < |q| ==> q[k] == p[k - 1];
    }
  }

  lemma RowsUnder(tree: Name, ren: Renaming, rows: seq<Row>, i: nat)
    requires RowsRecord(ren, rows) && i < |rows|
    ensures RowPaths(tree, rows)[i] in Under(tree, ren)
  {
    var q := RowPaths(tree, rows)[i];
    UnderIs(tree, ren, q);
    assert q[1..] == RowPath(rows[i]);
  }

  lemma UnderRows(tree: Name, ren: Renaming, rows: seq<Row>, p: Path) returns (k: nat)
    requires p in Under(tree, ren) && forall q :: q in ren ==> exists i :: 0 <= i < |rows| && RowPath(rows[i]) == q
    ensures k < |rows| && RowPaths(tree, rows)[k] == p
  {
    UnderIs(tree, ren, p);
    k :| 0 <= k < |rows| && RowPath(rows[k]) == p[1..];
  }

  lemma RowEarlier(tree: Name, ren: Renaming, rows: seq<Row>, i: nat, n: nat)
    requires V8Extract.ParentsFirst(rows) && i < |rows| && n < |RowPaths(tree, rows)[i]|
    requires RowPaths(tree, rows)[i][..n] in Under(tree, ren)
    requires forall p :: p in ren ==> exists j :: 0 <= j < |rows| && RowPath(rows[j]) == p
    ensures Among(RowPaths(tree, rows)[i][..n], RowPaths(tree, rows), i)
  {
    hide Under;
    var qs := RowPaths(tree, rows);
    var k := UnderRows(tree, ren, rows, qs[i][..n]);
    assert |qs[k]| < |qs[i]| && |rows[k].parent| < |rows[i].parent|;
  }

  /** Shallow directories first is parents first. */
  lemma DepthWritten(tree: Name, ren: Renaming, rows: seq<Row>)
    requires RowsRecord(ren, rows) && V8Extract.ParentsFirst(rows)
    requires forall p :: p in ren ==> exists i :: 0 <= i < |rows| && RowPath(rows[i]) == p
    ensures Written(Under(tree, ren), RowPaths(tree, rows))
  {
    var qs, up := RowPaths(tree, rows), Under(tree, ren);
    forall p | p in up ensures Among(p, qs, |qs|) {
      var k := UnderRows(tree, ren, rows, p);
    }
    forall i | 0 <= i < |qs| ensures qs[i] in up {
      RowsUnder(tree, ren, rows, i);
    }
    forall i, n | 0 <= i < |qs| && 0 <= n < |qs[i]| && qs[i][..n] in up
      ensures Among(qs[i][..n], qs, i)
    {
      RowEarlier(tree, ren, rows, i, n);
    }
  }

  lemma ExtractRecords(all: set<Path>, rows: seq<Row>)
    requires V8Extract.ApartPaths(rows) && Resolves(all, V8Extract.RenamingOf(rows))
    requires forall q :: q in all ==> Clean(q)
    ensures var ren := V8Extract.RenamingOf(rows);
            RowsRecord(ren, rows) && Escapes(ren) && [] !in ren
            && forall q :: q in ren ==> exists i :: 0 <= i < |rows| && RowPath(rows[i]) == q
  {
    var ren := V8Extract.RenamingOf(rows);
    forall i | 0 <= i < |rows|
      ensures RowPath(rows[i]) in ren && ren[RowPath(rows[i])] == rows[i].stored
    {
      V8Extract.RenamingHas(rows, i);
    }
    forall q | q in ren
      ensures exists i :: 0 <= i < |rows| && RowPath(rows[i]) == q
    {
      var i := V8Extract.RenamingFrom(rows, q);
    }
  }

  /** No renamed component below two escaped directories. */
  predicate FewEscapes(ren: Renaming, p: Path) {
    forall n, a, b :: 1 <= a < b < n <= |p| && RenamedAt(ren, p, n) ==> !RenamedAt(ren, p, a) || !RenamedAt(ren, p, b)
  }

  lemma UnderRenamed(tree: Name, ren: Renaming, p: Path, n: nat)
    requires n <= |p| + 1 && [] !in ren
    ensures RenamedAt(Under(tree, ren), [tree] + p, n) <==> n >= 2 && RenamedAt(ren, p, n - 1)
  {
    var q := ([tree] + p)[..n];
    UnderIs(tree, ren, q);
    if n >= 1 { assert q[1..] == p[..n - 1]; }
  }

  lemma UnderOneEscape(tree: Name, ren: Renaming, p: Path, n: nat)
    requires 1 <= n <= |p| && [] !in ren
    ensures OneEscape(Under(tree, ren), ([tree] + p)[..n])
       <==> forall a, b :: 1 <= a < b < n ==> !RenamedAt(ren, p, a) || !RenamedAt(ren, p, b)
  {
    var q := ([tree] + p)[..n];
    var up := Under(tree, ren);
    forall k: nat | k <= n
      ensures RenamedAt(up, q, k) <==> k >= 2 && RenamedAt(ren, p, k - 1)
    {
      UnderRenamed(tree, ren, p, k);
      assert q[..k] == ([tree] + p)[..k];
    }
    if a, b :| 1 <= a < b < n && RenamedAt(ren, p, a) && RenamedAt(ren, p, b) {
      assert RenamedAt(up, q, a + 1) && RenamedAt(up, q, b + 1);
    }
  }

  lemma UnderRecoverable(tree: Name, ren: Renaming, p: Path)
    requires [] !in ren
    ensures Recoverable(Under(tree, ren), [tree] + p) <==> FewEscapes(ren, p)
  {
    var q, up := [tree] + p, Under(tree, ren);
    forall n: nat | 1 <= n <= |p|
      ensures RenamedAt(up, q, n + 1) <==> RenamedAt(ren, p, n)
      ensures OneEscape(up, q[..n]) <==> forall a, b :: 1 <= a < b < n ==> !RenamedAt(ren, p, a) || !RenamedAt(ren, p, b)
    {
      UnderRenamed(tree, ren, p, n + 1);
      UnderOneEscape(tree, ren, p, n);
    }
    UnderRenamed(tree, ren, p, 1);
    if Recoverable(up, q) {
      forall n: nat | 1 <= n <= |p| && RenamedAt(ren, p, n)
        ensures forall a, b :: 1 <= a < b < n ==> !RenamedAt(ren, p, a) || !RenamedAt(ren, p, b)
      {
        assert RenamedAt(up, q, n + 1);
      }
    }
    if FewEscapes(ren, p) {
      forall m | 1 <= m <= |q| && RenamedAt(up, q, m)
        ensures OneEscape(up, q[..m - 1])
      {
        var n: nat := m - 1;
        assert n >= 1 && RenamedAt(ren, p, n);
      }
    }
  }

  lemma CleanUnder(tree: Name, p: Path)
    requires Plain(tree) && tree != "." && Clean(p)
    ensures Clean([tree] + p)
  {
    var q := [tree] + p;
    assert forall k :: 0 <= k < |q| ==> q[k] == if k == 0 then tree else p[k - 1];
  }

  lemma RowsWritten(tree: Name, ren: Renaming, rows: seq<Row>)
    requires Plain(tree) && tree != "." && Escapes(ren) && RowsRecord(ren, rows) && V8Extract.ParentsFirst(rows)
    requires forall q :: q in ren ==> exists i :: 0 <= i < |rows| && RowPath(rows[i]) == q
    ensures Escapes(Under(tree, ren)) && Written(Under(tree, ren), RowPaths(tree, rows)) && Rootless(RowPaths(tree, rows))
    ensures Read(ExtractRows(tree, rows)) == Loaded(Under(tree, ren), RowPaths(tree, rows))
  {
    UnderEscapes(tree, ren);
    ExtractRowsAre(tree, ren, rows);
    DepthWritten(tree, ren, rows);
  }

  lemma UnderReadBack(tree: Name, ren: Renaming, qs: seq<Path>, p: Path)
    requires Plain(tree) && tree != "." && Clean(p) && [] !in ren
    requires Escapes(Under(tree, ren)) && Written(Under(tree, ren), qs) && Rootless(qs)
    ensures OnDiskPath(Loaded(Under(tree, ren), qs), [tree] + p) == [tree] + Stored(ren, p) <==> FewEscapes(ren, p)
    ensures ShownPath(Loaded(Under(tree, ren), qs), [tree] + Stored(ren, p)) == [tree] + p <==> FewEscapes(ren, p)
  {
    CleanUnder(tree, p);
    UnderStored(tree, ren, p);
    UnderRecoverable(tree, ren, p);
    ReadBack(Under(tree, ren), qs, [tree] + p);
  }

  /** For every extraction of percent-free paths into a tree of a fresh share,
      with the rows and renaming that ResolveCollisions promises: the server
      finds each path where it was stored, and shows it again, if and only if no
      renamed component lies below two escaped directories.  The tree's own
      directory stands above them all, so what is at the top of the extraction
      is not at the top of the share. */
  lemma ExtractRecovered(tree: Name, all: set<Path>, rows: seq<Row>, p: Path)
    requires Plain(tree) && tree != "." && (forall q :: q in all ==> Clean(q)) && Clean(p)
    requires V8Extract.ApartPaths(rows) && V8Extract.ParentsFirst(rows) && Resolves(all, V8Extract.RenamingOf(rows))
    ensures var m, s := Read(ExtractRows(tree, rows)), [tree] + Stored(V8Extract.RenamingOf(rows), p);
            var ok := FewEscapes(V8Extract.RenamingOf(rows), p);
            (OnDiskPath(m, [tree] + p) == s <==> ok) && (ShownPath(m, s) == [tree] + p <==> ok)
  {
    var ren := V8Extract.RenamingOf(rows);
    ExtractRecords(all, rows);
    RowsWritten(tree, ren, rows);
    UnderReadBack(tree, ren, RowPaths(tree, rows), p);
  }
}
