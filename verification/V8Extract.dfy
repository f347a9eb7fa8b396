/** resolve_collisions() of tools/v8extract.py: the spelling with the fewest
    capitals keeps its name, ties going to the lexicographically least. */
module V8Extract {
  import opened Basics
  import opened Names
  import opened Collisions

  datatype Result = Resolved(rows: seq<Row>, renamed: Renaming) | StillCollides(parent: Path)

  // ---- the order of names ----

  function Capitals(n: Name): nat {
    if n == "" then 0 else (if IsUpper(n[0]) then 1 else 0) + Capitals(n[1..])
  }

  predicate Less(a: Name, b: Name) {
    if b == "" then false
    else if a == "" then true
    else a[0] < b[0] || (a[0] == b[0] && Less(a[1..], b[1..]))
  }

  /** The sort key: fewest capitals, then the name. */
  predicate Before(a: Name, b: Name) {
    Capitals(a) < Capitals(b) || (Capitals(a) == Capitals(b) && Less(a, b))
  }

  lemma {:induction false} LessTotal(a: Name, b: Name)
    ensures a == b || Less(a, b) || Less(b, a)
    decreases |a|
  {
    if a != "" && b != "" && a[0] == b[0] {
      LessTotal(a[1..], b[1..]);
      assert a == [a[0]] + a[1..] && b == [b[0]] + b[1..];
    }
  }

  lemma {:induction false} LessTransitive(a: Name, b: Name, c: Name)
    requires Less(a, b) && Less(b, c)
    ensures Less(a, c)
    decreases |a|
  {
    if a != "" && a[0] == b[0] == c[0] { LessTransitive(a[1..], b[1..], c[1..]); }
  }

  lemma {:induction false} NoCapitals(n: Name)
    ensures Capitals(n) == 0 <==> !HasUpper(n)
    ensures !HasUpper(n) ==> Lower(n) == n
  {
    if n != "" {
      NoCapitals(n[1..]);
      assert forall i :: 0 <= i < |n| - 1 ==> n[1..][i] == n[i + 1];
      if HasUpper(n) && !IsUpper(n[0]) {
        var i :| 0 <= i < |n| && IsUpper(n[i]);
        assert IsUpper(n[1..][i - 1]);
      }
      assert n == [n[0]] + n[1..];
    }
  }

  /** A loser has a capital: were it all lower case it would be the winner. */
  lemma LoserHasCapital(winner: Name, loser: Name)
    requires winner != loser && Lower(winner) == Lower(loser) && !Before(loser, winner)
    ensures HasUpper(loser)
  {
    NoCapitals(winner);
    NoCapitals(loser);
  }

  /** Index of the least of a list of different names. */
  method LeastOf(names: seq<Name>) returns (w: nat)
    requires names != [] && forall i, j :: 0 <= i < j < |names| ==> names[i] != names[j]
    ensures Wins(names, w)
  {
    w := 0;
    for k := 1 to |names|
      invariant w < k
      invariant forall i :: 0 <= i < k && i != w ==> Before(names[w], names[i])
    {
      if Before(names[k], names[w]) {
        forall i | 0 <= i < k && i != w
          ensures Before(names[k], names[i])
        {
          if Less(names[k], names[w]) && Less(names[w], names[i]) {
            LessTransitive(names[k], names[w], names[i]);
          }
        }
        w := k;
      } else {
        LessTotal(names[w], names[k]);
      }
    }
  }

  // ---- pass one: every component of every path, grouped ----

  /** Every nonempty prefix of a path. */
  function Prefixes(p: Path): set<Path> {
    if p == [] then {} else Prefixes(Parent(p)) + {p}
  }

  function AllPrefixes(rels: seq<Path>): set<Path> {
    if rels == [] then {} else AllPrefixes(rels[..|rels| - 1]) + Prefixes(rels[|rels| - 1])
  }

  lemma AboveParent(q: Path, p: Path)
    requires p != [] && Above(q, p) && q != p
    ensures Above(q, Parent(p))
  {
    assert |q| < |p| && q == p[..|q|] == Parent(p)[..|q|];
  }

  lemma {:induction false} PrefixesClosed(p: Path)
    ensures Closed(Prefixes(p)) && forall q :: q in Prefixes(p) <==> q != [] && Above(q, p)
  {
    if p != [] {
      PrefixesClosed(Parent(p));
      forall q | Above(q, p) && q != p
        ensures Above(q, Parent(p))
      {
        AboveParent(q, p);
      }
    }
  }

  lemma {:induction false} AllPrefixesClosed(rels: seq<Path>)
    ensures Closed(AllPrefixes(rels))
    ensures forall i :: 0 <= i < |rels| && rels[i] != [] ==> rels[i] in AllPrefixes(rels)
  {
    if rels != [] {
      AllPrefixesClosed(rels[..|rels| - 1]);
      PrefixesClosed(rels[|rels| - 1]);
      assert forall i :: 0 <= i < |rels| - 1 ==> rels[i] == rels[..|rels| - 1][i];
    }
  }

  type Groups = map<(Path, Name), seq<Name>>

  function KeyOf(p: Path): (Path, Name)
    requires p != []
  {
    (Parent(p), Lower(Leaf(p)))
  }

  predicate NoTwice(names: seq<Name>) { forall i, j :: 0 <= i < j < |names| ==> names[i] != names[j] }

  predicate Grouping(g: Groups, p: Path) { p != [] && KeyOf(p) in g && Leaf(p) in g[KeyOf(p)] }

  predicate GroupOf(all: set<Path>, k: (Path, Name), names: seq<Name>) {
    names != [] && NoTwice(names) && forall n :: n in names ==> k.0 + [n] in all && Lower(n) == k.1
  }

  /** bydir: each directory's names, once each, under their folded spelling. */
  predicate Grouped(all: set<Path>, g: Groups) {
    (forall p :: p in all ==> Grouping(g, p)) && (forall k :: k in g ==> GroupOf(all, k, g[k]))
  }

  function NamesAt(g: Groups, k: (Path, Name)): seq<Name> { if k in g then g[k] else [] }

  function Added(g: Groups, sub: Path): Groups
    requires sub != []
  {
    g[KeyOf(sub) := NamesAt(g, KeyOf(sub)) + [Leaf(sub)]]
  }

  lemma GroupGrows(all: set<Path>, k: (Path, Name), names: seq<Name>, n: Name)
    requires (names == [] || GroupOf(all, k, names)) && Lower(n) == k.1 && k.0 + [n] !in all
    ensures GroupOf(all + {k.0 + [n]}, k, names + [n])
  {
    assert n !in names;
    var more := names + [n];
    forall i, j | 0 <= i < j < |more| ensures more[i] != more[j] {
      if j == |names| { assert names[i] in names; }
    }
  }

  lemma AddGroups(all: set<Path>, g: Groups, sub: Path)
    requires Grouped(all, g) && sub != [] && sub !in all
    ensures Grouped(all + {sub}, Added(g, sub))
  {
    var k := KeyOf(sub);
    var g' := Added(g, sub);
    assert sub == k.0 + [Leaf(sub)];
    GroupGrows(all, k, NamesAt(g, k), Leaf(sub));
    forall p | p in all + {sub} ensures Grouping(g', p) {
      if p == sub { assert g'[k][|g'[k]| - 1] == Leaf(sub); } else { assert Grouping(g, p); }
    }
    forall j | j in g' ensures GroupOf(all + {sub}, j, g'[j]) {
      if j != k { assert GroupOf(all, j, g[j]); }
    }
  }

  /** One component, if it was not seen before. */
  method Register(seen0: set<Path>, bydir0: Groups, sub: Path) returns (seen: set<Path>, bydir: Groups)
    requires Grouped(seen0, bydir0) && sub != []
    ensures seen == seen0 + {sub} && Grouped(seen, bydir)
  {
    seen, bydir := seen0, bydir0;
    if sub !in seen {
      AddGroups(seen, bydir, sub);
      seen := seen + {sub};
      bydir := Added(bydir, sub);
    } else {
      assert seen + {sub} == seen;
    }
  }

  /** The first loop of resolve_collisions(): every component, not just the leaf. */
  method Group(rels: seq<Path>) returns (seen: set<Path>, bydir: Groups)
    ensures seen == AllPrefixes(rels) && Grouped(seen, bydir)
  {
    hide Grouping, GroupOf;
    seen, bydir := {}, map[];
    for n := 0 to |rels|
      invariant seen == AllPrefixes(rels[..n]) && Grouped(seen, bydir)
    {
      var rel := rels[n];
      ghost var before := seen;
      for i := 0 to |rel|
        invariant seen == before + Prefixes(rel[..i]) && Grouped(seen, bydir)
      {
        var sub := rel[..i + 1];
        assert Parent(sub) == rel[..i] && Prefixes(sub) == Prefixes(rel[..i]) + {sub};
        seen, bydir := Register(seen, bydir, sub);
      }
      assert rel[..|rel|] == rel && rels[..n + 1][..n] == rels[..n];
    }
    assert rels[..|rels|] == rels;
  }

  // ---- pass two: the losers of each group ----

  /** The row of one loser. */
  function RowOf(k: (Path, Name), n: Name): Row { Row(k.0, Escape(n), n) }

  /** The renaming that a list of rows records. */
  function RenamingOf(rows: seq<Row>): Renaming {
    if rows == [] then map[]
    else RenamingOf(rows[..|rows| - 1])[RowPath(rows[|rows| - 1]) := rows[|rows| - 1].stored]
  }

  /** w keeps its name, and every other name of the group has its row. */
  predicate WonBy(rows: seq<Row>, k: (Path, Name), names: seq<Name>, w: Name) {
    w in names && RowOf(k, w) !in rows
    && forall n :: n in names && n != w ==> Before(w, n) && RowOf(k, n) in rows
  }

  predicate Decided(rows: seq<Row>, k: (Path, Name), names: seq<Name>) {
    exists w :: w in names && WonBy(rows, k, names, w)
  }

  function RowKey(r: Row): (Path, Name) { (r.parent, Lower(r.shown)) }

  /** A row is that of a name in a group already decided. */
  predicate FromGroup(r: Row, g: Groups, done: set<(Path, Name)>) {
    RowKey(r) in done && RowKey(r) in g && r.shown in g[RowKey(r)] && r == RowOf(RowKey(r), r.shown)
  }

  predicate ParentsFirst(rows: seq<Row>) {
    forall i, j :: 0 <= i < j < |rows| ==> |rows[i].parent| <= |rows[j].parent|
  }

  predicate Distinct(rows: seq<Row>) {
    forall i, j :: 0 <= i < j < |rows| ==> rows[i] != rows[j]
  }

  predicate Decisions(rows: seq<Row>, g: Groups, done: set<(Path, Name)>) {
    (forall r :: r in rows ==> FromGroup(r, g, done)) && (forall k :: k in done && k in g ==> Decided(rows, k, g[k]))
  }

  predicate RowsFor(rows: seq<Row>, g: Groups, done: set<(Path, Name)>) {
    Decisions(rows, g, done) && ParentsFirst(rows) && Distinct(rows)
  }

  /** The loser rows of a group's first n names. */
  function LoserRows(k: (Path, Name), names: seq<Name>, w: nat, n: nat): seq<Row>
    requires n <= |names|
  {
    if n == 0 then []
    else LoserRows(k, names, w, n - 1) + (if n - 1 == w then [] else [RowOf(k, names[n - 1])])
  }

  function Losers(k: (Path, Name), names: seq<Name>, w: nat): seq<Row> { LoserRows(k, names, w, |names|) }

  predicate LoserRow(k: (Path, Name), names: seq<Name>, w: nat, n: nat, r: Row)
    requires n <= |names|
  {
    exists i :: 0 <= i < n && i != w && r == RowOf(k, names[i])
  }

  lemma {:induction false} LoserRowsAre(k: (Path, Name), names: seq<Name>, w: nat, n: nat, r: Row)
    requires n <= |names|
    ensures r in LoserRows(k, names, w, n) <==> LoserRow(k, names, w, n, r)
    decreases n
  {
    if n > 0 { LoserRowsAre(k, names, w, n - 1, r); }
  }

  lemma {:induction false} LosersDistinct(k: (Path, Name), names: seq<Name>, w: nat, n: nat)
    requires n <= |names| && NoTwice(names)
    ensures Distinct(LoserRows(k, names, w, n))
    decreases n
  {
    if n > 0 {
      LosersDistinct(k, names, w, n - 1);
      var before := LoserRows(k, names, w, n - 1);
      LoserRowsAre(k, names, w, n - 1, RowOf(k, names[n - 1]));
      assert forall i :: 0 <= i < |before| ==> before[i] in before;
    }
  }

  lemma LosersFromGroup(all: set<Path>, g: Groups, k: (Path, Name), w: nat, r: Row)
    requires k in g && GroupOf(all, k, g[k]) && r in Losers(k, g[k], w)
    ensures RowKey(r) == k && FromGroup(r, g, {k})
  {
    LoserRowsAre(k, g[k], w, |g[k]|, r);
    var i :| 0 <= i < |g[k]| && i != w && r == RowOf(k, g[k][i]);
    assert g[k][i] in g[k];
  }

  predicate Wins(names: seq<Name>, w: nat) {
    w < |names| && forall i :: 0 <= i < |names| && i != w ==> Before(names[w], names[i])
  }

  lemma WinnerDecides(rows: seq<Row>, k: (Path, Name), names: seq<Name>, w: nat)
    requires Wins(names, w) && NoTwice(names) && forall r :: r in rows ==> RowKey(r) != k
    requires forall n :: n in names ==> Lower(n) == k.1
    ensures Decided(rows + Losers(k, names, w), k, names)
  {
    var more := rows + Losers(k, names, w);
    forall n | n in names && n != names[w]
      ensures Before(names[w], n) && RowOf(k, n) in more
    {
      var i :| 0 <= i < |names| && names[i] == n;
      LoserRowsAre(k, names, w, |names|, RowOf(k, n));
    }
    LoserRowsAre(k, names, w, |names|, RowOf(k, names[w]));
    assert RowKey(RowOf(k, names[w])) == k;
    assert WonBy(more, k, names, names[w]);
  }

  lemma OthersDecided(all: set<Path>, g: Groups, rows: seq<Row>, j: (Path, Name), k: (Path, Name), w: nat)
    requires k in g && j in g && j != k && GroupOf(all, k, g[k]) && GroupOf(all, j, g[j]) && Decided(rows, j, g[j])
    ensures Decided(rows + Losers(k, g[k], w), j, g[j])
  {
    var v :| v in g[j] && WonBy(rows, j, g[j], v);
    var row := RowOf(j, v);
    assert RowKey(row) == j;
    if row in Losers(k, g[k], w) { LosersFromGroup(all, g, k, w, row); }
    assert WonBy(rows + Losers(k, g[k], w), j, g[j], v);
  }

  lemma DistinctGrows(rows: seq<Row>, more: seq<Row>)
    requires Distinct(rows) && Distinct(more) && forall r :: r in rows ==> r !in more
    ensures Distinct(rows + more)
  {
    var both := rows + more;
    forall i, j | 0 <= i < j < |both| ensures both[i] != both[j] {
      if i < |rows| <= j { assert rows[i] in rows && more[j - |rows|] in more; }
    }
  }

  lemma ParentsGrow(rows: seq<Row>, more: seq<Row>, d: Path)
    requires ParentsFirst(rows) && (forall r :: r in rows ==> |r.parent| <= |d|) && forall r :: r in more ==> r.parent == d
    ensures ParentsFirst(rows + more)
  {
    var both := rows + more;
    forall i, j | 0 <= i < j < |both| ensures |both[i].parent| <= |both[j].parent| {
      if j >= |rows| { assert more[j - |rows|] in more; }
      if i >= |rows| { assert more[i - |rows|] in more; } else { assert rows[i] in rows; }
    }
  }

  lemma DecisionsGrow(rows: seq<Row>, g: Groups, all: set<Path>, done: set<(Path, Name)>, k: (Path, Name), w: nat)
    requires (forall j :: j in g ==> GroupOf(all, j, g[j])) && k in g && k !in done && Wins(g[k], w)
    requires Decisions(rows, g, done)
    ensures Decisions(rows + Losers(k, g[k], w), g, done + {k})
  {
    var more := Losers(k, g[k], w);
    assert GroupOf(all, k, g[k]);
    forall r | r in rows + more ensures FromGroup(r, g, done + {k}) {
      if r in more { LosersFromGroup(all, g, k, w, r); } else { assert FromGroup(r, g, done); }
    }
    WinnerDecides(rows, k, g[k], w);
    forall j | j in done && j in g ensures Decided(rows + more, j, g[j]) {
      OthersDecided(all, g, rows, j, k, w);
    }
  }

  lemma GroupDecides(rows: seq<Row>, g: Groups, all: set<Path>, done: set<(Path, Name)>, k: (Path, Name), w: nat)
    requires (forall j :: j in g ==> GroupOf(all, j, g[j])) && k in g && k !in done && Wins(g[k], w)
    requires RowsFor(rows, g, done) && forall r :: r in rows ==> |r.parent| <= |k.0|
    ensures RowsFor(rows + Losers(k, g[k], w), g, done + {k})
  {
    var more := Losers(k, g[k], w);
    DecisionsGrow(rows, g, all, done, k, w);
    assert GroupOf(all, k, g[k]);
    forall r | r in more ensures RowKey(r) == k && r !in rows {
      LosersFromGroup(all, g, k, w, r);
      assert r in rows ==> FromGroup(r, g, done);
    }
    LosersDistinct(k, g[k], w, |g[k]|);
    DistinctGrows(rows, more);
    ParentsGrow(rows, more, k.0);
  }

  /** str.lower() of the escaped loser is no other name's: what is checked, and
      what cannot fail without a percent sign in a name. */
  predicate StillClashes(stored: Name, loser: Name, names: seq<Name>) {
    exists i :: 0 <= i < |names| && names[i] != loser && Lower(names[i]) == Lower(stored)
  }

  lemma PlainNeverClashes(loser: Name, names: seq<Name>)
    requires HasUpper(loser) && forall i :: 0 <= i < |names| ==> Plain(names[i])
    ensures !StillClashes(Escape(loser), loser, names)
  {
    EscapeMarks(loser);
    forall i | 0 <= i < |names|
      ensures Lower(names[i]) != Lower(Escape(loser))
    {
      PlainLower(names[i]);
    }
  }

  predicate ApartPaths(rows: seq<Row>) {
    forall i, j :: 0 <= i < j < |rows| ==> RowPath(rows[i]) != RowPath(rows[j])
  }

  lemma {:induction false} RenamingHas(rows: seq<Row>, i: nat)
    requires ApartPaths(rows) && i < |rows|
    ensures RowPath(rows[i]) in RenamingOf(rows) && RenamingOf(rows)[RowPath(rows[i])] == rows[i].stored
  {
    if i < |rows| - 1 {
      RenamingHas(rows[..|rows| - 1], i);
      assert RowPath(rows[i]) != RowPath(rows[|rows| - 1]);
    }
  }

  lemma {:induction false} RenamingFrom(rows: seq<Row>, p: Path) returns (i: nat)
    requires p in RenamingOf(rows)
    ensures i < |rows| && RowPath(rows[i]) == p
  {
    i := |rows| - 1;
    if RowPath(rows[i]) != p { i := RenamingFrom(rows[..i], p); }
  }

  lemma RenamingRecords(rows: seq<Row>, p: Path)
    requires ApartPaths(rows)
    ensures p in RenamingOf(rows) ==> exists r :: r in rows && RowPath(r) == p && r.stored == RenamingOf(rows)[p]
    ensures forall r :: r in rows && RowPath(r) == p ==> p in RenamingOf(rows) && RenamingOf(rows)[p] == r.stored
  {
    if p in RenamingOf(rows) {
      var i := RenamingFrom(rows, p);
      RenamingHas(rows, i);
      assert rows[i] in rows;
    }
    forall r | r in rows && RowPath(r) == p
      ensures p in RenamingOf(rows) && RenamingOf(rows)[p] == r.stored
    {
      var i :| 0 <= i < |rows| && rows[i] == r;
      RenamingHas(rows, i);
    }
  }

  /** Rows of decided groups that differ name different paths. */
  lemma RowPathsApart(rows: seq<Row>, g: Groups, done: set<(Path, Name)>)
    requires Decisions(rows, g, done) && Distinct(rows)
    ensures ApartPaths(rows)
  {
    forall i, j | 0 <= i < j < |rows|
      ensures RowPath(rows[i]) != RowPath(rows[j])
    {
      assert rows[i] in rows && rows[j] in rows;
      assert FromGroup(rows[i], g, done) && FromGroup(rows[j], g, done);
      RowPathParts(rows[i]);
      RowPathParts(rows[j]);
    }
  }

  lemma RowPathParts(r: Row)
    ensures RowPath(r) != [] && Leaf(RowPath(r)) == r.shown && Parent(RowPath(r)) == r.parent && KeyOf(RowPath(r)) == RowKey(r)
  {
  }

  /** The winner of each group is its least name. */
  predicate LeastKeeps(all: set<Path>, ren: Renaming) {
    forall p, q :: p in all && q in all && Collide(p, q) && p !in ren ==> Before(Leaf(p), Leaf(q))
  }

  lemma InRenaming(g: Groups, rows: seq<Row>, p: Path)
    requires Decisions(rows, g, g.Keys) && ApartPaths(rows) && p != []
    ensures p in RenamingOf(rows) <==> RowOf(KeyOf(p), Leaf(p)) in rows
    ensures p in RenamingOf(rows) ==> RenamingOf(rows)[p] == Escape(Leaf(p))
  {
    RenamingRecords(rows, p);
    var row := RowOf(KeyOf(p), Leaf(p));
    assert Parent(p) + [Leaf(p)] == p;
    if p in RenamingOf(rows) {
      var r :| r in rows && RowPath(r) == p && r.stored == RenamingOf(rows)[p];
      assert FromGroup(r, g, g.Keys);
      RowPathParts(r);
    }
  }

  lemma DecidedPair(g: Groups, rows: seq<Row>, p: Path, q: Path)
    requires Decisions(rows, g, g.Keys) && ApartPaths(rows) && Collide(p, q) && Grouping(g, p) && Grouping(g, q)
    ensures p in RenamingOf(rows) || q in RenamingOf(rows)
    ensures p !in RenamingOf(rows) ==> Before(Leaf(p), Leaf(q))
  {
    InRenaming(g, rows, p);
    InRenaming(g, rows, q);
    assert p == Parent(p) + [Leaf(p)] && q == Parent(q) + [Leaf(q)];
    assert Decided(rows, KeyOf(p), g[KeyOf(p)]);
    OneWinner(rows, KeyOf(p), g[KeyOf(p)], Leaf(p), Leaf(q));
  }

  lemma OneWinner(rows: seq<Row>, k: (Path, Name), names: seq<Name>, a: Name, b: Name)
    requires Decided(rows, k, names) && a in names && b in names && a != b
    ensures RowOf(k, a) in rows || RowOf(k, b) in rows
    ensures RowOf(k, a) !in rows ==> Before(a, b)
  {
    var w :| w in names && WonBy(rows, k, names, w);
  }

  /** A renamed path lost to some other name of its group. */
  lemma LostTo(g: Groups, rows: seq<Row>, p: Path) returns (w: Name)
    requires Decisions(rows, g, g.Keys) && ApartPaths(rows) && p in RenamingOf(rows)
    ensures Grouping(g, p) && w in g[KeyOf(p)] && w != Leaf(p) && Before(w, Leaf(p))
    ensures RenamingOf(rows)[p] == Escape(Leaf(p))
  {
    RenamingRecords(rows, p);
    var r :| r in rows && RowPath(r) == p && r.stored == RenamingOf(rows)[p];
    assert FromGroup(r, g, g.Keys);
    RowPathParts(r);
    w := Winner(rows, KeyOf(p), g[KeyOf(p)], r);
  }

  lemma Winner(rows: seq<Row>, k: (Path, Name), names: seq<Name>, r: Row) returns (w: Name)
    requires Decided(rows, k, names) && r in rows && r.shown in names && r == RowOf(k, r.shown)
    ensures w in names && w != r.shown && Before(w, r.shown)
  {
    w :| w in names && WonBy(rows, k, names, w);
  }

  lemma RivalOf(all: set<Path>, names: seq<Name>, p: Path, w: Name)
    requires p != [] && GroupOf(all, KeyOf(p), names) && Leaf(p) in names && w in names && w != Leaf(p) && Before(w, Leaf(p))
    ensures p in all && HasUpper(Leaf(p)) && exists q :: q in all && Collide(p, q)
  {
    var q := Parent(p) + [w];
    assert Leaf(q) == w && Parent(q) == Parent(p) && p == Parent(p) + [Leaf(p)];
    NotBoth(w, Leaf(p));
    LoserHasCapital(w, Leaf(p));
    assert q in all && Collide(p, q);
  }

  lemma RenamedHasRival(all: set<Path>, g: Groups, rows: seq<Row>, p: Path)
    requires (forall k :: k in g ==> GroupOf(all, k, g[k])) && Decisions(rows, g, g.Keys) && ApartPaths(rows)
    requires p in RenamingOf(rows)
    ensures p in all && p != [] && HasUpper(Leaf(p)) && RenamingOf(rows)[p] == Escape(Leaf(p))
    ensures exists q :: q in all && Collide(p, q)
  {
    var w := LostTo(g, rows, p);
    RivalOf(all, g[KeyOf(p)], p, w);
  }

  lemma {:induction false} LessStrict(a: Name, b: Name)
    requires Less(a, b)
    ensures !Less(b, a)
    decreases |a|
  {
    if a != "" && a[0] == b[0] { LessStrict(a[1..], b[1..]); }
  }

  lemma NotBoth(a: Name, b: Name)
    requires Before(a, b)
    ensures !Before(b, a)
  {
    if Capitals(a) == Capitals(b) { LessStrict(a, b); }
  }

  lemma RowsResolve(all: set<Path>, g: Groups, rows: seq<Row>)
    requires Grouped(all, g) && Decisions(rows, g, g.Keys) && ApartPaths(rows)
    ensures Resolves(all, RenamingOf(rows)) && LeastKeeps(all, RenamingOf(rows))
  {
    var ren := RenamingOf(rows);
    forall p | p in ren
      ensures p in all && p != [] && HasUpper(Leaf(p)) && ren[p] == Escape(Leaf(p)) && exists q :: q in all && Collide(p, q)
    {
      RenamedHasRival(all, g, rows, p);
    }
    forall p, q | p in all && q in all && Collide(p, q)
      ensures (p in ren || q in ren) && (p !in ren ==> Before(Leaf(p), Leaf(q)))
    {
      DecidedPair(g, rows, p, q);
    }
  }

  // ---- the whole of resolve_collisions() ----

  lemma Shallowest(keys: set<(Path, Name)>) returns (k: (Path, Name))
    requires keys != {}
    ensures k in keys && forall j :: j in keys ==> |k.0| <= |j.0|
  {
    k :| k in keys;
    var rest := keys - {k};
    if rest != {} {
      var m := Shallowest(rest);
      if |m.0| < |k.0| { k := m; }
    }
  }

  predicate AllPlain(names: seq<Name>) { forall n :: n in names ==> Plain(n) }

  /** A name that loses without a percent sign in its group passes the check. */
  lemma LoserPasses(k: (Path, Name), names: seq<Name>, w: nat, i: nat)
    requires Wins(names, w) && i < |names| && i != w
    requires forall n :: n in names ==> Lower(n) == k.1
    ensures AllPlain(names) ==> !StillClashes(Escape(names[i]), names[i], names)
  {
    assert names[i] in names && names[w] in names;
    NotBoth(names[w], names[i]);
    LessStrictSelf(names[w], names[i]);
    LoserHasCapital(names[w], names[i]);
    if AllPlain(names) { PlainNeverClashes(names[i], names); }
  }

  lemma LessStrictSelf(a: Name, b: Name)
    requires Before(a, b)
    ensures a != b
  {
    NotBoth(a, b);
  }

  lemma RenamingSnoc(rows: seq<Row>, r: Row)
    ensures RenamingOf(rows + [r]) == RenamingOf(rows)[RowPath(r) := r.stored]
  {
    assert (rows + [r])[..|rows|] == rows;
  }

  lemma LoserSnoc(rows0: seq<Row>, k: (Path, Name), names: seq<Name>, w: nat, i: nat)
    requires i < |names|
    ensures rows0 + LoserRows(k, names, w, i + 1)
         == (rows0 + LoserRows(k, names, w, i)) + if i == w then [] else [RowOf(k, names[i])]
  {
  }

  /** A group's rows after its first n names. */
  predicate SoFar(k: (Path, Name), names: seq<Name>, w: nat, n: nat, rows0: seq<Row>, rows: seq<Row>, renamed: Renaming)
    requires n <= |names|
  {
    rows == rows0 + LoserRows(k, names, w, n) && renamed == RenamingOf(rows)
  }

  /** One loser: its row, unless its escaped spelling still clashes. */
  method Escaped(k: (Path, Name), names: seq<Name>, i: nat, rows0: seq<Row>, renamed0: Renaming, ghost w: nat, ghost base: seq<Row>)
    returns (rows: seq<Row>, renamed: Renaming, clash: bool)
    requires i < |names| && i != w && SoFar(k, names, w, i, base, rows0, renamed0)
    ensures clash == StillClashes(Escape(names[i]), names[i], names)
    ensures !clash ==> SoFar(k, names, w, i + 1, base, rows, renamed)
  {
    var row := RowOf(k, names[i]);
    clash := StillClashes(row.stored, names[i], names);
    RenamingSnoc(rows0, row);
    LoserSnoc(base, k, names, w, i);
    rows, renamed := rows0 + [row], renamed0[RowPath(row) := row.stored];
  }

  lemma Unlost(k: (Path, Name), names: seq<Name>, w: nat, base: seq<Row>, rows: seq<Row>, renamed: Renaming)
    requires w < |names| && SoFar(k, names, w, w, base, rows, renamed)
    ensures SoFar(k, names, w, w + 1, base, rows, renamed)
  {
    LoserSnoc(base, k, names, w, w);
  }

  lemma SoFarNone(k: (Path, Name), names: seq<Name>, w: nat, base: seq<Row>, renamed: Renaming)
    requires renamed == RenamingOf(base)
    ensures SoFar(k, names, w, 0, base, base, renamed)
  {
    assert base + [] == base;
  }

  lemma SoFarAll(k: (Path, Name), names: seq<Name>, w: nat, base: seq<Row>, rows: seq<Row>, renamed: Renaming)
    requires SoFar(k, names, w, |names|, base, rows, renamed)
    ensures rows == base + Losers(k, names, w) && renamed == RenamingOf(rows)
  {
  }

  /** The loser rows of one group, and whether an escaped name still clashes. */
  method ResolveGroup(k: (Path, Name), names: seq<Name>, rows0: seq<Row>, renamed0: Renaming)
    returns (rows: seq<Row>, renamed: Renaming, clash: bool, ghost w: nat)
    requires names != [] && NoTwice(names) && forall n :: n in names ==> Lower(n) == k.1
    requires renamed0 == RenamingOf(rows0)
    ensures AllPlain(names) ==> !clash
    ensures !clash ==> renamed == RenamingOf(rows)
    ensures !clash ==> Wins(names, w) && rows == rows0 + Losers(k, names, w)
  {
    hide SoFar, StillClashes, AllPlain, Before, Lower, Escape, RenamingOf, LoserRows, Losers;
    rows, renamed, clash := rows0, renamed0, false;
    var winner := LeastOf(names);
    w := winner;
    SoFarNone(k, names, w, rows0, renamed0);
    for i := 0 to |names|
      invariant SoFar(k, names, w, i, rows0, rows, renamed)
    {
      if i != winner {
        rows, renamed, clash := Escaped(k, names, i, rows, renamed, w, rows0);
        if clash {
          LoserPasses(k, names, w, i);
          return;
        }
      } else {
        Unlost(k, names, w, rows0, rows, renamed);
      }
    }
    SoFarAll(k, names, w, rows0, rows, renamed);
  }

  /** A row waits for no group shallower than its own. */
  predicate Settled(rows: seq<Row>, todo: set<(Path, Name)>) {
    forall r, k :: r in rows && k in todo ==> |r.parent| <= |k.0|
  }

  lemma SettledRows(all: set<Path>, g: Groups, todo: set<(Path, Name)>, rows: seq<Row>, k: (Path, Name), w: nat)
    requires k in todo && k in g && Settled(rows, todo) && GroupOf(all, k, g[k]) && forall j :: j in todo ==> |k.0| <= |j.0|
    ensures Settled(rows + Losers(k, g[k], w), todo - {k})
  {
    forall r, j | r in rows + Losers(k, g[k], w) && j in todo - {k}
      ensures |r.parent| <= |j.0|
    {
      if r in Losers(k, g[k], w) { LosersFromGroup(all, g, k, w, r); }
    }
  }

  lemma Decide(all: set<Path>, g: Groups, todo: set<(Path, Name)>, rows: seq<Row>, k: (Path, Name), w: nat)
    requires (forall j :: j in g ==> GroupOf(all, j, g[j])) && todo <= g.Keys && k in todo
    requires RowsFor(rows, g, g.Keys - todo) && Settled(rows, todo) && Wins(g[k], w)
    ensures RowsFor(rows + Losers(k, g[k], w), g, g.Keys - (todo - {k}))
  {
    GroupDecides(rows, g, all, g.Keys - todo, k, w);
    assert (g.Keys - todo) + {k} == g.Keys - (todo - {k});
  }

  /** The second loop: groups in order of depth. */
  method DecideAll(ghost all: set<Path>, bydir: Groups) returns (rows: seq<Row>, renamed: Renaming, clash: Option<Path>)
    requires forall k :: k in bydir ==> GroupOf(all, k, bydir[k])
    ensures PlainPaths(all) ==> clash.None?
    ensures clash.None? ==> RowsFor(rows, bydir, bydir.Keys) && renamed == RenamingOf(rows)
  {
    var todo := bydir.Keys;
    rows, renamed, clash := [], map[], None;
    while todo != {}
      invariant todo <= bydir.Keys && renamed == RenamingOf(rows)
      invariant RowsFor(rows, bydir, bydir.Keys - todo) && Settled(rows, todo)
      decreases todo
    {
      ghost var least := Shallowest(todo);
      var k :| k in todo && forall j :: j in todo ==> |k.0| <= |j.0|;
      var more, ren, clashes, w := ResolveGroup(k, bydir[k], rows, renamed);
      if clashes {
        clash := Some(k.0);
        if PlainPaths(all) { GroupPlain(all, k, bydir[k]); }
        return;
      }
      SettledRows(all, bydir, todo, rows, k, w);
      Decide(all, bydir, todo, rows, k, w);
      rows, renamed, todo := more, ren, todo - {k};
    }
    assert bydir.Keys - todo == bydir.Keys;
  }

  lemma GroupPlain(all: set<Path>, k: (Path, Name), names: seq<Name>)
    requires PlainPaths(all) && GroupOf(all, k, names)
    ensures AllPlain(names)
  {
    forall n | n in names ensures Plain(n) {
      var p := k.0 + [n];
      assert p in all && p[|p| - 1] == n;
    }
  }

  method ResolveCollisions(rels: seq<Path>) returns (r: Result)
    ensures PlainPaths(AllPrefixes(rels)) ==> r.Resolved?
    ensures r.Resolved? ==>
              r.renamed == RenamingOf(r.rows) && ApartPaths(r.rows) && ParentsFirst(r.rows)
              && Resolves(AllPrefixes(rels), r.renamed) && LeastKeeps(AllPrefixes(rels), r.renamed)
  {
    var seen, bydir := Group(rels);
    var rows, renamed, clash := DecideAll(seen, bydir);
    if clash.Some? {
      return StillCollides(clash.value);
    }
    RowPathsApart(rows, bydir, bydir.Keys);
    RowsResolve(seen, bydir, rows);
    return Resolved(rows, renamed);
  }

  /** stored(): a path's spelling, one component at a time. */
  method StoredPath(renamed: Renaming, rel: Path) returns (out: Path)
    ensures out == Stored(renamed, rel)
  {
    out := [];
    var spelled: Path := [];
    for i := 0 to |rel|
      invariant spelled == rel[..i] && out == Stored(renamed, rel[..i])
    {
      spelled := spelled + [rel[i]];
      assert Parent(rel[..i + 1]) == rel[..i] && spelled == rel[..i + 1];
      out := out + [if spelled in renamed then renamed[spelled] else rel[i]];
    }
    assert rel[..|rel|] == rel;
  }

  /** For every set of percent-free paths the tree is stored without a clash:
      paths that differ are stored apart even after folding, and a tree with no
      collisions is stored as it is. */
  lemma ExtractSafe(rels: seq<Path>, ren: Renaming, p: Path, q: Path)
    requires PlainPaths(AllPrefixes(rels)) && Resolves(AllPrefixes(rels), ren)
    requires p in AllPrefixes(rels) && q in AllPrefixes(rels) && p != q
    ensures FoldPath(Stored(ren, p)) != FoldPath(Stored(ren, q))
    ensures (forall a, b :: a in AllPrefixes(rels) && b in AllPrefixes(rels) ==> !Collide(a, b)) ==> Stored(ren, p) == p
  {
    AllPrefixesClosed(rels);
    StoredApart(AllPrefixes(rels), ren, p, q);
    if forall a, b :: a in AllPrefixes(rels) && b in AllPrefixes(rels) ==> !Collide(a, b) {
      NothingChanged(AllPrefixes(rels), ren, p);
    }
  }
}
