/** How far CaseMap of tools/netfsd.py undoes the importer's escaping: exactly
    below paths with no escaped directory at the top and at most one further
    down. */
module CaseMapProof {
  import opened Names
  import opened Collisions
  import opened CaseMap

  // ---- matching a recorded path ----

  /** The true path of a row as the file spells it. */
  function From(q: Path): Path
    requires q != []
  {
    Field(Parent(q)) + [Leaf(q)]
  }

  lemma FromIs(q: Path)
    requires q != []
    ensures |q| > 1 && Parent(q) != ["."] ==> From(q) == q
    ensures |q| == 1 ==> From(q) == [".", q[0]]
    ensures |From(q)| >= 2
  {
    assert q == Parent(q) + [Leaf(q)];
  }

  /** It is above p only as a path below the top. */
  lemma FromAbove(q: Path, p: Path)
    requires q != [] && Clean(q) && p != [] && (p == ["."] || p[0] != ".")
    ensures Above(From(q), p) <==> |q| >= 2 && Above(q, p)
  {
    FromIs(q);
    if |q| > 1 { assert Parent(q)[0] != "."; }
  }

  // ---- every row is filed under FiledAt ----

  /** What a row leaves behind for later ones. */
  function PrefixOf(ren: Renaming, q: Path): Prefix
    requires q != []
  {
    Prefix(Field(FiledAt(ren, Parent(q))) + [StoredLeaf(ren, q)], From(q))
  }

  predicate PrefixesAre(ren: Renaming, qs: seq<Path>, ps: seq<Prefix>)
    requires Rootless(qs)
  {
    |ps| == |qs| && forall j :: 0 <= j < |qs| ==> ps[j] == PrefixOf(ren, qs[j])
  }

  /** Every renamed prefix of p is among qs. */
  predicate Known(ren: Renaming, qs: seq<Path>, p: Path) {
    forall n :: 0 <= n <= |p| && p[..n] in ren ==> Among(p[..n], qs, |qs|)
  }

  lemma RewriteRoot(ren: Renaming, qs: seq<Path>, ps: seq<Prefix>)
    requires Rootless(qs) && PrefixesAre(ren, qs, ps)
    ensures Rewrite(["."], ps) == ["."]
  {
    forall j | 0 <= j < |ps| ensures !Above(ps[j].from, ["."]) {
      FromIs(qs[j]);
    }
    RewriteNone(["."], ps);
  }

  lemma NotAbovePlain(ren: Renaming, q: Path, p: Path)
    requires q in ren && q != [] && Clean(q) && p != [] && Clean(p) && Shallowest(ren, p, 2) == 0
    ensures !Above(From(q), p)
  {
    FromAbove(q, p);
    assert Above(q, p) ==> p[..|q|] == q;
  }

  /** No renamed directory above p below the top: nothing to rewrite. */
  lemma RewriteUnescaped(ren: Renaming, qs: seq<Path>, ps: seq<Prefix>, p: Path)
    requires Escapes(ren) && Rootless(qs) && ParentsFirst(ren, qs) && PrefixesAre(ren, qs, ps)
    requires p != [] && Clean(p) && Shallowest(ren, p, 2) == 0
    ensures Rewrite(p, ps) == p
  {
    forall j | 0 <= j < |ps| ensures !Above(ps[j].from, p) {
      NotAbovePlain(ren, qs[j], p);
    }
    RewriteNone(p, ps);
  }

  /** The first place of p among qs. */
  function First(qs: seq<Path>, p: Path): (j: nat)
    requires Among(p, qs, |qs|)
    ensures j < |qs| && qs[j] == p
    ensures forall k :: 0 <= k < j ==> qs[k] != p
    decreases |qs|
  {
    if qs[0] == p then 0
    else
      assert Among(p, qs[1..], |qs| - 1) by {
        var k :| 0 <= k < |qs| && qs[k] == p;
        assert qs[1..][k - 1] == p;
      }
      1 + First(qs[1..], p)
  }

  /** An earlier row cannot match p at all... */
  lemma BeforeFirst(ren: Renaming, qs: seq<Path>, p: Path, n: nat, k: nat)
    requires Escapes(ren) && ParentsFirst(ren, qs) && p != [] && Clean(p)
    requires n == Shallowest(ren, p, 2) && n > 0 && k < |qs|
    requires forall i :: 0 <= i <= k ==> qs[i] != p[..n]
    ensures qs[k] != [] && !Above(From(qs[k]), p)
  {
    hide Shallowest, HasUpper, Escape, From;
    var q := qs[k];
    FromAbove(q, p);
    assert Above(q, p) ==> q == p[..|q|];
    assert Above(q, p) && |q| > n ==> q[..n] == p[..n] && !Among(p[..n], qs, k);
  }

  lemma FiledParts(ren: Renaming, p: Path, n: nat)
    requires n == Shallowest(ren, p, 2) && n > 0
    ensures 2 <= n <= |p| && p[..n] in ren
    ensures FiledAt(ren, p)[..n - 1] == p[..n - 1] && FiledAt(ren, p)[n - 1] == ren[p[..n]]
  {
    hide Shallowest;
  }

  lemma NoneShallower(ren: Renaming, p: Path, n: nat, i: nat)
    requires n == Shallowest(ren, p, 2) && 2 <= i < n
    ensures i <= |p| && p[..i] !in ren
  {
    hide Shallowest;
  }

  lemma MarkedStored(ren: Renaming, q: Path)
    requires Escapes(ren) && q in ren
    ensures !Plain(ren[q]) && q != [] && Clean(q)
  {
    hide HasUpper, Escape, Clean;
    EscapeMarks(Leaf(q));
  }

  lemma PlainAt(q: Path, i: nat)
    requires Clean(q) && i < |q|
    ensures Plain(q[i]) && q[i] != "."
  {
  }

  lemma CommonPrefix(q: Path, f: Path, p: Path, n: nat)
    requires n <= |f| && n <= |p| && f[..n] == p[..n] && |q| <= n
    ensures Above(q, f) ==> q == p[..|q|]
  {
    assert f[..n][..|q|] == f[..|q|] && p[..n][..|q|] == p[..|q|];
  }

  lemma DifferAt(q: Path, f: Path, i: nat)
    requires i < |q| && i < |f| && q[i] != f[i]
    ensures !Above(q, f)
  {
  }

  /** ...and a later one cannot match what the first one made of it: it has an
      escaped component. */
  lemma AfterFirst(ren: Renaming, q: Path, p: Path, n: nat)
    requires Escapes(ren) && q in ren && p != [] && Clean(p) && n == Shallowest(ren, p, 2) && n > 0
    ensures q != [] && !Above(From(q), FiledAt(ren, p))
  {
    hide Escapes, Escape, Shallowest, Clean, FiledAt, From, Plain;
    var f := FiledAt(ren, p);
    FiledParts(ren, p, n);
    MarkedStored(ren, q);
    MarkedStored(ren, p[..n]);
    PlainAt(p, 0);
    assert f[0] == f[..n - 1][0];
    FromAbove(q, f);
    if |q| < n {
      if |q| >= 2 { NoneShallower(ren, p, n, |q|); }
      CommonPrefix(q, f, p, n - 1);
    } else {
      PlainAt(q, n - 1);
      DifferAt(q, f, n - 1);
    }
  }

  lemma FiledShallow(ren: Renaming, p: Path, n: nat)
    requires n == Shallowest(ren, p, 2) && n > 0
    ensures FiledAt(ren, p[..n - 1]) == p[..n - 1]
  {
    var d := p[..n - 1];
    assert forall m :: 0 <= m <= |d| ==> d[..m] == p[..m];
  }

  lemma ShallowPrefix(ren: Renaming, p: Path, n: nat)
    requires Escapes(ren) && Clean(p) && n == Shallowest(ren, p, 2) && n > 0
    ensures var x := PrefixOf(ren, p[..n]);
            x.from == p[..n] && x.to + p[n..] == FiledAt(ren, p)
  {
    hide Escapes, Clean, Shallowest;
    FiledShallow(ren, p, n);
    var q := p[..n];
    FromIs(q);
    PlainAt(p, 0);
    assert Parent(q) == p[..n - 1];
    assert Parent(q)[0] == p[0];
  }

  lemma RewriteEscaped(ren: Renaming, qs: seq<Path>, ps: seq<Prefix>, p: Path)
    requires Escapes(ren) && Rootless(qs) && ParentsFirst(ren, qs) && PrefixesAre(ren, qs, ps) && Known(ren, qs, p)
    requires p != [] && Clean(p) && Shallowest(ren, p, 2) > 0
    ensures Rewrite(p, ps) == FiledAt(ren, p)
  {
    var n := Shallowest(ren, p, 2);
    var j := First(qs, p[..n]);
    ShallowPrefix(ren, p, n);
    forall k | 0 <= k < j ensures !Above(ps[k].from, p) {
      BeforeFirst(ren, qs, p, n, k);
    }
    forall k | j < k < |ps| ensures !Above(ps[k].from, FiledAt(ren, p)) {
      AfterFirst(ren, qs[k], p, n);
    }
    RewriteOnce(p, ps, j);
  }

  /** A directory all of whose renamed parents have been read is rewritten to
      itself with one component escaped: the shallowest below the top. */
  lemma RewriteIs(ren: Renaming, qs: seq<Path>, ps: seq<Prefix>, p: Path)
    requires Escapes(ren) && Rootless(qs) && ParentsFirst(ren, qs) && PrefixesAre(ren, qs, ps) && Known(ren, qs, p)
    requires Clean(p)
    ensures Rewrite(Field(p), ps) == Field(FiledAt(ren, p))
    ensures Unfield(Field(FiledAt(ren, p))) == FiledAt(ren, p)
  {
    if p == [] {
      RewriteRoot(ren, qs, ps);
    } else {
      assert FiledAt(ren, p)[0] == p[0];
      if Shallowest(ren, p, 2) == 0 {
        RewriteUnescaped(ren, qs, ps, p);
      } else {
        RewriteEscaped(ren, qs, ps, p);
      }
    }
  }

  // ---- reading the whole file ----

  function Loaded(ren: Renaming, qs: seq<Path>): Maps
    requires Rootless(qs)
  {
    Read(RowsOf(ren, qs))
  }

  lemma LoadedLast(ren: Renaming, qs: seq<Path>)
    requires qs != [] && Rootless(qs)
    ensures Loaded(ren, qs) == AddRow(Loaded(ren, qs[..|qs| - 1]), RowAt(ren, qs[|qs| - 1]))
  {
    var rows := RowsOf(ren, qs);
    assert rows[..|rows| - 1] == RowsOf(ren, qs[..|qs| - 1]);
  }

  lemma FirstPart(ren: Renaming, qs: seq<Path>)
    requires ParentsFirst(ren, qs) && qs != []
    ensures ParentsFirst(ren, qs[..|qs| - 1])
    ensures qs[|qs| - 1] != [] ==> Known(ren, qs[..|qs| - 1], Parent(qs[|qs| - 1]))
  {
    var before, q := qs[..|qs| - 1], qs[|qs| - 1];
    forall i, n | 0 <= i < |before| && 0 <= n < |before[i]| && before[i][..n] in ren
      ensures Among(before[i][..n], before, i)
    {
      assert before[i] == qs[i];
      var k :| 0 <= k < i && qs[k] == qs[i][..n];
      assert before[k] == qs[k];
    }
    if q != [] {
      forall n | 0 <= n <= |Parent(q)| && Parent(q)[..n] in ren
        ensures Among(Parent(q)[..n], before, |before|)
      {
        assert Parent(q)[..n] == q[..n];
        var k :| 0 <= k < |qs| - 1 && qs[k] == q[..n];
        assert before[k] == qs[k];
      }
    }
  }

  lemma OneMore(ren: Renaming, qs: seq<Path>, ps: seq<Prefix>)
    requires qs != [] && Rootless(qs) && PrefixesAre(ren, qs[..|qs| - 1], ps)
    ensures PrefixesAre(ren, qs, ps + [PrefixOf(ren, qs[|qs| - 1])])
  {
  }

  lemma {:induction false} LoadedPrefixes(ren: Renaming, qs: seq<Path>)
    requires Escapes(ren) && ParentsFirst(ren, qs) && Rootless(qs)
    ensures PrefixesAre(ren, qs, Loaded(ren, qs).prefixes)
    decreases |qs|
  {
    if qs != [] {
      var before, q := qs[..|qs| - 1], qs[|qs| - 1];
      FirstPart(ren, qs);
      LoadedPrefixes(ren, before);
      LoadedLast(ren, qs);
      assert q in ren;
      var ps := Loaded(ren, before).prefixes;
      RewriteIs(ren, before, ps, Parent(q));
      assert Loaded(ren, qs).prefixes == ps + [PrefixOf(ren, q)];
      OneMore(ren, qs, ps);
    }
  }

  /** The last row goes under its directory's FiledAt. */
  lemma LoadedStep(ren: Renaming, qs: seq<Path>)
    requires Escapes(ren) && ParentsFirst(ren, qs) && Rootless(qs) && qs != []
    ensures var q := qs[|qs| - 1];
            var before := Loaded(ren, qs[..|qs| - 1]);
            var f := FiledAt(ren, Parent(q));
            Loaded(ren, qs).toStored == Filed(before.toStored, f, Leaf(q), StoredLeaf(ren, q))
            && Loaded(ren, qs).toTrue == Filed(before.toTrue, f, StoredLeaf(ren, q), Leaf(q))
  {
    var before, q := qs[..|qs| - 1], qs[|qs| - 1];
    FirstPart(ren, qs);
    LoadedPrefixes(ren, before);
    LoadedLast(ren, qs);
    assert q in ren;
    RewriteIs(ren, before, Loaded(ren, before).prefixes, Parent(q));
  }

  lemma LookupFiled(m: map<Path, map<Name, Name>>, d: Path, k: Name, v: Name, e: Path, x: Name)
    ensures Lookup(Filed(m, d, k, v), e, x) == if e == d && x == k then v else Lookup(m, e, x)
  {
  }

  // ---- what a lookup finds ----

  /** q's row answers a lookup of true name x under the host directory d. */
  predicate Answers(ren: Renaming, q: Path, d: Path, x: Name) {
    q != [] && FiledAt(ren, Parent(q)) == d && Leaf(q) == x
  }

  /** q's row answers a listing of stored name y under d. */
  predicate Lists(ren: Renaming, q: Path, d: Path, y: Name) {
    q != [] && FiledAt(ren, Parent(q)) == d && StoredLeaf(ren, q) == y
  }

  predicate NoneAnswers(ren: Renaming, qs: seq<Path>, d: Path, x: Name) {
    forall i :: 0 <= i < |qs| ==> !Answers(ren, qs[i], d, x)
  }

  predicate NoneLists(ren: Renaming, qs: seq<Path>, d: Path, y: Name) {
    forall i :: 0 <= i < |qs| ==> !Lists(ren, qs[i], d, y)
  }

  lemma NoneGrows(ren: Renaming, qs: seq<Path>, d: Path, x: Name)
    requires qs != []
    ensures NoneAnswers(ren, qs, d, x) <==> NoneAnswers(ren, qs[..|qs| - 1], d, x) && !Answers(ren, qs[|qs| - 1], d, x)
    ensures NoneLists(ren, qs, d, x) <==> NoneLists(ren, qs[..|qs| - 1], d, x) && !Lists(ren, qs[|qs| - 1], d, x)
  {
    assert forall i :: 0 <= i < |qs| - 1 ==> qs[..|qs| - 1][i] == qs[i];
  }

  lemma StoredStep(ren: Renaming, qs: seq<Path>, d: Path, x: Name)
    requires Escapes(ren) && ParentsFirst(ren, qs) && Rootless(qs) && qs != []
    ensures var q := qs[|qs| - 1];
            Lookup(Loaded(ren, qs).toStored, d, x)
            == if Answers(ren, q, d, x) then StoredLeaf(ren, q) else Lookup(Loaded(ren, qs[..|qs| - 1]).toStored, d, x)
  {
    var q := qs[|qs| - 1];
    LoadedStep(ren, qs);
    LookupFiled(Loaded(ren, qs[..|qs| - 1]).toStored, FiledAt(ren, Parent(q)), Leaf(q), StoredLeaf(ren, q), d, x);
  }

  lemma TrueStep(ren: Renaming, qs: seq<Path>, d: Path, y: Name)
    requires Escapes(ren) && ParentsFirst(ren, qs) && Rootless(qs) && qs != []
    ensures var q := qs[|qs| - 1];
            Lookup(Loaded(ren, qs).toTrue, d, y)
            == if Lists(ren, q, d, y) then Leaf(q) else Lookup(Loaded(ren, qs[..|qs| - 1]).toTrue, d, y)
  {
    var q := qs[|qs| - 1];
    LoadedStep(ren, qs);
    LookupFiled(Loaded(ren, qs[..|qs| - 1]).toTrue, FiledAt(ren, Parent(q)), StoredLeaf(ren, q), Leaf(q), d, y);
  }

  /** A looked-up name is that of some row filed there, or itself if none is. */
  lemma {:induction false} LookupStored(ren: Renaming, qs: seq<Path>, d: Path, x: Name) returns (j: nat)
    requires Escapes(ren) && ParentsFirst(ren, qs) && Rootless(qs)
    ensures j <= |qs|
    ensures j < |qs| ==> Answers(ren, qs[j], d, x) && Lookup(Loaded(ren, qs).toStored, d, x) == StoredLeaf(ren, qs[j])
    ensures j == |qs| ==> Lookup(Loaded(ren, qs).toStored, d, x) == x && NoneAnswers(ren, qs, d, x)
    decreases |qs|
  {
    hide FiledAt, Escapes, ParentsFirst, Parent, Answers, Leaf, StoredLeaf, Among;
    if qs == [] {
      j := 0;
    } else {
      var n := |qs| - 1;
      FirstPart(ren, qs);
      StoredStep(ren, qs, d, x);
      NoneGrows(ren, qs, d, x);
      j := LookupStored(ren, qs[..n], d, x);
      j := if Answers(ren, qs[n], d, x) then n else if j == n then n + 1 else j;
    }
  }

  lemma {:induction false} LookupTrue(ren: Renaming, qs: seq<Path>, d: Path, y: Name) returns (j: nat)
    requires Escapes(ren) && ParentsFirst(ren, qs) && Rootless(qs)
    ensures j <= |qs|
    ensures j < |qs| ==> Lists(ren, qs[j], d, y) && Lookup(Loaded(ren, qs).toTrue, d, y) == Leaf(qs[j])
    ensures j == |qs| ==> Lookup(Loaded(ren, qs).toTrue, d, y) == y && NoneLists(ren, qs, d, y)
    decreases |qs|
  {
    hide FiledAt, Escapes, ParentsFirst, Parent, Among, Lists, StoredLeaf, Leaf;
    if qs == [] {
      j := 0;
    } else {
      var n := |qs| - 1;
      FirstPart(ren, qs);
      TrueStep(ren, qs, d, y);
      NoneGrows(ren, qs, d, y);
      j := LookupTrue(ren, qs[..n], d, y);
      j := if Lists(ren, qs[n], d, y) then n else if j == n then n + 1 else j;
    }
  }

  // ---- a spelling belongs to one path ----

  /** f is p with some of its capitalised components escaped. */
  predicate Spells(f: Path, p: Path) {
    |f| == |p| && forall i :: 0 <= i < |p| ==> f[i] == p[i] || (HasUpper(p[i]) && f[i] == Escape(p[i]))
  }

  lemma OneName(n: Name, a: Name, b: Name)
    requires Plain(a) && Plain(b)
    requires n == a || (HasUpper(a) && n == Escape(a))
    requires n == b || (HasUpper(b) && n == Escape(b))
    ensures a == b
  {
    if HasUpper(a) { EscapeMarks(a); }
    if HasUpper(b) { EscapeMarks(b); }
    if a != b { EscapeApart(a, b); }
  }

  lemma SpellsOne(f: Path, p: Path, q: Path)
    requires Spells(f, p) && Spells(f, q) && Clean(p) && Clean(q)
    ensures p == q
  {
    forall i | 0 <= i < |p| ensures p[i] == q[i] {
      OneName(f[i], p[i], q[i]);
    }
  }

  lemma FiledSpells(ren: Renaming, p: Path)
    requires Escapes(ren)
    ensures Spells(FiledAt(ren, p), p)
  {
    hide Escape, HasUpper, Shallowest;
    var n := Shallowest(ren, p, 2);
    if n > 0 { assert Leaf(p[..n]) == p[n - 1]; }
  }

  lemma StoredSpells(ren: Renaming, p: Path)
    requires Escapes(ren)
    ensures Spells(Stored(ren, p), p)
  {
    forall i | 0 <= i < |p|
      ensures Stored(ren, p)[i] == p[i] || (HasUpper(p[i]) && Stored(ren, p)[i] == Escape(p[i]))
    {
      StoredAt(ren, p, i);
      assert Leaf(p[..i + 1]) == p[i];
    }
  }

  /** What is filed under p's stored directory is filed for p. */
  lemma FiledOnlyThere(ren: Renaming, d: Path, p: Path)
    requires Escapes(ren) && Clean(d) && Clean(p) && FiledAt(ren, d) == Stored(ren, p)
    ensures d == p
  {
    FiledSpells(ren, d);
    StoredSpells(ren, p);
    SpellsOne(Stored(ren, p), d, p);
  }

  lemma CleanParent(q: Path)
    requires q != [] && Clean(q)
    ensures Clean(Parent(q)) && Plain(Leaf(q))
  {
  }

  // ---- one component ----

  predicate FiledRight(ren: Renaming, p: Path) { FiledAt(ren, p) == Stored(ren, p) }

  /** Looking a name up under its stored directory: the stored name if the row
      was filed there, otherwise the name unchanged. */
  lemma OnDiskIs(ren: Renaming, qs: seq<Path>, p: Path, x: Name)
    requires Escapes(ren) && Written(ren, qs) && Rootless(qs) && Clean(p)
    ensures Lookup(Loaded(ren, qs).toStored, Stored(ren, p), x)
         == if p + [x] in ren && FiledRight(ren, p) then StoredLeaf(ren, p + [x]) else x
  {
    hide Lookup, Loaded, FiledAt, Stored, Clean, HasUpper, Escape;
    var d := Stored(ren, p);
    var q := p + [x];
    assert Parent(q) == p && Leaf(q) == x;
    var j := LookupStored(ren, qs, d, x);
    if j < |qs| {
      CleanParent(qs[j]);
      FiledOnlyThere(ren, Parent(qs[j]), p);
      assert qs[j] == Parent(qs[j]) + [Leaf(qs[j])];
    } else {
      assert forall k :: 0 <= k < |qs| && qs[k] == q && FiledRight(ren, p) ==> Answers(ren, qs[k], d, x);
    }
  }

  lemma Rejoin(q: Path, p: Path, x: Name)
    requires q != []
    ensures q == p + [x] <==> Parent(q) == p && Leaf(q) == x
  {
    assert q == Parent(q) + [Leaf(q)];
  }

  /** Listing a stored name shows the true one exactly when the row was filed
      there. */
  lemma ShownIs(ren: Renaming, qs: seq<Path>, p: Path, x: Name)
    requires Escapes(ren) && Written(ren, qs) && Rootless(qs) && Clean(p) && Plain(x)
    ensures Lookup(Loaded(ren, qs).toTrue, Stored(ren, p), StoredLeaf(ren, p + [x])) == x
       <==> (p + [x] in ren ==> FiledRight(ren, p))
  {
    hide Lookup, Loaded, FiledAt, Stored, Clean, HasUpper, Escape;
    var q := p + [x];
    var d, y := Stored(ren, p), StoredLeaf(ren, q);
    assert Parent(q) == p && Leaf(q) == x;
    var j := LookupTrue(ren, qs, d, y);
    if q in ren { EscapeMarks(x); }
    if j < |qs| {
      CleanParent(qs[j]);
      FiledOnlyThere(ren, Parent(qs[j]), p);
      EscapeMarks(Leaf(qs[j]));
      OneName(y, x, Leaf(qs[j]));
      Rejoin(qs[j], p, x);
    } else {
      assert forall k :: 0 <= k < |qs| && qs[k] == q && FiledRight(ren, p) ==> Lists(ren, qs[k], d, y);
    }
  }

  // ---- when a directory's rows are filed where they are looked for ----

  predicate RenamedAt(ren: Renaming, p: Path, n: nat) { n <= |p| && p[..n] in ren }

  /** No escaped directory at the top, and at most one below it. */
  predicate OneEscape(ren: Renaming, p: Path) {
    !RenamedAt(ren, p, 1) && forall a, b :: 2 <= a < b <= |p| ==> !RenamedAt(ren, p, a) || !RenamedAt(ren, p, b)
  }

  lemma StoredDiffers(ren: Renaming, p: Path, n: nat)
    requires Escapes(ren) && Clean(p) && 1 <= n <= |p|
    ensures Stored(ren, p)[n - 1] == p[n - 1] <==> !RenamedAt(ren, p, n)
    ensures RenamedAt(ren, p, n) ==> Stored(ren, p)[n - 1] == ren[p[..n]]
  {
    hide Escapes, Escape, Clean, Plain, Stored;
    StoredAt(ren, p, n - 1);
    PlainAt(p, n - 1);
    if RenamedAt(ren, p, n) { MarkedStored(ren, p[..n]); }
  }

  lemma FiledRightExactly(ren: Renaming, p: Path)
    requires Escapes(ren) && Clean(p)
    ensures FiledRight(ren, p) <==> OneEscape(ren, p)
  {
    hide Escapes, Clean, HasUpper, Escape, StoredLeaf;
    var f, s, n := FiledAt(ren, p), Stored(ren, p), Shallowest(ren, p, 2);
    if OneEscape(ren, p) {
      forall i | 0 <= i < |p| ensures f[i] == s[i] {
        StoredDiffers(ren, p, i + 1);
        assert n > 0 ==> RenamedAt(ren, p, n);
        assert RenamedAt(ren, p, i + 1) ==> i + 1 == n;
      }
    } else if RenamedAt(ren, p, 1) {
      StoredDiffers(ren, p, 1);
      assert s[0] != f[0];
    } else {
      var a, b :| 2 <= a < b <= |p| && RenamedAt(ren, p, a) && RenamedAt(ren, p, b);
      StoredDiffers(ren, p, b);
      assert n <= a && s[b - 1] != f[b - 1];
    }
  }

  // ---- the whole path ----

  /** on_disk applied component by component, from the share root. */
  function OnDiskPath(m: Maps, p: Path): (d: Path)
    ensures |d| == |p|
  {
    if p == [] then []
    else var d := OnDiskPath(m, Parent(p)); d + [Lookup(m.toStored, d, Leaf(p))]
  }

  /** shown applied component by component to a host path. */
  function ShownPath(m: Maps, d: Path): (p: Path)
    ensures |p| == |d|
  {
    if d == [] then [] else ShownPath(m, Parent(d)) + [Lookup(m.toTrue, Parent(d), Leaf(d))]
  }

  /** Every renamed component of p has no escaped directory at the top above it
      and at most one further down. */
  predicate Recoverable(ren: Renaming, p: Path) {
    forall n :: 1 <= n <= |p| && RenamedAt(ren, p, n) ==> OneEscape(ren, p[..n - 1])
  }

  lemma RecoverableParent(ren: Renaming, p: Path)
    requires p != []
    ensures Recoverable(ren, p) <==> Recoverable(ren, Parent(p)) && (p in ren ==> OneEscape(ren, Parent(p)))
  {
    assert p[..|p|] == p;
    forall n: nat | 1 <= n <= |p| - 1
      ensures Parent(p)[..n - 1] == p[..n - 1] && (RenamedAt(ren, p, n) <==> RenamedAt(ren, Parent(p), n))
    {
      assert Parent(p)[..n] == p[..n];
    }
    assert RenamedAt(ren, p, |p|) <==> p in ren;
  }

  /** The last component's lookup is right exactly when its row, if it has one,
      was filed in the right place. */
  lemma LastOnDisk(ren: Renaming, qs: seq<Path>, p: Path)
    requires Escapes(ren) && Written(ren, qs) && Rootless(qs) && Clean(p) && p != []
    ensures Lookup(Loaded(ren, qs).toStored, Stored(ren, Parent(p)), Leaf(p)) == StoredLeaf(ren, p)
       <==> (p in ren ==> OneEscape(ren, Parent(p)))
  {
    hide Lookup, Loaded, FiledRight, Stored, HasUpper, OneEscape, Written;
    CleanParent(p);
    OnDiskIs(ren, qs, Parent(p), Leaf(p));
    FiledRightExactly(ren, Parent(p));
    assert Parent(p) + [Leaf(p)] == p;
    if p in ren { EscapeMarks(Leaf(p)); }
  }

  /** Reading back the importer's CASEMAP, component by component, finds the
      stored path of p if and only if no renamed component of p lies below an
      escaped top-level directory or below two escaped ones. */
  lemma {:induction false} OnDiskExactly(ren: Renaming, qs: seq<Path>, p: Path)
    requires Escapes(ren) && Written(ren, qs) && Rootless(qs) && Clean(p)
    ensures OnDiskPath(Loaded(ren, qs), p) == Stored(ren, p) <==> Recoverable(ren, p)
    decreases |p|
  {
    if p != [] {
      var m := Loaded(ren, qs);
      CleanParent(p);
      OnDiskExactly(ren, qs, Parent(p));
      RecoverableParent(ren, p);
      LastOnDisk(ren, qs, p);
      assert Parent(OnDiskPath(m, p)) == OnDiskPath(m, Parent(p)) && Parent(Stored(ren, p)) == Stored(ren, Parent(p));
      assert Leaf(OnDiskPath(m, p)) == Lookup(m.toStored, OnDiskPath(m, Parent(p)), Leaf(p));
    }
  }

  lemma SplitEqual(d: Path, x: Name, p: Path)
    requires p != []
    ensures d + [x] == p <==> d == Parent(p) && x == Leaf(p)
  {
    assert p == Parent(p) + [Leaf(p)] && Parent(d + [x]) == d;
  }

  lemma LastShown(ren: Renaming, qs: seq<Path>, p: Path)
    requires Escapes(ren) && Written(ren, qs) && Rootless(qs) && Clean(p) && p != []
    ensures Lookup(Loaded(ren, qs).toTrue, Stored(ren, Parent(p)), StoredLeaf(ren, p)) == Leaf(p)
       <==> (p in ren ==> OneEscape(ren, Parent(p)))
  {
    hide Lookup, Loaded, FiledRight, Stored, HasUpper, Escape, OneEscape, Written;
    CleanParent(p);
    ShownIs(ren, qs, Parent(p), Leaf(p));
    FiledRightExactly(ren, Parent(p));
    assert Parent(p) + [Leaf(p)] == p;
  }

  /** And under the same condition a listing shows the true path again. */
  lemma {:induction false} ShownExactly(ren: Renaming, qs: seq<Path>, p: Path)
    requires Escapes(ren) && Written(ren, qs) && Rootless(qs) && Clean(p)
    ensures ShownPath(Loaded(ren, qs), Stored(ren, p)) == p <==> Recoverable(ren, p)
    decreases |p|
  {
    if p != [] {
      var m, s := Loaded(ren, qs), Stored(ren, p);
      CleanParent(p);
      ShownExactly(ren, qs, Parent(p));
      RecoverableParent(ren, p);
      LastShown(ren, qs, p);
      assert Parent(s) == Stored(ren, Parent(p)) && Leaf(s) == StoredLeaf(ren, p);
      SplitEqual(ShownPath(m, Parent(s)), Lookup(m.toTrue, Parent(s), Leaf(s)), p);
    }
  }

  /** Both ways at once. */
  lemma ReadBack(ren: Renaming, qs: seq<Path>, p: Path)
    requires Escapes(ren) && Written(ren, qs) && Rootless(qs) && Clean(p)
    ensures OnDiskPath(Loaded(ren, qs), p) == Stored(ren, p) <==> Recoverable(ren, p)
    ensures ShownPath(Loaded(ren, qs), Stored(ren, p)) == p <==> Recoverable(ren, p)
  {
    OnDiskExactly(ren, qs, p);
    ShownExactly(ren, qs, p);
  }

  /** A name the importer never renamed passes through unchanged. */
  lemma OthersUntouched(ren: Renaming, qs: seq<Path>, p: Path, x: Name)
    requires Escapes(ren) && Written(ren, qs) && Rootless(qs) && Clean(p) && p + [x] !in ren
    ensures Lookup(Loaded(ren, qs).toStored, Stored(ren, p), x) == x
  {
    OnDiskIs(ren, qs, p, x);
  }

  // ---- how it fails ----

  lemma ReadNothing()
    ensures Read([]) == Maps(map[], map[], [])
  {
  }

  lemma ReadLast(rows: seq<Row>, r: Row)
    ensures Read(rows + [r]) == AddRow(Read(rows), r)
  {
    assert (rows + [r])[..|rows|] == rows;
  }

  lemma Walked(m: Maps, p: Path, x: Name)
    ensures var d := OnDiskPath(m, p); OnDiskPath(m, p + [x]) == d + [Lookup(m.toStored, d, x)]
  {
    assert Parent(p + [x]) == p && Leaf(p + [x]) == x;
  }

  lemma RowAdded(rows: seq<Row>, r: Row, sp: Path)
    requires Rewrite(r.parent, Read(rows).prefixes) == sp
    ensures Read(rows + [r]).toStored == Filed(Read(rows).toStored, Unfield(sp), r.shown, r.stored)
    ensures Read(rows + [r]).prefixes == Read(rows).prefixes + [Prefix(sp + [r.stored], r.parent + [r.shown])]
  {
    ReadLast(rows, r);
  }

  lemma Further(m: Maps, p: Path, x: Name, d: Path, y: Name)
    requires OnDiskPath(m, p) == d && Lookup(m.toStored, d, x) == y
    ensures OnDiskPath(m, p + [x]) == d + [y]
  {
    Walked(m, p, x);
  }

  /** Below an escaped directory at the top: its prefix is kept as "./A", which
      no later row's directory begins with. */
  lemma TopEscapeLost()
    ensures var rows := [Row(["."], "%41", "A"), Row(["A"], "%42", "B")];
            OnDiskPath(Read(rows), ["A"] + ["B"]) == ["%41"] + ["B"]
  {
    var r0, r1 := Row(["."], "%41", "A"), Row(["A"], "%42", "B");
    assert [] + [r0] == [r0] && [r0] + [r1] == [r0, r1];
    RowAdded([], r0, ["."]);
    FromIs(["A"]);
    RewriteNone(["A"], Read([r0]).prefixes);
    RowAdded([r0], r1, ["A"]);
    var m := Read([r0, r1]);
    assert m.toStored == map[[] := map["A" := "%41"], ["A"] := map["B" := "%42"]];
    Walked(m, [], "A");
    assert OnDiskPath(m, ["A"]) == ["%41"];
    Walked(m, ["A"], "B");
  }

  /** Below two escaped directories: the row of C is filed under d/%41/B. */
  lemma TwoEscapesLost()
    ensures var rows := [Row(["d"], "%41", "A"), Row(["d", "A"], "%42", "B"), Row(["d", "A", "B"], "%43", "C")];
            OnDiskPath(Read(rows), ["d", "A", "B"] + ["C"]) == ["d", "%41", "%42"] + ["C"]
  {
    hide Rewrite, Read;
    var m := TwoEscapesRead();
    FirstEscape(m);
    assert ["d", "A"] + ["B"] == ["d", "A", "B"] && ["d", "%41"] + ["%42"] == ["d", "%41", "%42"];
    Further(m, ["d", "A"], "B", ["d", "%41"], "%42");
    Further(m, ["d", "A", "B"], "C", ["d", "%41", "%42"], "C");
  }

  lemma FirstEscape(m: Maps)
    requires [] !in m.toStored && ["d"] in m.toStored && m.toStored[["d"]] == map["A" := "%41"]
    ensures OnDiskPath(m, ["d", "A"]) == ["d", "%41"]
  {
    assert [] + ["d"] == ["d"] && ["d"] + ["A"] == ["d", "A"] && ["d"] + ["%41"] == ["d", "%41"];
    Further(m, [], "d", [], "d");
    Further(m, ["d"], "A", ["d"], "%41");
  }

  lemma TwoEscapesRead() returns (m: Maps)
    ensures m == Read([Row(["d"], "%41", "A"), Row(["d", "A"], "%42", "B"), Row(["d", "A", "B"], "%43", "C")])
    ensures m.toStored == map[["d"] := map["A" := "%41"], ["d", "%41"] := map["B" := "%42"], ["d", "%41", "B"] := map["C" := "%43"]]
  {
    hide Read, Rewrite;
    ReadNothing();
    RewriteNone(["d"], []);
    var r0, r1, r2 := Row(["d"], "%41", "A"), Row(["d", "A"], "%42", "B"), Row(["d", "A", "B"], "%43", "C");
    var p0, p1 := Prefix(["d", "%41"], ["d", "A"]), Prefix(["d", "%41", "%42"], ["d", "A", "B"]);
    assert [] + [r0] == [r0] && [r0] + [r1] == [r0, r1] && [r0, r1] + [r2] == [r0, r1, r2];
    RowAdded([], r0, ["d"]);
    assert ["d"] + ["%41"] == p0.to && ["d"] + ["A"] == p0.from;
    assert Read([r0]).prefixes == [p0];
    RewriteOnce(["d", "A"], [p0], 0);
    RowAdded([r0], r1, ["d", "%41"]);
    assert ["d", "%41"] + ["%42"] == p1.to && ["d", "A"] + ["B"] == p1.from;
    assert Read([r0, r1]).prefixes == [p0, p1];
    assert p0.to + ["d", "A", "B"][2..] == ["d", "%41", "B"];
    assert ["d", "%41", "B"][1] != p1.from[1];
    RewriteOnce(["d", "A", "B"], [p0, p1], 0);
    RowAdded([r0, r1], r2, ["d", "%41", "B"]);
    m := Read([r0, r1, r2]);
  }
}
