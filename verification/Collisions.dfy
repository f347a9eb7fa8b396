/** What a resolution of case collisions must be, and what it buys: distinct
    paths stay distinct on a host that folds case. */
module Collisions {
  import opened Names

  /** Two different names of one directory that the host would confuse. */
  predicate Collide(p: Path, q: Path) {
    p != [] && q != [] && p != q && Parent(p) == Parent(q) && Lower(Leaf(p)) == Lower(Leaf(q))
  }

  /** Every component of every path, as the path that ends in it. */
  predicate Closed(all: set<Path>) {
    [] !in all && forall p :: p in all && |p| > 1 ==> Parent(p) in all
  }

  predicate PlainPaths(all: set<Path>) {
    forall p, i :: p in all && 0 <= i < |p| ==> Plain(p[i])
  }

  /** The losers of every group of colliding names, and only they, are escaped;
      each of them has a capital to escape. */
  predicate Resolves(all: set<Path>, ren: Renaming) {
    (forall p :: p in ren ==> p in all && p != [] && HasUpper(Leaf(p)) && ren[p] == Escape(Leaf(p)))
    && (forall p :: p in ren ==> exists q :: q in all && Collide(p, q))
    && (forall p, q :: p in all && q in all && Collide(p, q) ==> p in ren || q in ren)
  }

  lemma ClosedPrefix(all: set<Path>, p: Path, i: nat)
    requires Closed(all) && p in all && 0 < i <= |p|
    ensures p[..i] in all
    decreases |p|
  {
    if i == |p| {
      assert p[..i] == p;
    } else {
      ClosedPrefix(all, Parent(p), i);
      assert Parent(p)[..i] == p[..i];
    }
  }

  /** Two names of one directory are stored apart, even after folding. */
  lemma SiblingsApart(all: set<Path>, ren: Renaming, p: Path, q: Path)
    requires Closed(all) && PlainPaths(all) && Resolves(all, ren)
    requires p in all && q in all && p != q && Parent(p) == Parent(q)
    ensures Lower(StoredLeaf(ren, p)) != Lower(StoredLeaf(ren, q))
  {
    var a, b := Leaf(p), Leaf(q);
    assert p == Parent(p) + [a] && q == Parent(q) + [b];
    assert Plain(a) && Plain(b);
    PlainLower(a);
    PlainLower(b);
    if p in ren { EscapeMarks(a); }
    if q in ren { EscapeMarks(b); }
    EscapeApart(a, b);
    if p !in ren && q !in ren {
      assert !Collide(p, q);
    }
  }

  /** Different paths of the tree are stored apart, even after folding. */
  lemma {:induction false} StoredApart(all: set<Path>, ren: Renaming, p: Path, q: Path)
    requires Closed(all) && PlainPaths(all) && Resolves(all, ren)
    requires p in all && q in all && p != q
    ensures FoldPath(Stored(ren, p)) != FoldPath(Stored(ren, q))
    decreases |p|
  {
    if |p| == |q| {
      var sp, sq := Stored(ren, p), Stored(ren, q);
      var n := |p| - 1;
      if Parent(p) == Parent(q) {
        SiblingsApart(all, ren, p, q);
        assert FoldPath(sp)[n] == Lower(StoredLeaf(ren, p)) && FoldPath(sq)[n] == Lower(StoredLeaf(ren, q));
      } else {
        StoredApart(all, ren, Parent(p), Parent(q));
        FoldParent(sp);
        FoldParent(sq);
        assert Parent(sp) == Stored(ren, Parent(p)) && Parent(sq) == Stored(ren, Parent(q));
      }
    }
  }

  lemma FoldParent(s: Path)
    requires s != []
    ensures Parent(FoldPath(s)) == FoldPath(Parent(s))
  {
  }

  /** A tree with no collisions is left as it was. */
  lemma {:induction false} NothingChanged(all: set<Path>, ren: Renaming, p: Path)
    requires Resolves(all, ren) && forall a, b :: a in all && b in all ==> !Collide(a, b)
    ensures ren == map[] && Stored(ren, p) == p
    decreases |p|
  {
    assert forall q :: q in all ==> q !in ren;
    assert ren.Keys == {};
    if p != [] {
      NothingChanged(all, ren, Parent(p));
      assert Parent(p) + [Leaf(p)] == p;
    }
  }

  /** One line of CASEMAP: true parent, stored name, true name. */
  datatype Row = Row(parent: Path, stored: Name, shown: Name)

  function RowPath(r: Row): Path { r.parent + [r.shown] }

  // ---- paths as the host writes them ----

  function Text(p: Path): string {
    if p == [] then "" else if |p| == 1 then p[0] else Text(Parent(p)) + "/" + Leaf(p)
  }

  /** One component: a name with no slash in it. */
  predicate Component(n: Name) { n != "" && '/' !in n }

  predicate Components(p: Path) { forall i :: 0 <= i < |p| ==> Component(p[i]) }

  lemma SlashNotBefore(a: string, b: Name, c: string, d: Name)
    requires '/' !in b && a + "/" + b == c + "/" + d
    ensures |c| <= |a|
  {
    var s := a + "/" + b;
    assert s[|c|] == '/';
    assert forall i :: |a| < i < |s| ==> s[i] == b[i - |a| - 1] && s[i] != '/';
  }

  lemma LastSlash(a: string, b: Name, c: string, d: Name)
    requires Component(b) && Component(d) && a + "/" + b == c + "/" + d
    ensures a == c && b == d
  {
    SlashNotBefore(a, b, c, d);
    SlashNotBefore(c, d, a, b);
    var s := a + "/" + b;
    assert a == s[..|a|] && c == s[..|c|];
    assert b == s[|a| + 1..] && d == s[|c| + 1..];
  }

  lemma NoSlash(a: string, b: Name, d: Name)
    requires Component(d)
    ensures a + "/" + b != d
  {
    assert (a + "/" + b)[|a|] == '/';
  }

  lemma TextEmpty(p: Path)
    requires Components(p)
    ensures Text(p) == "" <==> p == []
  {
    if |p| == 1 { assert Component(p[0]); }
  }

  /** Slash-joined paths are equal only when their components are. */
  lemma {:induction false} TextInjective(p: Path, q: Path)
    requires Components(p) && Components(q) && Text(p) == Text(q)
    ensures p == q
    decreases |p|
  {
    TextEmpty(p);
    TextEmpty(q);
    if p == [] || q == [] {
      assert p == q;
    } else if |p| == 1 {
      assert |q| <= 1 by { if |q| > 1 { NoSlash(Text(Parent(q)), Leaf(q), p[0]); assert false; } }
    } else {
      assert |q| > 1 by { if |q| == 1 { NoSlash(Text(Parent(p)), Leaf(p), q[0]); assert false; } }
      LastSlash(Text(Parent(p)), Leaf(p), Text(Parent(q)), Leaf(q));
      TextInjective(Parent(p), Parent(q));
      assert p == Parent(p) + [Leaf(p)] && q == Parent(q) + [Leaf(q)];
    }
  }

  lemma LowerSlash(n: Name)
    ensures '/' in Lower(n) <==> '/' in n
  {
    if '/' in n {
      var i :| 0 <= i < |n| && n[i] == '/';
      assert Lower(n)[i] == '/';
    }
    if '/' in Lower(n) {
      var i :| 0 <= i < |n| && Lower(n)[i] == '/';
      assert n[i] == '/';
    }
  }

  lemma LowerJoins(a: Name, b: Name)
    ensures Lower(a + "/" + b) == Lower(a) + "/" + Lower(b)
  {
  }

  /** Folding a joined path folds its components. */
  lemma {:induction false} LowerText(p: Path)
    ensures Lower(Text(p)) == Text(FoldPath(p))
    decreases |p|
  {
    if |p| > 1 {
      LowerText(Parent(p));
      LowerJoins(Text(Parent(p)), Leaf(p));
      FoldParent(p);
    }
  }

  lemma StoredLeafComponent(all: set<Path>, ren: Renaming, p: Path)
    requires Resolves(all, ren) && p != [] && Component(Leaf(p))
    ensures Component(StoredLeaf(ren, p)) && Component(Lower(StoredLeaf(ren, p)))
  {
    EscapeOneComponent(Leaf(p));
    LowerSlash(StoredLeaf(ren, p));
  }

  lemma ComponentsStored(all: set<Path>, ren: Renaming, p: Path)
    requires Closed(all) && Resolves(all, ren) && Components(p)
    ensures Components(Stored(ren, p)) && Components(FoldPath(Stored(ren, p)))
  {
    var s := Stored(ren, p);
    forall i | 0 <= i < |s|
      ensures Component(s[i]) && Component(FoldPath(s)[i])
    {
      StoredAt(ren, p, i);
      assert Leaf(p[..i + 1]) == p[i];
      StoredLeafComponent(all, ren, p[..i + 1]);
    }
  }

  /** As the host sees them: the joined, folded spellings of different paths
      differ. */
  lemma StoredTextsApart(all: set<Path>, ren: Renaming, p: Path, q: Path)
    requires Closed(all) && PlainPaths(all) && Resolves(all, ren)
    requires p in all && q in all && p != q && Components(p) && Components(q)
    ensures Lower(Text(Stored(ren, p))) != Lower(Text(Stored(ren, q)))
  {
    StoredApart(all, ren, p, q);
    ComponentsStored(all, ren, p);
    ComponentsStored(all, ren, q);
    LowerText(Stored(ren, p));
    LowerText(Stored(ren, q));
    if Text(FoldPath(Stored(ren, p))) == Text(FoldPath(Stored(ren, q))) {
      TextInjective(FoldPath(Stored(ren, p)), FoldPath(Stored(ren, q)));
      assert false;
    }
  }
}
