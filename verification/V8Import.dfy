/** build_tree() and flatten() of tools/v8-import.py: the tape's paths as a tree,
    and the spelling each is stored under. */
module V8Import {
  import opened Names
  import opened Collisions

  datatype Node = Node(name: Name, order: int, entry: bool, children: seq<Node>)

  datatype Entry = Entry(path: Path, order: int)

  /** Index of the child called n, or the number of children. */
  function Find(cs: seq<Node>, n: Name): (i: nat)
    ensures i <= |cs|
    ensures i < |cs| ==> cs[i].name == n
    ensures forall j :: 0 <= j < i ==> cs[j].name != n
  {
    if cs == [] then 0 else if cs[0].name == n then 0 else 1 + Find(cs[1..], n)
  }

  predicate Has(cs: seq<Node>, n: Name) { Find(cs, n) < |cs| }

  /** One entry of build_tree(): a path is walked, making the nodes it lacks. */
  function Grow(cs: seq<Node>, path: Path, order: int): seq<Node>
    requires path != []
    decreases |path|
  {
    var i := Find(cs, path[0]);
    var ds := if i < |cs| then cs else cs + [Node(path[0], order, false, [])];
    var d := ds[i];
    ds[i := if |path| == 1 then d.(entry := true) else d.(children := Grow(d.children, path[1..], order))]
  }

  /** build_tree(): the children of the root. */
  function Build(es: seq<Entry>): seq<Node>
    requires forall i :: 0 <= i < |es| ==> es[i].path != []
  {
    if es == [] then [] else Grow(Build(es[..|es| - 1]), es[|es| - 1].path, es[|es| - 1].order)
  }

  // ---- the tree as a set of paths ----

  /** The children of the directory at p. */
  function Kids(cs: seq<Node>, p: Path): seq<Node>
    decreases |p|
  {
    if p == [] then cs
    else if Has(cs, p[0]) then Kids(cs[Find(cs, p[0])].children, p[1..])
    else []
  }

  predicate InTree(cs: seq<Node>, p: Path) {
    p != [] && Has(Kids(cs, Parent(p)), Leaf(p))
  }

  function NodeAt(cs: seq<Node>, p: Path): Node
    requires InTree(cs, p)
  {
    var ks := Kids(cs, Parent(p));
    ks[Find(ks, Leaf(p))]
  }

  lemma {:induction false} InTreeDown(cs: seq<Node>, p: Path)
    requires |p| > 1
    ensures InTree(cs, p) <==> Has(cs, p[0]) && InTree(cs[Find(cs, p[0])].children, p[1..])
    ensures InTree(cs, p) ==> NodeAt(cs, p) == NodeAt(cs[Find(cs, p[0])].children, p[1..])
    ensures Has(cs, p[0]) ==> Kids(cs, Parent(p)) == Kids(cs[Find(cs, p[0])].children, Parent(p[1..]))
  {
    assert Parent(p)[0] == p[0] && Parent(p)[1..] == Parent(p[1..]) && Leaf(p[1..]) == Leaf(p);
  }

  /** A path walked into the tree is there with all its prefixes, and nothing
      else is new; a node keeps the order it was made with. */
  lemma {:induction false} GrowPaths(cs: seq<Node>, path: Path, order: int, p: Path)
    requires path != [] && p != []
    ensures InTree(Grow(cs, path, order), p) <==> InTree(cs, p) || Above(p, path)
    ensures InTree(cs, p) ==> NodeAt(Grow(cs, path, order), p).order == NodeAt(cs, p).order
    ensures !InTree(cs, p) && Above(p, path) ==> NodeAt(Grow(cs, path, order), p).order == order
    decreases |p|
  {
    var i := Find(cs, path[0]);
    var made := Node(path[0], order, false, []);
    var ds := if i < |cs| then cs else cs + [made];
    var gs := Grow(cs, path, order);
    FindAfter(ds, gs, i, p[0]);
    FindAppend(cs, made, p[0]);
    if |p| == 1 {
      assert Parent(p) == [];
      assert Above(p, path) <==> p[0] == path[0];
    } else {
      InTreeDown(cs, p);
      InTreeDown(gs, p);
      if p[0] == path[0] {
        GrowBelow(cs, path, order, p, ds, i);
      }
    }
  }

  lemma {:induction false} GrowBelow(cs: seq<Node>, path: Path, order: int, p: Path, ds: seq<Node>, i: nat)
    requires path != [] && |p| > 1 && p[0] == path[0] && i == Find(cs, path[0])
    requires ds == if i < |cs| then cs else cs + [Node(path[0], order, false, [])]
    ensures var below := (if |path| == 1 then ds[i].children else Grow(ds[i].children, path[1..], order));
            (InTree(below, p[1..]) <==> InTree(cs, p) || Above(p, path))
            && (InTree(cs, p) ==> NodeAt(below, p[1..]).order == NodeAt(cs, p).order)
            && (!InTree(cs, p) && Above(p, path) ==> NodeAt(below, p[1..]).order == order)
    decreases |p|, 0
  {
    InTreeDown(cs, p);
    NothingInNothing(p[1..]);
    if |path| > 1 {
      GrowPaths(ds[i].children, path[1..], order, p[1..]);
      AboveDown(p, path);
    }
  }

  lemma AboveDown(p: Path, path: Path)
    requires |p| > 1 && path != [] && p[0] == path[0]
    ensures Above(p, path) <==> Above(p[1..], path[1..])
  {
    assert p == [p[0]] + p[1..] && path == [path[0]] + path[1..];
    if Above(p[1..], path[1..]) {
      assert forall k :: 1 <= k < |p| ==> p[k] == p[1..][k - 1] == path[1..][k - 1];
    }
    if Above(p, path) {
      assert forall k :: 0 <= k < |p| - 1 ==> p[1..][k] == path[1..][k];
    }
  }

  lemma NothingInNothing(p: Path)
    requires p != []
    ensures !InTree([], p)
  {
    if |p| > 1 { InTreeDown([], p); }
  }

  lemma {:induction false} FindAppend(cs: seq<Node>, d: Node, n: Name)
    ensures Find(cs + [d], n) == if Has(cs, n) then Find(cs, n) else if d.name == n then |cs| else |cs| + 1
  {
    if cs != [] {
      assert (cs + [d])[1..] == cs[1..] + [d];
      FindAppend(cs[1..], d, n);
    }
  }

  lemma FindAfter(ds: seq<Node>, gs: seq<Node>, i: nat, n: Name)
    requires |ds| == |gs| && i < |ds| && gs == ds[i := gs[i]] && gs[i].name == ds[i].name
    ensures Find(gs, n) == Find(ds, n)
  {
    var a, b := Find(gs, n), Find(ds, n);
    assert forall j :: 0 <= j < |ds| ==> gs[j].name == ds[j].name;
  }

  predicate IsPrefixOfOne(es: seq<Entry>, p: Path) { exists i :: 0 <= i < |es| && Above(p, es[i].path) }

  /** The tree holds every component of every path, and nothing else. */
  lemma {:induction false} BuildPaths(es: seq<Entry>, p: Path)
    requires (forall i :: 0 <= i < |es| ==> es[i].path != []) && p != []
    ensures InTree(Build(es), p) <==> IsPrefixOfOne(es, p)
    decreases |es|
  {
    if es == [] {
      NothingInNothing(p);
    } else {
      var before, last := es[..|es| - 1], es[|es| - 1];
      BuildPaths(before, p);
      GrowPaths(Build(before), last.path, last.order, p);
      assert IsPrefixOfOne(es, p) <==> IsPrefixOfOne(before, p) || Above(p, last.path) by {
        assert forall i :: 0 <= i < |before| ==> before[i] == es[i];
        if IsPrefixOfOne(before, p) {
          var i :| 0 <= i < |before| && Above(p, before[i].path);
          assert Above(p, es[i].path);
        }
      }
    }
  }

  /** A node stays an entry, and the path walked ends in one. */
  lemma {:induction false} GrowEntry(cs: seq<Node>, path: Path, order: int, p: Path)
    requires path != [] && p != [] && (p == path || (InTree(cs, p) && NodeAt(cs, p).entry))
    ensures InTree(Grow(cs, path, order), p) && NodeAt(Grow(cs, path, order), p).entry
    decreases |p|
  {
    var i := Find(cs, path[0]);
    var made := Node(path[0], order, false, []);
    var ds := if i < |cs| then cs else cs + [made];
    var gs := Grow(cs, path, order);
    GrowPaths(cs, path, order, p);
    assert Above(path, path);
    FindAfter(ds, gs, i, p[0]);
    FindAppend(cs, made, p[0]);
    if |p| == 1 {
      assert Parent(p) == [];
    } else {
      InTreeDown(gs, p);
      if p != path { InTreeDown(cs, p); }
      if p[0] == path[0] && |path| > 1 {
        if p == path { assert p[1..] == path[1..]; } else { NothingInNothing(p[1..]); }
        GrowEntry(ds[i].children, path[1..], order, p[1..]);
      }
    }
  }

  /** Every file of the tape is an entry of the tree. */
  lemma {:induction false} BuildEntry(es: seq<Entry>, i: nat)
    requires (forall j :: 0 <= j < |es| ==> es[j].path != []) && i < |es|
    ensures InTree(Build(es), es[i].path) && NodeAt(Build(es), es[i].path).entry
    decreases |es|
  {
    var before, last := es[..|es| - 1], es[|es| - 1];
    if i < |before| {
      assert before[i] == es[i];
      BuildEntry(before, i);
    }
    GrowEntry(Build(before), last.path, last.order, es[i].path);
  }

  /** A node's order is that of the first entry that mentions it. */
  lemma {:induction false} BuildOrder(es: seq<Entry>, p: Path, i: nat)
    requires (forall j :: 0 <= j < |es| ==> es[j].path != []) && p != []
    requires i < |es| && Above(p, es[i].path) && forall j :: 0 <= j < i ==> !Above(p, es[j].path)
    ensures InTree(Build(es), p) && NodeAt(Build(es), p).order == es[i].order
    decreases |es|
  {
    var before, last := es[..|es| - 1], es[|es| - 1];
    BuildPaths(before, p);
    GrowPaths(Build(before), last.path, last.order, p);
    if i < |before| {
      BuildOrder(before, p, i);
    } else {
      assert !IsPrefixOfOne(before, p);
    }
  }

  // ---- which of a group keeps its name ----

  predicate SameFold(cs: seq<Node>, i: nat, j: nat)
    requires i < |cs| && j < |cs|
  {
    Lower(cs[i].name) == Lower(cs[j].name)
  }

  /** flatten()'s canon: a name with no capitals if the group has one, else the
      one the tape gave first. */
  predicate IsCanon(cs: seq<Node>, i: nat)
    requires i < |cs|
  {
    if exists j :: 0 <= j < |cs| && SameFold(cs, i, j) && !HasUpper(cs[j].name) then !HasUpper(cs[i].name)
    else forall j :: 0 <= j < |cs| && j != i && SameFold(cs, i, j) ==>
           cs[i].order < cs[j].order || (cs[i].order == cs[j].order && i < j)
  }

  predicate Alone(cs: seq<Node>, i: nat)
    requires i < |cs|
  {
    forall j :: 0 <= j < |cs| && j != i ==> !SameFold(cs, i, j)
  }

  predicate Keeps(cs: seq<Node>, i: nat)
    requires i < |cs|
  {
    Alone(cs, i) || IsCanon(cs, i)
  }

  predicate NamesDiffer(cs: seq<Node>) {
    forall i, j :: 0 <= i < j < |cs| ==> cs[i].name != cs[j].name
  }

  /** In each group at most one keeps its name, and a loser has a capital. */
  lemma OneKeeps(cs: seq<Node>, i: nat, j: nat)
    requires NamesDiffer(cs) && i < |cs| && j < |cs| && i != j && SameFold(cs, i, j)
    ensures !Keeps(cs, i) || !Keeps(cs, j)
    ensures !Keeps(cs, i) ==> HasUpper(cs[i].name)
  {
    if !HasUpper(cs[i].name) { LowerOfLower(cs[i].name); }
    if !HasUpper(cs[j].name) { LowerOfLower(cs[j].name); }
    assert SameFold(cs, j, i) && !Alone(cs, i) && !Alone(cs, j);
    if exists k :: 0 <= k < |cs| && SameFold(cs, i, k) && !HasUpper(cs[k].name) {
      var k :| 0 <= k < |cs| && SameFold(cs, i, k) && !HasUpper(cs[k].name);
      assert SameFold(cs, j, k);
    } else {
      assert forall k :: 0 <= k < |cs| && SameFold(cs, j, k) ==> SameFold(cs, i, k);
    }
  }

  lemma FindNth(cs: seq<Node>, i: nat)
    requires NamesDiffer(cs) && i < |cs|
    ensures Find(cs, cs[i].name) == i
  {
  }

  // ---- flatten ----

  /** Names differ in every directory. */
  predicate Tidy(cs: seq<Node>) {
    NamesDiffer(cs) && forall i :: 0 <= i < |cs| ==> Tidy(cs[i].children)
  }

  lemma {:induction false} GrowTidy(cs: seq<Node>, path: Path, order: int)
    requires Tidy(cs) && path != []
    ensures Tidy(Grow(cs, path, order))
    decreases |path|
  {
    var i := Find(cs, path[0]);
    var made := Node(path[0], order, false, []);
    var ds := if i < |cs| then cs else cs + [made];
    assert Tidy(ds) by {
      if i == |cs| {
        forall j | 0 <= j < |ds| ensures Tidy(ds[j].children) { assert j < |cs| ==> ds[j] == cs[j]; }
      }
    }
    if |path| > 1 { GrowTidy(ds[i].children, path[1..], order); }
    var gs := Grow(cs, path, order);
    assert forall j :: 0 <= j < |gs| ==> gs[j].name == ds[j].name;
    forall j | 0 <= j < |gs| ensures Tidy(gs[j].children) {}
  }

  lemma {:induction false} BuildTidy(es: seq<Entry>)
    requires forall i :: 0 <= i < |es| ==> es[i].path != []
    ensures Tidy(Build(es))
    decreases |es|
  {
    if es != [] {
      BuildTidy(es[..|es| - 1]);
      GrowTidy(Build(es[..|es| - 1]), es[|es| - 1].path, es[|es| - 1].order);
    }
  }

  datatype Flat = Flat(shown: Path, stored: Path)

  function SpelledName(cs: seq<Node>, i: nat): Name
    requires i < |cs|
  {
    if Keeps(cs, i) then cs[i].name else Escape(cs[i].name)
  }

  /** What flatten() emits below one directory, from its i-th child on: every
      entry with its true and stored path. */
  function Flatten(cs: seq<Node>, i: nat, shown: Path, stored: Path): seq<Flat>
    requires i <= |cs|
    decreases cs, |cs| - i
  {
    if i == |cs| then []
    else
      var t, s := shown + [cs[i].name], stored + [SpelledName(cs, i)];
      (if cs[i].entry then [Flat(t, s)] else [])
      + Flatten(cs[i].children, 0, t, s)
      + Flatten(cs, i + 1, shown, stored)
  }

  /** The collisions it reports: every child that does not keep its name. */
  function Reported(cs: seq<Node>, i: nat, shown: Path, stored: Path): seq<Flat>
    requires i <= |cs|
    decreases cs, |cs| - i
  {
    if i == |cs| then []
    else
      var t, s := shown + [cs[i].name], stored + [SpelledName(cs, i)];
      (if Keeps(cs, i) then [] else [Flat(t, s)])
      + Reported(cs[i].children, 0, t, s)
      + Reported(cs, i + 1, shown, stored)
  }

  /** Whatever a child emits, the directory does. */
  lemma {:induction false} FlattenHasChild(cs: seq<Node>, i: nat, k: nat, shown: Path, stored: Path)
    requires i <= k < |cs|
    ensures var t, s := shown + [cs[k].name], stored + [SpelledName(cs, k)];
            (cs[k].entry ==> Flat(t, s) in Flatten(cs, i, shown, stored))
            && forall f :: f in Flatten(cs[k].children, 0, t, s) ==> f in Flatten(cs, i, shown, stored)
    decreases |cs| - i
  {
    hide Keeps, Escape;
    if i < k { FlattenHasChild(cs, i + 1, k, shown, stored); }
  }

  /** Every entry of the tree is emitted. */
  lemma {:induction false} EntryEmitted(cs: seq<Node>, shown: Path, stored: Path, p: Path) returns (f: Flat)
    requires InTree(cs, p) && NodeAt(cs, p).entry
    ensures f in Flatten(cs, 0, shown, stored) && f.shown == shown + p
    decreases |p|
  {
    hide Flatten, SpelledName;
    if |p| > 1 { InTreeDown(cs, p); } else { assert Parent(p) == []; }
    var k := Find(cs, p[0]);
    FlattenHasChild(cs, 0, k, shown, stored);
    var t, s := shown + [cs[k].name], stored + [SpelledName(cs, k)];
    if |p| > 1 {
      f := EntryEmitted(cs[k].children, t, s, p[1..]);
      assert t + p[1..] == shown + p;
    } else {
      f := Flat(t, s);
      assert [cs[k].name] == p;
    }
  }

  /** Every file of the tape is emitted under its own path. */
  lemma TapeEmitted(es: seq<Entry>, i: nat) returns (f: Flat)
    requires (forall j :: 0 <= j < |es| ==> es[j].path != []) && i < |es|
    ensures f in Flatten(Build(es), 0, [], []) && f.shown == es[i].path
  {
    hide Flatten, Build;
    BuildEntry(es, i);
    f := EntryEmitted(Build(es), [], [], es[i].path);
    assert [] + es[i].path == es[i].path;
  }

  // ---- the renaming that flatten() makes ----

  /** Every path below one directory, from its i-th child on. */
  function Paths(cs: seq<Node>, i: nat, prefix: Path): set<Path>
    requires i <= |cs|
    decreases cs, |cs| - i
  {
    if i == |cs| then {}
    else
      var t := prefix + [cs[i].name];
      {t} + Paths(cs[i].children, 0, t) + Paths(cs, i + 1, prefix)
  }

  lemma {:induction false} KidsStep(cs: seq<Node>, p: Path, n: Name)
    ensures Kids(cs, p + [n]) == if Has(Kids(cs, p), n) then Kids(cs, p)[Find(Kids(cs, p), n)].children else []
    decreases |p|
  {
    if p != [] {
      assert (p + [n])[0] == p[0] && (p + [n])[1..] == p[1..] + [n];
      if Has(cs, p[0]) {
        KidsStep(cs[Find(cs, p[0])].children, p[1..], n);
      }
    } else {
      assert ([] + [n])[1..] == [];
    }
  }

  lemma {:induction false} KidsTidy(cs: seq<Node>, p: Path)
    requires Tidy(cs)
    ensures Tidy(Kids(cs, p))
    decreases |p|
  {
    if p != [] && Has(cs, p[0]) { KidsTidy(cs[Find(cs, p[0])].children, p[1..]); }
  }

  lemma ChildInTree(root: seq<Node>, cs: seq<Node>, prefix: Path, i: nat)
    requires Tidy(root) && cs == Kids(root, prefix) && i < |cs|
    ensures InTree(root, prefix + [cs[i].name]) && Find(cs, cs[i].name) == i
    ensures Kids(root, prefix + [cs[i].name]) == cs[i].children
  {
    KidsTidy(root, prefix);
    FindNth(cs, i);
    assert Parent(prefix + [cs[i].name]) == prefix;
    KidsStep(root, prefix, cs[i].name);
  }

  /** Paths lists the tree: everything in it is in the tree... */
  lemma {:induction false} PathsInTree(root: seq<Node>, cs: seq<Node>, i: nat, prefix: Path, p: Path)
    requires Tidy(root) && cs == Kids(root, prefix) && i <= |cs| && p in Paths(cs, i, prefix)
    ensures InTree(root, p)
    decreases cs, |cs| - i
  {
    if i < |cs| {
      var t := prefix + [cs[i].name];
      ChildInTree(root, cs, prefix, i);
      if p in Paths(cs[i].children, 0, t) {
        PathsInTree(root, cs[i].children, 0, t, p);
      } else if p != t {
        PathsInTree(root, cs, i + 1, prefix, p);
      }
    }
  }

  lemma {:induction false} PathsHasChild(cs: seq<Node>, i: nat, k: nat, prefix: Path)
    requires i <= k < |cs|
    ensures prefix + [cs[k].name] in Paths(cs, i, prefix)
    ensures Paths(cs[k].children, 0, prefix + [cs[k].name]) <= Paths(cs, i, prefix)
    decreases |cs| - i
  {
    if i < k { PathsHasChild(cs, i + 1, k, prefix); }
  }

  /** ...and everything in the tree is there. */
  lemma {:induction false} TreeInPaths(cs: seq<Node>, prefix: Path, p: Path)
    requires InTree(cs, p)
    ensures prefix + p in Paths(cs, 0, prefix)
    decreases |p|
  {
    if |p| == 1 {
      assert Parent(p) == [];
      var k := Find(cs, p[0]);
      PathsHasChild(cs, 0, k, prefix);
      assert prefix + p == prefix + [cs[k].name];
    } else {
      InTreeDown(cs, p);
      var k := Find(cs, p[0]);
      PathsHasChild(cs, 0, k, prefix);
      TreeInPaths(cs[k].children, prefix + [cs[k].name], p[1..]);
      assert prefix + p == (prefix + [cs[k].name]) + p[1..];
    }
  }

  function AllPaths(cs: seq<Node>): set<Path> { Paths(cs, 0, []) }

  lemma AllPathsAre(cs: seq<Node>, p: Path)
    requires Tidy(cs)
    ensures p in AllPaths(cs) <==> InTree(cs, p)
  {
    if p in AllPaths(cs) { PathsInTree(cs, cs, 0, [], p); }
    if InTree(cs, p) {
      TreeInPaths(cs, [], p);
      assert [] + p == p;
    }
  }

  predicate KeepsAt(cs: seq<Node>, p: Path)
    requires InTree(cs, p)
  {
    Keeps(Kids(cs, Parent(p)), Find(Kids(cs, Parent(p)), Leaf(p)))
  }

  /** The losers' stored names. */
  function Renames(cs: seq<Node>): Renaming {
    map p | p in AllPaths(cs) && InTree(cs, p) && !KeepsAt(cs, p) :: Escape(Leaf(p))
  }

  lemma AllPathsClosed(cs: seq<Node>)
    requires Tidy(cs)
    ensures Closed(AllPaths(cs))
  {
    forall p | p in AllPaths(cs)
      ensures p != [] && (|p| > 1 ==> Parent(p) in AllPaths(cs))
    {
      AllPathsAre(cs, p);
      if |p| > 1 {
        var d := Parent(p);
        KidsStep(cs, Parent(d), Leaf(d));
        assert d == Parent(d) + [Leaf(d)];
        AllPathsAre(cs, d);
      }
    }
  }

  lemma Rival(ks: seq<Node>, i: nat) returns (j: nat)
    requires NamesDiffer(ks) && i < |ks| && !Keeps(ks, i)
    ensures j < |ks| && j != i && SameFold(ks, i, j) && HasUpper(ks[i].name)
  {
    assert !Alone(ks, i);
    j :| 0 <= j < |ks| && j != i && SameFold(ks, i, j);
    OneKeeps(ks, i, j);
  }

  lemma RenamedHasRival(cs: seq<Node>, p: Path)
    requires Tidy(cs) && p in Renames(cs)
    ensures HasUpper(Leaf(p)) && exists q :: q in AllPaths(cs) && Collide(p, q)
  {
    var ks := Kids(cs, Parent(p));
    KidsTidy(cs, Parent(p));
    var j := Rival(ks, Find(ks, Leaf(p)));
    var q := Parent(p) + [ks[j].name];
    ChildInTree(cs, ks, Parent(p), j);
    AllPathsAre(cs, q);
    assert Collide(p, q);
  }

  lemma PairResolved(cs: seq<Node>, p: Path, q: Path)
    requires Tidy(cs) && p in AllPaths(cs) && q in AllPaths(cs) && Collide(p, q)
    ensures p in Renames(cs) || q in Renames(cs)
  {
    AllPathsAre(cs, p);
    AllPathsAre(cs, q);
    var ks := Kids(cs, Parent(p));
    KidsTidy(cs, Parent(p));
    assert p == Parent(p) + [Leaf(p)] && q == Parent(q) + [Leaf(q)];
    OneKeeps(ks, Find(ks, Leaf(p)), Find(ks, Leaf(q)));
  }

  /** flatten()'s renaming is a resolution of the tree's collisions. */
  lemma ImportResolves(cs: seq<Node>)
    requires Tidy(cs)
    ensures Closed(AllPaths(cs)) && Resolves(AllPaths(cs), Renames(cs))
  {
    AllPathsClosed(cs);
    forall p | p in Renames(cs)
      ensures HasUpper(Leaf(p)) && exists q :: q in AllPaths(cs) && Collide(p, q)
    {
      RenamedHasRival(cs, p);
    }
    forall p, q | p in AllPaths(cs) && q in AllPaths(cs) && Collide(p, q)
      ensures p in Renames(cs) || q in Renames(cs)
    {
      PairResolved(cs, p, q);
    }
  }

  lemma SpelledIsStored(root: seq<Node>, cs: seq<Node>, prefix: Path, i: nat)
    requires Tidy(root) && cs == Kids(root, prefix) && i < |cs|
    ensures var t := prefix + [cs[i].name];
            Stored(Renames(root), t) == Stored(Renames(root), prefix) + [SpelledName(cs, i)]
            && (t in Renames(root) <==> !Keeps(cs, i))
  {
    var t := prefix + [cs[i].name];
    ChildInTree(root, cs, prefix, i);
    AllPathsAre(root, t);
    assert Parent(t) == prefix && Leaf(t) == cs[i].name;
  }

  /** Every path that flatten() emits goes with its stored spelling. */
  lemma {:induction false} FlattenStores(root: seq<Node>, cs: seq<Node>, i: nat, prefix: Path, f: Flat)
    requires Tidy(root) && cs == Kids(root, prefix) && i <= |cs|
    requires f in Flatten(cs, i, prefix, Stored(Renames(root), prefix))
          || f in Reported(cs, i, prefix, Stored(Renames(root), prefix))
    ensures f.stored == Stored(Renames(root), f.shown) && f.shown in AllPaths(root)
    decreases cs, |cs| - i
  {
    if i < |cs| {
      var t := prefix + [cs[i].name];
      var s := Stored(Renames(root), prefix);
      SpelledIsStored(root, cs, prefix, i);
      ChildInTree(root, cs, prefix, i);
      AllPathsAre(root, t);
      var ts := Stored(Renames(root), t);
      if f in Flatten(cs[i].children, 0, t, ts) || f in Reported(cs[i].children, 0, t, ts) {
        FlattenStores(root, cs[i].children, 0, t, f);
      } else if f != Flat(t, ts) {
        FlattenStores(root, cs, i + 1, prefix, f);
      }
    }
  }

  lemma SplitPath(prefix: Path, p: Path)
    requires p != []
    ensures prefix + p == (prefix + [p[0]]) + p[1..]
    ensures |p| == 1 ==> prefix + p == prefix + [p[0]]
  {
  }

  /** Every loser below a directory is reported. */
  lemma {:induction false} LoserReported(root: seq<Node>, cs: seq<Node>, prefix: Path, p: Path, q: Path)
    requires Tidy(root) && cs == Kids(root, prefix) && InTree(cs, p) && q == prefix + p && q in Renames(root)
    ensures Flat(q, Stored(Renames(root), q)) in Reported(cs, 0, prefix, Stored(Renames(root), prefix))
    decreases |p|
  {
    if |p| > 1 { InTreeDown(cs, p); } else { assert Parent(p) == []; }
    var k := Find(cs, p[0]);
    var t := prefix + [cs[k].name];
    SpelledIsStored(root, cs, prefix, k);
    ReportedHasChild(cs, 0, k, prefix, Stored(Renames(root), prefix));
    SplitPath(prefix, p);
    if |p| > 1 {
      ChildInTree(root, cs, prefix, k);
      LoserReported(root, cs[k].children, t, p[1..], q);
    }
  }

  lemma {:induction false} ReportedHasChild(cs: seq<Node>, i: nat, k: nat, shown: Path, stored: Path)
    requires i <= k < |cs|
    ensures var t, s := shown + [cs[k].name], stored + [SpelledName(cs, k)];
            (!Keeps(cs, k) ==> Flat(t, s) in Reported(cs, i, shown, stored))
            && forall f :: f in Reported(cs[k].children, 0, t, s) ==> f in Reported(cs, i, shown, stored)
    decreases |cs| - i
  {
    hide Keeps, IsCanon, Alone, Escape;
    if i < k { ReportedHasChild(cs, i + 1, k, shown, stored); }
  }

  /** What is reported is a loser. */
  lemma {:induction false} ReportedLoses(root: seq<Node>, cs: seq<Node>, i: nat, prefix: Path, f: Flat)
    requires Tidy(root) && cs == Kids(root, prefix) && i <= |cs|
    requires f in Reported(cs, i, prefix, Stored(Renames(root), prefix))
    ensures f.shown in Renames(root)
    decreases cs, |cs| - i
  {
    if i < |cs| {
      var t := prefix + [cs[i].name];
      SpelledIsStored(root, cs, prefix, i);
      ChildInTree(root, cs, prefix, i);
      var ts := Stored(Renames(root), t);
      if f in Reported(cs[i].children, 0, t, ts) {
        ReportedLoses(root, cs[i].children, 0, t, f);
      } else if f in Reported(cs, i + 1, prefix, Stored(Renames(root), prefix)) {
        ReportedLoses(root, cs, i + 1, prefix, f);
      }
    }
  }

  // ---- the whole import ----

  predicate Sound(es: seq<Entry>) {
    forall i :: 0 <= i < |es| ==>
      es[i].path != [] && Components(es[i].path) && forall k :: 0 <= k < |es[i].path| ==> Plain(es[i].path[k])
  }

  lemma TreeSound(es: seq<Entry>, p: Path)
    requires Sound(es) && p in AllPaths(Build(es))
    ensures Components(p) && forall k :: 0 <= k < |p| ==> Plain(p[k])
  {
    BuildTidy(es);
    AllPathsAre(Build(es), p);
    BuildPaths(es, p);
    var i :| 0 <= i < |es| && Above(p, es[i].path);
    assert forall k :: 0 <= k < |p| ==> p[k] == es[i].path[k];
  }

  /** For every tape of percent-free names: the losers are exactly what flatten()
      reports, the report is a resolution of the tree's collisions, and so the
      importer's own check that no two stored paths fold alike always passes. */
  lemma ImportSafe(es: seq<Entry>, f: Flat, g: Flat)
    requires Sound(es)
    requires f in Flatten(Build(es), 0, [], []) && g in Flatten(Build(es), 0, [], []) && f.shown != g.shown
    ensures Lower(Text(f.stored)) != Lower(Text(g.stored))
    ensures Resolves(AllPaths(Build(es)), Renames(Build(es)))
  {
    var cs := Build(es);
    BuildTidy(es);
    ImportResolves(cs);
    FlattenStores(cs, cs, 0, [], f);
    FlattenStores(cs, cs, 0, [], g);
    TreeSound(es, f.shown);
    TreeSound(es, g.shown);
    assert PlainPaths(AllPaths(cs)) by {
      forall p, i | p in AllPaths(cs) && 0 <= i < |p|
        ensures Plain(p[i])
      {
        TreeSound(es, p);
      }
    }
    StoredTextsApart(AllPaths(cs), Renames(cs), f.shown, g.shown);
  }

  lemma ReportIsRenaming(es: seq<Entry>, p: Path)
    requires Sound(es)
    ensures p in Renames(Build(es)) <==> exists f :: f in Reported(Build(es), 0, [], []) && f.shown == p
    ensures p in Renames(Build(es)) ==> Flat(p, Stored(Renames(Build(es)), p)) in Reported(Build(es), 0, [], [])
  {
    hide KeepsAt, InTree, Escape, Build, Components, Leaf, Reported, AllPaths;
    var cs := Build(es);
    BuildTidy(es);
    if p in Renames(cs) {
      assert [] + p == p;
      LoserReported(cs, cs, [], p, p);
    }
    forall f | f in Reported(cs, 0, [], []) && f.shown == p
      ensures p in Renames(cs)
    {
      ReportedLoses(cs, cs, 0, [], f);
    }
  }
}
