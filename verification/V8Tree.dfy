/** build_tree() and flatten() of tools/v8-import.py as they run: nodes made and
    changed in place, then two lists filled group by group. */
module V8Tree {
  import opened Names
  import opened Collisions
  import opened V8Import

  // ---- build_tree() ----

  class Cell {
    const name: Name
    const order: int
    var entry: bool
    var children: seq<Cell>
    ghost var nodes: seq<Node>      // what children stand for
    ghost var repr: set<Cell>

    ghost predicate Valid()
      reads this, repr
      decreases repr
    {
      this in repr && |nodes| == |children|
      && (forall i :: 0 <= i < |children| ==>
            children[i] in repr && children[i].repr <= repr && this !in children[i].repr
            && children[i].Valid() && nodes[i] == children[i].Value())
      && forall i, j :: 0 <= i < j < |children| ==> children[i].repr !! children[j].repr
    }

    ghost function Value(): Node
      reads this
    {
      Node(name, order, entry, nodes)
    }

    constructor (name: Name, order: int)
      ensures Valid() && fresh(repr) && Value() == Node(name, order, false, [])
    {
      this.name, this.order, entry, children, nodes := name, order, false, [], [];
      repr := {this};
    }

    method FindChild(n: Name) returns (i: nat)
      requires Valid()
      ensures i == Find(nodes, n)
    {
      i := 0;
      while i < |children| && children[i].name != n
        invariant i <= |children|
        invariant Find(nodes, n) == i + Find(nodes[i..], n)
      {
        assert nodes[i..][0] == nodes[i] && nodes[i..][1..] == nodes[i + 1..];
        i := i + 1;
      }
      if i < |children| { assert nodes[i..][0] == nodes[i]; }
    }

    method Adopt(n: Name, order: int)
      requires Valid()
      modifies this
      ensures Valid() && fresh(repr - old(repr)) && entry == old(entry)
      ensures nodes == old(nodes) + [Node(n, order, false, [])]
    {
      var c := new Cell(n, order);
      children := children + [c];
      nodes := nodes + [c.Value()];
      repr := repr + c.repr;
    }

    /** One entry of build_tree(), from this node down. */
    method Insert(path: Path, order: int)
      requires Valid() && path != []
      modifies repr
      ensures Valid() && fresh(repr - old(repr)) && entry == old(entry)
      ensures nodes == Grow(old(nodes), path, order)
      decreases |path|, 1
    {
      var i := FindChild(path[0]);
      if i == |children| { Adopt(path[0], order); }
      Descend(i, path, order);
    }

    method Descend(i: nat, path: Path, order: int)
      requires Valid() && path != [] && i < |children|
      modifies repr
      ensures Valid() && fresh(repr - old(repr)) && entry == old(entry)
      ensures nodes == old(nodes)[i := if |path| == 1 then old(nodes)[i].(entry := true)
                                       else old(nodes)[i].(children := Grow(old(nodes)[i].children, path[1..], order))]
      decreases |path|, 0
    {
      hide Grow;
      var c := children[i];
      if |path| == 1 { c.entry := true; } else { c.Insert(path[1..], order); }
      assert forall j :: 0 <= j < |children| && j != i ==>
        children[j].repr == old(children[j].repr) && children[j].Valid() && children[j].Value() == old(nodes)[j];
      Renew(i);
    }

    /** One child has changed, and this node stands for it anew. */
    ghost method Renew(i: nat)
      requires i < |children| == |nodes| && this in repr
      requires forall j :: 0 <= j < |children| ==>
                 children[j].Valid() && this !in children[j].repr
                 && (j != i ==> children[j].repr <= repr && nodes[j] == children[j].Value())
      requires forall j, k :: 0 <= j < k < |children| ==> children[j].repr !! children[k].repr
      modifies this`nodes, this`repr
      ensures Valid() && nodes == old(nodes)[i := children[i].Value()] && repr == old(repr) + children[i].repr
    {
      nodes := nodes[i := children[i].Value()];
      repr := repr + children[i].repr;
    }
  }

  method BuildTree(es: seq<Entry>) returns (root: Cell)
    requires forall i :: 0 <= i < |es| ==> es[i].path != []
    ensures root.Valid() && root.nodes == Build(es)
  {
    root := new Cell("", -1);
    for k := 0 to |es|
      invariant root.Valid() && fresh(root.repr) && root.nodes == Build(es[..k])
    {
      assert es[..k + 1][..k] == es[..k];
      root.Insert(es[k].path, es[k].order);
    }
    assert es[..|es|] == es;
  }

  // ---- flatten() ----

  /** What one child gives, itself and all below it. */
  function Emitted(cs: seq<Node>, i: nat, shown: Path, stored: Path): multiset<Flat> {
    if i >= |cs| then multiset{}
    else
      var t, s := shown + [cs[i].name], stored + [SpelledName(cs, i)];
      (if cs[i].entry then multiset{Flat(t, s)} else multiset{}) + multiset(Flatten(cs[i].children, 0, t, s))
  }

  function Collided(cs: seq<Node>, i: nat, shown: Path, stored: Path): multiset<Flat> {
    if i >= |cs| then multiset{}
    else
      var t, s := shown + [cs[i].name], stored + [SpelledName(cs, i)];
      (if Keeps(cs, i) then multiset{} else multiset{Flat(t, s)}) + multiset(Reported(cs[i].children, 0, t, s))
  }

  function EmittedOf(cs: seq<Node>, shown: Path, stored: Path): nat -> multiset<Flat> {
    (i: nat) => Emitted(cs, i, shown, stored)
  }

  function CollidedOf(cs: seq<Node>, shown: Path, stored: Path): nat -> multiset<Flat> {
    (i: nat) => Collided(cs, i, shown, stored)
  }

  function SumOf(f: nat -> multiset<Flat>, done: seq<nat>): multiset<Flat>
    decreases |done|
  {
    if done == [] then multiset{} else SumOf(f, done[..|done| - 1]) + f(done[|done| - 1])
  }

  function Upto(n: nat): (s: seq<nat>)
    ensures |s| == n && forall i :: 0 <= i < n ==> s[i] == i
  {
    seq(n, i => i)
  }

  predicate NoRepeats(done: seq<nat>) { forall i, j :: 0 <= i < j < |done| ==> done[i] != done[j] }

  lemma {:induction false} SumConcat(f: nat -> multiset<Flat>, a: seq<nat>, b: seq<nat>)
    ensures SumOf(f, a + b) == SumOf(f, a) + SumOf(f, b)
    decreases |b|
  {
    if b == [] {
      assert a + b == a;
    } else {
      assert (a + b)[..|a + b| - 1] == a + b[..|b| - 1];
      SumConcat(f, a, b[..|b| - 1]);
    }
  }

  lemma SomeIn(done: seq<nat>)
    ensures done != [] ==> exists i: nat :: i in done
  {
    if done != [] { assert done[0] in done; }
  }

  /** However the children are ordered, all of them together give the same. */
  lemma {:induction false} AnyOrder(f: nat -> multiset<Flat>, done: seq<nat>, n: nat)
    requires NoRepeats(done) && forall i: nat :: i in done <==> i < n
    ensures SumOf(f, done) == SumOf(f, Upto(n))
    decreases n
  {
    hide NoRepeats, SumOf;
    SomeIn(done);
    NothingSummed(f, done);
    NothingSummed(f, Upto(n));
    if n > 0 {
      assert n - 1 in done;
      var j :| 0 <= j < |done| && done[j] == n - 1;
      var rest := done[..j] + done[j + 1..];
      SumAround(f, done, j);
      WithoutOne(done, j, n);
      AnyOrder(f, rest, n - 1);
      assert Upto(n)[..n - 1] == Upto(n - 1) && Upto(n)[..n - 1 + 1] == Upto(n);
      SumSnoc(f, Upto(n), n - 1);
    } else {
      assert done[..0] == done && Upto(n)[..0] == Upto(n);
    }
  }

  lemma SumAround(f: nat -> multiset<Flat>, done: seq<nat>, j: nat)
    requires j < |done|
    ensures SumOf(f, done) == SumOf(f, done[..j] + done[j + 1..]) + f(done[j])
  {
    hide SumOf;
    assert done == done[..j + 1] + done[j + 1..];
    SumConcat(f, done[..j + 1], done[j + 1..]);
    SumConcat(f, done[..j], done[j + 1..]);
    SumSnoc(f, done, j);
  }

  lemma WithoutOne(done: seq<nat>, j: nat, n: nat)
    requires n > 0 && NoRepeats(done) && (forall i: nat :: i in done <==> i < n) && j < |done| && done[j] == n - 1
    ensures var rest := done[..j] + done[j + 1..]; NoRepeats(rest) && forall i: nat :: i in rest <==> i < n - 1
  {
    var rest := done[..j] + done[j + 1..];
    assert forall k :: 0 <= k < |rest| ==> rest[k] == done[if k < j then k else k + 1];
    forall i: nat
      ensures i in rest <==> i < n - 1
    {
      if i in rest {
        var k :| 0 <= k < |rest| && rest[k] == i;
        assert done[if k < j then k else k + 1] in done;
      }
      if i < n - 1 {
        assert i in done;
        var k :| 0 <= k < |done| && done[k] == i;
        assert rest[if k < j then k else k - 1] == i;
      }
    }
  }

  lemma {:induction false} FlattenSum(cs: seq<Node>, i: nat, shown: Path, stored: Path)
    requires i <= |cs|
    ensures SumOf(EmittedOf(cs, shown, stored), Upto(i)) + multiset(Flatten(cs, i, shown, stored))
         == SumOf(EmittedOf(cs, shown, stored), Upto(|cs|))
    decreases |cs| - i
  {
    hide Flatten, SumOf, Emitted, Upto;
    if i < |cs| {
      FlattenSum(cs, i + 1, shown, stored);
      FlattenStep(cs, i, shown, stored);
      OneMore(EmittedOf(cs, shown, stored), i);
    } else {
      FlattenDone(cs, shown, stored);
    }
  }

  lemma OneMore(f: nat -> multiset<Flat>, i: nat)
    ensures SumOf(f, Upto(i + 1)) == SumOf(f, Upto(i)) + f(i)
  {
    assert Upto(i + 1)[..i] == Upto(i);
  }

  lemma FlattenDone(cs: seq<Node>, shown: Path, stored: Path)
    ensures Flatten(cs, |cs|, shown, stored) == [] && Reported(cs, |cs|, shown, stored) == []
  {
  }

  lemma FlattenStep(cs: seq<Node>, i: nat, shown: Path, stored: Path)
    requires i < |cs|
    ensures multiset(Flatten(cs, i, shown, stored)) == Emitted(cs, i, shown, stored) + multiset(Flatten(cs, i + 1, shown, stored))
  {
    hide SpelledName;
  }

  lemma ReportedStep(cs: seq<Node>, i: nat, shown: Path, stored: Path)
    requires i < |cs|
    ensures multiset(Reported(cs, i, shown, stored)) == Collided(cs, i, shown, stored) + multiset(Reported(cs, i + 1, shown, stored))
  {
    hide SpelledName, Keeps;
  }

  lemma {:induction false} ReportedSum(cs: seq<Node>, i: nat, shown: Path, stored: Path)
    requires i <= |cs|
    ensures SumOf(CollidedOf(cs, shown, stored), Upto(i)) + multiset(Reported(cs, i, shown, stored))
         == SumOf(CollidedOf(cs, shown, stored), Upto(|cs|))
    decreases |cs| - i
  {
    hide Reported, SumOf, Collided, Upto;
    if i < |cs| {
      ReportedSum(cs, i + 1, shown, stored);
      ReportedStep(cs, i, shown, stored);
      OneMore(CollidedOf(cs, shown, stored), i);
    } else {
      FlattenDone(cs, shown, stored);
    }
  }

  /** The children grouped by folded name, as far as the n-th; keys in the order of
      their first child. */
  ghost predicate GroupedUpto(cs: seq<Node>, n: nat, keys: seq<Name>, groups: map<Name, seq<nat>>)
    requires n <= |cs|
  {
    (forall i, j :: 0 <= i < j < |keys| ==> keys[i] != keys[j])
    && (forall i :: 0 <= i < |keys| ==> keys[i] in groups)
    && (forall k :: k in groups ==> k in keys && Members(cs, n, k, groups[k]))
    && (forall i :: 0 <= i < n ==> Lower(cs[i].name) in groups)
  }

  /** All the children that fold to k, in order. */
  ghost predicate Members(cs: seq<Node>, n: nat, k: Name, ms: seq<nat>)
    requires n <= |cs|
  {
    ms != [] && (forall a, b :: 0 <= a < b < |ms| ==> ms[a] < ms[b])
    && forall i: nat :: i in ms <==> i < n && Lower(cs[i].name) == k
  }

  method GroupChildren(cs: seq<Node>) returns (keys: seq<Name>, groups: map<Name, seq<nat>>)
    ensures GroupedUpto(cs, |cs|, keys, groups)
  {
    hide GroupedUpto, Lower;
    keys, groups := [], map[];
    NoGroups(cs);
    for n := 0 to |cs|
      invariant GroupedUpto(cs, n, keys, groups)
    {
      var k := Lower(cs[n].name);
      if k !in groups {
        NewGroup(cs, n, keys, groups);
        keys := keys + [k];
        groups := groups[k := [n]];
      } else {
        MoreInGroup(cs, n, keys, groups);
        groups := groups[k := groups[k] + [n]];
      }
    }
  }

  lemma NoGroups(cs: seq<Node>)
    ensures GroupedUpto(cs, 0, [], map[])
  {
  }

  lemma NewGroup(cs: seq<Node>, n: nat, keys: seq<Name>, groups: map<Name, seq<nat>>)
    requires n < |cs| && GroupedUpto(cs, n, keys, groups) && Lower(cs[n].name) !in groups
    ensures var k := Lower(cs[n].name); GroupedUpto(cs, n + 1, keys + [k], groups[k := [n]])
  {
    hide Members;
    var k := Lower(cs[n].name);
    NewMembers(cs, n, k);
    OtherMembers(cs, n, groups);
    assert (keys + [k])[|keys|] == k;
    assert forall x :: x in keys ==> x in keys + [k];
  }

  lemma MoreInGroup(cs: seq<Node>, n: nat, keys: seq<Name>, groups: map<Name, seq<nat>>)
    requires n < |cs| && GroupedUpto(cs, n, keys, groups) && Lower(cs[n].name) in groups
    ensures var k := Lower(cs[n].name); GroupedUpto(cs, n + 1, keys, groups[k := groups[k] + [n]])
  {
    hide Members;
    var k := Lower(cs[n].name);
    MoreMembers(cs, n, k, groups[k]);
    OtherMembers(cs, n, groups);
  }

  lemma OtherMembers(cs: seq<Node>, n: nat, groups: map<Name, seq<nat>>)
    requires n < |cs| && forall k :: k in groups ==> Members(cs, n, k, groups[k])
    ensures forall k :: k in groups && k != Lower(cs[n].name) ==> Members(cs, n + 1, k, groups[k])
  {
    hide Lower;
  }

  lemma NewMembers(cs: seq<Node>, n: nat, k: Name)
    requires n < |cs| && k == Lower(cs[n].name) && forall i :: 0 <= i < n ==> Lower(cs[i].name) != k
    ensures Members(cs, n + 1, k, [n])
  {
  }

  lemma MoreMembers(cs: seq<Node>, n: nat, k: Name, ms: seq<nat>)
    requires n < |cs| && k == Lower(cs[n].name) && Members(cs, n, k, ms)
    ensures Members(cs, n + 1, k, ms + [n])
  {
    forall a, b | 0 <= a < b < |ms + [n]| ensures (ms + [n])[a] < (ms + [n])[b] {
      assert ms[a] in ms;
    }
  }

  predicate InRange(cs: seq<Node>, ms: seq<nat>) { forall m :: 0 <= m < |ms| ==> ms[m] < |cs| }

  /** The first of the sorted members. */
  method Eldest(cs: seq<Node>, ms: seq<nat>) returns (first: nat)
    requires InRange(cs, ms) && ms != [] && forall a, b :: 0 <= a < b < |ms| ==> ms[a] < ms[b]
    ensures first < |ms| && forall a :: 0 <= a < |ms| ==> NotAfter(cs, ms[first], ms[a])
  {
    first := 0;
    for m := 1 to |ms|
      invariant first < m && forall a :: 0 <= a < m ==> NotAfter(cs, ms[first], ms[a])
    {
      if cs[ms[m]].order < cs[ms[first]].order { first := m; }
    }
  }

  /** The members without a capital: there is one at most. */
  method Lowers(cs: seq<Node>, k: Name, ms: seq<nat>) returns (lower: seq<nat>)
    requires NamesDiffer(cs) && Members(cs, |cs|, k, ms) && InRange(cs, ms)
    ensures forall a :: 0 <= a < |ms| && !HasUpper(cs[ms[a]].name) ==> lower == [ms[a]]
    ensures lower == [] || (|lower| == 1 && exists a :: 0 <= a < |ms| && ms[a] == lower[0] && !HasUpper(cs[ms[a]].name))
  {
    hide Lower, HasUpper, Members;
    lower := [];
    for m := 0 to |ms|
      invariant forall a :: 0 <= a < m && !HasUpper(cs[ms[a]].name) ==> lower == [ms[a]]
      invariant lower == [] || (|lower| == 1 && exists a :: 0 <= a < m && ms[a] == lower[0] && !HasUpper(cs[ms[a]].name))
    {
      if !HasUpper(cs[ms[m]].name) {
        OneLower(cs, k, ms, m);
        lower := lower + [ms[m]];
      }
    }
  }

  /** The member that keeps its name. */
  method Canon(cs: seq<Node>, k: Name, ms: seq<nat>) returns (c: nat)
    requires NamesDiffer(cs) && Members(cs, |cs|, k, ms)
    ensures InRange(cs, ms) && forall m :: 0 <= m < |ms| ==> (Keeps(cs, ms[m]) <==> ms[m] == c)
  {
    hide Lower, HasUpper, Keeps;
    assert InRange(cs, ms) by { assert forall m :: 0 <= m < |ms| ==> ms[m] in ms; }
    var first := Eldest(cs, ms);
    var lower := Lowers(cs, k, ms);
    c := if |lower| == 1 then lower[0] else ms[first];
    forall m | 0 <= m < |ms|
      ensures Keeps(cs, ms[m]) <==> ms[m] == c
    {
      if lower != [] { KeepsLower(cs, k, ms, c, m); } else { KeepsFirst(cs, k, ms, first, m); }
    }
  }

  lemma OneLower(cs: seq<Node>, k: Name, ms: seq<nat>, m: nat)
    requires NamesDiffer(cs) && Members(cs, |cs|, k, ms) && m < |ms| && ms[m] < |cs| && !HasUpper(cs[ms[m]].name)
    ensures forall a :: 0 <= a < |ms| && a != m ==> ms[a] < |cs| && HasUpper(cs[ms[a]].name)
  {
    forall a | 0 <= a < |ms| && a != m
      ensures ms[a] < |cs| && HasUpper(cs[ms[a]].name)
    {
      assert ms[a] in ms && ms[m] in ms;
      if !HasUpper(cs[ms[a]].name) {
        LowerOfLower(cs[ms[a]].name);
        LowerOfLower(cs[ms[m]].name);
      }
    }
  }

  lemma KeepsLower(cs: seq<Node>, k: Name, ms: seq<nat>, c: nat, m: nat)
    requires NamesDiffer(cs) && Members(cs, |cs|, k, ms) && m < |ms| && ms[m] < |cs|
    requires exists a :: 0 <= a < |ms| && ms[a] == c && c < |cs| && !HasUpper(cs[c].name)
    ensures Keeps(cs, ms[m]) <==> ms[m] == c
  {
    var a :| 0 <= a < |ms| && ms[a] == c && c < |cs| && !HasUpper(cs[c].name);
    OneLower(cs, k, ms, a);
    assert ms[m] in ms && ms[a] in ms && SameFold(cs, ms[m], c);
  }

  lemma KeepsFirst(cs: seq<Node>, k: Name, ms: seq<nat>, first: nat, m: nat)
    requires NamesDiffer(cs) && Members(cs, |cs|, k, ms) && m < |ms| && first < |ms|
    requires forall a :: 0 <= a < |ms| ==> ms[a] < |cs| && HasUpper(cs[ms[a]].name)
    requires forall a :: 0 <= a < |ms| ==> NotAfter(cs, ms[first], ms[a])
    ensures Keeps(cs, ms[m]) <==> ms[m] == ms[first]
  {
    hide Lower, HasUpper;
    assert ms[m] in ms && ms[first] in ms && SameFold(cs, ms[m], ms[first]);
    forall j | 0 <= j < |cs| && SameFold(cs, ms[m], j)
      ensures HasUpper(cs[j].name) && NotAfter(cs, ms[first], j)
    {
      assert j in ms;
    }
  }

  predicate NotAfter(cs: seq<Node>, i: nat, j: nat)
    requires i < |cs| && j < |cs|
  {
    cs[i].order < cs[j].order || (cs[i].order == cs[j].order && i <= j)
  }

  lemma SumSnoc(f: nat -> multiset<Flat>, ms: seq<nat>, m: nat)
    requires m < |ms|
    ensures SumOf(f, ms[..m + 1]) == SumOf(f, ms[..m]) + f(ms[m])
  {
    assert ms[..m + 1][..m] == ms[..m];
  }

  /** The children of one group, and all below them. */
  method FlattenGroup(cs: seq<Node>, k: Name, ms: seq<nat>, shown: Path, stored: Path)
    returns (out: seq<Flat>, collisions: seq<Flat>)
    requires Tidy(cs) && Members(cs, |cs|, k, ms)
    ensures multiset(out) == SumOf(EmittedOf(cs, shown, stored), ms)
    ensures multiset(collisions) == SumOf(CollidedOf(cs, shown, stored), ms)
    decreases cs, 1
  {
    hide SumOf, EmittedOf, CollidedOf, Emitted, Collided;
    var canon := Canon(cs, k, ms);
    out, collisions := [], [];
    NothingSummed(EmittedOf(cs, shown, stored), ms);
    NothingSummed(CollidedOf(cs, shown, stored), ms);
    for m := 0 to |ms|
      invariant multiset(out) == SumOf(EmittedOf(cs, shown, stored), ms[..m])
      invariant multiset(collisions) == SumOf(CollidedOf(cs, shown, stored), ms[..m])
    {
      var emitted, lost := FlattenChild(cs, ms[m], canon, shown, stored);
      out, collisions := out + emitted, collisions + lost;
      SumSnoc(EmittedOf(cs, shown, stored), ms, m);
      SumSnoc(CollidedOf(cs, shown, stored), ms, m);
    }
    assert ms[..|ms|] == ms;
  }

  lemma NothingSummed(f: nat -> multiset<Flat>, ms: seq<nat>)
    ensures SumOf(f, ms[..0]) == multiset{}
  {
  }

  method FlattenChild(cs: seq<Node>, i: nat, canon: nat, shown: Path, stored: Path)
    returns (out: seq<Flat>, collisions: seq<Flat>)
    requires Tidy(cs) && i < |cs| && (Keeps(cs, i) <==> i == canon)
    ensures multiset(out) == EmittedOf(cs, shown, stored)(i) && multiset(collisions) == CollidedOf(cs, shown, stored)(i)
    decreases cs, 0
  {
    hide Flatten, Reported, Keeps, Escape, SumOf;
    var child := cs[i];
    var name := if i == canon then child.name else Escape(child.name);
    var t, s := shown + [child.name], stored + [name];
    out, collisions := [], [];
    if i != canon { collisions := [Flat(t, s)]; }
    if child.entry { out := [Flat(t, s)]; }
    var below, lost := FlattenTree(child.children, t, s);
    out, collisions := out + below, collisions + lost;
  }

  /** flatten() */
  method FlattenTree(cs: seq<Node>, shown: Path, stored: Path) returns (out: seq<Flat>, collisions: seq<Flat>)
    requires Tidy(cs)
    ensures multiset(out) == multiset(Flatten(cs, 0, shown, stored))
    ensures multiset(collisions) == multiset(Reported(cs, 0, shown, stored))
    decreases cs, 2
  {
    var keys, groups := GroupChildren(cs);
    out, collisions := [], [];
    ghost var done: seq<nat> := [];
    for g := 0 to |keys|
      invariant DoneKeys(cs, keys, g, done)
      invariant multiset(out) == SumOf(EmittedOf(cs, shown, stored), done)
      invariant multiset(collisions) == SumOf(CollidedOf(cs, shown, stored), done)
    {
      var ms := groups[keys[g]];
      var emitted, lost := FlattenGroup(cs, keys[g], ms, shown, stored);
      out, collisions := out + emitted, collisions + lost;
      SumConcat(EmittedOf(cs, shown, stored), done, ms);
      SumConcat(CollidedOf(cs, shown, stored), done, ms);
      DoneMore(cs, keys, groups, g, done);
      done := done + ms;
    }
    AllDone(cs, keys, groups, done);
    AnyOrder(EmittedOf(cs, shown, stored), done, |cs|);
    AnyOrder(CollidedOf(cs, shown, stored), done, |cs|);
    FlattenSum(cs, 0, shown, stored);
    ReportedSum(cs, 0, shown, stored);
  }

  /** The children of the first g groups, each once. */
  ghost predicate DoneKeys(cs: seq<Node>, keys: seq<Name>, g: nat, done: seq<nat>)
    requires g <= |keys|
  {
    NoRepeats(done) && forall i: nat :: i in done <==> i < |cs| && exists h :: 0 <= h < g && keys[h] == Lower(cs[i].name)
  }

  lemma DoneMore(cs: seq<Node>, keys: seq<Name>, groups: map<Name, seq<nat>>, g: nat, done: seq<nat>)
    requires GroupedUpto(cs, |cs|, keys, groups) && g < |keys| && DoneKeys(cs, keys, g, done)
    ensures DoneKeys(cs, keys, g + 1, done + groups[keys[g]])
  {
    hide Lower;
    var ms := groups[keys[g]];
    assert Members(cs, |cs|, keys[g], ms);
    forall a, b | 0 <= a < b < |done + ms|
      ensures (done + ms)[a] != (done + ms)[b]
    {
      if a < |done| <= b {
        assert done[a] in done && ms[b - |done|] in ms;
      }
    }
  }

  lemma AllDone(cs: seq<Node>, keys: seq<Name>, groups: map<Name, seq<nat>>, done: seq<nat>)
    requires GroupedUpto(cs, |cs|, keys, groups) && DoneKeys(cs, keys, |keys|, done)
    ensures forall i: nat :: i in done <==> i < |cs|
  {
    hide Lower;
    forall i: nat | i < |cs|
      ensures i in done
    {
      assert Lower(cs[i].name) in keys;
    }
  }
}
