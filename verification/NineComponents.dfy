/** Paths by their components: what joining a name, going up and being inside the export
    mean to them. */
module NineComponents {
  import opened NinePaths

  type Name = string

  predicate AllGood(cs: seq<Name>) { forall i :: 0 <= i < |cs| ==> GoodName(cs[i]) }

  /** An absolute path of these components. */
  function PathOf(cs: seq<Name>): string {
    if cs == [] then "" else "/" + (cs[0] + PathOf(cs[1..]))
  }

  lemma PathFirst(cs: seq<Name>)
    ensures cs != [] ==> PathOf(cs) != "" && PathOf(cs)[0] == '/'
  {
  }

  lemma {:induction false} PathMore(cs: seq<Name>, n: Name)
    ensures PathOf(cs + [n]) == PathOf(cs) + "/" + n
    decreases |cs|
  {
    if cs == [] {
      assert [] + [n] == [n] && [n][1..] == [];
    } else {
      assert (cs + [n])[1..] == cs[1..] + [n];
      PathMore(cs[1..], n);
    }
  }

  lemma EndOfPath(cs: seq<Name>)
    requires AllGood(cs) && cs != []
    ensures var p := PathOf(cs); p != "" && p[|p| - 1] != '/' && cs[..|cs| - 1] + [cs[|cs| - 1]] == cs
  {
    var before, n := cs[..|cs| - 1], cs[|cs| - 1];
    assert before + [n] == cs && GoodName(n);
    PathMore(before, n);
    var p := PathOf(cs);
    assert p[|p| - 1] == n[|n| - 1];
    assert n[|n| - 1] in n;
  }

  /** Joining a name adds a component. */
  lemma JoinIs(cs: seq<Name>, n: Name)
    requires AllGood(cs) && cs != [] && GoodName(n)
    ensures Join(PathOf(cs), n) == PathOf(cs + [n])
  {
    EndOfPath(cs);
    PathMore(cs, n);
    assert n[0] in n;
  }

  lemma {:induction false} LastIn(p: string, n: string)
    requires '/' !in n
    ensures LastSlash(p + "/" + n) == |p|
    decreases |n|
  {
    var s := p + "/" + n;
    if n != "" {
      var m := n[..|n| - 1];
      assert n[|n| - 1] in n;
      assert s[..|s| - 1] == p + "/" + m;
      assert forall c :: c in m ==> c in n;
      LastIn(p, m);
    }
  }

  /** Going up takes the last one off. */
  lemma DirnameIs(cs: seq<Name>)
    requires AllGood(cs) && |cs| > 1
    ensures Dirname(PathOf(cs)) == PathOf(cs[..|cs| - 1])
  {
    var before, n := cs[..|cs| - 1], cs[|cs| - 1];
    EndOfPath(cs);
    EndOfPath(before);
    PathMore(before, n);
    var p := PathOf(before);
    assert GoodName(n);
    LastIn(p, n);
    assert PathOf(cs)[..|p| + 1] == p + "/";
    assert (p + "/")[|p| - 1] == p[|p| - 1];
    assert Strip(p + "/") == Strip((p + "/")[..|p|]) == Strip(p) by { assert (p + "/")[..|p|] == p; }
  }

  /** Two names with what follows them. */
  lemma {:induction false} FirstName(c: string, x: string, d: string, y: string)
    requires '/' !in c && '/' !in d && x != "" && y != "" && x[0] == '/' && y[0] == '/'
    ensures c + x <= d + y <==> c == d && x <= y
    decreases |c|
  {
    if c == "" {
      assert c + x == x;
      if d == "" { assert d + y == y; } else { assert (d + y)[0] == d[0] && d[0] in d; }
    } else if d == "" {
      assert d + y == y && (c + x)[0] == c[0] && c[0] in c;
    } else {
      var e, f := c[1..], d[1..];
      assert c == [c[0]] + e && d == [d[0]] + f;
      assert c + x == [c[0]] + (e + x) && d + y == [d[0]] + (f + y);
      OneOff(c[0], e + x, d[0], f + y);
      FirstName(e, x, f, y);
    }
  }

  lemma PrefixOne(a: seq<Name>, b: seq<Name>)
    requires a != [] && b != []
    ensures a <= b <==> a[0] == b[0] && a[1..] <= b[1..]
  {
    if a <= b { assert a[1..] <= b[1..]; }
    if a[0] == b[0] && a[1..] <= b[1..] { assert a == [a[0]] + a[1..] && b == [b[0]] + b[1..]; }
  }

  lemma OneOff(c: char, x: string, d: char, y: string)
    ensures [c] + x <= [d] + y <==> c == d && x <= y
  {
    if [c] + x <= [d] + y { assert x == ([c] + x)[1..] && y == ([d] + y)[1..] && ([c] + x)[0] == c; }
  }

  lemma {:induction false} PrefixIs(a: seq<Name>, b: seq<Name>)
    requires AllGood(a) && AllGood(b)
    ensures PathOf(a) + "/" <= PathOf(b) + "/" <==> a <= b
    decreases |a|
  {
    PathFirst(a);
    PathFirst(b);
    if a == [] {
      assert (PathOf(b) + "/")[0] == '/';
    } else if b == [] {
      assert GoodName(a[0]);
      assert |PathOf(a)| > 0;
    } else {
      var x, y := PathOf(a[1..]) + "/", PathOf(b[1..]) + "/";
      PathFirst(a[1..]);
      PathFirst(b[1..]);
      assert GoodName(a[0]) && GoodName(b[0]);
      assert PathOf(a) + "/" == "/" + (a[0] + x) && PathOf(b) + "/" == "/" + (b[0] + y);
      OneOff('/', a[0] + x, '/', b[0] + y);
      FirstName(a[0], x, b[0], y);
      PrefixIs(a[1..], b[1..]);
      PrefixOne(a, b);
    }
  }

  /** A real path is inside the export if and only if the export's components are the
      first of its own: a sibling whose name goes on from the root's is not. */
  lemma InsideExactly(root: seq<Name>, cs: seq<Name>)
    requires AllGood(root) && AllGood(cs)
    ensures Inside(PathOf(root), PathOf(cs)) <==> root <= cs
  {
    var r, p := PathOf(root), PathOf(cs);
    PrefixIs(root, cs);
    if r + "/" <= p { assert r + "/" <= p + "/"; }
    if r + "/" <= p + "/" {
      if |r| == |p| {
        assert r == (r + "/")[..|r|] == (p + "/")[..|r|] == p;
      } else {
        assert r + "/" == (p + "/")[..|r| + 1] == p[..|r| + 1];
      }
    }
  }
}
