/** The path arithmetic of tools/9pfsd.py, as os.path does it, and which paths lie
    in the export. */
module NinePaths {

  /** Index of the last slash, or -1. */
  function LastSlash(p: string): (i: int)
    ensures -1 <= i < |p|
    ensures i >= 0 ==> p[i] == '/'
    ensures forall k :: i < k < |p| ==> p[k] != '/'
    decreases |p|
  {
    if p == "" then -1 else if p[|p| - 1] == '/' then |p| - 1 else LastSlash(p[..|p| - 1])
  }

  predicate AllSlashes(p: string) { forall i :: 0 <= i < |p| ==> p[i] == '/' }

  /** rstrip('/') */
  function Strip(p: string): (q: string)
    ensures q <= p
    decreases |p|
  {
    if p == "" || p[|p| - 1] != '/' then p else Strip(p[..|p| - 1])
  }

  /** os.path.dirname() */
  function Dirname(p: string): string {
    var head := p[..LastSlash(p) + 1];
    if AllSlashes(head) then head else Strip(head)
  }

  /** os.path.join() of two */
  function Join(d: string, n: string): string {
    if n != "" && n[0] == '/' then n
    else if d == "" || d[|d| - 1] == '/' then d + n
    else d + "/" + n
  }

  predicate GoodName(n: string) { n != "" && '/' !in n && n != "." && n != ".." }

  /** An absolute real path, other than the host's own root. */
  predicate Rooted(root: string) { |root| > 1 && root[0] == '/' && root[|root| - 1] != '/' }

  /** The export's root, or a slash-joined descendant of it. */
  predicate Descends(root: string, p: string)
    decreases |p|
  {
    p == root
    || var i := LastSlash(p); i > 0 && GoodName(p[i + 1..]) && Descends(root, p[..i])
  }

  /** str.startswith() */
  predicate StartsWith(p: string, q: string) { q <= p }

  /** Is this real path the root or below it? */
  predicate Inside(root: string, rp: string) { rp == root || StartsWith(rp, root + "/") }

  lemma NoEndSlash(root: string, p: string)
    requires Rooted(root) && Descends(root, p)
    ensures |p| > 1 && p[|p| - 1] != '/' && p[0] == '/'
    decreases |p|
  {
    if p != root {
      var i := LastSlash(p);
      NoEndSlash(root, p[..i]);
      assert p[i + 1..] != "";
    }
  }

  lemma LastSlashAt(p: string, i: nat)
    requires i < |p| && p[i] == '/' && forall k :: i < k < |p| ==> p[k] != '/'
    ensures LastSlash(p) == i
  {
    hide LastSlash;
  }

  lemma NoSlashes(n: string)
    requires '/' !in n
    ensures forall k :: 0 <= k < |n| ==> n[k] != '/'
  {
    assert forall k :: 0 <= k < |n| ==> n[k] in n;
  }

  lemma LastSlashIs(d: string, n: string)
    requires '/' !in n
    ensures LastSlash(d + "/" + n) == |d|
  {
    hide LastSlash;
    var p := d + "/" + n;
    NoSlashes(n);
    JoinedAt(d, n);
    LastSlashAt(p, |d|);
  }

  lemma JoinedAt(d: string, n: string)
    ensures var p := d + "/" + n; p[|d|] == '/' && forall k :: |d| < k < |p| ==> p[k] == n[k - |d| - 1]
  {
  }

  lemma StripOne(d: string)
    requires d != "" && d[|d| - 1] != '/'
    ensures Strip(d + "/") == d
  {
    assert (d + "/")[..|d|] == d;
  }

  lemma DirnameIs(d: string, n: string)
    requires d != "" && d[|d| - 1] != '/' && '/' !in n
    ensures Dirname(d + "/" + n) == d
  {
    LastSlashIs(d, n);
    StripOne(d);
    var p := d + "/" + n;
    assert p[..|d| + 1] == d + "/";
    assert (d + "/")[|d| - 1] != '/';
  }

  /** A name joined to a path of the export is one, and dirname undoes it. */
  lemma JoinDescends(root: string, d: string, n: string)
    requires Rooted(root) && Descends(root, d) && GoodName(n)
    ensures Join(d, n) == d + "/" + n && Descends(root, Join(d, n)) && Dirname(Join(d, n)) == d && Join(d, n) != root
  {
    NoEndSlash(root, d);
    LastSlashIs(d, n);
    DirnameIs(d, n);
    assert n[0] in n;
    var p := d + "/" + n;
    assert p[..|d|] == d && p[|d| + 1..] == n;
    RootNoLonger(root, d);
  }

  lemma RootNoLonger(root: string, p: string)
    requires Descends(root, p)
    ensures |root| <= |p|
    decreases |p|
  {
    if p != root { RootNoLonger(root, p[..LastSlash(p)]); }
  }

  /** Going up from a path below the root stays in the export. */
  lemma DirnameDescends(root: string, p: string)
    requires Rooted(root) && Descends(root, p) && p != root
    ensures Descends(root, Dirname(p)) && p == Join(Dirname(p), p[LastSlash(p) + 1..])
  {
    hide LastSlash, Dirname;
    var i := LastSlash(p);
    var d, n := p[..i], p[i + 1..];
    NoEndSlash(root, d);
    assert p == d + "/" + n;
    DirnameIs(d, n);
    assert n[0] in n;
  }

  /** The directory above the root is not in the export. */
  lemma AboveIsOutside(root: string)
    requires Rooted(root)
    ensures !Inside(root, Dirname(root))
  {
    assert |Dirname(root)| <= LastSlash(root) + 1 < |root|;
  }

  lemma DirnameOfRootJoin(root: string, n: string)
    requires Rooted(root) && '/' !in n
    ensures Dirname(Join(Dirname(root), n)) == Dirname(root)
  {
    var d := Dirname(root);
    DirnameShape(root);
    if d == "/" {
      var p := "/" + n;
      if n != "" { assert n[0] in n; }
      assert Join(d, n) == p;
      assert p[0] == '/' && forall k :: 0 < k < |p| ==> p[k] == n[k - 1];
      assert LastSlash(p) == 0 && p[..1] == "/";
    } else if AllSlashes(d) {
      SlashesJoin(d, n);
    } else {
      if n != "" { assert n[0] in n; }
      assert Join(d, n) == d + "/" + n;
      DirnameIs(d, n);
    }
  }

  /** A directory name is all slashes, or ends in none. */
  lemma DirnameShape(p: string)
    requires Rooted(p)
    ensures Dirname(p) != "" && (AllSlashes(Dirname(p)) || Dirname(p)[|Dirname(p)| - 1] != '/')
  {
    var head := p[..LastSlash(p) + 1];
    assert LastSlash(p) >= 0 && head[0] == '/';
    StripShape(head);
  }

  lemma {:induction false} StripShape(p: string)
    ensures Strip(p) == "" || Strip(p)[|Strip(p)| - 1] != '/'
    ensures Strip(p) == "" ==> AllSlashes(p)
    decreases |p|
  {
    if p != "" && p[|p| - 1] == '/' {
      StripShape(p[..|p| - 1]);
      if Strip(p) == "" {
        assert forall i :: 0 <= i < |p| - 1 ==> p[i] == p[..|p| - 1][i];
      }
    }
  }

  lemma SlashesJoin(d: string, n: string)
    requires d != "" && AllSlashes(d) && '/' !in n
    ensures Dirname(Join(d, n)) == d
  {
    if n != "" { assert n[0] in n; }
    var p := d + n;
    assert Join(d, n) == p;
    assert p[|d| - 1] == '/' && forall k :: |d| <= k < |p| ==> p[k] == n[k - |d|];
    assert LastSlash(p) == |d| - 1 && p[..|d|] == d;
  }
}
