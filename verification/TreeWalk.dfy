/** Directories of a V8 or V10 filesystem and the walk over them, as tools/v8fs.py
    and tools/v10fs.py do it on any image, sound or corrupt. */
module TreeWalk {

  import opened Basics

  type Name = string

  type Path = seq<Name>

  const INODES: nat := 0x1_0000

  /** An i-number is two bytes. */
  type Inum = n: nat | n < INODES

  datatype Entry = Entry(name: Name, inum: Inum)

  // ---- a directory's bytes ----

  /** u16() on a string that stands for bytes. */
  function Inum16(s: string, o: nat): Inum
    requires o + 2 <= |s|
  {
    s[o] as int % 256 + s[o + 1] as int % 256 * 256
  }

  function Cut(s: string): Name {
    if s == "" || s[0] == '\0' then "" else [s[0]] + Cut(s[1..])
  }

  predicate Kept(s: string, o: nat)
    requires o + 16 <= |s|
  {
    Inum16(s, o) != 0 && Cut(s[o + 2..o + 16]) != "." && Cut(s[o + 2..o + 16]) != ".."
  }

  /** The entries of the first n records. */
  function Records(data: string, n: nat): seq<Entry>
    requires 16 * n <= |data|
    decreases n
  {
    if n == 0 then []
    else
      var o := 16 * (n - 1);
      Records(data, n - 1) + if Kept(data, o) then [Entry(Cut(data[o + 2..o + 16]), Inum16(data, o))] else []
  }

  /** readdir(): whole records only, without the dots and the cleared slots. */
  method ReadDir(data: string) returns (es: seq<Entry>)
    ensures es == Records(data, |data| / 16)
  {
    es := [];
    for n := 0 to |data| / 16
      invariant es == Records(data, n)
    {
      var o := 16 * n;
      if Kept(data, o) { es := es + [Entry(Cut(data[o + 2..o + 16]), Inum16(data, o))]; }
    }
  }

  // ---- the graph ----

  /** Each inode's entries in the order of their names, and which are directories. */
  datatype Graph = Graph(kids: Inum -> seq<Entry>, isdir: Inum -> bool)

  predicate Has(g: Graph, d: Inum, e: Entry) { e in g.kids(d) }

  /** A way down from one directory through others. */
  predicate Chain(g: Graph, a: Inum, via: seq<Entry>, b: Inum)
    decreases |via|
  {
    if via == [] then a == b
    else Chain(g, a, via[..|via| - 1], Parent(a, via)) && Has(g, Parent(a, via), via[|via| - 1]) && via[|via| - 1].inum == b
  }

  function Parent(a: Inum, via: seq<Entry>): Inum
    requires via != []
  {
    if |via| == 1 then a else via[|via| - 2].inum
  }

  /** Every inode on the way is a directory. */
  predicate AllDirs(g: Graph, via: seq<Entry>) { forall i :: 0 <= i < |via| ==> g.isdir(via[i].inum) }

  ghost predicate Reachable(g: Graph, a: Inum, b: Inum) { exists via :: Chain(g, a, via, b) && AllDirs(g, via) }

  function Names(via: seq<Entry>): (p: Path)
    ensures |p| == |via| && forall i :: 0 <= i < |p| ==> p[i] == via[i].name
  {
    seq(|via|, i requires 0 <= i < |via| => via[i].name)
  }

  // ---- the walk ----

  datatype Visit = Visit(path: Path, inum: Inum)

  /** What one directory yields: its entries, last name first. */
  function Yields(v: Visit, es: seq<Entry>): seq<Visit>
    decreases |es|
  {
    if es == [] then [] else Yields(v, es[1..]) + [Visit(v.path + [es[0].name], es[0].inum)]
  }

  function AllYields(g: Graph, order: seq<Visit>): seq<Visit>
    decreases |order|
  {
    if order == [] then []
    else AllYields(g, order[..|order| - 1]) + Yields(order[|order| - 1], g.kids(order[|order| - 1].inum))
  }

  function Directories(g: Graph, vs: seq<Visit>): seq<Visit>
    decreases |vs|
  {
    if vs == [] then []
    else Directories(g, vs[..|vs| - 1]) + if g.isdir(vs[|vs| - 1].inum) then [vs[|vs| - 1]] else []
  }

  function Inums(vs: seq<Visit>): set<Inum> { set v | v in vs :: v.inum }

  predicate Once(order: seq<Visit>) { forall i, j :: 0 <= i < j < |order| ==> order[i].inum != order[j].inum }

  ghost predicate Led(g: Graph, a: Inum, p0: Path, vs: seq<Visit>) {
    forall i :: 0 <= i < |vs| ==> Found(g, a, p0, vs[i])
  }

  /** A visit's path goes on from the start's, and every inode on the way to it and
      itself is a directory. */
  ghost predicate Found(g: Graph, a: Inum, p0: Path, v: Visit) {
    exists via :: Chain(g, a, via, v.inum) && AllDirs(g, via) && v.path == p0 + Names(via)
  }

  /** All that is below a directory already expanded is expanded or waiting. */
  ghost predicate Closed(g: Graph, order: seq<Visit>, seen: set<Inum>, stack: seq<Visit>) {
    forall i, e :: 0 <= i < |order| && Has(g, order[i].inum, e) && g.isdir(e.inum) ==> e.inum in seen || e.inum in Inums(stack)
  }

  lemma {:induction false} YieldsAre(v: Visit, es: seq<Entry>)
    ensures |Yields(v, es)| == |es|
    ensures forall i :: 0 <= i < |es| ==> Yields(v, es)[|es| - 1 - i] == Visit(v.path + [es[i].name], es[i].inum)
    decreases |es|
  {
    if es != [] { YieldsAre(v, es[1..]); }
  }

  lemma {:induction false} DirectoriesAre(g: Graph, vs: seq<Visit>)
    ensures forall v :: v in Directories(g, vs) <==> v in vs && g.isdir(v.inum)
    decreases |vs|
  {
    if vs != [] {
      DirectoriesAre(g, vs[..|vs| - 1]);
      assert forall v :: v in vs <==> v in vs[..|vs| - 1] || v == vs[|vs| - 1];
    }
  }

  /** The for loop over one directory's entries: what it yields and what it stacks. */
  method Expand(g: Graph, v: Visit) returns (out: seq<Visit>, pushed: seq<Visit>)
    ensures out == Yields(v, g.kids(v.inum)) && pushed == Directories(g, out)
  {
    var kids := g.kids(v.inum);
    out, pushed := [], [];
    var i := |kids|;
    assert kids[i..] == [];
    while i > 0
      invariant 0 <= i <= |kids| && out == Yields(v, kids[i..]) && pushed == Directories(g, out)
    {
      i := i - 1;
      var child := Visit(v.path + [kids[i].name], kids[i].inum);
      assert kids[i..][0] == kids[i] && kids[i..][1..] == kids[i + 1..];
      assert (out + [child])[..|out|] == out;
      out := out + [child];
      if g.isdir(child.inum) { pushed := pushed + [child]; }
    }
    assert kids[0..] == kids;
  }

  lemma ChainMore(g: Graph, a: Inum, via: seq<Entry>, b: Inum, e: Entry)
    requires Chain(g, a, via, b) && AllDirs(g, via) && Has(g, b, e)
    ensures Chain(g, a, via + [e], e.inum) && Names(via + [e]) == Names(via) + [e.name]
  {
    assert (via + [e])[..|via|] == via;
    if via != [] { assert via[|via| - 1].inum == b; }
  }

  lemma ChildFound(g: Graph, a: Inum, p0: Path, v: Visit, e: Entry)
    requires Found(g, a, p0, v) && Has(g, v.inum, e) && g.isdir(e.inum)
    ensures Found(g, a, p0, Visit(v.path + [e.name], e.inum))
  {
    var via :| Chain(g, a, via, v.inum) && AllDirs(g, via) && v.path == p0 + Names(via);
    ChainMore(g, a, via, v.inum, e);
    assert (p0 + Names(via)) + [e.name] == p0 + Names(via + [e]);
  }

  lemma PushedFound(g: Graph, a: Inum, p0: Path, v: Visit)
    requires Found(g, a, p0, v)
    ensures Led(g, a, p0, Directories(g, Yields(v, g.kids(v.inum))))
  {
    hide Found;
    var out := Yields(v, g.kids(v.inum));
    var pushed := Directories(g, out);
    YieldsAre(v, g.kids(v.inum));
    DirectoriesAre(g, out);
    forall i | 0 <= i < |pushed| ensures Found(g, a, p0, pushed[i]) {
      assert pushed[i] in pushed;
      var k :| 0 <= k < |out| && out[k] == pushed[i];
      var e := g.kids(v.inum)[|out| - 1 - k];
      assert Has(g, v.inum, e);
      ChildFound(g, a, p0, v, e);
    }
  }

  lemma PushedCovers(g: Graph, v: Visit, e: Entry)
    requires Has(g, v.inum, e) && g.isdir(e.inum)
    ensures e.inum in Inums(Directories(g, Yields(v, g.kids(v.inum))))
  {
    var kids := g.kids(v.inum);
    var out := Yields(v, kids);
    YieldsAre(v, kids);
    DirectoriesAre(g, out);
    var i :| 0 <= i < |kids| && kids[i] == e;
    var child := Visit(v.path + [e.name], e.inum);
    assert out[|kids| - 1 - i] == child;
    assert child in Directories(g, out);
  }

  lemma LedSplit(g: Graph, a: Inum, p0: Path, s: seq<Visit>, t: seq<Visit>)
    requires Led(g, a, p0, s) && Led(g, a, p0, t)
    ensures Led(g, a, p0, s + t)
  {
    hide Found;
  }

  function Below(k: nat): set<Inum>
    requires k <= INODES
  {
    if k == 0 then {} else Below(k - 1) + {k - 1}
  }

  lemma {:induction false} BelowIs(k: nat, n: Inum)
    requires k <= INODES
    ensures |Below(k)| == k && (n in Below(k) <==> n < k)
    decreases k
  {
    if k > 0 {
      BelowIs(k - 1, n);
      BelowIs(k - 1, k - 1);
    }
  }

  lemma SeenBounded(seen: set<Inum>)
    ensures |seen| <= INODES
  {
    hide Below;
    forall n | n in seen ensures n in Below(INODES) {
      BelowIs(INODES, n);
    }
    BelowIs(INODES, 0);
    Subset(seen, Below(INODES));
  }

  lemma {:induction false} Subset(a: set<Inum>, b: set<Inum>)
    requires a <= b
    ensures |a| <= |b|
    decreases |a|
  {
    if x :| x in a { Subset(a - {x}, b - {x}); }
  }

  /** The stack loop after some directories have been expanded. */
  ghost predicate Going(g: Graph, start: Visit, order: seq<Visit>, seen: set<Inum>, stack: seq<Visit>) {
    seen == Inums(order) && Once(order) && Led(g, start.inum, start.path, order) && Led(g, start.inum, start.path, stack)
    && Closed(g, order, seen, stack) && (start.inum in seen || start.inum in Inums(stack))
  }

  lemma InumsSnoc(vs: seq<Visit>, v: Visit)
    ensures Inums(vs + [v]) == Inums(vs) + {v.inum}
  {
    assert v in vs + [v];
    forall n | n in Inums(vs + [v]) ensures n in Inums(vs) + {v.inum} {
      var w :| w in vs + [v] && w.inum == n;
    }
    forall n | n in Inums(vs) + {v.inum} ensures n in Inums(vs + [v]) {
      if n != v.inum {
        var w :| w in vs && w.inum == n;
        assert w in vs + [v];
      }
    }
  }

  lemma InumsConcat(a: seq<Visit>, b: seq<Visit>)
    ensures Inums(a + b) == Inums(a) + Inums(b)
  {
    forall n | n in Inums(a) + Inums(b) ensures n in Inums(a + b) {
      if n in Inums(a) {
        var w :| w in a && w.inum == n;
        assert w in a + b;
      } else {
        var w :| w in b && w.inum == n;
        assert w in a + b;
      }
    }
  }

  /** A directory seen before is passed over. */
  lemma PassOver(g: Graph, start: Visit, order: seq<Visit>, seen: set<Inum>, stack: seq<Visit>)
    requires stack != [] && Going(g, start, order, seen, stack) && stack[|stack| - 1].inum in seen
    ensures Going(g, start, order, seen, stack[..|stack| - 1])
  {
    hide Found;
    var rest, v := stack[..|stack| - 1], stack[|stack| - 1];
    assert rest + [v] == stack;
    InumsSnoc(rest, v);
  }

  /** A new one is expanded, and its directories are stacked. */
  lemma GoInto(g: Graph, start: Visit, order: seq<Visit>, seen: set<Inum>, stack: seq<Visit>)
    requires stack != [] && Going(g, start, order, seen, stack) && stack[|stack| - 1].inum !in seen
    ensures var v := stack[|stack| - 1];
            Going(g, start, order + [v], seen + {v.inum}, stack[..|stack| - 1] + Directories(g, Yields(v, g.kids(v.inum))))
  {
    hide Found, Yields, Directories;
    var rest, v := stack[..|stack| - 1], stack[|stack| - 1];
    var pushed := Directories(g, Yields(v, g.kids(v.inum)));
    assert rest + [v] == stack;
    InumsSnoc(rest, v);
    InumsSnoc(order, v);
    InumsConcat(rest, pushed);
    PushedFound(g, start.inum, start.path, v);
    LedSplit(g, start.inum, start.path, rest, pushed);
    LedSplit(g, start.inum, start.path, order, [v]);
    OnceMore(order, v);
    ClosedMore(g, order, seen, rest, v);
  }

  lemma OnceMore(order: seq<Visit>, v: Visit)
    requires Once(order) && v.inum !in Inums(order)
    ensures Once(order + [v])
  {
    forall i | 0 <= i < |order| ensures order[i].inum != v.inum {
      assert order[i] in order;
    }
  }

  lemma ClosedMore(g: Graph, order: seq<Visit>, seen: set<Inum>, rest: seq<Visit>, v: Visit)
    requires Closed(g, order, seen, rest + [v])
    ensures Closed(g, order + [v], seen + {v.inum}, rest + Directories(g, Yields(v, g.kids(v.inum))))
  {
    hide Yields, Directories;
    var pushed := Directories(g, Yields(v, g.kids(v.inum)));
    var more := order + [v];
    InumsSnoc(rest, v);
    InumsConcat(rest, pushed);
    forall i, e | 0 <= i < |more| && Has(g, more[i].inum, e) && g.isdir(e.inum)
      ensures e.inum in seen + {v.inum} || e.inum in Inums(rest + pushed)
    {
      if i == |order| {
        PushedCovers(g, v, e);
      } else {
        assert more[i] == order[i];
      }
    }
  }

  /** walk(): terminates on every graph, and yields the entries of the directories
      it expands. */
  method Walk(g: Graph, start: Visit) returns (out: seq<Visit>, ghost order: seq<Visit>)
    ensures out == AllYields(g, order) && Going(g, start, order, Inums(order), [])
  {
    out, order := [], [];
    var seen: set<Inum> := {};
    var stack := [start];
    StartGoing(g, start);
    while stack != []
      invariant out == AllYields(g, order) && Going(g, start, order, seen, stack)
      decreases INODES - |seen|, |stack|
    {
      hide Going;
      var v := stack[|stack| - 1];
      SeenBounded(seen);
      SeenBounded(seen + {v.inum});
      var rest := stack[..|stack| - 1];
      if v.inum in seen {
        PassOver(g, start, order, seen, stack);
        stack := rest;
      } else {
        GoInto(g, start, order, seen, stack);
        var es, pushed := Expand(g, v);
        assert (order + [v])[..|order|] == order;
        out, order := out + es, order + [v];
        seen, stack := seen + {v.inum}, rest + pushed;
      }
    }
    GoingSeen(g, start, order, seen);
  }

  /** V10's walk(): a file is its own listing. */
  method WalkOrSelf(g: Graph, start: Visit) returns (out: seq<Visit>, ghost order: seq<Visit>)
    ensures if g.isdir(start.inum) then out == AllYields(g, order) && Going(g, start, order, Inums(order), [])
            else out == [start]
  {
    hide Going, AllYields;
    if g.isdir(start.inum) {
      out, order := Walk(g, start);
    } else {
      out, order := [start], [];
    }
  }

  lemma StartGoing(g: Graph, start: Visit)
    ensures Going(g, start, [], {}, [start])
  {
    var via: seq<Entry> := [];
    assert Chain(g, start.inum, via, start.inum) && AllDirs(g, via);
    assert start.path + Names(via) == start.path;
    assert Found(g, start.inum, start.path, start);
    assert start in [start];
  }

  lemma GoingSeen(g: Graph, start: Visit, order: seq<Visit>, seen: set<Inum>)
    requires Going(g, start, order, seen, [])
    ensures Going(g, start, order, Inums(order), [])
  {
  }

  // ---- what that means ----

  lemma {:induction false} ClosedReaches(g: Graph, start: Visit, order: seq<Visit>, via: seq<Entry>, b: Inum)
    requires Going(g, start, order, Inums(order), []) && Chain(g, start.inum, via, b) && AllDirs(g, via)
    ensures b in Inums(order)
    decreases |via|
  {
    hide Led;
    if via != [] {
      var p, e := Parent(start.inum, via), via[|via| - 1];
      ClosedReaches(g, start, order, via[..|via| - 1], p);
      var v :| v in order && v.inum == p;
      var i :| 0 <= i < |order| && order[i] == v;
      assert Has(g, order[i].inum, e) && g.isdir(e.inum);
    }
  }

  /** The directories expanded are those reachable from the start, each once. */
  lemma ExpandsReachable(g: Graph, start: Visit, order: seq<Visit>, n: Inum)
    requires Going(g, start, order, Inums(order), [])
    ensures Once(order) && (n in Inums(order) <==> Reachable(g, start.inum, n))
  {
    if n in Inums(order) {
      var v :| v in order && v.inum == n;
      var i :| 0 <= i < |order| && order[i] == v;
      assert Found(g, start.inum, start.path, order[i]);
    }
    if Reachable(g, start.inum, n) {
      var via :| Chain(g, start.inum, via, n) && AllDirs(g, via);
      ClosedReaches(g, start, order, via, n);
    }
  }

  lemma {:induction false} AllYieldsAre(g: Graph, order: seq<Visit>, v: Visit)
    ensures v in AllYields(g, order) <==>
            exists i, k :: 0 <= i < |order| && 0 <= k < |g.kids(order[i].inum)|
                           && v == Visit(order[i].path + [g.kids(order[i].inum)[k].name], g.kids(order[i].inum)[k].inum)
    decreases |order|
  {
    if order != [] {
      var before, d := order[..|order| - 1], order[|order| - 1];
      AllYieldsAre(g, before, v);
      YieldsAre(d, g.kids(d.inum));
      var ys, kids := Yields(d, g.kids(d.inum)), g.kids(d.inum);
      if v in ys {
        var m :| 0 <= m < |ys| && ys[m] == v;
        assert ys[|kids| - 1 - (|kids| - 1 - m)] == v;
        assert v == Visit(order[|order| - 1].path + [kids[|kids| - 1 - m].name], kids[|kids| - 1 - m].inum);
      }
      forall i, k | 0 <= i < |order| && 0 <= k < |g.kids(order[i].inum)|
                    && v == Visit(order[i].path + [g.kids(order[i].inum)[k].name], g.kids(order[i].inum)[k].inum)
        ensures v in AllYields(g, order)
      {
        if i == |order| - 1 { assert ys[|kids| - 1 - k] == v; } else { assert before[i] == order[i]; }
      }
    }
  }

  function EntryCount(g: Graph, order: seq<Visit>): nat
    decreases |order|
  {
    if order == [] then 0 else EntryCount(g, order[..|order| - 1]) + |g.kids(order[|order| - 1].inum)|
  }

  /** Every entry of every directory expanded is yielded, and nothing else: as many
      yields as entries. */
  lemma {:induction false} YieldsCounted(g: Graph, order: seq<Visit>)
    ensures |AllYields(g, order)| == EntryCount(g, order)
    decreases |order|
  {
    if order != [] {
      YieldsCounted(g, order[..|order| - 1]);
      YieldsAre(order[|order| - 1], g.kids(order[|order| - 1].inum));
    }
  }

  // ---- lookup ----

  /** The first entry of that name. */
  function First(es: seq<Entry>, name: Name): Option<Inum>
    decreases |es|
  {
    if es == [] then None else if es[0].name == name then Some(es[0].inum) else First(es[1..], name)
  }

  function Lookup(g: Graph, ip: Inum, parts: seq<Name>): Option<Inum>
    decreases |parts|
  {
    if parts == [] then Some(ip)
    else if !g.isdir(ip) then None
    else
      match First(g.kids(ip), parts[0])
      case None => None
      case Some(next) => Lookup(g, next, parts[1..])
  }

  /** lookup()'s loops, one within the other. */
  method FindPath(g: Graph, root: Inum, parts: seq<Name>) returns (r: Option<Inum>)
    ensures r == Lookup(g, root, parts)
  {
    var ip := root;
    assert parts[0..] == parts;
    for i := 0 to |parts|
      invariant Lookup(g, ip, parts[i..]) == Lookup(g, root, parts)
    {
      assert parts[i..][0] == parts[i] && parts[i..][1..] == parts[i + 1..];
      if !g.isdir(ip) {
        return None;
      }
      var next := FindName(g.kids(ip), parts[i]);
      if next.None? {
        return None;
      }
      ip := next.value;
    }
    r := Some(ip);
  }

  method FindName(es: seq<Entry>, name: Name) returns (r: Option<Inum>)
    ensures r == First(es, name)
  {
    assert es[0..] == es;
    for k := 0 to |es|
      invariant First(es[k..], name) == First(es, name)
    {
      assert es[k..][0] == es[k] && es[k..][1..] == es[k + 1..];
      if es[k].name == name {
        return Some(es[k].inum);
      }
    }
    r := None;
  }

  /** No directory has a name twice. */
  ghost predicate Sound(g: Graph) {
    forall d: Inum, i, j :: 0 <= i < j < |g.kids(d)| ==> g.kids(d)[i].name != g.kids(d)[j].name
  }

  lemma {:induction false} FirstIs(es: seq<Entry>, k: nat)
    requires k < |es| && forall i, j :: 0 <= i < j < |es| ==> es[i].name != es[j].name
    ensures First(es, es[k].name) == Some(es[k].inum)
    decreases k
  {
    if k > 0 { FirstIs(es[1..], k - 1); }
  }

  lemma {:induction false} LookupSnoc(g: Graph, ip: Inum, parts: seq<Name>, name: Name)
    ensures Lookup(g, ip, parts + [name])
         == match Lookup(g, ip, parts)
            case None => None
            case Some(d) => if g.isdir(d) then First(g.kids(d), name) else None
    decreases |parts|
  {
    if parts != [] {
      assert (parts + [name])[0] == parts[0] && (parts + [name])[1..] == parts[1..] + [name];
      if g.isdir(ip) && First(g.kids(ip), parts[0]).Some? {
        LookupSnoc(g, First(g.kids(ip), parts[0]).value, parts[1..], name);
      }
    } else {
      assert [] + [name] == [name] && [name][1..] == [];
    }
  }

  lemma {:induction false} ChainLooksUp(g: Graph, a: Inum, via: seq<Entry>, b: Inum)
    requires Sound(g) && g.isdir(a) && Chain(g, a, via, b) && AllDirs(g, via)
    ensures Lookup(g, a, Names(via)) == Some(b) && g.isdir(b)
    decreases |via|
  {
    if via != [] {
      var before, e, d := via[..|via| - 1], via[|via| - 1], Parent(a, via);
      ChainLooksUp(g, a, before, d);
      LookupSnoc(g, a, Names(before), e.name);
      assert Names(via) == Names(before) + [e.name];
      var k :| 0 <= k < |g.kids(d)| && g.kids(d)[k] == e;
      FirstIs(g.kids(d), k);
    }
  }

  /** In a tree where no directory has a name twice, every path the walk yields is
      looked up to the very inode yielded. */
  lemma WalkedIsFound(g: Graph, start: Visit, order: seq<Visit>, v: Visit)
    requires Sound(g) && g.isdir(start.inum) && Going(g, start, order, Inums(order), []) && v in AllYields(g, order)
    ensures start.path <= v.path && Lookup(g, start.inum, v.path[|start.path|..]) == Some(v.inum)
  {
    hide Closed, Once, Chain, AllDirs, AllYields;
    AllYieldsAre(g, order, v);
    var i, k :| 0 <= i < |order| && 0 <= k < |g.kids(order[i].inum)|
               && v == Visit(order[i].path + [g.kids(order[i].inum)[k].name], g.kids(order[i].inum)[k].inum);
    var d, e := order[i], g.kids(order[i].inum)[k];
    assert Found(g, start.inum, start.path, d);
    var via :| Chain(g, start.inum, via, d.inum) && AllDirs(g, via) && d.path == start.path + Names(via);
    ChainLooksUp(g, start.inum, via, d.inum);
    LookupSnoc(g, start.inum, Names(via), e.name);
    FirstIs(g.kids(d.inum), k);
    assert v.path == start.path + (Names(via) + [e.name]);
    assert v.path[|start.path|..] == Names(via) + [e.name];
  }
}
