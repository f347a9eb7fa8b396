/** What a name means to the two readers of tools/v10-units.py, said of the ways in
    which it falls into prefixes and a unit. */
module UnitsPrefixes {
  import opened Basics
  import opened UnitsValues
  import Old = UnitsOld
  import New = UnitsNew

  type Prefixes = seq<(string, real)>

  predicate Listed(ps: Prefixes, ms: seq<nat>) { forall k :: 0 <= k < |ms| ==> ms[k] < |ps| }

  predicate Spells(ps: Prefixes) { forall i :: 0 <= i < |ps| ==> ps[i].0 != "" }

  /** These prefixes, one after another. */
  function Spelled(ps: Prefixes, ms: seq<nat>): string
    requires Listed(ps, ms)
  {
    if ms == [] then "" else ps[ms[0]].0 + Spelled(ps, ms[1..])
  }

  /** Their factors multiplied. */
  function Factor(ps: Prefixes, ms: seq<nat>): real
    requires Listed(ps, ms)
  {
    if ms == [] then 1.0 else ps[ms[0]].1 * Factor(ps, ms[1..])
  }

  /** The first of the list that s begins with. */
  predicate Fits(ps: Prefixes, s: string, i: nat) {
    i < |ps| && ps[i].0 <= s && forall j :: 0 <= j < i ==> !(ps[j].0 <= s)
  }

  predicate NoneFits(ps: Prefixes, s: string) { forall j :: 0 <= j < |ps| ==> !(ps[j].0 <= s) }

  /** The name is the prefixes and then base; on the way nothing is defined, and
      each prefix is the first that fits. */
  predicate Peels(ps: Prefixes, t: New.Table, name: string, ms: seq<nat>, base: string) {
    Listed(ps, ms) && name == Spelled(ps, ms) + base
    && forall k :: 0 <= k < |ms| ==> PeelsAt(ps, t, ms, base, k)
  }

  predicate PeelsAt(ps: Prefixes, t: New.Table, ms: seq<nat>, base: string, k: nat)
    requires k < |ms| && Listed(ps, ms)
  {
    var rest := Spelled(ps, ms[k..]) + base;
    rest !in t && Fits(ps, rest, ms[k])
  }

  lemma {:induction false} FirstFits(ps: Prefixes, s: string, i: nat)
    requires Spells(ps) && Fits(ps, s, i)
    ensures PrefixOf(ps, s) == Some(ps[i])
  {
    if i > 0 {
      assert !(ps[0].0 <= s);
      FirstFits(ps[1..], s, i - 1);
    }
  }

  lemma {:induction false} FittingOne(ps: Prefixes, s: string) returns (i: nat)
    requires Spells(ps)
    ensures PrefixOf(ps, s).Some? ==> Fits(ps, s, i)
    ensures PrefixOf(ps, s).None? ==> NoneFits(ps, s)
  {
    i := 0;
    if ps != [] && !(ps[0].0 <= s) {
      var j := FittingOne(ps[1..], s);
      i := j + 1;
    }
  }

  lemma NoneFound(ps: Prefixes, s: string)
    requires Spells(ps) && NoneFits(ps, s)
    ensures PrefixOf(ps, s) == None
  {
    var i := FittingOne(ps, s);
  }

  /** One prefix off the front. */
  lemma PeelOne(ps: Prefixes, t: New.Table, name: string, ms: seq<nat>, base: string)
    requires Peels(ps, t, name, ms, base) && ms != []
    ensures name !in t && Fits(ps, name, ms[0])
    ensures Peels(ps, t, name[|ps[ms[0]].0|..], ms[1..], base)
  {
    assert ms[0..] == ms && PeelsAt(ps, t, ms, base, 0);
    var rest := ms[1..];
    forall k | 0 <= k < |rest|
      ensures PeelsAt(ps, t, rest, base, k)
    {
      assert rest[k..] == ms[k + 1..];
      assert PeelsAt(ps, t, ms, base, k + 1);
    }
    assert name == ps[ms[0]].0 + (Spelled(ps, rest) + base);
  }

  /** And one back on. */
  lemma PeelMore(ps: Prefixes, t: New.Table, name: string, i: nat, ms: seq<nat>, base: string)
    requires name !in t && Fits(ps, name, i) && Peels(ps, t, name[|ps[i].0|..], ms, base)
    ensures Peels(ps, t, name, [i] + ms, base)
  {
    var all := [i] + ms;
    assert all[1..] == ms && all[0..] == all;
    assert name == ps[i].0 + name[|ps[i].0|..];
    assert Spelled(ps, all) + base == name;
    forall k | 0 <= k < |all|
      ensures PeelsAt(ps, t, all, base, k)
    {
      if k > 0 {
        assert all[k..] == ms[k - 1..];
        assert PeelsAt(ps, t, ms, base, k - 1);
      }
    }
  }

  lemma FactorCons(ps: Prefixes, i: nat, ms: seq<nat>)
    requires i < |ps| && Listed(ps, ms)
    ensures Factor(ps, [i] + ms) == ps[i].1 * Factor(ps, ms)
  {
    assert ([i] + ms)[1..] == ms;
  }

  function Times(e: real, q: Quantity): Quantity { Quantity(e * q.coef, q.dims) }

  lemma TimesTwice(e: real, f: real, q: Quantity)
    ensures Times(e, Times(f, q)) == Times(e * f, q)
  {
    assert e * (f * q.coef) == (e * f) * q.coef;
  }

  lemma ScaledIs(e: real, q: Quantity)
    ensures Scaled(e, Some(q)) == Some(Times(e, q))
  {
    var l, r := Scaled(e, Some(q)).value, Times(e, q);
    assert l.coef == r.coef;
    assert l.dims == r.dims;
  }

  lemma TimesOne(q: Quantity)
    ensures Times(1.0, q) == q
  {
  }

  // ---- units.y ----

  /** Nothing is left after a prefix, or a unit is. */
  predicate Known(t: New.Table, ms: seq<nat>, base: string) { (base == "" && ms != []) || base in t }

  /** A bare prefix is a number. */
  function Unit(t: New.Table, ms: seq<nat>, base: string): Quantity
    requires Known(t, ms, base)
  {
    if base == "" && ms != [] then Quantity(1.0, Zeros(NDIM)) else t[base]
  }

  predicate Reads(t: New.Table, name: string, ms: seq<nat>, base: string) {
    Peels(New.PREFIX, t, name, ms, base) && Known(t, ms, base)
  }

  /** The factors of the prefixes, times the unit. */
  function Worth(t: New.Table, ms: seq<nat>, base: string): Quantity
    requires Listed(New.PREFIX, ms) && Known(t, ms, base)
  {
    Times(Factor(New.PREFIX, ms), Unit(t, ms, base))
  }

  ghost predicate Means(t: New.Table, name: string, q: Quantity) {
    exists ms, base :: Reads(t, name, ms, base) && q == Worth(t, ms, base)
  }

  lemma NewSpells()
    ensures Spells(New.PREFIX)
  {
  }

  lemma NothingSpelled(ps: Prefixes, ms: seq<nat>)
    requires Spells(ps) && Listed(ps, ms) && Spelled(ps, ms) == ""
    ensures ms == []
  {
  }

  lemma LookHere(t: New.Table, name: string)
    requires name in t
    ensures New.Look2(t, name) == Some(t[name])
  {
  }

  lemma LookOn(t: New.Table, name: string, i: nat)
    requires name !in t && Fits(New.PREFIX, name, i)
    ensures var (p, f) := New.PREFIX[i];
            p != ""
            && New.Look2(t, name) == if name == p then Some(Quantity(f, Zeros(NDIM))) else Scaled(f, New.Look2(t, name[|p|..]))
  {
    hide Fits, PrefixOf, New.PREFIX;
    NewSpells();
    FirstFits(New.PREFIX, name, i);
  }

  lemma {:induction false} ReadIsFound(t: New.Table, name: string, ms: seq<nat>, base: string)
    requires Reads(t, name, ms, base)
    ensures New.Look2(t, name) == Some(Worth(t, ms, base))
    decreases |ms|
  {
    hide New.PREFIX, New.Look2, Fits;
    NewSpells();
    if ms == [] {
      assert name == base;
      LookHere(t, name);
      TimesOne(t[base]);
    } else {
      var i, rest := ms[0], ms[1..];
      PeelOne(New.PREFIX, t, name, ms, base);
      LookOn(t, name, i);
      FactorCons(New.PREFIX, i, rest);
      assert [i] + rest == ms;
      var (p, f) := New.PREFIX[i];
      if name == p {
        assert name[|p|..] == "";
        NothingSpelled(New.PREFIX, rest);
        BareFactor(t, i, base);
      } else {
        ReadIsFound(t, name[|p|..], rest, base);
        assert Unit(t, rest, base) == Unit(t, ms, base);
        TimesTwice(f, Factor(New.PREFIX, rest), Unit(t, ms, base));
        ScaledIs(f, Worth(t, rest, base));
        assert Worth(t, ms, base) == Times(f, Worth(t, rest, base));
      }
    }
  }

  lemma BareFactor(t: New.Table, i: nat, base: string)
    requires i < |New.PREFIX| && base == ""
    ensures Worth(t, [i], base) == Quantity(New.PREFIX[i].1, Zeros(NDIM))
  {
    hide New.PREFIX;
    FactorCons(New.PREFIX, i, []);
    assert [i] + [] == [i] && Factor(New.PREFIX, []) == 1.0;
  }

  lemma {:induction false} FoundIsRead(t: New.Table, name: string) returns (ms: seq<nat>, base: string)
    requires New.Look2(t, name).Some?
    ensures Reads(t, name, ms, base)
    decreases |name|
  {
    hide Fits, New.PREFIX, Peels;
    NewSpells();
    if name in t {
      Whole(t, name);
      ms, base := [], name;
    } else {
      var i := FittingOne(New.PREFIX, name);
      LookOn(t, name, i);
      var p := New.PREFIX[i].0;
      if name == p {
        ms, base := [], "";
        assert name[|p|..] == "";
        Emptied(t);
      } else {
        ms, base := FoundIsRead(t, name[|p|..]);
      }
      PeelMore(New.PREFIX, t, name, i, ms, base);
      ms := [i] + ms;
    }
  }

  lemma Whole(t: New.Table, name: string)
    ensures Peels(New.PREFIX, t, name, [], name)
  {
    assert "" + name == name;
  }

  lemma Emptied(t: New.Table)
    ensures Peels(New.PREFIX, t, "", [], "")
  {
  }

  lemma LookExactly(t: New.Table, name: string, q: Quantity)
    ensures New.Look2(t, name) == Some(q) <==> Means(t, name, q)
  {
    hide New.Look2, New.PREFIX, PeelsAt, Spelled;
    if New.Look2(t, name) == Some(q) {
      var ms, base := FoundIsRead(t, name);
      ReadIsFound(t, name, ms, base);
    }
    if Means(t, name, q) {
      var ms, base :| Reads(t, name, ms, base) && q == Worth(t, ms, base);
      ReadIsFound(t, name, ms, base);
    }
  }

  ghost predicate Meaningless(t: New.Table, name: string) { forall q :: !Means(t, name, q) }

  predicate Plural(name: string) { name != "" && name[|name| - 1] == 's' }

  /** units.y's lookup(): what a name is worth as prefixes and a unit, and a name that
      is nothing so is read without its final s.  Anything else is unknown. */
  lemma FindExactly(t: New.Table, name: string, q: Quantity)
    ensures New.Find(t, name) == Some(q)
       <==> Means(t, name, q) || (Meaningless(t, name) && Plural(name) && Means(t, name[..|name| - 1], q))
  {
    hide New.Look2, Means;
    LookExactly(t, name, q);
    if Plural(name) { LookExactly(t, name[..|name| - 1], q); }
    match New.Look2(t, name)
    case Some(v) => LookExactly(t, name, v);
    case None =>
      forall r ensures !Means(t, name, r) { LookExactly(t, name, r); }
  }

  /** A name has one meaning. */
  lemma OneMeaning(t: New.Table, name: string, p: Quantity, q: Quantity)
    requires Means(t, name, p) && Means(t, name, q)
    ensures p == q
  {
    hide New.Look2, Means;
    LookExactly(t, name, p);
    LookExactly(t, name, q);
  }

  // ---- units.c ----

  function Esses(m: nat): string { seq(m, _ => 's') }

  /** No prefix fits what is left, and off come its final s's until a unit is left. */
  predicate Strips(t: Old.Table, base: string, m: nat) {
    base in t && (m > 0 ==> base != "" && NoneFits(Old.PREFIX, base + Esses(m)))
    && forall n :: 0 < n <= m ==> base + Esses(n) !in t
  }

  predicate OldReads(t: Old.Table, name: string, ms: seq<nat>, base: string, m: nat) {
    Peels(Old.PREFIX, t, name, ms, base + Esses(m)) && Strips(t, base, m)
  }

  ghost predicate OldMeans(t: Old.Table, name: string, q: Quantity) {
    exists ms, base, m: nat :: OldReads(t, name, ms, base, m) && q == Times(Factor(Old.PREFIX, ms), t[base])
  }

  lemma OldSpells()
    ensures Spells(Old.PREFIX)
  {
  }

  lemma OldHere(t: Old.Table, name: string)
    requires name in t
    ensures Old.Find(t, name) == Some(t[name])
  {
  }

  lemma OldOn(t: Old.Table, name: string, i: nat)
    requires name !in t && Fits(Old.PREFIX, name, i)
    ensures var (p, f) := Old.PREFIX[i]; p != "" && Old.Find(t, name) == Scaled(f, Old.Find(t, name[|p|..]))
  {
    hide Fits, PrefixOf, Old.PREFIX;
    OldSpells();
    FirstFits(Old.PREFIX, name, i);
  }

  lemma OldOff(t: Old.Table, name: string)
    requires name !in t && NoneFits(Old.PREFIX, name)
    ensures Old.Find(t, name)
         == if |name| > 1 && name[|name| - 1] == 's' then Old.Find(t, name[..|name| - 1]) else None
  {
    hide NoneFits, PrefixOf, Old.PREFIX;
    OldSpells();
    NoneFound(Old.PREFIX, name);
  }

  lemma EssesOne(base: string, m: nat)
    requires m > 0
    ensures var s := base + Esses(m); s[|s| - 1] == 's' && s[..|s| - 1] == base + Esses(m - 1)
  {
    assert Esses(m)[..m - 1] == Esses(m - 1);
  }

  lemma Longer(p: string, s: string)
    requires s != ""
    ensures p <= s[..|s| - 1] ==> p <= s
  {
  }

  lemma NoneShorter(ps: Prefixes, s: string)
    requires NoneFits(ps, s) && s != ""
    ensures NoneFits(ps, s[..|s| - 1])
  {
    forall j | 0 <= j < |ps|
      ensures !(ps[j].0 <= s[..|s| - 1])
    {
      Longer(ps[j].0, s);
    }
  }

  lemma {:induction false} StrippedIsFound(t: Old.Table, base: string, m: nat)
    requires Strips(t, base, m)
    ensures Old.Find(t, base + Esses(m)) == Some(t[base])
    decreases m
  {
    hide Old.Find, NoneFits, Old.PREFIX;
    if m == 0 {
      assert base + Esses(0) == base;
      OldHere(t, base);
    } else {
      EssesOne(base, m);
      OldOff(t, base + Esses(m));
      NoneShorter(Old.PREFIX, base + Esses(m));
      StrippedIsFound(t, base, m - 1);
    }
  }

  lemma {:induction false} OldReadIsFound(t: Old.Table, name: string, ms: seq<nat>, base: string, m: nat)
    requires OldReads(t, name, ms, base, m)
    ensures Old.Find(t, name) == Some(Times(Factor(Old.PREFIX, ms), t[base]))
    decreases |ms|
  {
    hide Old.PREFIX, Old.Find, Fits, Strips;
    OldSpells();
    if ms == [] {
      assert name == base + Esses(m);
      StrippedIsFound(t, base, m);
      StripsBase(t, base, m);
      TimesOne(t[base]);
    } else {
      var i, rest := ms[0], ms[1..];
      PeelOne(Old.PREFIX, t, name, ms, base + Esses(m));
      OldOn(t, name, i);
      FactorCons(Old.PREFIX, i, rest);
      assert [i] + rest == ms;
      var (p, f) := Old.PREFIX[i];
      StripsBase(t, base, m);
      OldReadIsFound(t, name[|p|..], rest, base, m);
      TimesTwice(f, Factor(Old.PREFIX, rest), t[base]);
      ScaledIs(f, Times(Factor(Old.PREFIX, rest), t[base]));
      assert Times(Factor(Old.PREFIX, ms), t[base]) == Times(f, Times(Factor(Old.PREFIX, rest), t[base]));
    }
  }

  lemma StripsBase(t: Old.Table, base: string, m: nat)
    requires Strips(t, base, m)
    ensures base in t
  {
  }

  lemma {:induction false} FoundIsStripped(t: Old.Table, s: string) returns (base: string, m: nat)
    requires NoneFits(Old.PREFIX, s) && Old.Find(t, s).Some?
    ensures s == base + Esses(m) && Strips(t, base, m)
    decreases |s|
  {
    hide Old.Find, NoneFits, Old.PREFIX;
    if s in t {
      base, m := s, 0;
    } else {
      OldOff(t, s);
      NoneShorter(Old.PREFIX, s);
      base, m := FoundIsStripped(t, s[..|s| - 1]);
      OneMoreS(base, m);
      assert s == s[..|s| - 1] + "s";
      m := m + 1;
    }
  }

  lemma OneMoreS(base: string, m: nat)
    ensures base + Esses(m) + "s" == base + Esses(m + 1)
  {
  }

  lemma {:induction false} OldFoundIsRead(t: Old.Table, name: string) returns (ms: seq<nat>, base: string, m: nat)
    requires Old.Find(t, name).Some?
    ensures OldReads(t, name, ms, base, m)
    decreases |name|
  {
    hide Fits, Old.PREFIX, Peels, Old.Find, NoneFits, PrefixOf, Strips;
    OldSpells();
    if name in t {
      HereStrips(t, name);
      ms, base, m := [], name, 0;
    } else {
      var i := FittingOne(Old.PREFIX, name);
      if PrefixOf(Old.PREFIX, name).None? {
        base, m := FoundIsStripped(t, name);
        OldWhole(t, name);
        ms := [];
      } else {
        OldOn(t, name, i);
        ms, base, m := OldFoundIsRead(t, name[|Old.PREFIX[i].0|..]);
        PeelMore(Old.PREFIX, t, name, i, ms, base + Esses(m));
        ms := [i] + ms;
      }
    }
  }

  lemma OldWhole(t: Old.Table, name: string)
    ensures Peels(Old.PREFIX, t, name, [], name)
  {
    assert "" + name == name;
  }

  lemma HereStrips(t: Old.Table, name: string)
    requires name in t
    ensures Strips(t, name, 0) && name + Esses(0) == name && Peels(Old.PREFIX, t, name, [], name)
  {
    assert name + Esses(0) == name;
    OldWhole(t, name);
  }

  /** units.c's lookup(): prefixes, a unit and any number of final s's; what is no such
      thing is unknown. */
  lemma OldFindExactly(t: Old.Table, name: string, q: Quantity)
    ensures Old.Find(t, name) == Some(q) <==> OldMeans(t, name, q)
  {
    hide Old.Find, Old.PREFIX, PeelsAt, Spelled;
    if Old.Find(t, name) == Some(q) {
      var ms, base, m := OldFoundIsRead(t, name);
      OldReadIsFound(t, name, ms, base, m);
    }
    if OldMeans(t, name, q) {
      var ms, base, m: nat :| OldReads(t, name, ms, base, m) && q == Times(Factor(Old.PREFIX, ms), t[base]);
      OldReadIsFound(t, name, ms, base, m);
    }
  }

  // ---- one name ----

  /** With one unit of 1 defined, a thousand of it. */
  lemma Kilometer()
    ensures var d := Basis(NDIM, 0);
            New.Find(map["meter" := Quantity(1.0, d)], "kilometer") == Some(Quantity(1000.0, d))
  {
    hide New.Look2;
    var t: New.Table := map["meter" := Quantity(1.0, Basis(NDIM, 0))];
    assert forall j :: 0 <= j < 7 ==> New.PREFIX[j].0[0] != 'k';
    assert New.PREFIX[7] == ("kilo", 1000.0) && "kilometer" == "kilo" + "meter";
    assert "kilometer"[4..] == "meter" && Fits(New.PREFIX, "kilometer", 7);
    LookOn(t, "kilometer", 7);
    LookHere(t, "meter");
  }
}
