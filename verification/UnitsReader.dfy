/** units.y's reader as the program keeps it: NUNIT slots probed linearly, and
    a parser that moves along its tokens.  The table behaves as a map in which
    the first definition of a name wins. */
module UnitsReader {
  import opened Basics
  import opened UnitsValues
  import New = UnitsNew

  const NUNIT := 700       // units.y:6
  const NSTRBUF := 8192    // units.y:7

  datatype Def = Def(name: string, value: Quantity)

  /** units.y's hash(), before the remainder is taken. */
  function Weight(s: string): nat {
    if s == "" then 0 else Weight(s[..|s| - 1]) + s[|s| - 1] as nat * (|s| - 1)
  }

  function Hash(s: string): (h: nat)
    ensures h < NUNIT
  {
    Weight(s) % NUNIT
  }

  /** The d-th slot that a probe for s looks at. */
  function Probed(s: string, d: nat): (j: nat)
    ensures j < NUNIT
  {
    (Hash(s) + d) % NUNIT
  }

  /** Every name is where a probe for it gets before an empty slot, and before
      any other slot of the same name. */
  ghost predicate Placed(slots: seq<Option<Def>>, table: New.Table, at: map<string, nat>) {
    |slots| == NUNIT
    && (forall j :: 0 <= j < NUNIT && slots[j].Some? ==> slots[j].value.name in table)
    && (forall s :: s in table ==> s in at)
    && (forall s :: s in table ==> at[s] < NUNIT && slots[Probed(s, at[s])] == Some(Def(s, table[s])))
    && (forall s, d :: s in table && 0 <= d < at[s] ==>
          slots[Probed(s, d)].Some? && slots[Probed(s, d)].value.name != s)
  }

  ghost predicate Missed(slots: seq<Option<Def>>, s: string, d: nat)
    requires |slots| == NUNIT
  {
    forall m :: 0 <= m < d ==> slots[Probed(s, m)].Some? && slots[Probed(s, m)].value.name != s
  }

  lemma ProbeStep(s: string, d: nat)
    requires d < NUNIT
    ensures Probed(s, d + 1) == (Probed(s, d) + 1) % NUNIT
    ensures Probed(s, d + 1) == Hash(s) <==> d + 1 == NUNIT
  {
  }

  /** A probe reaches every slot. */
  lemma ProbeReaches(s: string, j: nat) returns (d: nat)
    requires j < NUNIT
    ensures d < NUNIT && Probed(s, d) == j
  {
    d := if j >= Hash(s) then j - Hash(s) else j + NUNIT - Hash(s);
  }

  lemma ProbeReaching(slots: seq<Option<Def>>, table: New.Table, at: map<string, nat>, s: string, d: nat)
    requires Placed(slots, table, at) && d <= NUNIT && Missed(slots, s, d) && s in table
    ensures d <= at[s] < NUNIT && slots[Probed(s, d)].Some?
  {
    assert slots[Probed(s, at[s])] == Some(Def(s, table[s]));
  }

  lemma ProbeHit(slots: seq<Option<Def>>, table: New.Table, at: map<string, nat>, s: string, d: nat)
    requires Placed(slots, table, at) && d < NUNIT && Missed(slots, s, d)
    requires slots[Probed(s, d)].Some? && slots[Probed(s, d)].value.name == s
    ensures s in table && slots[Probed(s, d)].value.value == table[s]
  {
    assert s in table && d <= at[s] by { ProbeReaching(slots, table, at, s, d); }
  }

  lemma ProbeMiss(slots: seq<Option<Def>>, table: New.Table, at: map<string, nat>, s: string, d: nat)
    requires Placed(slots, table, at) && d <= NUNIT && Missed(slots, s, d)
    requires d == NUNIT || slots[Probed(s, d)].None?
    ensures s !in table
  {
    if s in table { ProbeReaching(slots, table, at, s, d); }
  }

  /** What readfile() makes of the table when it stores one more definition. */
  function Defined(table: New.Table, d: Def): New.Table {
    if d.name in table then table else table[d.name := d.value]
  }

  function DefinedAll(ds: seq<Def>): New.Table {
    if ds == [] then map[] else Defined(DefinedAll(ds[..|ds| - 1]), ds[|ds| - 1])
  }

  function FirstOf(ds: seq<Def>, name: string): Option<Quantity> {
    if ds == [] then None
    else if ds[0].name == name then Some(ds[0].value)
    else FirstOf(ds[1..], name)
  }

  /** After any run of definitions a name has the value it was first given. */
  lemma {:induction false} FirstDefinitionWins(ds: seq<Def>, name: string)
    ensures FirstOf(ds, name) == if name in DefinedAll(ds) then Some(DefinedAll(ds)[name]) else None
  {
    if ds != [] {
      var before, d := ds[..|ds| - 1], ds[|ds| - 1];
      FirstDefinitionWins(before, name);
      FirstOfSnoc(before, d, name);
      assert before + [d] == ds;
    }
  }

  lemma {:induction false} FirstOfSnoc(ds: seq<Def>, d: Def, name: string)
    ensures FirstOf(ds + [d], name)
         == if FirstOf(ds, name).Some? then FirstOf(ds, name) else if d.name == name then Some(d.value) else None
  {
    if ds == [] {
      assert ([] + [d])[0] == d && ([] + [d])[1..] == [];
    } else {
      assert (ds + [d])[0] == ds[0] && (ds + [d])[1..] == ds[1..] + [d];
      FirstOfSnoc(ds[1..], d, name);
    }
  }

  /** Filling the first empty slot of the probe keeps every name findable. */
  lemma StoreKeepsPlaced(slots: seq<Option<Def>>, table: New.Table, at: map<string, nat>, d: Def, n: nat)
    requires Placed(slots, table, at) && n < NUNIT
    requires slots[Probed(d.name, n)].None?
    requires forall m :: 0 <= m < n ==> slots[Probed(d.name, m)].Some?
    ensures Placed(slots[Probed(d.name, n) := Some(d)], Defined(table, d),
                   if d.name in table then at else at[d.name := n])
  {
    var slots' := slots[Probed(d.name, n) := Some(d)];
    var table', at' := Defined(table, d), if d.name in table then at else at[d.name := n];
    forall s, m | s in table' && 0 <= m < at'[s]
      ensures slots'[Probed(s, m)].Some? && slots'[Probed(s, m)].value.name != s
    {
      if s == d.name && d.name !in table {
        assert slots[Probed(s, m)].Some?;
      }
    }
  }

  class Reader {
    const slot: array<Option<Def>>
    var strp: nat
    var toks: seq<New.Token>
    var k: nat
    ghost var table: New.Table
    ghost var at: map<string, nat>

    ghost predicate Valid()
      reads this`table, this`at, slot
    {
      Placed(slot[..], table, at)
    }

    constructor ()
      ensures Valid() && table == map[] && strp == 0 && fresh(slot)
    {
      slot := new Option<Def>[NUNIT](_ => None);
      strp, toks, k, table, at := 0, [], 0, map[], map[];
    }

    static method HashOf(s: string) returns (h: nat)
      ensures h == Hash(s)
    {
      var i := 0;
      for j := 0 to |s|
        invariant i == Weight(s[..j])
      {
        assert s[..j + 1][..j] == s[..j];
        i := i + s[j] as nat * j;
      }
      assert s[..|s|] == s;
      h := i % NUNIT;
    }

    /** look2()'s inner loop: the first slot called s, if a probe meets one
        before an empty slot or its own start. */
    method Probe(s: string) returns (r: Option<Quantity>)
      requires Valid()
      ensures r == if s in table then Some(table[s]) else None
    {
      var i := HashOf(s);
      var j := i;
      ghost var d := 0;
      while slot[j].Some?
        invariant d < NUNIT && j == Probed(s, d) && Missed(slot[..], s, d)
        decreases NUNIT - d
      {
        if slot[j].value.name == s {
          ProbeHit(slot[..], table, at, s, d);
          return Some(slot[j].value.value);
        }
        ProbeStep(s, d);
        j := (j + 1) % NUNIT;
        d := d + 1;
        if j == i {
          break;
        }
      }
      ProbeMiss(slot[..], table, at, s, d);
      return None;
    }

    method Look2(s0: string) returns (r: Option<Quantity>)
      requires Valid()
      ensures r == New.Look2(table, s0)
    {
      hide PrefixOf;
      var s, coef := s0, 1.0;
      while true
        invariant New.Look2(table, s0) == Scaled(coef, New.Look2(table, s))
        decreases |s|
      {
        var hit := Probe(s);
        if hit.Some? { return Scaled(coef, hit); }
        var pf := PrefixOf(New.PREFIX, s);
        if pf.None? { return None; }
        var (pn, f) := pf.value;
        if |s| == |pn| {
          return Scaled(coef, Some(Quantity(f, Zeros(NDIM))));
        }
        ScaledOnce(coef, f, New.Look2(table, s[|pn|..]));
        s, coef := s[|pn|..], coef * f;
      }
    }

    method Lookup(name: string) returns (u: Option<Quantity>)
      requires Valid()
      ensures u == New.Find(table, name)
    {
      u := Look2(name);
      if u.None? && name != "" && name[|name| - 1] == 's' {
        u := Look2(name[..|name| - 1]);
      }
    }

    /** readfile()'s probe: the first empty slot for a name, if there is one. */
    method FirstEmpty(name: string) returns (j: Option<nat>, ghost d: nat)
      requires slot.Length == NUNIT
      ensures j.Some? ==> d < NUNIT && j.value == Probed(name, d) && slot[j.value].None?
      ensures j.Some? ==> forall m :: 0 <= m < d ==> slot[Probed(name, m)].Some?
      ensures j.None? <==> forall m :: 0 <= m < NUNIT ==> slot[m].Some?
    {
      var i := HashOf(name);
      var p := i;
      d := 0;
      while slot[p].Some?
        invariant d < NUNIT && p == Probed(name, d)
        invariant forall m :: 0 <= m < d ==> slot[Probed(name, m)].Some?
        decreases NUNIT - d
      {
        ProbeStep(name, d);
        p := (p + 1) % NUNIT;
        d := d + 1;
        if p == i {
          forall m | 0 <= m < NUNIT ensures slot[m].Some? {
            var n := ProbeReaches(name, m);
          }
          return None, d;
        }
      }
      j := Some(p);
    }

    /** readfile()'s store: a definition goes into the first empty slot of its
        probe, and the program stops when there is none or the names are full. */
    method Define(name: string, v: Quantity) returns (r: Outcome<()>)
      requires Valid()
      modifies this`table, this`at, this`strp, slot
      ensures Valid()
      ensures r.Ok? ==> table == Defined(old(table), Def(name, v)) && strp == old(strp) + |name| + 1 <= NSTRBUF
      ensures r.Err? ==> table == old(table) && slot[..] == old(slot[..])
      ensures r.Err? <==> (forall j :: 0 <= j < NUNIT ==> old(slot[..])[j].Some?) || old(strp) + |name| + 1 > NSTRBUF
    {
      ghost var slots := slot[..];
      var j, d := FirstEmpty(name);
      if j.None? { return Err(OutOfSpace); }
      strp := strp + |name| + 1;
      if strp > NSTRBUF { return Err(OutOfSpace); }
      StoreKeepsPlaced(slots, table, at, Def(name, v), d);
      slot[j.value] := Some(Def(name, v));
      at := if name in table then at else at[name := d];
      table := Defined(table, Def(name, v));
      assert slot[..] == slots[Probed(name, d) := Some(Def(name, v))];
      return Ok(());
    }

    // ---- yylex ----

    /** yylex(), over a whole line. */
    method LexText(text: string) returns (r: Outcome<seq<New.Token>>)
      ensures r == New.Lex(text, 0)
    {
      var out: seq<New.Token> := [];
      var i := 0;
      PrependNone(New.Lex(text, 0));
      while true
        invariant i <= |text|
        invariant New.Lex(text, 0) == Prepend(out, New.Lex(text, i))
        decreases |text| - i
      {
        while i < |text| && (text[i] == ' ' || text[i] == '\t')
          invariant i <= |text|
          invariant New.Lex(text, 0) == Prepend(out, New.Lex(text, i))
        {
          i := i + 1;
        }
        if i == |text| {
          return Ok(out + [New.Eof]);
        }
        var t := LexOne(text, i);
        if t.Err? { return Err(t.error); }
        PrependSnoc(out, t.value.0, New.Lex(text, t.value.1));
        out, i := out + [t.value.0], t.value.1;
      }
    }

    // ---- the grammar ----

    /** There is a token to look at, and the last one is the end. */
    ghost predicate Ready()
      reads this`toks, this`k
    {
      k < |toks| && toks[|toks| - 1] == New.Eof
    }

    method Take() returns (t: New.Token)
      requires Ready()
      modifies this`k
      ensures t == old(toks[k]) && k == old(k) + 1 && (t != New.Eof ==> Ready())
    {
      t := toks[k];
      k := k + 1;
    }

    /** Stepping over one number, as after `@' and `^'. */
    method TakeNumber() returns (r: Outcome<real>)
      requires Ready()
      modifies this`k
      ensures r == if old(toks[k]).Number? then Ok(old(toks[k]).value) else Err(Syntax)
      ensures r.Ok? ==> Ready() && k == old(k) + 1
    {
      var t := Take();
      r := if t.Number? then Ok(t.value) else Err(Syntax);
    }

    method ReadCarets(v0: Quantity) returns (r: Outcome<Quantity>)
      requires Ready()
      modifies this`k
      ensures New.Carets(toks, v0, old(k)) == if r.Err? then Err(r.error) else Ok((r.value, k))
      ensures r.Ok? ==> Ready()
    {
      var v := v0;
      while toks[k] == New.Sym('^')
        invariant Ready() && old(k) <= k
        invariant New.Carets(toks, v0, old(k)) == New.Carets(toks, v, k)
        decreases |toks| - k
      {
        var t := Take();
        var n := TakeNumber();
        if n.Err? { return Err(n.error); }
        var w := Raise(v, n.value);
        if w.Err? { return w; }
        v := w.value;
      }
      r := Ok(v);
    }

    method ReadUnit() returns (r: Outcome<Quantity>)
      requires Valid() && Ready()
      modifies this`k
      decreases |toks| - k, 2
      ensures New.Unit(table, toks, New.ONE, old(k)) == if r.Err? then Err(r.error) else Ok((r.value, k))
      ensures r.Ok? ==> Ready() && k >= old(k)
    {
      var v := New.ONE;
      while true
        invariant Ready() && old(k) <= k
        invariant New.Unit(table, toks, New.ONE, old(k)) == New.Unit(table, toks, v, k)
        decreases |toks| - k
      {
        if toks[k] == New.Sym('/') {
          var t := Take();
          var u := ReadTerm();
          if u.Err? { return u; }
          var w := Div(v, u.value);
          if w.Err? { return w; }
          v := w.value;
        } else if New.StartsTerm(toks, k) {
          var u := ReadTerm();
          if u.Err? { return u; }
          v := Mul(v, u.value);
        } else {
          return Ok(v);
        }
      }
    }

    method ReadTerm() returns (r: Outcome<Quantity>)
      requires Valid() && Ready()
      modifies this`k
      decreases |toks| - k, 1
      ensures New.Term(table, toks, old(k)) == if r.Err? then Err(r.error) else Ok((r.value, k))
      ensures r.Ok? ==> Ready() && k > old(k)
    {
      r := ReadAtom();
      if r.Ok? { r := ReadCarets(r.value); }
    }

    method ReadAtom() returns (r: Outcome<Quantity>)
      requires Valid() && Ready()
      modifies this`k
      decreases |toks| - k, 0
      ensures New.Atom(table, toks, old(k)) == if r.Err? then Err(r.error) else Ok((r.value, k))
      ensures r.Ok? ==> Ready() && k > old(k)
    {
      hide New.Unit, New.Primitive, Raise;
      var t := Take();
      match t
      case Number(v) => r := Ok(Quantity(v, Zeros(NDIM)));
      case Name(w) =>
        var u := Lookup(w);
        r := Ok(if u.Some? then u.value else New.UNKNOWN);
      case Square =>
        var u := ReadTerm();
        r := if u.Err? then u else Raise(u.value, 2.0);
      case Cube =>
        var u := ReadTerm();
        r := if u.Err? then u else Raise(u.value, 3.0);
      case Eof => r := Err(Syntax);
      case Sym(c) =>
        if c == '@' {
          var n := TakeNumber();
          r := if n.Err? then Err(n.error) else New.Primitive(n.value);
        } else if c == '(' {
          r := ReadUnit();
          if r.Ok? {
            var close := Take();
            if close != New.Sym(')') { r := Err(Syntax); }
          }
        } else {
          r := Err(Syntax);
        }
    }

    /** parse(): the whole of a line. */
    method ParseText(text: string) returns (r: Outcome<Quantity>)
      requires Valid()
      modifies this`toks, this`k
      ensures r == New.Parse(table, text)
    {
      var ts := LexText(text);
      if ts.Err? { return Err(ts.error); }
      toks, k := ts.value, 0;
      r := ReadUnit();
      if r.Ok? && toks[k] != New.Eof { r := Err(Syntax); }
    }

    /** One line of a table: its expression is read, then stored under its name. */
    method ReadDefinition(name: string, text: string) returns (r: Outcome<()>)
      requires Valid()
      modifies this`toks, this`k, this`table, this`at, this`strp, slot
      ensures Valid()
      ensures r.Ok? ==> New.Parse(old(table), text).Ok?
                        && table == Defined(old(table), Def(name, New.Parse(old(table), text).value))
      ensures r.Err? ==> table == old(table)
      ensures r.Err? <==> New.Parse(old(table), text).Err?
                          || (forall j :: 0 <= j < NUNIT ==> old(slot[..])[j].Some?) || old(strp) + |name| + 1 > NSTRBUF
    {
      var v := ParseText(text);
      if v.Err? { return Err(v.error); }
      r := Define(name, v.value);
    }
  }

  function Prepend(ts: seq<New.Token>, r: Outcome<seq<New.Token>>): Outcome<seq<New.Token>> {
    match r
    case Err(e) => Err(e)
    case Ok(us) => Ok(ts + us)
  }

  lemma PrependNone(r: Outcome<seq<New.Token>>)
    ensures Prepend([], r) == r
  {
    if r.Ok? { assert [] + r.value == r.value; }
  }

  lemma PrependSnoc(ts: seq<New.Token>, t: New.Token, r: Outcome<seq<New.Token>>)
    ensures Prepend(ts, New.Cons(t, r)) == Prepend(ts + [t], r)
  {
    if r.Ok? { assert ts + ([t] + r.value) == (ts + [t]) + r.value; }
  }

  /** The token at i, which is not a blank. */
  method LexOne(s: string, i: nat) returns (r: Outcome<(New.Token, nat)>)
    requires i < |s| && !IsBlank(s[i])
    ensures r.Err? ==> New.Lex(s, i) == Err(r.error)
    ensures r.Ok? ==> i < r.value.1 <= |s| && New.Lex(s, i) == New.Cons(r.value.0, New.Lex(s, r.value.1))
  {
    if IsDigit(s[i]) || s[i] == '-' || s[i] == '.' {
      var n := LexNumber(s, i);
      if n.Err? { return Err(n.error); }
      return Ok((New.Number(n.value.0), n.value.1));
    }
    if !NotId(s[i]) {
      var j := i;
      while j < |s| && !NotId(s[j])
        invariant i <= j <= |s| && forall m :: i <= m < j ==> In(s[m], Word)
      {
        j := j + 1;
      }
      RunUnique(s, i, Word, j);
      return Ok((New.WordToken(s[i..j]), j));
    }
    if s[i] in "*/()^@" {
      return Ok((New.Sym(s[i]), i + 1));
    }
    return Err(BadChar);
  }

  method LexNumber(s: string, start: nat) returns (r: Outcome<(real, nat)>)
    requires start < |s| && (IsDigit(s[start]) || s[start] == '-' || s[start] == '.')
    ensures r == New.LexNumber(s, start)
  {
    hide Scale10, IntOf, AfterDot;
    ghost var a := if s[start] == '-' then start + 1 else start;
    var i, digits, dots := start, 0, 0;
    while true
      invariant start <= i < |s| && (i > start ==> In(s[i], Mantissa))
      invariant forall m :: start < m < i ==> In(s[m], Mantissa)
      invariant i == start ==> digits == dots == 0
      invariant i > start ==> digits == Digits(s[a..i]) && dots == Dots(s[a..i])
      decreases |s| - i
    {
      if IsDigit(s[i]) { digits := digits + 1; }
      else if s[i] == '.' { dots := dots + 1; }
      CountOne(s, a, i);
      i := i + 1;
      if i == |s| || !(IsDigit(s[i]) || s[i] == '.') {
        break;
      }
    }
    RunUnique(s, start + 1, Mantissa, i);
    if digits == 0 || dots > 1 { return Err(BadNumber); }
    var x := LexExponent(s, i);
    if x.Err? { return Err(x.error); }
    var v := Scale10(IntOf(s[if s[start] == '-' then start + 1 else start..i]) as real,
                     x.value.0 - AfterDot(s[if s[start] == '-' then start + 1 else start..i]));
    return Ok((if s[start] == '-' then -v else v, x.value.1));
  }

  lemma CountOne(s: string, a: nat, i: nat)
    requires i < |s| && a <= i + 1
    ensures a == i + 1 ==> Digits(s[a..i + 1]) == 0 && Dots(s[a..i + 1]) == 0
    ensures a <= i ==> Digits(s[a..i + 1]) == Digits(s[a..i]) + (if IsDigit(s[i]) then 1 else 0)
    ensures a <= i ==> Dots(s[a..i + 1]) == Dots(s[a..i]) + (if s[i] == '.' then 1 else 0)
  {
    if a <= i { assert s[a..i + 1][..i - a] == s[a..i]; }
  }

  method LexExponent(s: string, j: nat) returns (r: Outcome<(int, nat)>)
    requires j <= |s|
    ensures r == New.LexExponent(s, j)
  {
    if j == |s| || (s[j] != 'e' && s[j] != 'E') { return Ok((0, j)); }
    var i := j + 1;
    if i < |s| && (s[i] == '+' || s[i] == '-') { i := i + 1; }
    if i == |s| || !IsDigit(s[i]) { return Err(BadNumber); }
    var k := i;
    while k < |s| && IsDigit(s[k])
      invariant i <= k <= |s| && forall m :: i <= m < k ==> In(s[m], Digit)
    {
      k := k + 1;
    }
    RunUnique(s, i, Digit, k);
    var x: int := IntOf(s[i..k]);
    return Ok((if s[i - 1] == '-' then -x else x, k));
  }
}
