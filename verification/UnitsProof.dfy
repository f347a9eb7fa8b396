/** The translation keeps the meaning: units.y's reading of expression(text) is
    old/units.c's reading of text, up to the two places where it is not. */
module UnitsProof {
  import opened Basics
  import opened UnitsValues
  import opened UnitsTranslate
  import opened UnitsMeaning
  import opened UnitsNewSide
  import Old = UnitsOld
  import OldSide = UnitsOldSide
  import New = UnitsNew

  // ---- the grammar on the translation's tokens ----

  predicate Here(ts: seq<New.Token>, k: nat, us: seq<New.Token>) { k + |us| <= |ts| && ts[k..k + |us|] == us }

  lemma HereSplit(ts: seq<New.Token>, k: nat, a: seq<New.Token>, b: seq<New.Token>)
    requires Here(ts, k, a + b)
    ensures Here(ts, k, a) && Here(ts, k + |a|, b)
  {
    assert ts[k..k + |a|] == (a + b)[..|a|];
    assert ts[k + |a|..k + |a| + |b|] == (a + b)[|a|..];
  }

  lemma PoweredOnce(v: Quantity)
    ensures Powered(v, 1) == v
  {
    assert Pow(v.coef, 1) == v.coef * Pow(v.coef, 0) == v.coef;
    assert VScale(1, v.dims) == v.dims;
  }

  lemma ParseFactor(t: New.Table, ts: seq<New.Token>, k: nat, f: Factor)
    requires GoodFactor(f) && Here(ts, k, FactorTokens(f))
    requires !New.IsSym(ts, k + |FactorTokens(f)|, '^')
    ensures New.StartsTerm(ts, k)
    ensures New.Term(t, ts, k) == Ok((NewFactor(t, f), k + |FactorTokens(f)|))
  {
    hide GoodFactor, New.Named, Zeros, PrimitiveIndex, Basis, New.RaiseRead, VScale, Pow, New.Unit, PrimitiveName;
    var us := FactorTokens(f);
    assert ts[k] == ts[k..k + |us|][0] == us[0];
    if PrimitiveName(f.name) {
      assert ts[k + 1] == ts[k..k + |us|][1];
    } else if f.power == 1 {
      PoweredOnce(New.Named(t, f.name));
    } else {
      assert ts[k + 1] == ts[k..k + |us|][1] && ts[k + 2] == ts[k..k + |us|][2];
      var v := New.Named(t, f.name);
      assert (f.power as real).Floor == f.power;
      assert Raise(v, f.power as real) == Ok(Powered(v, f.power));
      assert New.Carets(ts, Powered(v, f.power), k + 3) == Ok((Powered(v, f.power), k + 3));
    }
  }

  lemma MulAssoc(a: Quantity, b: Quantity, c: Quantity)
    requires |a.dims| == |b.dims| == |c.dims|
    ensures Mul(Mul(a, b), c) == Mul(a, Mul(b, c))
  {
    var l, r := Mul(Mul(a, b), c), Mul(a, Mul(b, c));
    assert l.coef == r.coef;
    assert l.dims == r.dims;
  }

  lemma MulOne(v: Quantity)
    requires |v.dims| == NDIM
    ensures Mul(v, New.ONE) == v && Mul(New.ONE, v) == v
  {
    assert Mul(v, New.ONE).dims == v.dims && Mul(New.ONE, v).dims == v.dims;
  }

  lemma UnitStep(t: New.Table, ts: seq<New.Token>, v: Quantity, k: nat, f: Factor)
    requires GoodFactor(f) && Here(ts, k, FactorTokens(f))
    requires !New.IsSym(ts, k + |FactorTokens(f)|, '^')
    ensures New.Unit(t, ts, v, k) == New.Unit(t, ts, Mul(v, NewFactor(t, f)), k + |FactorTokens(f)|)
  {
    hide GoodFactor, Here, FactorTokens, Mul;
    ParseFactor(t, ts, k, f);
  }

  lemma NoCaret(ts: seq<New.Token>, j: nat, fs: seq<Factor>)
    requires fs != [] && Here(ts, j, Tokens(fs))
    ensures !New.IsSym(ts, j, '^')
  {
    assert ts[j] == ts[j..j + |Tokens(fs)|][0] == FactorTokens(fs[0])[0];
  }

  lemma {:induction false} ParseFactors(t: New.Table, ts: seq<New.Token>, k: nat, fs: seq<Factor>, v: Quantity, end: nat)
    requires forall f :: f in fs ==> GoodFactor(f) && |NewFactor(t, f).dims| == NDIM
    requires Here(ts, k, Tokens(fs)) && |v.dims| == NDIM && end == k + |Tokens(fs)|
    requires !New.IsSym(ts, end, '^')
    ensures New.Unit(t, ts, v, k) == New.Unit(t, ts, Mul(v, NewProduct(t, fs)), end)
    decreases |fs|
  {
    hide New.Unit, GoodFactor, New.IsSym, FactorTokens, NewFactor;
    if fs == [] {
      MulOne(v);
    } else {
      var f, rest := fs[0], fs[1..];
      HereSplit(ts, k, FactorTokens(f), Tokens(rest));
      var j := k + |FactorTokens(f)|;
      if rest != [] { NoCaret(ts, j, rest); }
      UnitStep(t, ts, v, k, f);
      ParseFactors(t, ts, j, rest, Mul(v, NewFactor(t, f)), end);
      MulAssoc(v, NewFactor(t, f), NewProduct(t, rest));
    }
  }

  function Number(v: real): Quantity { Quantity(v, Zeros(NDIM)) }

  lemma ParseNumber(t: New.Table, ts: seq<New.Token>, text: string)
    requires GoodNumber(text) && Here(ts, 0, NumberTokens(text))
    requires !New.IsSym(ts, |NumberTokens(text)|, '^')
    ensures New.Unit(t, ts, New.ONE, 0) ==
            if NumberValue(text).Err? then Err(NumberValue(text).error)
            else New.Unit(t, ts, Number(NumberValue(text).value), |NumberTokens(text)|)
  {
    hide Old.Scan, Old.NumeralValue, GoodNumber, MantissaOf, VAdd, New.Unit, HasBar, Zeros;
    var us := NumberTokens(text);
    if NoNumber(text) {
    } else {
      var v := Old.NumeralValue(text, First(text));
      assert ts[0] == ts[0..|us|][0] == us[0];
      if HasBar(text, First(text)) {
        assert ts[1] == ts[0..|us|][1] == us[1] && ts[2] == ts[0..|us|][2] == us[2];
        ParseOne(t, ts, New.ONE, 0, v);
        MulOne(Number(v));
        ParseOver(t, ts, v, Old.NumeralValue(text, Second(text)));
      } else {
        ParseOne(t, ts, New.ONE, 0, v);
        MulOne(Number(v));
      }
    }
  }

  lemma ParseOne(t: New.Table, ts: seq<New.Token>, u: Quantity, k: nat, v: real)
    requires k < |ts| && ts[k] == New.Number(v) && !New.IsSym(ts, k + 1, '^')
    ensures New.Unit(t, ts, u, k) == New.Unit(t, ts, Mul(u, Number(v)), k + 1)
  {
    assert New.Term(t, ts, k) == Ok((Number(v), k + 1));
  }

  lemma ParseOver(t: New.Table, ts: seq<New.Token>, v: real, d: real)
    requires |ts| >= 3 && ts[1] == New.Sym('/') && ts[2] == New.Number(d) && !New.IsSym(ts, 3, '^')
    ensures New.Unit(t, ts, Number(v), 1) ==
            if d == 0.0 then Err(DivisionByZero) else New.Unit(t, ts, Number(v / d), 3)
  {
    assert New.Term(t, ts, 2) == Ok((Number(d), 3));
    if d != 0.0 {
      var l, r := Div(Number(v), Number(d)).value, Number(v / d);
      assert l.coef == r.coef;
      assert l.dims == r.dims;
    }
  }

  /** The divisor and the end: a single term, or all of them in parentheses. */
  lemma ParseDivisor(t: New.Table, ts: seq<New.Token>, v: Quantity, k: nat, bottom: seq<Factor>)
    requires forall f :: f in bottom ==> GoodFactor(f) && |NewFactor(t, f).dims| == NDIM
    requires Here(ts, k, DivisorTokens(bottom) + [New.Eof]) && k + |DivisorTokens(bottom)| + 1 == |ts|
    requires |v.dims| == NDIM
    ensures New.Unit(t, ts, v, k) == if NewProduct(t, bottom).coef == 0.0 then Err(DivisionByZero)
                                     else Ok((Div(v, NewProduct(t, bottom)).value, |ts| - 1))
    ensures ts[|ts| - 1] == New.Eof
  {
    hide Here, DivisorTokens, GoodFactor, NewProduct, New.Term;
    var ds := DivisorTokens(bottom);
    EofAt(ts, k, ds);
    var e := k + |ds|;
    if bottom == [] {
      NothingBelow(t, ds);
      DivOne(v);
    } else {
      DivisorTerm(t, ts, k, bottom);
      if Div(v, NewProduct(t, bottom)).Ok? {
        assert New.Unit(t, ts, Div(v, NewProduct(t, bottom)).value, e) == Ok((Div(v, NewProduct(t, bottom)).value, e));
      }
    }
  }

  lemma NothingBelow(t: New.Table, ds: seq<New.Token>)
    ensures NewProduct(t, []) == New.ONE && DivisorTokens([]) == []
  {
  }

  lemma EofAt(ts: seq<New.Token>, k: nat, ds: seq<New.Token>)
    requires Here(ts, k, ds + [New.Eof])
    ensures Here(ts, k, ds) && k + |ds| < |ts| && ts[k + |ds|] == New.Eof
  {
    HereSplit(ts, k, ds, [New.Eof]);
    var e := k + |ds|;
    assert ts[e] == ts[e..e + 1][0] == New.Eof;
  }

  lemma DivOne(v: Quantity)
    requires |v.dims| == NDIM
    ensures Div(v, New.ONE) == Ok(v)
  {
    var w := Div(v, New.ONE).value;
    assert w.coef == v.coef;
    assert w.dims == v.dims;
  }

  lemma DivisorTerm(t: New.Table, ts: seq<New.Token>, k: nat, bottom: seq<Factor>)
    requires bottom != [] && forall f :: f in bottom ==> GoodFactor(f) && |NewFactor(t, f).dims| == NDIM
    requires Here(ts, k, DivisorTokens(bottom)) && !New.IsSym(ts, k + |DivisorTokens(bottom)|, '^')
    ensures New.IsSym(ts, k, '/')
    ensures New.Term(t, ts, k + 1) == Ok((NewProduct(t, bottom), k + |DivisorTokens(bottom)|))
  {
    hide GoodFactor, Mul, New.Term, FactorTokens, NewProduct, NewFactor;
    var ds := DivisorTokens(bottom);
    assert ts[k] == ts[k..k + |ds|][0] == ds[0] == New.Sym('/');
    if |bottom| == 1 {
      HereSplit(ts, k, [New.Sym('/')], FactorTokens(bottom[0]));
      ParseFactor(t, ts, k + 1, bottom[0]);
      ProductOne(t, bottom);
    } else {
      Parenthesised(t, ts, k, bottom);
    }
  }

  lemma ProductOne(t: New.Table, fs: seq<Factor>)
    requires |fs| == 1 && forall f :: f in fs ==> |NewFactor(t, f).dims| == NDIM
    ensures NewProduct(t, fs) == NewFactor(t, fs[0])
  {
    assert NewProduct(t, fs[1..]) == New.ONE;
    MulOne(NewFactor(t, fs[0]));
  }

  lemma Parenthesised(t: New.Table, ts: seq<New.Token>, k: nat, bottom: seq<Factor>)
    requires |bottom| > 1 && forall f :: f in bottom ==> GoodFactor(f) && |NewFactor(t, f).dims| == NDIM
    requires Here(ts, k, DivisorTokens(bottom)) && !New.IsSym(ts, k + |DivisorTokens(bottom)|, '^')
    ensures New.Term(t, ts, k + 1) == Ok((NewProduct(t, bottom), k + |DivisorTokens(bottom)|))
  {
    hide GoodFactor, Mul, NewProduct, New.Unit, New.Term, New.IsSym, Here, Tokens;
    var us := Tokens(bottom);
    var e := k + 2 + |us|;
    assert DivisorTokens(bottom) == [New.Sym('/'), New.Sym('(')] + us + [New.Sym(')')];
    ParensAt(ts, k, us);
    UnitStops(t, ts, NewProduct(t, bottom), e);
    ParseFactors(t, ts, k + 2, bottom, New.ONE, e);
    MulOne(NewProduct(t, bottom));
    TermInside(t, ts, NewProduct(t, bottom), k + 1, e);
  }

  lemma ParensAt(ts: seq<New.Token>, k: nat, us: seq<New.Token>)
    requires Here(ts, k, [New.Sym('/'), New.Sym('(')] + us + [New.Sym(')')])
    ensures k + |us| + 2 < |ts| && ts[k + 1] == New.Sym('(') && ts[k + 2 + |us|] == New.Sym(')') && Here(ts, k + 2, us)
  {
    var open, close := [New.Sym('/'), New.Sym('(')], [New.Sym(')')];
    HereSplit(ts, k, open + us, close);
    HereSplit(ts, k, open, us);
    var e := k + 2 + |us|;
    assert ts[k + 1] == ts[k..k + 2][1] && ts[e] == ts[e..e + 1][0];
  }

  lemma UnitStops(t: New.Table, ts: seq<New.Token>, q: Quantity, e: nat)
    requires e < |ts| && ts[e] == New.Sym(')')
    ensures New.Unit(t, ts, q, e) == Ok((q, e)) && !New.IsSym(ts, e, '^')
  {
  }

  lemma TermInside(t: New.Table, ts: seq<New.Token>, q: Quantity, k: nat, e: nat)
    requires k < e < |ts| && ts[k] == New.Sym('(') && ts[e] == New.Sym(')') && !New.IsSym(ts, e + 1, '^')
    requires New.Unit(t, ts, New.ONE, k + 1) == Ok((q, e))
    ensures New.Term(t, ts, k) == Ok((q, e + 1))
  {
    assert New.Atom(t, ts, k) == Ok((q, e + 1));
  }

  // ---- the whole body ----

  /** What units.y makes of the translation. */
  lemma NewMeaning(t: New.Table, text: string)
    requires Translatable(text)
    requires forall f :: f in FactorsOf(text) ==> |NewFactor(t, f).dims| == NDIM
    ensures Expression(text).Ok?
    ensures New.Parse(t, Expression(text).value) ==
            if NumberValue(text).Err? then Err(DivisionByZero)
            else Div(Mul(Number(NumberValue(text).value), NewProduct(t, Select(FactorsOf(text), false))),
                     NewProduct(t, Select(FactorsOf(text), true)))
  {
    hide GoodFactor, GoodNumber, Mul, New.Lex, New.Unit, New.Parse, NewProduct, Head, Divisor, Expression, NumberSpelling;
    var top, bottom := Select(FactorsOf(text), false), Select(FactorsOf(text), true);
    ExpressionIs(text);
    var s := Expression(text).value;
    LexBody(s, text, top, bottom);
    ParseBody(t, text, top, bottom, New.Lex(s, 0).value);
    ParseIs(t, s);
  }

  /** The translation is the number, the names above the line and the divisor. */
  lemma ExpressionIs(text: string)
    requires Translatable(text)
    ensures NumberSpelling(text).Ok? && GoodNumber(text)
    ensures Expression(text)
         == Ok(Head(NumberSpelling(text).value, Select(FactorsOf(text), false)) + Divisor(Select(FactorsOf(text), true)))
  {
    hide GoodFactor, GoodNumber, NumberSpelling, NumberText, Divisor;
    NumberTextIs(text);
    FactorsDrop(text, NumberEnd(text), NumberEnd(text), "", false);
  }

  lemma ParseIs(t: New.Table, s: string)
    requires New.Lex(s, 0).Ok?
    ensures var u := New.Unit(t, New.Lex(s, 0).value, New.ONE, 0);
            New.Parse(t, s) == if u.Err? then Err(u.error)
                               else if u.value.1 < |New.Lex(s, 0).value| && New.Lex(s, 0).value[u.value.1] == New.Eof
                               then Ok(u.value.0) else Err(Syntax)
  {
    hide New.Lex, New.Unit;
  }

  lemma ParseBody(t: New.Table, text: string, top: seq<Factor>, bottom: seq<Factor>, ts: seq<New.Token>)
    requires GoodNumber(text)
    requires forall f :: f in top ==> GoodFactor(f) && |NewFactor(t, f).dims| == NDIM
    requires forall f :: f in bottom ==> GoodFactor(f) && |NewFactor(t, f).dims| == NDIM
    requires ts == NumberTokens(text) + Tokens(top) + (DivisorTokens(bottom) + [New.Eof])
    ensures var v := NumberValue(text);
            if v.Err? then New.Unit(t, ts, New.ONE, 0) == Err(DivisionByZero)
            else
              var r := Div(Mul(Number(v.value), NewProduct(t, top)), NewProduct(t, bottom));
              if r.Err? then New.Unit(t, ts, New.ONE, 0) == Err(DivisionByZero)
              else New.Unit(t, ts, New.ONE, 0) == Ok((r.value, |ts| - 1))
    ensures ts[|ts| - 1] == New.Eof
  {
    hide Here, Tokens, DivisorTokens, NumberTokens, GoodFactor, GoodNumber, New.Unit, NewProduct, New.IsSym, Mul, Div,
         Old.NumeralValue, Second, First, NewFactor, HasBar, NoNumber, Zeros;
    var ds := DivisorTokens(bottom) + [New.Eof];
    BodyAt(ts, NumberTokens(text), Tokens(top), ds);
    var i, j := |NumberTokens(text)|, |NumberTokens(text)| + |Tokens(top)|;
    NoCaretAfter(ts, i, top, bottom);
    ParseNumber(t, ts, text);
    if NumberValue(text).Ok? {
      var v := Number(NumberValue(text).value);
      ParseFactors(t, ts, i, top, v, j);
      MulDims(v, NewProduct(t, top));
      ParseDivisor(t, ts, Mul(v, NewProduct(t, top)), j, bottom);
      DivOutcome(Mul(v, NewProduct(t, top)), NewProduct(t, bottom));
    } else {
      ParseDivisor(t, ts, New.ONE, j, bottom);
    }
  }

  lemma MulDims(p: Quantity, q: Quantity)
    requires |p.dims| == |q.dims| == NDIM
    ensures |Mul(p, q).dims| == NDIM
  {
  }

  lemma DivOutcome(p: Quantity, q: Quantity)
    ensures Div(p, q).Err? <==> q.coef == 0.0
    ensures Div(p, q).Err? ==> Div(p, q) == Err(DivisionByZero)
  {
  }

  lemma BodyAt(ts: seq<New.Token>, ns: seq<New.Token>, us: seq<New.Token>, ds: seq<New.Token>)
    requires ts == ns + us + ds
    ensures Here(ts, 0, ns) && Here(ts, |ns|, us) && Here(ts, |ns| + |us|, ds) && |ts| == |ns| + |us| + |ds|
  {
    assert Here(ts, 0, (ns + us) + ds);
    HereSplit(ts, 0, ns + us, ds);
    HereSplit(ts, 0, ns, us);
  }

  lemma NoCaretAfter(ts: seq<New.Token>, i: nat, top: seq<Factor>, bottom: seq<Factor>)
    requires Here(ts, i, Tokens(top)) && Here(ts, i + |Tokens(top)|, DivisorTokens(bottom) + [New.Eof])
    ensures !New.IsSym(ts, i, '^') && !New.IsSym(ts, i + |Tokens(top)|, '^')
  {
    var j, ds := i + |Tokens(top)|, DivisorTokens(bottom) + [New.Eof];
    assert ts[j] == ts[j..j + |ds|][0] == ds[0];
    if top != [] { NoCaret(ts, i, top); }
  }

  // ---- the theorem ----

  /** n reads what o reads, but for lost dimensions and a written zero. */
  predicate Related(o: Outcome<(Old.Reading, nat)>, n: Outcome<Quantity>, zero: bool, lost: seq<int>) {
    if o.Err? then n == Err(o.error)
    else n.Ok? && |n.value.dims| == |lost| == NDIM
         && n.value.coef == (if zero then 0.0 else o.value.0.q.coef)
         && VAdd(n.value.dims, lost) == Pad(o.value.0.q.dims)
  }

  /** The dimensions of the two readings differ by LostBy(text), and their
      coefficients only where a zero is written. */
  lemma Readings(ot: Old.Table, nt: New.Table, text: string, unknown: nat)
    requires Translatable(text) && Agree(ot, nt, FactorsOf(text))
    ensures Expression(text).Ok?
    ensures Related(Old.Convr(ot, text + "\n", 0, unknown), New.Parse(nt, Expression(text).value),
                    ZeroNumber(text), LostBy(text))
    ensures var o := Old.Convr(ot, text + "\n", 0, unknown);
            o.Ok? ==> o.value.1 == |text| + 1 && o.value.0.unknown == unknown
  {
    var fs := FactorsOf(text);
    var top, bottom := Select(fs, false), Select(fs, true);
    Shapes(ot, nt, fs);
    OldSide.OldMeaning(ot, text, unknown);
    NewMeaning(nt, text);
    ProductsAgree(ot, nt, top);
    ProductsAgree(ot, nt, bottom);
    if NumberValue(text).Ok? {
      Compare(NumberValue(text).value, OldProduct(ot, top), OldProduct(ot, bottom),
              NewProduct(nt, top), NewProduct(nt, bottom), Lost(top), Lost(bottom));
    }
  }

  lemma Compare(v: real, ot: Quantity, ob: Quantity, nt: Quantity, nb: Quantity, lt: seq<int>, lb: seq<int>)
    requires ot.coef == nt.coef && ob.coef == nb.coef
    requires |ot.dims| == |ob.dims| == OLD_NDIM && |nt.dims| == |nb.dims| == |lt| == |lb| == NDIM
    requires Pad(ot.dims) == VAdd(nt.dims, lt) && Pad(ob.dims) == VAdd(nb.dims, lb)
    ensures var o, n := OldSide.Closed(Old.Start(v), ot, ob), Div(Mul(Number(v), nt), nb);
            if ob.coef == 0.0 then o == n == Err(DivisionByZero)
            else n.value.coef == (if v == 0.0 then 0.0 else o.value.coef)
                 && VAdd(n.value.dims, VSub(lt, lb)) == Pad(o.value.dims)
  {
    if ob.coef != 0.0 {
      var o, n := OldSide.Closed(Old.Start(v), ot, ob).value, Div(Mul(Number(v), nt), nb).value;
      assert o.dims == VSub(ot.dims, ob.dims);
      assert n.dims == VSub(nt.dims, nb.dims);
      PadAdd(ot.dims, ob.dims);
      assert VSub(VAdd(nt.dims, lt), VAdd(nb.dims, lb)) == VAdd(VSub(nt.dims, nb.dims), VSub(lt, lb));
      if v == 0.0 { assert n.coef == 0.0 / nb.coef == 0.0; }
    }
  }

  /** Both programs make the same quantity, or both refuse to divide by zero. */
  predicate Same(o: Outcome<(Old.Reading, nat)>, n: Outcome<Quantity>) {
    match o
    case Err(e) => n == Err(e)
    case Ok(r) => n == Ok(Quantity(r.0.q.coef, Pad(r.0.q.dims)))
  }

  predicate SameMeaning(ot: Old.Table, nt: New.Table, text: string) {
    Expression(text).Ok?
    && Same(Old.Convr(ot, text + "\n", 0, 0), New.Parse(nt, Expression(text).value))
  }

  lemma VAddZero(d: seq<int>, l: seq<int>)
    requires |d| == |l| == NDIM
    ensures VAdd(d, l) == d <==> l == Zeros(NDIM)
  {
    assert VAdd(d, Zeros(NDIM)) == d;
    if VAdd(d, l) == d {
      forall i | 0 <= i < NDIM ensures l[i] == 0 { assert VAdd(d, l)[i] == d[i]; }
      assert l == Zeros(NDIM);
    }
  }

  lemma RelatedSame(o: Outcome<(Old.Reading, nat)>, n: Outcome<Quantity>, zero: bool, lost: seq<int>)
    requires Related(o, n, zero, lost)
    ensures Same(o, n) <==> o.Err? || (lost == Zeros(NDIM) && (zero ==> o.value.0.q.coef == 0.0))
  {
    if o.Ok? {
      VAddZero(n.value.dims, lost);
      assert Same(o, n) <==> n.value.coef == o.value.0.q.coef && n.value.dims == Pad(o.value.0.q.dims);
    }
  }

  predicate PrimitivesAtOne(fs: seq<Factor>) {
    forall f :: f in fs && PrimitiveName(f.name) ==> f.power == 1
  }

  lemma {:induction false} NothingLost(fs: seq<Factor>)
    requires PrimitivesAtOne(fs)
    ensures Lost(fs) == Zeros(NDIM)
  {
    if fs != [] {
      assert fs[0] in fs && forall f :: f in fs[1..] ==> f in fs;
      NothingLost(fs[1..]);
      assert LostHere(fs[0]) == Zeros(NDIM);
    }
  }

  /** A definition with no zero written in it, and every primitive dimension at
      power one, means to units.y what it meant to old/units.c. */
  lemma Translation(ot: Old.Table, nt: New.Table, text: string)
    requires Translatable(text) && Agree(ot, nt, FactorsOf(text))
    requires !ZeroNumber(text) && PrimitivesAtOne(FactorsOf(text))
    ensures SameMeaning(ot, nt, text)
  {
    Readings(ot, nt, text, 0);
    NothingLost(Select(FactorsOf(text), false));
    NothingLost(Select(FactorsOf(text), true));
    RelatedSame(Old.Convr(ot, text + "\n", 0, 0), New.Parse(nt, Expression(text).value), ZeroNumber(text), LostBy(text));
  }

  // ---- exactly when ----

  /** Some unit named in fs is worth zero. */
  predicate Vanishes(ot: Old.Table, fs: seq<Factor>) {
    exists f :: f in fs && Old.Find(ot, f.name).Some? && Old.Find(ot, f.name).value.coef == 0.0
  }

  lemma {:induction false} ProductVanishes(ot: Old.Table, fs: seq<Factor>)
    requires forall f :: f in fs ==> f.power > 0 && Old.Find(ot, f.name).Some? && |OldFactor(ot, f).dims| == OLD_NDIM
    ensures OldProduct(ot, fs).coef == 0.0 <==> Vanishes(ot, fs)
  {
    hide Old.Find, Zeros, VAdd, Pow, VScale;
    if fs != [] {
      var f := fs[0];
      ProductVanishes(ot, fs[1..]);
      PowZero(Old.Find(ot, f.name).value.coef, f.power);
      assert forall g :: g in fs <==> g == f || g in fs[1..];
      var x, y := OldFactor(ot, f).coef, OldProduct(ot, fs[1..]).coef;
      if x != 0.0 && y != 0.0 { NonZeroProduct(x, y); }
    }
  }

  /** Division by zero: a written zero under the bar, or a unit worth zero
      under the line. */
  predicate Divides(ot: Old.Table, text: string) {
    NumberValue(text).Err? || Vanishes(ot, Select(FactorsOf(text), true))
  }

  lemma OldOutcome(ot: Old.Table, nt: New.Table, text: string)
    requires Translatable(text) && Agree(ot, nt, FactorsOf(text))
    ensures Old.Convr(ot, text + "\n", 0, 0).Err? <==> Divides(ot, text)
    ensures !Divides(ot, text) ==>
              (Old.Convr(ot, text + "\n", 0, 0).value.0.q.coef == 0.0 <==> Vanishes(ot, Select(FactorsOf(text), false)))
  {
    var fs := FactorsOf(text);
    Shapes(ot, nt, fs);
    OldSide.OldMeaning(ot, text, 0);
    ProductVanishes(ot, Select(fs, false));
    ProductVanishes(ot, Select(fs, true));
    if !Divides(ot, text) {
      ClosedVanishes(Old.Start(NumberValue(text).value),
                     OldProduct(ot, Select(fs, false)), OldProduct(ot, Select(fs, true)));
      assert Old.Convr(ot, text + "\n", 0, 0).value.0.q == OldSide.Meaning(ot, text).value;
    }
  }

  lemma ClosedVanishes(p: Quantity, top: Quantity, bottom: Quantity)
    requires p.coef != 0.0 && bottom.coef != 0.0
    ensures OldSide.Closed(p, top, bottom).value.coef == 0.0 <==> top.coef == 0.0
  {
    if top.coef != 0.0 { NonZeroProduct(p.coef, top.coef); }
    assert ((p.coef * top.coef) / bottom.coef) * bottom.coef == p.coef * top.coef;
  }

  /** Exactly when a definition keeps its meaning: both refuse it, or the powers
      dropped from primitive dimensions cancel and a written zero is multiplied
      by a unit that is worth zero anyway. */
  lemma TranslationExactly(ot: Old.Table, nt: New.Table, text: string)
    requires Translatable(text) && Agree(ot, nt, FactorsOf(text))
    ensures SameMeaning(ot, nt, text) <==>
            Divides(ot, text)
            || (LostBy(text) == Zeros(NDIM) && (ZeroNumber(text) ==> Vanishes(ot, Select(FactorsOf(text), false))))
  {
    Readings(ot, nt, text, 0);
    OldOutcome(ot, nt, text);
    RelatedSame(Old.Convr(ot, text + "\n", 0, 0), New.Parse(nt, Expression(text).value), ZeroNumber(text), LostBy(text));
  }

  // ---- two definitions that do change ----

  const AREA := "*a*2"

  lemma AreaNumber()
    ensures First(AREA) == Old.Numeral(0, 0, 0, 0)
    ensures GoodNumber(AREA) && NumberValue(AREA) == Ok(1.0) && NumberEnd(AREA) == 0
  {
    assert MantissaOf(AREA, First(AREA)) == "";
  }

  lemma AreaFactors()
    ensures FactorsOf(AREA) == [Factor("*a*", 2, false)]
  {
    var f := Factor("*a*", 2, false);
    AreaNumber();
    calc {
      Factors(AREA, 0, "", false);
      { assert "" + ['*'] == ['*']; }
      Factors(AREA, 1, ['*'], false);
      { assert ['*'] + ['a'] == "*a"; }
      Factors(AREA, 2, "*a", false);
      { assert "*a" + ['*'] == "*a*"; }
      Factors(AREA, 3, "*a*", false);
    }
    assert Factors(AREA, 3, "*a*", false) == [f] + Factors(AREA, 4, "", false) == [f];
  }

  lemma AreaLost()
    ensures Select(FactorsOf(AREA), true) == [] && LostBy(AREA) != Zeros(NDIM)
  {
    AreaFactors();
    var fs := [Factor("*a*", 2, false)];
    assert fs[1..] == [];
    assert Select(fs, false) == fs && Select(fs, true) == [];
    assert LostBy(AREA)[0] == 1 && Zeros(NDIM)[0] == 0;
  }

  lemma AreaTranslatable()
    ensures Translatable(AREA)
  {
    AreaNumber();
    AreaFactors();
  }

  /** `*a*2' is an area to old/units.c and a length to units.y. */
  lemma PowerDropped(ot: Old.Table, nt: New.Table)
    requires AgreeOn(ot, nt, "*a*")
    ensures Translatable(AREA) && !SameMeaning(ot, nt, AREA)
  {
    hide SameMeaning, Translatable, AgreeOn, PrefixOf, Basis, Scaled;
    AreaTranslatable();
    AreaFactors();
    AreaLost();
    AreaNumber();
    TranslationExactly(ot, nt, AREA);
  }

  /** `0' is one to old/units.c and zero to units.y. */
  lemma ZeroBecomesOne(ot: Old.Table, nt: New.Table)
    ensures Translatable("0") && !SameMeaning(ot, nt, "0")
  {
    hide SameMeaning;
    var s := "0";
    RunUnique(s, 0, Mantissa, 1);
    assert First(s) == Old.Numeral(0, 1, 1, 1);
    var m := MantissaOf(s, First(s));
    assert m == "0" && m[..0] == "";
    assert Digits(m) == 1 && Dots(m) == 0 && IntOf(m) == IntOf("") * 10 + 0;
    assert NumberEnd(s) == 1 && FactorsOf(s) == [];
    assert s[1..1] == "";
    Scale10Zero(0.0, Old.Exponent(s, First(s)) - AfterDot(m));
    assert ZeroNumber(s);
    TranslationExactly(ot, nt, s);
  }
}
