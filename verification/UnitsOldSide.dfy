/** What old/units.c makes of a definition body: its number over its factors. */
module UnitsOldSide {
  import opened Basics
  import opened UnitsValues
  import opened UnitsTranslate
  import opened UnitsMeaning
  import Old = UnitsOld

  /** The factors applied one after another, as convr() meets them. */
  function Fold(t: Old.Table, fs: seq<Factor>, p: Old.Reading): Outcome<Old.Reading> {
    if fs == [] then Ok(p)
    else
      var p1 :- One(t, fs[0], p);
      Fold(t, fs[1..], p1)
  }

  function One(t: Old.Table, f: Factor, p: Old.Reading): Outcome<Old.Reading> {
    match Old.Find(t, f.name)
    case None => Ok(p.(unknown := p.unknown + 1))
    case Some(v) =>
      if f.power == 0 then Err(Refused)
      else var q :- Old.Power(p.q, v, f.den, f.power); Ok(p.(q := q))
  }

  function EndingAt(r: Outcome<Old.Reading>, j: nat): Outcome<(Old.Reading, nat)> {
    match r
    case Err(e) => Err(e)
    case Ok(p) => Ok((p, j))
  }

  /** convr()'s loop reads exactly the factors that factors() lists. */
  lemma {:induction false} NamesAreFactors(t: Old.Table, s: string, i: nat, name: string, den: bool, p: Old.Reading)
    requires i <= |s| && '\n' !in s && '\0' !in s
    ensures Old.Names(t, s + "\n", i, name, den, p)
         == EndingAt(Fold(t, Factors(s, i, name, den), p), |s| + 1)
    decreases |s| - i
  {
    hide One, Old.IsSep, Old.Apply;
    var line := s + "\n";
    if i == |s| {
      assert line[i] == '\n';
      NamesAtEnd(t, line, i, name, den, p);
    } else {
      assert line[i] == s[i] && s[i] in s;
      if !Old.IsSep(s[i]) {
        NamesAreFactors(t, s, i + 1, name + [s[i]], den, p);
      } else if name == "" {
        NamesAreFactors(t, s, i + 1, "", den || s[i] == '/', p);
        assert [] + Factors(s, i + 1, "", den || s[i] == '/') == Factors(s, i + 1, "", den || s[i] == '/');
      } else {
        var f := Factor(name, FactorPower(s[i]), den);
        var rest := Factors(s, i + 1, "", den || s[i] == '/');
        assert Factors(s, i, name, den) == [f] + rest;
        assert ([f] + rest)[1..] == rest;
        OneIsApply(t, s[i], f, p);
        if One(t, f, p).Ok? {
          NamesAreFactors(t, s, i + 1, "", den || s[i] == '/', One(t, f, p).value);
        }
      }
    }
  }

  lemma NamesAtEnd(t: Old.Table, line: string, i: nat, name: string, den: bool, p: Old.Reading)
    requires i + 1 == |line| && line[i] == '\n'
    ensures Old.Names(t, line, i, name, den, p)
         == EndingAt(Fold(t, if name == "" then [] else [Factor(name, 1, den)], p), i + 1)
  {
    if name != "" {
      var f := Factor(name, 1, den);
      OneIsApply(t, '\n', f, p);
      assert [f][1..] == [];
    }
  }

  lemma OneIsApply(t: Old.Table, c: char, f: Factor, p: Old.Reading)
    requires Old.IsSep(c) && f.power == FactorPower(c)
    ensures One(t, f, p) == Old.Apply(t, f.name, f.den, c, p)
  {
  }

  // ---- the closed form ----

  /** p, times what is above the line, over what is below it. */
  function Closed(p: Quantity, top: Quantity, bottom: Quantity): Outcome<Quantity> {
    Div(Mul(p, top), bottom)
  }

  function With(p: Old.Reading, r: Outcome<Quantity>): Outcome<Old.Reading> {
    match r
    case Err(e) => Err(e)
    case Ok(q) => Ok(p.(q := q))
  }

  predicate Known(t: Old.Table, fs: seq<Factor>) {
    forall f :: f in fs ==> f.power > 0 && Old.Find(t, f.name).Some? && |OldFactor(t, f).dims| == OLD_NDIM
  }

  lemma OneIsFactor(t: Old.Table, f: Factor, p: Old.Reading)
    requires Known(t, [f])
    ensures One(t, f, p) == With(p, if f.den then Div(p.q, OldFactor(t, f)) else Ok(Mul(p.q, OldFactor(t, f))))
  {
    assert f in [f];
  }

  lemma {:induction false} FoldIsClosed(t: Old.Table, fs: seq<Factor>, p: Old.Reading)
    requires Known(t, fs) && |p.q.dims| == OLD_NDIM
    ensures Fold(t, fs, p)
         == With(p, Closed(p.q, OldProduct(t, Select(fs, false)), OldProduct(t, Select(fs, true))))
  {
    if fs == [] {
      ClosedUnits(p.q);
    } else {
      var f, rest := fs[0], fs[1..];
      var x := OldFactor(t, f);
      OneIsFactor(t, f, p);
      FoldStep(t, fs, p.q);
      if f.den && x.coef == 0.0 {
      } else {
        var q := if f.den then Div(p.q, x).value else Mul(p.q, x);
        FoldIsClosed(t, rest, p.(q := q));
      }
    }
  }

  lemma FoldStep(t: Old.Table, fs: seq<Factor>, q: Quantity)
    requires fs != [] && Known(t, fs) && |q.dims| == OLD_NDIM
    ensures Closed(q, OldProduct(t, Select(fs, false)), OldProduct(t, Select(fs, true)))
         == if fs[0].den && OldFactor(t, fs[0]).coef == 0.0 then Err(DivisionByZero)
            else Closed(if fs[0].den then Div(q, OldFactor(t, fs[0])).value else Mul(q, OldFactor(t, fs[0])),
                        OldProduct(t, Select(fs[1..], false)), OldProduct(t, Select(fs[1..], true)))
  {
    var x, rest := OldFactor(t, fs[0]), fs[1..];
    var top, bottom := OldProduct(t, Select(rest, false)), OldProduct(t, Select(rest, true));
    SelectCons(fs);
    assert Select(fs, fs[0].den)[1..] == Select(rest, fs[0].den);
    if fs[0].den {
      DivideStep(q, x, top, bottom);
    } else {
      MultiplyStep(q, x, top, bottom);
    }
  }

  lemma SelectCons(fs: seq<Factor>)
    requires fs != []
    ensures forall d :: Select(fs, d) == if fs[0].den == d then [fs[0]] + Select(fs[1..], d) else Select(fs[1..], d)
  {
    forall d: bool
      ensures Select(fs, d) == if fs[0].den == d then [fs[0]] + Select(fs[1..], d) else Select(fs[1..], d)
    {
      assert [] + Select(fs[1..], d) == Select(fs[1..], d);
    }
  }

  lemma ClosedUnits(p: Quantity)
    requires |p.dims| == OLD_NDIM
    ensures Closed(p, Quantity(1.0, Zeros(OLD_NDIM)), Quantity(1.0, Zeros(OLD_NDIM))) == Ok(p)
  {
    assert VSub(VAdd(p.dims, Zeros(OLD_NDIM)), Zeros(OLD_NDIM)) == p.dims;
    assert (p.coef * 1.0) / 1.0 == p.coef;
  }

  lemma MultiplyStep(p: Quantity, x: Quantity, top: Quantity, bottom: Quantity)
    requires |p.dims| == |x.dims| == |top.dims| == |bottom.dims|
    ensures Closed(p, Mul(x, top), bottom) == Closed(Mul(p, x), top, bottom)
  {
    var l, r := Mul(p, Mul(x, top)), Mul(Mul(p, x), top);
    assert l.coef == r.coef;
    assert l.dims == r.dims;
  }

  lemma DivideStep(p: Quantity, x: Quantity, top: Quantity, bottom: Quantity)
    requires |p.dims| == |x.dims| == |top.dims| == |bottom.dims|
    ensures Closed(p, top, Mul(x, bottom))
         == if x.coef == 0.0 then Err(DivisionByZero) else Closed(Div(p, x).value, top, bottom)
  {
    if x.coef != 0.0 {
      if bottom.coef == 0.0 {
        assert x.coef * bottom.coef == 0.0;
      } else {
        DividedOut(p.coef, x.coef, top.coef, bottom.coef);
        var l, r := Closed(p, top, Mul(x, bottom)).value, Closed(Div(p, x).value, top, bottom).value;
        assert l.coef == r.coef;
        assert l.dims == r.dims;
      }
    }
  }

  lemma DividedOut(p: real, x: real, t: real, b: real)
    requires x != 0.0 && b != 0.0
    ensures x * b != 0.0 && (p * t) / (x * b) == ((p / x) * t) / b
  {
    NonZeroProduct(x, b);
    var q := ((p / x) * t) / b;
    assert q * b == (p / x) * t;
    assert (q * b) * x == ((p / x) * x) * t == p * t;
    assert q * (x * b) == (q * b) * x;
  }

  // ---- the number ----

  lemma RunExtends(s: string, i: nat, k: Class)
    requires i <= |s| && k != Word
    ensures Run(s + "\n", i, k) == Run(s, i, k)
  {
    var j := Run(s, i, k);
    assert forall m :: i <= m < j ==> (s + "\n")[m] == s[m];
    RunUnique(s + "\n", i, k, j);
  }

  lemma ScanExtends(s: string, i: nat)
    requires i <= |s|
    ensures Old.Scan(s + "\n", i) == Old.Scan(s, i)
    ensures Old.NumeralValue(s + "\n", Old.Scan(s, i)) == Old.NumeralValue(s, Old.Scan(s, i))
  {
    hide Run, Old.NumeralValue;
    var n := Old.Scan(s, i);
    RunExtends(s, i, Blank);
    RunExtends(s, n.mant, Mantissa);
    if n.sign < n.exp { RunExtends(s, n.exp, Digit); }
    ValueExtends(s, n);
  }

  lemma ValueExtends(s: string, n: Numeral)
    requires Within(s, n)
    ensures Old.NumeralValue(s + "\n", n) == Old.NumeralValue(s, n)
  {
    hide IntOf, AfterDot, Scale10;
    assert (s + "\n")[n.mant..n.sign] == s[n.mant..n.sign];
    assert (s + "\n")[n.exp..n.end] == s[n.exp..n.end];
  }

  lemma EmptyNumber(s: string)
    requires NoNumber(s)
    ensures Old.NumeralValue(s, First(s)) == 0.0
  {
    var n := First(s);
    assert IntOf(MantissaOf(s, n)) == 0;
    Scale10Zero(0.0, Old.Exponent(s, n) - AfterDot(MantissaOf(s, n)));
  }

  lemma LastTerm(s: string, i: nat)
    requires i <= |s| && '\0' !in s && !HasBar(s, Old.Scan(s, i))
    ensures Old.GetFlt(s + "\n", i) == Ok((Old.NumeralValue(s, Old.Scan(s, i)), Old.Scan(s, i).end))
  {
    var line, n := s + "\n", Old.Scan(s, i);
    ScanExtends(s, i);
    Old.GetFltCases(line, i);
    assert n.end < |s| ==> line[n.end] == s[n.end] && s[n.end] in s;
  }

  /** getflt() on a good number: the value of what is written, nothing written
      being zero. */
  lemma NumberRead(s: string)
    requires GoodNumber(s) && '\0' !in s
    ensures Old.GetFlt(s + "\n", 0) ==
            match NumberValue(s)
            case Err(e) => Err(e)
            case Ok(v) => Ok((if NoNumber(s) then 0.0 else v, NumberEnd(s)))
  {
    hide Old.GetFlt, Old.NumeralValue, GoodMantissa, Old.Scan;
    var line, n := s + "\n", First(s);
    ScanExtends(s, 0);
    Old.GetFltCases(line, 0);
    if HasBar(s, n) {
      assert line[n.end] == s[n.end];
      LastTerm(s, n.end + 1);
    } else {
      LastTerm(s, 0);
      if NoNumber(s) { EmptyNumber(s); }
    }
  }

  function Meaning(t: Old.Table, s: string): Outcome<Quantity>
    requires forall f :: f in FactorsOf(s) ==> |OldFactor(t, f).dims| == OLD_NDIM
  {
    var v :- NumberValue(s);
    Closed(Old.Start(v), OldProduct(t, Select(FactorsOf(s), false)), OldProduct(t, Select(FactorsOf(s), true)))
  }

  /** The whole definition: zero, or nothing, counts as one. */
  lemma OldMeaning(t: Old.Table, s: string, unknown: nat)
    requires Translatable(s)
    requires forall f :: f in FactorsOf(s) ==> Old.Find(t, f.name).Some? && |Old.Find(t, f.name).value.dims| == OLD_NDIM
    ensures forall f :: f in FactorsOf(s) ==> |OldFactor(t, f).dims| == OLD_NDIM
    ensures var r := Meaning(t, s);
            if r.Err? then Old.Convr(t, s + "\n", 0, unknown) == Err(DivisionByZero)
            else Old.Convr(t, s + "\n", 0, unknown) == Ok((Old.Reading(r.value, unknown), |s| + 1))
  {
    hide GoodNumber, OldProduct, Old.GetFlt;
    NumberRead(s);
    if NumberValue(s).Ok? {
      var v := NumberValue(s).value;
      var p := Old.Reading(Old.Start(v), unknown);
      NamesAreFactors(t, s, NumberEnd(s), "", false, p);
      FoldIsClosed(t, FactorsOf(s), p);
    }
  }
}
