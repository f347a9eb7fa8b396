/** What a definition body means to each reader, as a product of factors, and
    how much the two meanings differ. */
module UnitsMeaning {
  import opened Basics
  import opened UnitsValues
  import opened UnitsTranslate
  import Old = UnitsOld
  import New = UnitsNew

  // ---- which bodies are translated faithfully ----

  function MantissaOf(s: string, n: Numeral): string
    requires n.mant <= n.sign <= |s|
  {
    s[n.mant..n.sign]
  }

  predicate GoodMantissa(m: string) { Digits(m) >= 1 && Dots(m) <= 1 }

  predicate HasBar(s: string, n: Numeral) { n.end < |s| && s[n.end] == '|' }

  function First(s: string): Numeral { Old.Scan(s, 0) }

  function Second(s: string): Numeral
    requires HasBar(s, First(s))
  {
    Old.Scan(s, First(s).end + 1)
  }

  /** No number, one number or a fraction of two, each with a digit and at most
      one dot: what atof and getflt() both read. */
  predicate GoodNumber(s: string) {
    if HasBar(s, First(s)) then
      GoodMantissa(MantissaOf(s, First(s))) && GoodMantissa(MantissaOf(s, Second(s)))
      && !HasBar(s, Second(s))
    else
      GoodMantissa(MantissaOf(s, First(s)))
      || (MantissaOf(s, First(s)) == "" && First(s).exp == First(s).end)
  }

  predicate NoNumber(s: string) { !HasBar(s, First(s)) && MantissaOf(s, First(s)) == "" }

  /** Where the names start. */
  function NumberEnd(s: string): (j: nat)
    ensures j <= |s|
  {
    if HasBar(s, First(s)) then Second(s).end else First(s).end
  }

  function NumberValue(s: string): Outcome<real> {
    var v := Old.NumeralValue(s, First(s));
    if HasBar(s, First(s)) then
      var d := Old.NumeralValue(s, Second(s));
      if d == 0.0 then Err(DivisionByZero) else Ok(v / d)
    else Ok(if NoNumber(s) then 1.0 else v)
  }

  /** A number is written, and it is zero: old/units.c reads it as one. */
  predicate ZeroNumber(s: string) { NumberValue(s) == Ok(0.0) }

  function FactorsOf(s: string): seq<Factor> { Factors(s, NumberEnd(s), "", false) }

  /** A name units.y reads back as one identifier. */
  predicate Plain(w: string) {
    w != "" && !New.IsKeyword(w) && w[0] != '.' && w[0] != '-' && !IsDigit(w[0])
    && forall i :: 0 <= i < |w| ==> !NotId(w[i])
  }

  predicate PrimitiveName(w: string) { IsPrimitive(w) && 'a' <= w[1] <= 'j' }

  function PrimitiveIndex(w: string): (i: nat)
    requires PrimitiveName(w)
    ensures i < OLD_NDIM
  {
    w[1] as int - 'a' as int
  }

  predicate GoodFactor(f: Factor) {
    1 <= f.power <= 9 && (PrimitiveName(f.name) || (Plain(f.name) && !IsPrimitive(f.name)))
  }

  predicate Translatable(s: string) {
    '\n' !in s && '\0' !in s && GoodNumber(s) && forall f :: f in FactorsOf(s) ==> GoodFactor(f)
  }

  // ---- what the names mean ----

  function Pad(d: seq<int>): seq<int> { d + [0] }

  /** Both tables know the name, and agree on it; primitive dimensions are
      built in. */
  predicate AgreeOn(ot: Old.Table, nt: New.Table, w: string) {
    Old.Find(ot, w).Some? && |Old.Find(ot, w).value.dims| == OLD_NDIM
    && var v := Old.Find(ot, w).value;
       if PrimitiveName(w) then v == Quantity(1.0, Basis(OLD_NDIM, PrimitiveIndex(w)))
       else New.Find(nt, w) == Some(Quantity(v.coef, Pad(v.dims)))
  }

  predicate Agree(ot: Old.Table, nt: New.Table, fs: seq<Factor>) {
    forall f :: f in fs ==> GoodFactor(f) && AgreeOn(ot, nt, f.name)
  }

  function OldFactor(ot: Old.Table, f: Factor): Quantity {
    match Old.Find(ot, f.name)
    case Some(v) => Powered(v, f.power)
    case None => Quantity(1.0, Zeros(OLD_NDIM))
  }

  function NewFactor(nt: New.Table, f: Factor): Quantity {
    if PrimitiveName(f.name) then Quantity(1.0, Basis(NDIM, PrimitiveIndex(f.name)))
    else Powered(New.Named(nt, f.name), f.power)
  }

  function OldProduct(ot: Old.Table, fs: seq<Factor>): (q: Quantity)
    requires forall f :: f in fs ==> |OldFactor(ot, f).dims| == OLD_NDIM
    ensures |q.dims| == OLD_NDIM
  {
    if fs == [] then Quantity(1.0, Zeros(OLD_NDIM)) else Mul(OldFactor(ot, fs[0]), OldProduct(ot, fs[1..]))
  }

  function NewProduct(nt: New.Table, fs: seq<Factor>): (q: Quantity)
    requires forall f :: f in fs ==> |NewFactor(nt, f).dims| == NDIM
    ensures |q.dims| == NDIM
  {
    if fs == [] then New.ONE else Mul(NewFactor(nt, fs[0]), NewProduct(nt, fs[1..]))
  }

  /** The dimensions lost where term() drops a primitive's power. */
  function LostHere(f: Factor): (v: seq<int>)
    ensures |v| == NDIM
  {
    if PrimitiveName(f.name) then VScale(f.power - 1, Basis(NDIM, PrimitiveIndex(f.name))) else Zeros(NDIM)
  }

  function Lost(fs: seq<Factor>): (v: seq<int>)
    ensures |v| == NDIM
  {
    if fs == [] then Zeros(NDIM) else VAdd(LostHere(fs[0]), Lost(fs[1..]))
  }

  /** Over the whole body: lost above the line, less lost below it. */
  function LostBy(s: string): (v: seq<int>)
    ensures |v| == NDIM
  {
    VSub(Lost(Select(FactorsOf(s), false)), Lost(Select(FactorsOf(s), true)))
  }

  lemma AgreeShapes(ot: Old.Table, nt: New.Table, f: Factor)
    requires GoodFactor(f) && AgreeOn(ot, nt, f.name)
    ensures |OldFactor(ot, f).dims| == OLD_NDIM && |NewFactor(nt, f).dims| == NDIM
    ensures OldFactor(ot, f).coef == NewFactor(nt, f).coef
    ensures Pad(OldFactor(ot, f).dims) == VAdd(NewFactor(nt, f).dims, LostHere(f))
  {
    hide New.Find, PrimitiveName, GoodFactor, Old.Find;
    var v := Old.Find(ot, f.name).value;
    if PrimitiveName(f.name) {
      PowOne(f.power);
      var i := PrimitiveIndex(f.name);
      assert forall j :: 0 <= j < NDIM ==> Basis(NDIM, i)[j] == if j == i then 1 else 0;
    } else {
      assert New.Named(nt, f.name) == Quantity(v.coef, Pad(v.dims));
    }
  }

  lemma PowOne(n: nat)
    ensures Pow(1.0, n) == 1.0
  {
  }

  lemma Shapes(ot: Old.Table, nt: New.Table, fs: seq<Factor>)
    requires Agree(ot, nt, fs)
    ensures forall f :: f in fs ==> |OldFactor(ot, f).dims| == OLD_NDIM && |NewFactor(nt, f).dims| == NDIM
  {
    forall f | f in fs
      ensures |OldFactor(ot, f).dims| == OLD_NDIM && |NewFactor(nt, f).dims| == NDIM
    {
      AgreeShapes(ot, nt, f);
    }
  }

  lemma Interchange(a: seq<int>, b: seq<int>, c: seq<int>, d: seq<int>)
    requires |a| == |b| == |c| == |d|
    ensures VAdd(VAdd(a, b), VAdd(c, d)) == VAdd(VAdd(a, c), VAdd(b, d))
  {
  }

  lemma PadAdd(a: seq<int>, b: seq<int>)
    requires |a| == |b|
    ensures Pad(VAdd(a, b)) == VAdd(Pad(a), Pad(b))
    ensures Pad(VSub(a, b)) == VSub(Pad(a), Pad(b))
  {
  }

  /** The two products have the same coefficient, and differ by what is lost. */
  lemma {:induction false} ProductsAgree(ot: Old.Table, nt: New.Table, fs: seq<Factor>)
    requires Agree(ot, nt, fs)
    ensures forall f :: f in fs ==> |OldFactor(ot, f).dims| == OLD_NDIM && |NewFactor(nt, f).dims| == NDIM
    ensures OldProduct(ot, fs).coef == NewProduct(nt, fs).coef
    ensures Pad(OldProduct(ot, fs).dims) == VAdd(NewProduct(nt, fs).dims, Lost(fs))
  {
    Shapes(ot, nt, fs);
    if fs == [] {
      assert Pad(Zeros(OLD_NDIM)) == VAdd(Zeros(NDIM), Zeros(NDIM));
    } else {
      ProductsAgree(ot, nt, fs[1..]);
      AgreeShapes(ot, nt, fs[0]);
      StepAgrees(OldFactor(ot, fs[0]), NewFactor(nt, fs[0]), LostHere(fs[0]),
                 OldProduct(ot, fs[1..]), NewProduct(nt, fs[1..]), Lost(fs[1..]));
    }
  }

  lemma StepAgrees(a: Quantity, b: Quantity, l: seq<int>, p: Quantity, q: Quantity, m: seq<int>)
    requires a.coef == b.coef && p.coef == q.coef
    requires |a.dims| == |p.dims| == OLD_NDIM && |b.dims| == |q.dims| == |l| == |m| == NDIM
    requires Pad(a.dims) == VAdd(b.dims, l) && Pad(p.dims) == VAdd(q.dims, m)
    ensures Mul(a, p).coef == Mul(b, q).coef
    ensures Pad(Mul(a, p).dims) == VAdd(Mul(b, q).dims, VAdd(l, m))
  {
    PadAdd(a.dims, p.dims);
    Interchange(b.dims, l, q.dims, m);
  }
}
