/** The grammar of units.y: what a line of numbers, names, powers, products and
    quotients is worth. */
module UnitsExpressions {
  import opened UnitsValues
  import opened UnitsMeaning
  import opened UnitsNewSide
  import opened UnitsNumerals
  import New = UnitsNew

  // ---- lines ----

  datatype Atom =
    | Num(l: Literal)
    | Called(w: string)
    | Primary(l: Literal)
    | Squared(w: string, e: Term)
    | Cubed(w: string, e: Term)
    | Group(inside: Line)

  /** An atom and the powers after it. */
  datatype Term = Term(atom: Atom, powers: seq<Literal>)

  /** Terms side by side, each multiplied in or divided by. */
  datatype Line = End | By(e: Term, rest: Line) | Over(e: Term, rest: Line)

  predicate AllSpelt(ls: seq<Literal>) { forall i :: 0 <= i < |ls| ==> Spelt(ls[i]) }

  predicate AtomWritten(a: Atom) {
    match a
    case Num(l) => Spelt(l)
    case Called(w) => Plain(w)
    case Primary(l) => Spelt(l)
    case Squared(w, e) => (w == "square" || w == "sq") && TermWritten(e)
    case Cubed(w, e) => (w == "cubic" || w == "cu") && TermWritten(e)
    case Group(inside) => LineWritten(inside)
  }

  /** Powers after `square m' are m's. */
  predicate TermWritten(e: Term) {
    AtomWritten(e.atom) && AllSpelt(e.powers) && (e.atom.Squared? || e.atom.Cubed? ==> e.powers == [])
  }

  predicate LineWritten(l: Line) {
    match l
    case End => true
    case By(e, rest) => TermWritten(e) && LineWritten(rest)
    case Over(e, rest) => TermWritten(e) && LineWritten(rest)
  }

  // ---- worth ----

  predicate Whole(x: real) { x.Floor as real == x }

  /** Nothing is ever asked of a quotient by zero. */
  function Quotient(x: real, y: real): real { if y == 0.0 then 0.0 else x / y }

  function ToThe(c: real, n: int): real
    decreases if n < 0 then -n else n
  {
    if n == 0 then 1.0 else if n > 0 then ToThe(c, n - 1) * c else Quotient(ToThe(c, n + 1), c)
  }

  function PowersCoef(c: real, ls: seq<Literal>): real
    requires AllSpelt(ls)
    decreases |ls|
  {
    if ls == [] then c else PowersCoef(ToThe(c, Amount(ls[0]).Floor), ls[1..])
  }

  function PowersDim(d: int, ls: seq<Literal>): int
    requires AllSpelt(ls)
    decreases |ls|
  {
    if ls == [] then d else PowersDim(d * Amount(ls[0]).Floor, ls[1..])
  }

  function AtomCoef(t: New.Table, a: Atom): real
    requires AtomWritten(a)
  {
    match a
    case Num(l) => Amount(l)
    case Called(w) => New.Named(t, w).coef
    case Primary(_) => 1.0
    case Squared(_, e) => TermCoef(t, e) * TermCoef(t, e)
    case Cubed(_, e) => TermCoef(t, e) * TermCoef(t, e) * TermCoef(t, e)
    case Group(inside) => Quotient(Top(t, inside), Bottom(t, inside))
  }

  function TermCoef(t: New.Table, e: Term): real
    requires TermWritten(e)
  {
    PowersCoef(AtomCoef(t, e.atom), e.powers)
  }

  /** The product of what is multiplied in... */
  function Top(t: New.Table, l: Line): real
    requires LineWritten(l)
  {
    match l
    case End => 1.0
    case By(e, rest) => TermCoef(t, e) * Top(t, rest)
    case Over(_, rest) => Top(t, rest)
  }

  /** ...and of what is divided by. */
  function Bottom(t: New.Table, l: Line): real
    requires LineWritten(l)
  {
    match l
    case End => 1.0
    case By(_, rest) => Bottom(t, rest)
    case Over(e, rest) => TermCoef(t, e) * Bottom(t, rest)
  }

  /** Powers are whole, and zero has no negative one. */
  predicate PowersSound(c: real, ls: seq<Literal>)
    requires AllSpelt(ls)
    decreases |ls|
  {
    ls == [] || (var x := Amount(ls[0]); Whole(x) && (x < 0.0 ==> c != 0.0) && PowersSound(ToThe(c, x.Floor), ls[1..]))
  }

  predicate AtomSound(t: New.Table, a: Atom)
    requires AtomWritten(a)
  {
    match a
    case Num(_) => true
    case Called(_) => true
    case Primary(l) => Whole(Amount(l)) && 0.0 <= Amount(l) < NDIM as real
    case Squared(_, e) => TermSound(t, e)
    case Cubed(_, e) => TermSound(t, e)
    case Group(inside) => LineSound(t, inside)
  }

  predicate TermSound(t: New.Table, e: Term)
    requires TermWritten(e)
  {
    AtomSound(t, e.atom) && PowersSound(AtomCoef(t, e.atom), e.powers)
  }

  /** Nothing is divided by zero. */
  predicate LineSound(t: New.Table, l: Line)
    requires LineWritten(l)
  {
    match l
    case End => true
    case By(e, rest) => TermSound(t, e) && LineSound(t, rest)
    case Over(e, rest) => TermSound(t, e) && TermCoef(t, e) != 0.0 && LineSound(t, rest)
  }

  /** The power of the d-th dimension. */
  function AtomDim(t: New.Table, a: Atom, d: nat): int
    requires AtomWritten(a)
  {
    match a
    case Num(_) => 0
    case Called(w) => if d < |New.Named(t, w).dims| then New.Named(t, w).dims[d] else 0
    case Primary(l) => if Amount(l) == d as real then 1 else 0
    case Squared(_, e) => 2 * TermDim(t, e, d)
    case Cubed(_, e) => 3 * TermDim(t, e, d)
    case Group(inside) => LineDim(t, inside, d)
  }

  function TermDim(t: New.Table, e: Term, d: nat): int
    requires TermWritten(e)
  {
    PowersDim(AtomDim(t, e.atom, d), e.powers)
  }

  function LineDim(t: New.Table, l: Line, d: nat): int
    requires LineWritten(l)
  {
    match l
    case End => 0
    case By(e, rest) => TermDim(t, e, d) + LineDim(t, rest, d)
    case Over(e, rest) => LineDim(t, rest, d) - TermDim(t, e, d)
  }

  /** Eleven dimensions. */
  function Dims(f: nat -> int): (v: seq<int>)
    ensures |v| == NDIM && forall d: nat :: d < NDIM ==> v[d] == f(d)
  {
    seq(NDIM, d requires 0 <= d < NDIM => f(d))
  }

  function AtomWorth(t: New.Table, a: Atom): Quantity
    requires AtomWritten(a)
  {
    Quantity(AtomCoef(t, a), Dims((d: nat) => AtomDim(t, a, d)))
  }

  function TermWorth(t: New.Table, e: Term): Quantity
    requires TermWritten(e)
  {
    Quantity(TermCoef(t, e), Dims((d: nat) => TermDim(t, e, d)))
  }

  function LineWorth(t: New.Table, l: Line): Quantity
    requires LineWritten(l)
  {
    Quantity(Quotient(Top(t, l), Bottom(t, l)), Dims((d: nat) => LineDim(t, l, d)))
  }

  // ---- lexemes ----

  datatype Lexeme = Figure(l: Literal) | Letters(w: string) | Mark(c: char)

  function AtomLexemes(a: Atom): seq<Lexeme> {
    match a
    case Num(l) => [Figure(l)]
    case Called(w) => [Letters(w)]
    case Primary(l) => [Mark('@'), Figure(l)]
    case Squared(w, e) => [Letters(w)] + TermLexemes(e)
    case Cubed(w, e) => [Letters(w)] + TermLexemes(e)
    case Group(inside) => [Mark('(')] + (LineLexemes(inside) + [Mark(')')])
  }

  function PowerLexemes(ls: seq<Literal>): seq<Lexeme> {
    if ls == [] then [] else [Mark('^'), Figure(ls[0])] + PowerLexemes(ls[1..])
  }

  function TermLexemes(e: Term): seq<Lexeme> { AtomLexemes(e.atom) + PowerLexemes(e.powers) }

  function LineLexemes(l: Line): seq<Lexeme> {
    match l
    case End => []
    case By(e, rest) => TermLexemes(e) + LineLexemes(rest)
    case Over(e, rest) => [Mark('/')] + (TermLexemes(e) + LineLexemes(rest))
  }

  predicate Good(x: Lexeme) {
    match x
    case Figure(l) => Spelt(l)
    case Letters(w) => Plain(w) || New.IsKeyword(w)
    case Mark(c) => c in "/()^@"
  }

  predicate AllGood(ls: seq<Lexeme>) { forall i :: 0 <= i < |ls| ==> Good(ls[i]) }

  function Token(x: Lexeme): New.Token
    requires Good(x)
  {
    match x
    case Figure(l) => New.Number(Amount(l))
    case Letters(w) => New.WordToken(w)
    case Mark(c) => New.Sym(c)
  }

  lemma GoodBoth(a: seq<Lexeme>, b: seq<Lexeme>)
    requires AllGood(a) && AllGood(b)
    ensures AllGood(a + b)
  {
  }

  lemma {:induction false} AtomGood(a: Atom)
    requires AtomWritten(a)
    ensures AllGood(AtomLexemes(a))
  {
    hide Plain, Spelt;
    match a
    case Squared(w, e) => TermGood(e);
    case Cubed(w, e) => TermGood(e);
    case Group(inside) => LineGood(inside);
    case _ =>
  }

  lemma {:induction false} TermGood(e: Term)
    requires TermWritten(e)
    ensures AllGood(TermLexemes(e))
  {
    hide Plain, Spelt;
    AtomGood(e.atom);
    PowersGood(e.powers);
  }

  lemma {:induction false} PowersGood(ls: seq<Literal>)
    requires AllSpelt(ls)
    ensures AllGood(PowerLexemes(ls))
    decreases |ls|
  {
    hide Spelt;
    if ls != [] { PowersGood(ls[1..]); }
  }

  lemma {:induction false} LineGood(l: Line)
    requires LineWritten(l)
    ensures AllGood(LineLexemes(l))
  {
    hide Plain, Spelt, Good;
    match l
    case End =>
    case By(e, rest) =>
      TermGood(e);
      LineGood(rest);
      GoodBoth(TermLexemes(e), LineLexemes(rest));
    case Over(e, rest) =>
      TermGood(e);
      LineGood(rest);
      GoodBoth(TermLexemes(e), LineLexemes(rest));
      assert Good(Mark('/')) by { MarksGood(); }
  }

  lemma MarksGood()
    ensures forall c :: c in "/()^@" ==> Good(Mark(c))
  {
  }

  // ---- the grammar on the tokens of a line ----

  predicate Lies(ts: seq<New.Token>, k: nat, ls: seq<Lexeme>)
    requires AllGood(ls)
  {
    k + |ls| <= |ts| && forall i :: 0 <= i < |ls| ==> ts[k + i] == Token(ls[i])
  }

  lemma LiesBoth(ts: seq<New.Token>, k: nat, a: seq<Lexeme>, b: seq<Lexeme>)
    requires AllGood(a) && AllGood(b) && AllGood(a + b) && Lies(ts, k, a + b)
    ensures Lies(ts, k, a) && Lies(ts, k + |a|, b)
  {
    hide Good, Token;
    forall i | 0 <= i < |a|
      ensures ts[k + i] == Token(a[i])
    {
      assert (a + b)[i] == a[i];
    }
    forall i | 0 <= i < |b|
      ensures ts[k + |a| + i] == Token(b[i])
    {
      assert (a + b)[|a| + i] == b[i];
    }
  }

  lemma LiesWithin(ts: seq<New.Token>, k: nat, ls: seq<Lexeme>)
    requires AllGood(ls) && Lies(ts, k, ls)
    ensures k + |ls| <= |ts|
  {
  }

  lemma LiesAt(ts: seq<New.Token>, k: nat, ls: seq<Lexeme>, i: nat)
    requires AllGood(ls) && Lies(ts, k, ls) && i < |ls|
    ensures ts[k + i] == Token(ls[i])
  {
  }

  /** Every unit defined has its eleven dimensions. */
  predicate Shaped(t: New.Table) { forall w :: w in t ==> |t[w].dims| == NDIM }

  lemma {:induction false} LookShaped(t: New.Table, s: string)
    requires Shaped(t)
    ensures New.Look2(t, s).Some? ==> |New.Look2(t, s).value.dims| == NDIM
    decreases |s|
  {
    hide PrefixOf;
    if s !in t && PrefixOf(New.PREFIX, s).Some? {
      LookShaped(t, s[|PrefixOf(New.PREFIX, s).value.0|..]);
    }
  }

  lemma NamedShaped(t: New.Table, w: string)
    requires Shaped(t)
    ensures |New.Named(t, w).dims| == NDIM
  {
    hide New.Look2;
    LookShaped(t, w);
    if w != "" { LookShaped(t, w[..|w| - 1]); }
  }

  lemma {:induction false} ToTheUp(c: real, n: nat)
    ensures ToThe(c, n) == Pow(c, n)
  {
    if n > 0 { ToTheUp(c, n - 1); }
  }

  lemma {:induction false} ToTheDown(c: real, n: nat)
    requires c != 0.0
    ensures Pow(c, n) != 0.0 && ToThe(c, 0 - n) == 1.0 / Pow(c, n)
  {
    if n > 0 {
      ToTheDown(c, n - 1);
      PowZero(c, n);
      var p := Pow(c, n - 1);
      InverseOnce(p, c);
    }
  }

  lemma InverseOnce(p: real, c: real)
    requires p != 0.0 && c != 0.0
    ensures c * p != 0.0 && (1.0 / p) / c == 1.0 / (c * p)
  {
    NonZeroProduct(c, p);
    var q := (1.0 / p) / c;
    assert q * c == 1.0 / p;
    assert (q * c) * p == 1.0;
    assert q * (c * p) == 1.0;
  }

  lemma RaiseIs(v: Quantity, x: real)
    ensures Raise(v, x).Ok? <==> Whole(x) && (x < 0.0 ==> v.coef != 0.0)
    ensures Raise(v, x).Ok? ==> Raise(v, x).value == Quantity(ToThe(v.coef, x.Floor), VScale(x.Floor, v.dims))
  {
    hide ToThe, Pow, VScale;
    var n := x.Floor;
    if n >= 0 {
      ToTheUp(v.coef, n);
    } else if v.coef != 0.0 {
      ToTheDown(v.coef, -n);
    }
  }

  function PowersDims(ds: seq<int>, ls: seq<Literal>): (v: seq<int>)
    requires AllSpelt(ls)
    ensures |v| == |ds|
  {
    seq(|ds|, d requires 0 <= d < |ds| => PowersDim(ds[d], ls))
  }

  lemma PowersDimsOne(ds: seq<int>, ls: seq<Literal>)
    requires AllSpelt(ls) && ls != []
    ensures PowersDims(ds, ls) == PowersDims(VScale(Amount(ls[0]).Floor, ds), ls[1..])
  {
    hide Amount;
    var n := Amount(ls[0]).Floor;
    forall d | 0 <= d < |ds|
      ensures PowersDim(ds[d], ls) == PowersDim(VScale(n, ds)[d], ls[1..])
    {
      assert ds[d] * n == n * ds[d];
    }
  }

  lemma {:induction false} PowersRead(ts: seq<New.Token>, v: Quantity, k: nat, ls: seq<Literal>)
    requires AllSpelt(ls) && AllGood(PowerLexemes(ls)) && Lies(ts, k, PowerLexemes(ls))
    requires !New.IsSym(ts, k + |PowerLexemes(ls)|, '^')
    ensures if PowersSound(v.coef, ls)
            then New.Carets(ts, v, k) == Ok((Quantity(PowersCoef(v.coef, ls), PowersDims(v.dims, ls)), k + |PowerLexemes(ls)|))
            else New.Carets(ts, v, k).Err?
    decreases |ls|
  {
    hide Raise, ToThe, Spelt, Amount, VScale;
    if ls == [] {
      assert PowersDims(v.dims, ls) == v.dims;
    } else {
      var x, rest := Amount(ls[0]), PowerLexemes(ls[1..]);
      PowersGood(ls[1..]);
      LiesBoth(ts, k, [Mark('^'), Figure(ls[0])], rest);
      LiesAt(ts, k, [Mark('^'), Figure(ls[0])], 0);
      LiesAt(ts, k, [Mark('^'), Figure(ls[0])], 1);
      RaiseIs(v, x);
      if Raise(v, x).Ok? {
        PowersRead(ts, Raise(v, x).value, k + 2, ls[1..]);
        PowersDimsOne(v.dims, ls);
      }
    }
  }

  /** What a term starts with. */
  lemma {:induction false} TermFirst(ts: seq<New.Token>, k: nat, e: Term)
    requires TermWritten(e) && AllGood(TermLexemes(e)) && Lies(ts, k, TermLexemes(e))
    ensures New.StartsTerm(ts, k) && !New.IsSym(ts, k, '^') && !New.IsSym(ts, k, '/')
  {
    hide Plain, Spelt, Amount, AtomLexemes;
    AtomFirst(e.atom);
    LiesAt(ts, k, TermLexemes(e), 0);
  }

  predicate Starts(x: Lexeme) {
    match x
    case Figure(_) => true
    case Letters(_) => true
    case Mark(c) => c == '@' || c == '('
  }

  lemma AtomFirst(a: Atom)
    requires AtomWritten(a)
    ensures AtomLexemes(a) != [] && Starts(AtomLexemes(a)[0])
  {
  }

  /** The line ends there. */
  predicate Stopped(ts: seq<New.Token>, k: nat) { k < |ts| && (ts[k] == New.Eof || ts[k] == New.Sym(')')) }

  lemma NoCaretNext(ts: seq<New.Token>, k: nat, l: Line)
    requires LineWritten(l) && AllGood(LineLexemes(l)) && Lies(ts, k, LineLexemes(l)) && Stopped(ts, k + |LineLexemes(l)|)
    ensures !New.IsSym(ts, k, '^')
  {
    hide TermLexemes, TermWritten;
    match l
    case End =>
    case By(e, rest) =>
      TermGood(e);
      LineGood(rest);
      LiesBoth(ts, k, TermLexemes(e), LineLexemes(rest));
      TermFirst(ts, k, e);
    case Over(e, rest) => LiesAt(ts, k, LineLexemes(l), 0);
  }

  lemma DimsNumber()
    ensures Dims((d: nat) => 0) == Zeros(NDIM)
  {
  }

  predicate AtomResult(t: New.Table, ts: seq<New.Token>, k: nat, a: Atom)
    requires AtomWritten(a) && k <= |ts|
  {
    if AtomSound(t, a) then New.Atom(t, ts, k) == Ok((AtomWorth(t, a), k + |AtomLexemes(a)|)) else New.Atom(t, ts, k).Err?
  }

  predicate TermResult(t: New.Table, ts: seq<New.Token>, k: nat, e: Term)
    requires TermWritten(e) && k <= |ts|
  {
    if TermSound(t, e) then New.Term(t, ts, k) == Ok((TermWorth(t, e), k + |TermLexemes(e)|)) else New.Term(t, ts, k).Err?
  }

  lemma {:induction false} AtomRead(t: New.Table, ts: seq<New.Token>, k: nat, a: Atom)
    requires Shaped(t) && AtomWritten(a) && AllGood(AtomLexemes(a)) && Lies(ts, k, AtomLexemes(a))
    requires a.Squared? || a.Cubed? ==> !New.IsSym(ts, k + |AtomLexemes(a)|, '^')
    ensures AtomResult(t, ts, k, a)
    decreases a, 1
  {
    hide Plain, Spelt, Amount, AtomResult, TermResult, LineResult, Lies, TermLexemes, LineLexemes, New.WordToken;
    LiesAt(ts, k, AtomLexemes(a), 0);
    LiesWithin(ts, k, AtomLexemes(a));
    match a
    case Num(l) => NumRead(t, ts, k, l);
    case Called(w) => WordRead(t, ts, k, w);
    case Primary(l) =>
      LiesAt(ts, k, AtomLexemes(a), 1);
      PrimaryRead(t, ts, k, l);
    case Squared(w, e) =>
      TermGood(e);
      LiesBoth(ts, k, [Letters(w)], TermLexemes(e));
      TermRead(t, ts, k + 1, e);
      SquaredRead(t, ts, k, w, e);
    case Cubed(w, e) =>
      TermGood(e);
      LiesBoth(ts, k, [Letters(w)], TermLexemes(e));
      TermRead(t, ts, k + 1, e);
      CubedRead(t, ts, k, w, e);
    case Group(inside) =>
      LineGood(inside);
      MarksGood();
      var ls := LineLexemes(inside);
      GoodBoth(ls, [Mark(')')]);
      LiesBoth(ts, k, [Mark('(')], ls + [Mark(')')]);
      LiesBoth(ts, k + 1, ls, [Mark(')')]);
      LiesAt(ts, k + 1 + |ls|, [Mark(')')], 0);
      LineRead(t, ts, New.ONE, k + 1, inside);
      GroupRead(t, ts, k, inside);
  }

  lemma NumRead(t: New.Table, ts: seq<New.Token>, k: nat, l: Literal)
    requires Spelt(l) && k < |ts| && ts[k] == New.Number(Amount(l))
    ensures AtomResult(t, ts, k, Num(l))
  {
    hide Amount;
    assert AtomWorth(t, Num(l)).dims == Zeros(NDIM);
  }

  lemma WordRead(t: New.Table, ts: seq<New.Token>, k: nat, w: string)
    requires Shaped(t) && Plain(w) && k < |ts| && ts[k] == New.WordToken(w)
    ensures AtomResult(t, ts, k, Called(w))
  {
    hide New.Named;
    NamedShaped(t, w);
    assert AtomWorth(t, Called(w)).dims == New.Named(t, w).dims;
  }

  lemma PrimaryRead(t: New.Table, ts: seq<New.Token>, k: nat, l: Literal)
    requires Spelt(l) && k + 1 < |ts| && ts[k] == New.Sym('@') && ts[k + 1] == New.Number(Amount(l))
    ensures AtomResult(t, ts, k, Primary(l))
  {
    hide Amount;
    var x := Amount(l);
    if AtomSound(t, Primary(l)) {
      assert AtomWorth(t, Primary(l)).dims == Basis(NDIM, x.Floor);
    }
  }

  lemma PowTwoThree(c: real)
    ensures Pow(c, 2) == c * c && Pow(c, 3) == c * c * c
  {
    var p, q := Pow(c, 1), Pow(c, 2);
    assert p == c * Pow(c, 0) == c;
    assert q == c * p;
    assert Pow(c, 3) == c * q;
    assert c * (c * c) == c * c * c;
  }

  function Second(v: Quantity): Quantity { Quantity(v.coef * v.coef, VScale(2, v.dims)) }

  function Third(v: Quantity): Quantity { Quantity(v.coef * v.coef * v.coef, VScale(3, v.dims)) }

  lemma RaiseTwice(v: Quantity)
    ensures Raise(v, 2.0) == Ok(Second(v)) && Raise(v, 3.0) == Ok(Third(v))
  {
    hide Pow, VScale;
    PowTwoThree(v.coef);
    assert (2.0).Floor == 2 && (3.0).Floor == 3;
    assert Raise(v, 2.0).value.coef == Second(v).coef;
    assert Raise(v, 3.0).value.coef == Third(v).coef;
  }

  lemma SquaredWorth(t: New.Table, w: string, e: Term)
    requires TermWritten(e) && (w == "square" || w == "sq")
    ensures AtomWorth(t, Squared(w, e)) == Second(TermWorth(t, e))
  {
    hide TermCoef, TermDim, TermWritten;
    var u, v := AtomWorth(t, Squared(w, e)), Second(TermWorth(t, e));
    assert u.dims == v.dims;
    assert u.coef == v.coef;
  }

  lemma CubedWorth(t: New.Table, w: string, e: Term)
    requires TermWritten(e) && (w == "cubic" || w == "cu")
    ensures AtomWorth(t, Cubed(w, e)) == Third(TermWorth(t, e))
  {
    hide TermCoef, TermDim, TermWritten;
    var u, v := AtomWorth(t, Cubed(w, e)), Third(TermWorth(t, e));
    assert u.dims == v.dims;
    assert u.coef == v.coef;
  }

  lemma SquaredRead(t: New.Table, ts: seq<New.Token>, k: nat, w: string, e: Term)
    requires TermWritten(e) && (w == "square" || w == "sq") && k < |ts| && ts[k] == New.WordToken(w)
    requires TermResult(t, ts, k + 1, e)
    ensures AtomResult(t, ts, k, Squared(w, e))
  {
    hide TermLexemes, TermSound, TermWritten, TermWorth, AtomWorth, Second, Third, New.Term, Raise;
    if TermSound(t, e) {
      RaiseTwice(TermWorth(t, e));
      SquaredWorth(t, w, e);
    }
  }

  lemma CubedRead(t: New.Table, ts: seq<New.Token>, k: nat, w: string, e: Term)
    requires TermWritten(e) && (w == "cubic" || w == "cu") && k < |ts| && ts[k] == New.WordToken(w)
    requires TermResult(t, ts, k + 1, e)
    ensures AtomResult(t, ts, k, Cubed(w, e))
  {
    hide TermLexemes, TermSound, TermWritten, TermWorth, AtomWorth, Second, Third, New.Term, Raise;
    if TermSound(t, e) {
      RaiseTwice(TermWorth(t, e));
      CubedWorth(t, w, e);
    }
  }

  lemma OneTimes(v: Quantity)
    requires |v.dims| == NDIM
    ensures Mul(New.ONE, v) == v
  {
    assert Mul(New.ONE, v).dims == v.dims;
  }

  lemma GroupRead(t: New.Table, ts: seq<New.Token>, k: nat, inside: Line)
    requires LineWritten(inside) && k < |ts| && ts[k] == New.Sym('(')
    requires var end := k + 1 + |LineLexemes(inside)|; end < |ts| && ts[end] == New.Sym(')')
    requires LineResult(t, ts, New.ONE, k + 1, inside)
    ensures AtomResult(t, ts, k, Group(inside))
  {
    hide LineLexemes, LineSound, Top, Bottom, LineDim, New.Unit;
    OneTimes(LineWorth(t, inside));
    assert AtomWorth(t, Group(inside)).dims == LineWorth(t, inside).dims;
  }

  lemma {:induction false} TermRead(t: New.Table, ts: seq<New.Token>, k: nat, e: Term)
    requires Shaped(t) && TermWritten(e) && AllGood(TermLexemes(e)) && Lies(ts, k, TermLexemes(e))
    requires !New.IsSym(ts, k + |TermLexemes(e)|, '^')
    ensures TermResult(t, ts, k, e)
    decreases e, 2
  {
    hide AtomLexemes, AtomWritten, New.Atom, New.Carets, AtomCoef, AtomDim, AtomSound, PowersSound, PowersCoef, PowersDim;
    var a, ps := AtomLexemes(e.atom), PowerLexemes(e.powers);
    AtomGood(e.atom);
    PowersGood(e.powers);
    LiesBoth(ts, k, a, ps);
    AtomRead(t, ts, k, e.atom);
    var v := AtomWorth(t, e.atom);
    PowersRead(ts, v, k + |a|, e.powers);
    assert PowersDims(v.dims, e.powers) == TermWorth(t, e).dims;
  }

  /** The line read on from v. */
  predicate LineResult(t: New.Table, ts: seq<New.Token>, v: Quantity, k: nat, l: Line)
    requires LineWritten(l) && k <= |ts|
  {
    if LineSound(t, l) then New.Unit(t, ts, v, k) == Ok((Mul(v, LineWorth(t, l)), k + |LineLexemes(l)|))
    else New.Unit(t, ts, v, k).Err?
  }

  lemma {:induction false} LineRead(t: New.Table, ts: seq<New.Token>, v: Quantity, k: nat, l: Line)
    requires Shaped(t) && LineWritten(l) && AllGood(LineLexemes(l)) && Lies(ts, k, LineLexemes(l))
    requires Stopped(ts, k + |LineLexemes(l)|) && |v.dims| == NDIM
    ensures LineResult(t, ts, v, k, l)
    decreases l, 3
  {
    hide TermLexemes, TermWritten, TermWorth, LineWorth, New.Term, Mul, Div, TermCoef, TermDim, TermSound, Top, Bottom, LineDim, Lies;
    LiesWithin(ts, k, LineLexemes(l));
    match l
    case End => EndRead(t, ts, v, k);
    case By(e, rest) =>
      TermGood(e);
      LineGood(rest);
      LiesBoth(ts, k, TermLexemes(e), LineLexemes(rest));
      var j := k + |TermLexemes(e)|;
      NoCaretNext(ts, j, rest);
      TermRead(t, ts, k, e);
      TermFirst(ts, k, e);
      if TermSound(t, e) {
        var u := TermWorth(t, e);
        TermShape(t, e);
        MulShape(v, u);
        LineRead(t, ts, Mul(v, u), j, rest);
        if LineSound(t, rest) { ByWorth(t, v, e, rest); }
      }
    case Over(e, rest) =>
      TermGood(e);
      LineGood(rest);
      MarksGood();
      GoodBoth(TermLexemes(e), LineLexemes(rest));
      LiesBoth(ts, k, [Mark('/')], TermLexemes(e) + LineLexemes(rest));
      LiesBoth(ts, k + 1, TermLexemes(e), LineLexemes(rest));
      LiesAt(ts, k, [Mark('/')], 0);
      var j := k + 1 + |TermLexemes(e)|;
      NoCaretNext(ts, j, rest);
      TermRead(t, ts, k + 1, e);
      if TermSound(t, e) {
        var u := TermWorth(t, e);
        TermShape(t, e);
        DivShape(v, u);
        if u.coef != 0.0 {
          LineRead(t, ts, Div(v, u).value, j, rest);
          if LineSound(t, rest) { OverWorth(t, v, e, rest); }
        }
      }
  }

  lemma TermShape(t: New.Table, e: Term)
    requires TermWritten(e)
    ensures |TermWorth(t, e).dims| == NDIM && TermWorth(t, e).coef == TermCoef(t, e)
  {
    hide TermCoef, TermDim, TermWritten;
  }

  lemma MulShape(v: Quantity, u: Quantity)
    requires |v.dims| == |u.dims| == NDIM
    ensures |Mul(v, u).dims| == NDIM
  {
  }

  lemma DivShape(v: Quantity, u: Quantity)
    requires |v.dims| == |u.dims| == NDIM
    ensures Div(v, u).Ok? <==> u.coef != 0.0
    ensures Div(v, u).Ok? ==> |Div(v, u).value.dims| == NDIM
  {
  }

  lemma EndRead(t: New.Table, ts: seq<New.Token>, v: Quantity, k: nat)
    requires Stopped(ts, k) && |v.dims| == NDIM
    ensures LineResult(t, ts, v, k, End)
  {
    assert New.Unit(t, ts, v, k) == Ok((v, k));
    assert Mul(v, LineWorth(t, End)).dims == v.dims;
    assert LineWorth(t, End).coef == 1.0;
  }

  lemma {:induction false} BottomSound(t: New.Table, l: Line)
    requires LineWritten(l) && LineSound(t, l)
    ensures Bottom(t, l) != 0.0
  {
    hide TermCoef, TermWritten, TermSound;
    match l
    case End =>
    case By(_, rest) => BottomSound(t, rest);
    case Over(e, rest) =>
      BottomSound(t, rest);
      NonZeroProduct(TermCoef(t, e), Bottom(t, rest));
  }

  lemma ByCoef(v: real, u: real, p: real, q: real)
    requires q != 0.0
    ensures (v * u) * (p / q) == v * ((u * p) / q)
  {
    var r := p / q;
    assert r * q == p;
    assert (u * r) * q == u * p;
    assert (u * p) / q == u * r;
    assert (v * u) * r == v * (u * r);
  }

  lemma OverCoef(v: real, u: real, p: real, q: real)
    requires u != 0.0 && q != 0.0
    ensures u * q != 0.0 && (v / u) * (p / q) == v * (p / (u * q))
  {
    NonZeroProduct(u, q);
    var r, w := p / q, v / u;
    assert r * q == p && w * u == v;
    var x := p / (u * q);
    assert x * (u * q) == p;
    assert (x * u) * q == p;
    assert x * u == r;
    assert w * r == (w * u) * x;
  }

  lemma ByDims(t: New.Table, v: Quantity, e: Term, rest: Line)
    requires TermWritten(e) && LineWritten(rest) && |v.dims| == NDIM
    ensures VAdd(VAdd(v.dims, TermWorth(t, e).dims), LineWorth(t, rest).dims) == VAdd(v.dims, LineWorth(t, By(e, rest)).dims)
  {
    hide TermCoef, TermDim, TermWritten, Top, Bottom;
  }

  lemma ByQuotient(t: New.Table, e: Term, rest: Line)
    requires TermWritten(e) && LineWritten(rest) && LineSound(t, rest)
    ensures Bottom(t, rest) != 0.0
    ensures LineWorth(t, rest).coef == Top(t, rest) / Bottom(t, rest)
    ensures LineWorth(t, By(e, rest)).coef == (TermCoef(t, e) * Top(t, rest)) / Bottom(t, rest)
  {
    hide TermCoef, TermDim, TermWritten, LineSound, Top, Bottom, Dims;
    BottomSound(t, rest);
    ByParts(t, e, rest);
  }

  lemma ByParts(t: New.Table, e: Term, rest: Line)
    requires TermWritten(e) && LineWritten(rest)
    ensures Top(t, By(e, rest)) == TermCoef(t, e) * Top(t, rest) && Bottom(t, By(e, rest)) == Bottom(t, rest)
  {
    hide TermCoef, TermWritten;
  }

  lemma ByWorth(t: New.Table, v: Quantity, e: Term, rest: Line)
    requires TermWritten(e) && LineWritten(rest) && LineSound(t, rest) && |v.dims| == NDIM
    ensures Mul(Mul(v, TermWorth(t, e)), LineWorth(t, rest)) == Mul(v, LineWorth(t, By(e, rest)))
  {
    hide TermCoef, TermDim, TermWritten, LineSound, LineWorth, VAdd, Dims, Top, Bottom;
    ByQuotient(t, e, rest);
    ByDims(t, v, e, rest);
    var l, r := Mul(Mul(v, TermWorth(t, e)), LineWorth(t, rest)), Mul(v, LineWorth(t, By(e, rest)));
    ByCoef(v.coef, TermCoef(t, e), Top(t, rest), Bottom(t, rest));
    assert l.coef == r.coef;
  }

  lemma OverDims(t: New.Table, v: Quantity, e: Term, rest: Line)
    requires TermWritten(e) && LineWritten(rest) && |v.dims| == NDIM
    ensures VAdd(VSub(v.dims, TermWorth(t, e).dims), LineWorth(t, rest).dims) == VAdd(v.dims, LineWorth(t, Over(e, rest)).dims)
  {
    hide TermCoef, TermDim, TermWritten, Top, Bottom;
  }

  lemma OverQuotient(t: New.Table, e: Term, rest: Line)
    requires TermWritten(e) && LineWritten(rest) && LineSound(t, rest) && TermCoef(t, e) != 0.0
    ensures Bottom(t, rest) != 0.0 && TermCoef(t, e) * Bottom(t, rest) != 0.0
    ensures LineWorth(t, rest).coef == Top(t, rest) / Bottom(t, rest)
    ensures LineWorth(t, Over(e, rest)).coef == Top(t, rest) / (TermCoef(t, e) * Bottom(t, rest))
  {
    hide TermCoef, TermDim, TermWritten, LineSound, Top, Bottom, Dims;
    BottomSound(t, rest);
    NonZeroProduct(TermCoef(t, e), Bottom(t, rest));
    OverParts(t, e, rest);
  }

  lemma OverParts(t: New.Table, e: Term, rest: Line)
    requires TermWritten(e) && LineWritten(rest)
    ensures Top(t, Over(e, rest)) == Top(t, rest) && Bottom(t, Over(e, rest)) == TermCoef(t, e) * Bottom(t, rest)
  {
    hide TermCoef, TermWritten;
  }

  lemma OverWorth(t: New.Table, v: Quantity, e: Term, rest: Line)
    requires TermWritten(e) && LineWritten(rest) && LineSound(t, rest) && |v.dims| == NDIM && TermCoef(t, e) != 0.0
    ensures Div(v, TermWorth(t, e)).Ok?
    ensures Mul(Div(v, TermWorth(t, e)).value, LineWorth(t, rest)) == Mul(v, LineWorth(t, Over(e, rest)))
  {
    hide TermCoef, TermDim, TermWritten, LineSound, LineWorth, VAdd, VSub, Dims, Top, Bottom;
    OverQuotient(t, e, rest);
    OverDims(t, v, e, rest);
    var l, r := Mul(Div(v, TermWorth(t, e)).value, LineWorth(t, rest)), Mul(v, LineWorth(t, Over(e, rest)));
    OverCoef(v.coef, TermCoef(t, e), Top(t, rest), Bottom(t, rest));
    assert l.coef == r.coef;
  }

  // ---- text ----

  function Written(x: Lexeme): string {
    match x
    case Figure(l) => Spelling(l)
    case Letters(w) => w
    case Mark(c) => [c]
  }

  predicate Blanks(g: string) { forall i :: 0 <= i < |g| ==> g[i] == ' ' || g[i] == '\t' }

  /** Blanks after each lexeme, needed only between two that are no marks. */
  predicate Spaced(ls: seq<Lexeme>, gaps: seq<string>) {
    |gaps| == |ls| && forall i :: 0 <= i < |ls| ==> Blanks(gaps[i]) && (gaps[i] != "" || Apart(ls, i))
  }

  predicate Apart(ls: seq<Lexeme>, i: nat)
    requires i < |ls|
  {
    ls[i].Mark? || i + 1 == |ls| || ls[i + 1].Mark?
  }

  function Text(ls: seq<Lexeme>, gaps: seq<string>): string
    requires |gaps| == |ls|
  {
    if ls == [] then "" else Written(ls[0]) + (gaps[0] + Text(ls[1..], gaps[1..]))
  }

  function Tokens(ls: seq<Lexeme>): (ts: seq<New.Token>)
    requires AllGood(ls)
    ensures |ts| == |ls| && forall i :: 0 <= i < |ls| ==> ts[i] == Token(ls[i])
  {
    if ls == [] then [] else [Token(ls[0])] + Tokens(ls[1..])
  }

  lemma {:induction false} LexBlanks(s: string, i: nat, g: string)
    requires Blanks(g) && At(s, i, g)
    ensures New.Lex(s, i) == New.Lex(s, i + |g|)
    decreases |g|
  {
    hide New.LexNumber;
    if g != "" {
      assert [g[0]] + g[1..] == g;
      AtSplit(s, i, [g[0]], g[1..]);
      AtChar(s, i, g[0]);
      LexBlanks(s, i + 1, g[1..]);
    }
  }

  lemma LexLetters(s: string, i: nat, w: string)
    requires (Plain(w) || New.IsKeyword(w)) && At(s, i, w) && Stops(s, i + |w|)
    ensures New.Lex(s, i) == New.Cons(New.WordToken(w), New.Lex(s, i + |w|))
  {
    hide New.LexNumber, New.WordToken;
    var j := i + |w|;
    AtSlice(s, i, w);
    assert forall m :: i <= m < j ==> s[m] == w[m - i];
    RunUnique(s, i, Word, j);
  }

  lemma LexFigure(s: string, i: nat, l: Literal)
    requires Spelt(l) && At(s, i, Spelling(l)) && Stops(s, i + |Spelling(l)|)
    ensures New.Lex(s, i) == New.Cons(New.Number(Amount(l)), New.Lex(s, i + |Spelling(l)|))
  {
    hide New.LexNumber, Spelling, Amount, Spelt;
    NumeralRead(s, i, l);
  }

  lemma LexOne(s: string, i: nat, x: Lexeme)
    requires Good(x) && At(s, i, Written(x)) && (x.Mark? || Stops(s, i + |Written(x)|))
    ensures New.Lex(s, i) == New.Cons(Token(x), New.Lex(s, i + |Written(x)|))
  {
    hide New.Lex, Spelling, Amount, Plain, Spelt, New.WordToken;
    match x
    case Figure(l) => LexFigure(s, i, l);
    case Letters(w) => LexLetters(s, i, w);
    case Mark(c) =>
      AtChar(s, i, c);
      LexSym(s, i, c);
  }

  lemma StopsAfter(s: string, j: nat, ls: seq<Lexeme>, gaps: seq<string>)
    requires ls != [] && AllGood(ls) && Spaced(ls, gaps) && !ls[0].Mark?
    requires At(s, j, gaps[0] + Text(ls[1..], gaps[1..])) && j + |gaps[0] + Text(ls[1..], gaps[1..])| == |s|
    ensures Stops(s, j)
  {
    hide Good;
    var g, rest := gaps[0], Text(ls[1..], gaps[1..]);
    if g != "" {
      assert s[j] == (g + rest)[0] == g[0];
    } else if |ls| > 1 {
      assert Apart(ls, 0);
      assert ls[1..][0].Mark?;
      assert Good(ls[1]);
      MarkFirst(ls[1]);
      assert s[j] == (g + rest)[0] == rest[0] == Written(ls[1])[0];
    } else {
      assert rest == "";
    }
  }

  lemma MarkFirst(x: Lexeme)
    requires x.Mark? && Good(x)
    ensures |Written(x)| == 1 && Written(x)[0] in "/()^@"
  {
  }

  lemma SpacedRest(ls: seq<Lexeme>, gaps: seq<string>)
    requires ls != [] && Spaced(ls, gaps)
    ensures Spaced(ls[1..], gaps[1..])
  {
    forall i | 0 <= i < |ls| - 1
      ensures Blanks(gaps[1..][i]) && (gaps[1..][i] != "" || Apart(ls[1..], i))
    {
      assert gaps[1..][i] == gaps[i + 1] && (gaps[i + 1] != "" || Apart(ls, i + 1));
    }
  }

  lemma {:induction false} LexText(s: string, i: nat, ls: seq<Lexeme>, gaps: seq<string>)
    requires AllGood(ls) && Spaced(ls, gaps) && At(s, i, Text(ls, gaps)) && i + |Text(ls, gaps)| == |s|
    ensures New.Lex(s, i) == Ok(Tokens(ls) + [New.Eof])
    decreases |ls|
  {
    hide New.Lex, Good, Written, Token, Apart, At;
    if ls == [] {
      LexEnd(s, i);
      assert Tokens(ls) + [New.Eof] == [New.Eof];
    } else {
      var x, g, rest := ls[0], gaps[0], Text(ls[1..], gaps[1..]);
      var j := i + |Written(x)|;
      AtSplit(s, i, Written(x), g + rest);
      if !x.Mark? { StopsAfter(s, j, ls, gaps); }
      LexOne(s, i, x);
      AtSplit(s, j, g, rest);
      LexBlanks(s, j, g);
      SpacedRest(ls, gaps);
      LexText(s, j + |g|, ls[1..], gaps[1..]);
      assert [Token(x)] + (Tokens(ls[1..]) + [New.Eof]) == Tokens(ls) + [New.Eof];
    }
  }

  lemma LexEnd(s: string, i: nat)
    requires i == |s|
    ensures New.Lex(s, i) == Ok([New.Eof])
  {
  }

  lemma ParseLine(t: New.Table, l: Line, s: string)
    requires Shaped(t) && LineWritten(l) && AllGood(LineLexemes(l)) && New.Lex(s, 0) == Ok(Tokens(LineLexemes(l)) + [New.Eof])
    ensures if LineSound(t, l) then New.Parse(t, s) == Ok(LineWorth(t, l)) else New.Parse(t, s).Err?
  {
    hide New.Lex, New.Unit, Good, LineLexemes, LineSound, LineWorth, Mul;
    var ls := LineLexemes(l);
    var ts := Tokens(ls) + [New.Eof];
    LineRead(t, ts, New.ONE, 0, l);
    assert |LineWorth(t, l).dims| == NDIM by { WorthShape(t, l); }
    OneTimes(LineWorth(t, l));
  }

  lemma WorthShape(t: New.Table, l: Line)
    requires LineWritten(l)
    ensures |LineWorth(t, l).dims| == NDIM
  {
  }

  /** What units.y reads in a line, however it is spaced: the terms multiplied in over
      those divided by, each raised to its powers, `square' and `cubic' among them, and
      dimensions that add up so.  A line that divides by zero, raises zero to a negative
      power or anything to a broken one, or names no dimension, is refused. */
  lemma ExpressionRead(t: New.Table, l: Line, lead: string, gaps: seq<string>)
    requires Shaped(t) && LineWritten(l) && Blanks(lead) && Spaced(LineLexemes(l), gaps)
    ensures var s := lead + Text(LineLexemes(l), gaps);
            if LineSound(t, l) then New.Parse(t, s) == Ok(LineWorth(t, l)) else New.Parse(t, s).Err?
  {
    hide New.Lex, New.Parse, LineSound, LineWorth, LineLexemes, LineWritten, Text, Tokens, Good, Blanks;
    var ls := LineLexemes(l);
    var s := lead + Text(ls, gaps);
    LineGood(l);
    LexBlanks(s, 0, lead);
    LexText(s, |lead|, ls, gaps);
    ParseLine(t, l, s);
  }
}
