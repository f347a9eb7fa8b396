/** What units.y makes of the translated body: the tokens yylex() finds in it,
    and the value the grammar gives them. */
module UnitsNewSide {
  import opened UnitsValues
  import opened UnitsTranslate
  import opened UnitsMeaning
  import Old = UnitsOld
  import New = UnitsNew

  // ---- tokens of the translation ----

  predicate At(s: string, i: nat, w: string) {
    i + |w| <= |s| && forall k {:trigger w[k]} :: 0 <= k < |w| ==> s[i + k] == w[k]
  }

  lemma AtSlice(s: string, i: nat, w: string)
    requires At(s, i, w)
    ensures s[i..i + |w|] == w
  {
  }

  lemma AtChar(s: string, i: nat, c: char)
    requires At(s, i, [c])
    ensures i < |s| && s[i] == c
  {
    assert [c][0] == c;
  }

  /** A term ends at j: a blank, `/', `)' or nothing follows. */
  predicate Ends(s: string, j: nat) { j <= |s| && (j < |s| ==> s[j] == ' ' || s[j] == '/' || s[j] == ')') }

  function Prepend(ts: seq<New.Token>, r: Outcome<seq<New.Token>>): Outcome<seq<New.Token>> {
    match r
    case Err(e) => Err(e)
    case Ok(us) => Ok(ts + us)
  }

  lemma PrependTwice(a: seq<New.Token>, b: seq<New.Token>, r: Outcome<seq<New.Token>>)
    ensures Prepend(a, Prepend(b, r)) == Prepend(a + b, r)
  {
    if r.Ok? { assert a + (b + r.value) == (a + b) + r.value; }
  }

  function FactorTokens(f: Factor): seq<New.Token> {
    if PrimitiveName(f.name) then [New.Sym('@'), New.Number(PrimitiveIndex(f.name) as real)]
    else if f.power == 1 then [New.Name(f.name)]
    else [New.Name(f.name), New.Sym('^'), New.Number(f.power as real)]
  }

  function Tokens(fs: seq<Factor>): seq<New.Token> {
    if fs == [] then [] else FactorTokens(fs[0]) + Tokens(fs[1..])
  }

  function DivisorTokens(bottom: seq<Factor>): seq<New.Token> {
    if bottom == [] then []
    else if |bottom| == 1 then [New.Sym('/')] + FactorTokens(bottom[0])
    else [New.Sym('/'), New.Sym('(')] + Tokens(bottom) + [New.Sym(')')]
  }

  function NumberTokens(s: string): seq<New.Token> {
    var n := First(s);
    if HasBar(s, n) then
      [New.Number(Old.NumeralValue(s, n)), New.Sym('/'), New.Number(Old.NumeralValue(s, Second(s)))]
    else if NoNumber(s) then []
    else [New.Number(Old.NumeralValue(s, n))]
  }

  // ---- yylex, one lexeme at a time ----

  lemma LexWord(s: string, i: nat, w: string)
    requires At(s, i, w) && Plain(w)
    requires i + |w| < |s| ==> NotId(s[i + |w|])
    ensures New.Lex(s, i) == New.Cons(New.Name(w), New.Lex(s, i + |w|))
  {
    var j := i + |w|;
    AtSlice(s, i, w);
    assert forall m :: i <= m < j ==> s[m] == w[m - i];
    RunUnique(s, i, Word, j);
  }

  lemma LexSym(s: string, i: nat, c: char)
    requires i < |s| && s[i] == c && c in "/()^@"
    ensures New.Lex(s, i) == New.Cons(New.Sym(c), New.Lex(s, i + 1))
  {
  }

  lemma LexDigit(s: string, i: nat)
    requires i < |s| && IsDigit(s[i]) && Ends(s, i + 1)
    ensures New.Lex(s, i) == New.Cons(New.Number(DigitValue(s[i]) as real), New.Lex(s, i + 1))
  {
    RunUnique(s, i + 1, Mantissa, i + 1);
    var m := s[i..i + 1];
    assert m[..0] == "";
    assert IntOf(m) == IntOf(m[..0]) * 10 + DigitValue(s[i]);
    assert AfterDot(m) == 0 && Digits(m) == Digits(m[..0]) + 1 && Dots(m) == Dots(m[..0]);
    assert New.LexNumber(s, i) == Ok((DigitValue(s[i]) as real, i + 1));
  }

  lemma DecimalDigit(n: nat)
    requires n < 10
    ensures Decimal(n) == [n as char + '0'] && IsDigit(Decimal(n)[0]) && DigitValue(Decimal(n)[0]) == n
  {
  }

  lemma AtSplit(s: string, i: nat, a: string, b: string)
    requires At(s, i, a + b)
    ensures At(s, i, a) && At(s, i + |a|, b)
  {
    assert forall k :: 0 <= k < |a| ==> (a + b)[k] == a[k];
    assert forall k :: 0 <= k < |b| ==> (a + b)[|a| + k] == b[k];
  }

  lemma LexPrimitive(s: string, i: nat, f: Factor)
    requires GoodFactor(f) && PrimitiveName(f.name) && At(s, i, TermText(f)) && Ends(s, i + |TermText(f)|)
    ensures New.Lex(s, i) == Prepend(FactorTokens(f), New.Lex(s, i + |TermText(f)|))
  {
    var d := Decimal(PrimitiveIndex(f.name));
    DecimalDigit(PrimitiveIndex(f.name));
    AtSplit(s, i, "@", d);
    AtChar(s, i, '@');
    AtChar(s, i + 1, d[0]);
    LexSym(s, i, '@');
    LexDigit(s, i + 1);
    Gather2(New.Sym('@'), New.Number(PrimitiveIndex(f.name) as real), New.Lex(s, i + 2));
  }

  lemma AtPower(s: string, i: nat, w: string, d: string)
    requires At(s, i, w + "^" + d) && |d| == 1
    ensures At(s, i, w) && i + |w| + 1 < |s| && s[i + |w|] == '^' && s[i + |w| + 1] == d[0]
  {
    AtSplit(s, i, w + "^", d);
    AtSplit(s, i, w, "^");
    AtChar(s, i + |w|, '^');
    AtChar(s, i + |w| + 1, d[0]);
  }

  lemma LexPower(s: string, i: nat, f: Factor)
    requires GoodFactor(f) && Plain(f.name) && !IsPrimitive(f.name) && f.power > 1
    requires At(s, i, TermText(f)) && Ends(s, i + |TermText(f)|)
    ensures New.Lex(s, i) == Prepend(FactorTokens(f), New.Lex(s, i + |TermText(f)|))
  {
    hide New.Lex, At;
    var j := i + |f.name|;
    var d := Decimal(f.power);
    DecimalDigit(f.power);
    AtPower(s, i, f.name, d);
    LexWord(s, i, f.name);
    LexSym(s, j, '^');
    LexDigit(s, j + 1);
    Gather3(New.Name(f.name), New.Sym('^'), New.Number(f.power as real), New.Lex(s, j + 2));
  }

  lemma LexFactor(s: string, i: nat, f: Factor)
    requires GoodFactor(f) && At(s, i, TermText(f)) && Ends(s, i + |TermText(f)|)
    ensures New.Lex(s, i) == Prepend(FactorTokens(f), New.Lex(s, i + |TermText(f)|))
  {
    if PrimitiveName(f.name) {
      LexPrimitive(s, i, f);
    } else if f.power == 1 {
      LexWord(s, i, f.name);
    } else {
      LexPower(s, i, f);
    }
  }

  lemma Gather2(a: New.Token, b: New.Token, r: Outcome<seq<New.Token>>)
    ensures New.Cons(a, New.Cons(b, r)) == Prepend([a, b], r)
  {
    if r.Ok? { assert [a] + ([b] + r.value) == [a, b] + r.value; }
  }

  lemma Gather3(a: New.Token, b: New.Token, c: New.Token, r: Outcome<seq<New.Token>>)
    ensures New.Cons(a, New.Cons(b, New.Cons(c, r))) == Prepend([a, b, c], r)
  {
    if r.Ok? { assert [a] + ([b] + ([c] + r.value)) == [a, b, c] + r.value; }
  }

  /** A term and the blank after it. */
  lemma LexSpaced(s: string, i: nat, f: Factor, rest: string)
    requires GoodFactor(f) && At(s, i, (TermText(f) + " ") + rest)
    ensures At(s, i + |TermText(f)| + 1, rest)
    ensures New.Lex(s, i) == Prepend(FactorTokens(f), New.Lex(s, i + |TermText(f)| + 1))
  {
    hide New.Lex, FactorTokens, GoodFactor, TermText, At;
    var w := TermText(f);
    AtSpaced(s, i, w, rest);
    LexFactor(s, i, f);
    LexBlank(s, i + |w|);
  }

  lemma LexBlank(s: string, j: nat)
    requires j < |s| && s[j] == ' '
    ensures New.Lex(s, j) == New.Lex(s, j + 1)
  {
  }

  lemma AtSpaced(s: string, i: nat, w: string, rest: string)
    requires At(s, i, (w + " ") + rest)
    ensures At(s, i, w) && Ends(s, i + |w|) && i + |w| < |s| && s[i + |w|] == ' ' && At(s, i + |w| + 1, rest)
  {
    AtSplit(s, i, w + " ", rest);
    AtSplit(s, i, w, " ");
    AtChar(s, i + |w|, ' ');
  }

  function TermsText(fs: seq<Factor>): string { Join(" ", Texts(fs)) }

  lemma TermsCons(fs: seq<Factor>)
    requires |fs| > 1
    ensures TermsText(fs) == (TermText(fs[0]) + " ") + TermsText(fs[1..])
  {
    assert Texts(fs)[1..] == Texts(fs[1..]);
  }

  lemma TermsOne(fs: seq<Factor>)
    requires |fs| == 1
    ensures TermsText(fs) == TermText(fs[0]) && Tokens(fs) == FactorTokens(fs[0])
  {
    assert Tokens(fs) == FactorTokens(fs[0]) + [];
  }

  lemma {:induction false} LexFactors(s: string, i: nat, fs: seq<Factor>, j: nat)
    requires fs != [] && forall f :: f in fs ==> GoodFactor(f)
    requires At(s, i, TermsText(fs)) && j == i + |TermsText(fs)| && Ends(s, j)
    ensures New.Lex(s, i) == Prepend(Tokens(fs), New.Lex(s, j))
    decreases |fs|
  {
    hide New.Lex, At, GoodFactor, TermText, FactorTokens;
    if |fs| == 1 {
      TermsOne(fs);
      LexFactor(s, i, fs[0]);
    } else {
      var k := i + |TermText(fs[0])| + 1;
      LexFirst(s, i, fs);
      LexFactors(s, k, fs[1..], j);
      PrependTwice(FactorTokens(fs[0]), Tokens(fs[1..]), New.Lex(s, j));
    }
  }

  lemma LexFirst(s: string, i: nat, fs: seq<Factor>)
    requires |fs| > 1 && (forall f :: f in fs ==> GoodFactor(f)) && At(s, i, TermsText(fs))
    ensures var k := i + |TermText(fs[0])| + 1;
            k <= |s| && At(s, k, TermsText(fs[1..])) && k + |TermsText(fs[1..])| == i + |TermsText(fs)|
            && New.Lex(s, i) == Prepend(FactorTokens(fs[0]), New.Lex(s, k))
    ensures forall f :: f in fs[1..] ==> GoodFactor(f)
  {
    hide New.Lex, GoodFactor, TermText;
    TermsCons(fs);
    assert fs[0] in fs;
    LexSpaced(s, i, fs[0], TermsText(fs[1..]));
  }

  // ---- the number ----

  /** A spelling of a numeral: a mantissa, then nothing or `e', a sign if it is
      a minus, and digits. */
  lemma LexMantissa(s: string, i: nat, m: string)
    requires At(s, i, m) && GoodMantissa(m) && forall c :: c in m ==> In(c, Mantissa)
    requires i + |m| < |s| ==> !In(s[i + |m|], Mantissa)
    ensures m != "" && (IsDigit(s[i]) || s[i] == '.') && s[i] != '-'
    ensures Run(s, i + 1, Mantissa) == i + |m|
  {
    assert m != "";
    AtSlice(s, i, m);
    assert s[i] == m[0] && m[0] in m;
    assert forall k :: i <= k < i + |m| ==> s[k] == m[k - i] && m[k - i] in m;
    RunUnique(s, i + 1, Mantissa, i + |m|);
  }

  lemma LexExponentAt(s: string, j: nat, k: nat, end: nat)
    requires j < k < end <= |s| && s[j] == 'e'
    requires k == j + 1 || (k == j + 2 && s[j + 1] == '-')
    requires forall m :: k <= m < end ==> IsDigit(s[m])
    requires Ends(s, end)
    ensures var x: int := IntOf(s[k..end]);
            New.LexExponent(s, j) == Ok((if k == j + 2 then -x else x, end))
  {
    assert IsDigit(s[k]);
    RunUnique(s, k, Digit, end);
  }

  lemma LexExponentText(s: string, j: nat, sign: char, digits: string, end: nat)
    requires (sign == '+' || sign == '-') && digits != "" && forall c :: c in digits ==> IsDigit(c)
    requires At(s, j, ExponentText(sign, digits)) && end == j + |ExponentText(sign, digits)| && Ends(s, end)
    ensures var x: int := IntOf(digits);
            New.LexExponent(s, j) == Ok((if sign == '-' then -x else x, end))
  {
    hide IntOf, New.LexExponent, Ends;
    var e := if sign == '-' then "e-" else "e";
    AtSplit(s, j, e, digits);
    var k := j + |e|;
    assert s[j] == e[0] && (sign == '-' ==> s[j + 1] == e[1]);
    AtDigits(s, k, digits);
    LexExponentAt(s, j, k, end);
  }

  lemma AtDigits(s: string, k: nat, digits: string)
    requires At(s, k, digits) && forall c :: c in digits ==> IsDigit(c)
    ensures s[k..k + |digits|] == digits && forall m :: k <= m < k + |digits| ==> IsDigit(s[m])
  {
    AtSlice(s, k, digits);
    assert forall m :: k <= m < k + |digits| ==> s[m] == digits[m - k] && digits[m - k] in digits;
  }

  predicate DigitsOnly(w: string) { forall c :: c in w ==> IsDigit(c) }

  predicate MantissaOnly(w: string) { forall c :: c in w ==> In(c, Mantissa) }

  /** What Scan finds: a mantissa, and a signed exponent or none. */
  predicate Scanned(t: string, n: Numeral) {
    Within(t, n) && MantissaOnly(t[n.mant..n.sign]) && DigitsOnly(t[n.exp..n.end])
    && if n.sign == n.exp then n.exp == n.end else t[n.sign] == '+' || t[n.sign] == '-'
  }

  lemma ScanParts(t: string, i: nat)
    requires i <= |t|
    ensures Scanned(t, Old.Scan(t, i))
  {
    var n := Old.Scan(t, i);
    forall c | c in t[n.mant..n.sign]
      ensures In(c, Mantissa)
    {
      var m :| 0 <= m < n.sign - n.mant && t[n.mant..n.sign][m] == c;
      assert t[n.mant + m] == c;
    }
    forall c | c in t[n.exp..n.end]
      ensures IsDigit(c)
    {
      var m :| 0 <= m < n.end - n.exp && t[n.exp..n.end][m] == c;
      assert t[n.exp + m] == c && In(t[n.exp + m], Digit);
    }
  }

  lemma LexNumberAt(s: string, i: nat, m: string, x: int, j: nat)
    requires At(s, i, m) && GoodMantissa(m) && forall c :: c in m ==> In(c, Mantissa)
    requires i + |m| < |s| ==> !In(s[i + |m|], Mantissa)
    requires New.LexExponent(s, i + |m|) == Ok((x, j))
    ensures New.Lex(s, i) == New.Cons(New.Number(Scale10(IntOf(m) as real, x - AfterDot(m))), New.Lex(s, j))
  {
    LexMantissa(s, i, m);
    NumberAt(s, i, m, x, j);
    LexNumberStep(s, i, Scale10(IntOf(m) as real, x - AfterDot(m)), j);
  }

  lemma NumberAt(s: string, i: nat, m: string, x: int, j: nat)
    requires At(s, i, m) && GoodMantissa(m) && i < |s| && s[i] != '-'
    requires Run(s, i + 1, Mantissa) == i + |m| && New.LexExponent(s, i + |m|) == Ok((x, j))
    ensures New.LexNumber(s, i) == Ok((Scale10(IntOf(m) as real, x - AfterDot(m)), j))
  {
    hide Scale10, IntOf, AfterDot, Run, Digits, Dots, New.LexExponent;
    AtSlice(s, i, m);
    assert s[i..Run(s, i + 1, Mantissa)] == m;
  }

  lemma LexNumberStep(s: string, i: nat, v: real, j: nat)
    requires i < |s| && (IsDigit(s[i]) || s[i] == '.') && New.LexNumber(s, i) == Ok((v, j))
    ensures New.Lex(s, i) == New.Cons(New.Number(v), New.Lex(s, j))
  {
  }

  /** The exponent part of a spelling, read back. */
  lemma LexSpeltExponent(s: string, e: nat, t: string, n: Numeral, j: nat)
    requires Scanned(t, n)
    requires At(s, e, SpeltExponent(t, n)) && j == e + |SpeltExponent(t, n)| && Ends(s, j)
    ensures New.LexExponent(s, e) == Ok((Old.Exponent(t, n), j))
    ensures e < |s| ==> !In(s[e], Mantissa)
  {
    var exp := SpeltExponent(t, n);
    if n.exp == n.end {
      assert t[n.exp..n.end] == "";
    } else {
      assert s[e] == exp[0] == 'e';
      LexExponentText(s, e, t[n.sign], t[n.exp..n.end], j);
    }
  }

  /** yylex() and atof read what number() spells as getflt() read the original. */
  lemma LexNumeral(s: string, i: nat, t: string, n: Numeral, j: nat)
    requires Scanned(t, n) && GoodMantissa(MantissaOf(t, n)) && Spell(t, n).Ok?
    requires At(s, i, Spell(t, n).value) && j == i + |Spell(t, n).value| && Ends(s, j)
    ensures New.Lex(s, i) == New.Cons(New.Number(Old.NumeralValue(t, n)), New.Lex(s, j))
  {
    hide New.Lex, At, GoodMantissa, Ends;
    var m := MantissaOf(t, n);
    AtSplit(s, i, m, SpeltExponent(t, n));
    LexSpeltExponent(s, i + |m|, t, n, j);
    LexNumberAt(s, i, m, Old.Exponent(t, n), j);
  }

  // ---- the whole body ----

  function NumberSpelling(t: string): Outcome<string> {
    var n := First(t);
    var w :- Spell(t, n);
    if HasBar(t, n) then
      var v :- Spell(t, Second(t));
      Ok(w + "/" + v)
    else Ok(w)
  }

  lemma SpellGood(t: string, n: Numeral)
    requires Within(t, n) && GoodMantissa(MantissaOf(t, n))
    ensures Spell(t, n).Ok? && Spell(t, n).value != ""
  {
    assert MantissaOf(t, n) != "";
  }

  lemma NumberTextIs(t: string)
    requires GoodNumber(t)
    ensures NumberSpelling(t).Ok? && NumberText(t) == Ok((NumberSpelling(t).value, NumberEnd(t)))
    ensures NumberSpelling(t).value == "" <==> NoNumber(t)
  {
    var n := First(t);
    NumeralsStep(t, 0, n);
    if HasBar(t, n) {
      NumberTextTwo(t);
    } else {
      assert Numerals(t, 0) == [n];
      if !NoNumber(t) { SpellGood(t, n); }
      SpellOne(t, n);
    }
  }

  lemma TwoNumerals(t: string)
    requires HasBar(t, First(t)) && !HasBar(t, Second(t))
    ensures Numerals(t, 0) == [First(t), Second(t)]
  {
    hide Numerals, Old.Scan;
    var n, m := First(t), Second(t);
    NumeralsStep(t, 0, n);
    NumeralsStep(t, n.end + 1, m);
    assert [m] + [] == [m] && [n] + [m] == [n, m];
  }

  lemma NumberTextTwo(t: string)
    requires GoodNumber(t) && HasBar(t, First(t))
    ensures NumberSpelling(t).Ok? && NumberText(t) == Ok((NumberSpelling(t).value, NumberEnd(t)))
    ensures NumberSpelling(t).value != ""
  {
    hide Spell, Spellings, Numerals, MantissaOf, GoodMantissa, Join, NoNumber, Old.Scan;
    var n, m := First(t), Second(t);
    TwoNumerals(t);
    SpellGood(t, n);
    SpellGood(t, m);
    SpellTwo(t, n, m);
  }

  lemma SpellOne(t: string, n: Numeral)
    requires Within(t, n) && Spell(t, n).Ok?
    ensures Spellings(t, [n]) == Ok([Spell(t, n).value])
  {
    assert [n][1..] == [];
    assert [Spell(t, n).value] + [] == [Spell(t, n).value];
  }

  lemma SpellTwo(t: string, n: Numeral, m: Numeral)
    requires Within(t, n) && Within(t, m) && Spell(t, n).Ok? && Spell(t, m).Ok?
    ensures Spellings(t, [n, m]) == Ok([Spell(t, n).value, Spell(t, m).value])
    ensures Join("/", [Spell(t, n).value, Spell(t, m).value]) == Spell(t, n).value + "/" + Spell(t, m).value
  {
    assert [n, m][1..] == [m];
    SpellOne(t, m);
    assert [Spell(t, n).value] + [Spell(t, m).value] == [Spell(t, n).value, Spell(t, m).value];
    var ws := [Spell(t, n).value, Spell(t, m).value];
    assert ws[1..] == [Spell(t, m).value];
  }

  lemma AtFraction(s: string, w: string, v: string)
    requires At(s, 0, w + "/" + v)
    ensures At(s, 0, w) && |w| < |s| && s[|w|] == '/' && At(s, |w| + 1, v)
  {
    AtSplit(s, 0, w + "/", v);
    AtSplit(s, 0, w, "/");
    AtChar(s, |w|, '/');
  }

  lemma LexFraction(s: string, t: string, n: Numeral, m: Numeral, j: nat)
    requires Scanned(t, n) && GoodMantissa(MantissaOf(t, n)) && Spell(t, n).Ok?
    requires Scanned(t, m) && GoodMantissa(MantissaOf(t, m)) && Spell(t, m).Ok?
    requires At(s, 0, Spell(t, n).value + "/" + Spell(t, m).value)
    requires j == |Spell(t, n).value + "/" + Spell(t, m).value| && Ends(s, j)
    ensures New.Lex(s, 0) == Prepend([New.Number(Old.NumeralValue(t, n)), New.Sym('/'),
                                      New.Number(Old.NumeralValue(t, m))], New.Lex(s, j))
  {
    var w, v := Spell(t, n).value, Spell(t, m).value;
    AtFraction(s, w, v);
    LexNumeral(s, 0, t, n, |w|);
    LexSym(s, |w|, '/');
    LexNumeral(s, |w| + 1, t, m, j);
    Gather3(New.Number(Old.NumeralValue(t, n)), New.Sym('/'), New.Number(Old.NumeralValue(t, m)), New.Lex(s, j));
  }

  lemma NoSpelling(t: string)
    requires GoodNumber(t) && NoNumber(t) && NumberSpelling(t).Ok?
    ensures NumberSpelling(t).value == ""
  {
  }

  lemma LexNumber(s: string, t: string, j: nat)
    requires GoodNumber(t) && NumberSpelling(t).Ok?
    requires At(s, 0, NumberSpelling(t).value) && j == |NumberSpelling(t).value| && Ends(s, j)
    ensures New.Lex(s, 0) == Prepend(NumberTokens(t), New.Lex(s, j))
  {
    hide New.Lex, At, Ends, Scanned, Old.NumeralValue, Old.Scan;
    ScanParts(t, 0);
    if HasBar(t, First(t)) {
      ScanParts(t, First(t).end + 1);
      LexFraction(s, t, First(t), Second(t), j);
    } else if NoNumber(t) {
      NoSpelling(t);
      PrependNone(New.Lex(s, 0));
    } else {
      LexNumeral(s, 0, t, First(t), j);
    }
  }

  lemma PrependNone(r: Outcome<seq<New.Token>>)
    ensures Prepend([], r) == r
  {
    if r.Ok? { assert [] + r.value == r.value; }
  }

  lemma {:induction false} LexDivisor(s: string, i: nat, bottom: seq<Factor>)
    requires forall f :: f in bottom ==> GoodFactor(f)
    requires At(s, i, Divisor(bottom)) && i + |Divisor(bottom)| == |s|
    ensures New.Lex(s, i) == Ok(DivisorTokens(bottom) + [New.Eof])
  {
    hide At, GoodFactor, TermText, FactorTokens, IsBlank, Run, Texts, Tokens, NotId, Join, New.LexNumber;
    if bottom == [] {
      assert DivisorTokens(bottom) + [New.Eof] == [New.Eof];
    } else if |bottom| == 1 {
      var w := TermText(bottom[0]);
      AtSplit(s, i, "/", w);
      AtChar(s, i, '/');
      LexSym(s, i, '/');
      LexFactor(s, i + 1, bottom[0]);
      assert [New.Sym('/')] + (FactorTokens(bottom[0]) + [New.Eof]) == DivisorTokens(bottom) + [New.Eof];
    } else {
      LexParenthesised(s, i, bottom);
    }
  }

  lemma LexParenthesised(s: string, i: nat, bottom: seq<Factor>)
    requires |bottom| > 1 && forall f :: f in bottom ==> GoodFactor(f)
    requires At(s, i, Divisor(bottom)) && i + |Divisor(bottom)| == |s|
    ensures New.Lex(s, i) == Ok(DivisorTokens(bottom) + [New.Eof])
  {
    hide New.Lex, At, GoodFactor, TermsText, Divisor, DivisorTokens;
    var w := TermsText(bottom);
    var j := i + 2 + |w|;
    DivisorMany(bottom);
    AtParenthesised(s, i, w);
    LexSym(s, i, '/');
    LexSym(s, i + 1, '(');
    LexFactors(s, i + 2, bottom, j);
    LexClose(s, j);
    GatherParenthesised(Tokens(bottom));
  }

  lemma DivisorMany(bottom: seq<Factor>)
    requires |bottom| > 1
    ensures Divisor(bottom) == "/(" + TermsText(bottom) + ")"
    ensures DivisorTokens(bottom) == [New.Sym('/'), New.Sym('(')] + Tokens(bottom) + [New.Sym(')')]
  {
  }

  lemma LexClose(s: string, j: nat)
    requires j + 1 == |s| && s[j] == ')'
    ensures New.Lex(s, j) == Ok([New.Sym(')')] + [New.Eof])
  {
    LexSym(s, j, ')');
  }

  lemma AtParenthesised(s: string, i: nat, w: string)
    requires At(s, i, "/(" + w + ")")
    ensures i + |w| + 2 < |s| && s[i] == '/' && s[i + 1] == '(' && At(s, i + 2, w) && s[i + 2 + |w|] == ')'
  {
    AtSplit(s, i, "/(" + w, ")");
    AtSplit(s, i, "/(", w);
    AtChar(s, i + 2 + |w|, ')');
    assert "/("[0] == '/' && "/("[1] == '(';
  }

  lemma GatherParenthesised(ts: seq<New.Token>)
    ensures New.Cons(New.Sym('/'), New.Cons(New.Sym('('), Prepend(ts, Ok([New.Sym(')')] + [New.Eof]))))
         == Ok(([New.Sym('/'), New.Sym('(')] + ts + [New.Sym(')')]) + [New.Eof])
  {
    assert [New.Sym('/')] + ([New.Sym('(')] + (ts + ([New.Sym(')')] + [New.Eof])))
        == ([New.Sym('/'), New.Sym('(')] + ts + [New.Sym(')')]) + [New.Eof];
  }

  function Head(num: string, top: seq<Factor>): string {
    Join(" ", (if num == "" then [] else [num]) + Texts(top))
  }

  lemma HeadParts(num: string, top: seq<Factor>)
    ensures Head(num, top) == if num == "" then TermsText(top)
                              else if top == [] then num else (num + " ") + TermsText(top)
  {
    var ts := Texts(top);
    if num == "" {
      assert [] + ts == ts;
    } else {
      assert ([num] + ts)[1..] == ts;
      if top == [] { assert [num] + ts == [num]; }
    }
  }

  /** The number and the names above the line, up to j. */
  lemma LexHead(s: string, t: string, top: seq<Factor>, j: nat)
    requires GoodNumber(t) && NumberSpelling(t).Ok? && forall f :: f in top ==> GoodFactor(f)
    requires NumberSpelling(t).value == "" <==> NoNumber(t)
    requires At(s, 0, Head(NumberSpelling(t).value, top)) && j == |Head(NumberSpelling(t).value, top)| && Ends(s, j)
    ensures New.Lex(s, 0) == Prepend(NumberTokens(t) + Tokens(top), New.Lex(s, j))
  {
    hide New.Lex, At, Ends, GoodFactor, GoodNumber, NumberSpelling, TermsText;
    var num := NumberSpelling(t).value;
    HeadParts(num, top);
    if num == "" {
      assert NumberTokens(t) + Tokens(top) == Tokens(top);
      if top == [] {
        PrependNone(New.Lex(s, 0));
      } else {
        LexFactors(s, 0, top, j);
      }
    } else if top == [] {
      LexNumber(s, t, j);
      assert NumberTokens(t) + Tokens(top) == NumberTokens(t);
    } else {
      LexNumberBlank(s, t, TermsText(top));
      LexFactors(s, |num| + 1, top, j);
      PrependTwice(NumberTokens(t), Tokens(top), New.Lex(s, j));
    }
  }

  lemma LexNumberBlank(s: string, t: string, rest: string)
    requires GoodNumber(t) && NumberSpelling(t).Ok?
    requires At(s, 0, (NumberSpelling(t).value + " ") + rest)
    ensures At(s, |NumberSpelling(t).value| + 1, rest)
    ensures New.Lex(s, 0) == Prepend(NumberTokens(t), New.Lex(s, |NumberSpelling(t).value| + 1))
  {
    var num := NumberSpelling(t).value;
    AtSplit(s, 0, num + " ", rest);
    AtSplit(s, 0, num, " ");
    AtChar(s, |num|, ' ');
    LexNumber(s, t, |num|);
  }

  /** yylex() on the whole translation. */
  lemma LexBody(s: string, t: string, top: seq<Factor>, bottom: seq<Factor>)
    requires GoodNumber(t) && NumberSpelling(t).Ok?
    requires (forall f :: f in top ==> GoodFactor(f)) && (forall f :: f in bottom ==> GoodFactor(f))
    requires s == Head(NumberSpelling(t).value, top) + Divisor(bottom)
    ensures New.Lex(s, 0) == Ok(NumberTokens(t) + Tokens(top) + (DivisorTokens(bottom) + [New.Eof]))
  {
    NumberTextIs(t);
    var head, d := Head(NumberSpelling(t).value, top), Divisor(bottom);
    assert At(s, 0, head + d);
    AtSplit(s, 0, head, d);
    var j := |head|;
    assert d != "" ==> s[j] == d[0];
    LexDivisor(s, j, bottom);
    LexHead(s, t, top, j);
  }
}
