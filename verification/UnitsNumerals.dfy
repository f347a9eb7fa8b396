/** What a number written in decimal is worth to units.y's yylex(). */
module UnitsNumerals {
  import opened UnitsValues
  import opened UnitsNewSide
  import New = UnitsNew

  /** Digits, a dot among them or not, and an exponent or none. */
  datatype Literal = Literal(neg: bool, whole: string, dot: bool, frac: string, mark: string, sign: string, exp: string)

  predicate AllDigits(s: string) { forall i :: 0 <= i < |s| ==> '0' <= s[i] <= '9' }

  predicate Digital(l: Literal) {
    AllDigits(l.whole) && AllDigits(l.frac) && AllDigits(l.exp) && (!l.dot ==> l.frac == "")
  }

  predicate Spelt(l: Literal): (b: bool)
    ensures b ==> Digital(l) && |l.whole| + |l.frac| > 0
  {
    Digital(l) && l.whole + l.frac != ""
    && if l.mark == "" then l.sign == "" && l.exp == ""
       else (l.mark == "e" || l.mark == "E") && (l.sign == "" || l.sign == "+" || l.sign == "-") && l.exp != ""
  }

  function Front(l: Literal): string { l.whole + (if l.dot then "." else "") + l.frac }

  function Back(l: Literal): string { l.mark + l.sign + l.exp }

  function Spelling(l: Literal): string { (if l.neg then "-" else "") + Front(l) + Back(l) }

  // ---- worth ----

  function Tens(n: nat): (t: nat)
    ensures t > 0
  {
    if n == 0 then 1 else 10 * Tens(n - 1)
  }

  function Real(n: nat): (t: real)
    ensures t > 0.0
  {
    Tens(n) as real
  }

  /** Each digit by its place. */
  function Places(s: string): nat
    requires AllDigits(s)
  {
    if s == "" then 0 else (s[0] as int - 48) * Tens(|s| - 1) + Places(s[1..])
  }

  function Moved(x: real, down: bool, n: nat): real {
    if down then x / Real(n) else x * Real(n)
  }

  function Power(l: Literal): int
    requires Digital(l)
  {
    if l.sign == "-" then 0 - Places(l.exp) else Places(l.exp)
  }

  function Size(l: Literal): real
    requires Digital(l)
  {
    Moved(Places(l.whole) as real + Moved(Places(l.frac) as real, true, |l.frac|), l.sign == "-", Places(l.exp))
  }

  function Amount(l: Literal): real
    requires Digital(l)
  {
    if l.neg then -Size(l) else Size(l)
  }

  // ---- read ----

  lemma {:induction false} PlacesMore(s: string, c: char)
    requires AllDigits(s) && '0' <= c <= '9'
    ensures AllDigits(s + [c]) && Places(s + [c]) == 10 * Places(s) + (c as int - 48)
    decreases |s|
  {
    hide Tens, Places;
    if s == "" {
      assert s + [c] == [c];
      PlacesFirst([c]);
      NoDigits();
      TensOne(0);
    } else {
      var t := s + [c];
      assert t[1..] == s[1..] + [c];
      PlacesMore(s[1..], c);
      PlacesFirst(s);
      PlacesFirst(t);
      TensOne(|s|);
      TenTimes(s[0] as int - 48, Tens(|s| - 1));
    }
  }

  lemma PlacesFirst(s: string)
    requires AllDigits(s) && s != ""
    ensures Places(s) == (s[0] as int - 48) * Tens(|s| - 1) + Places(s[1..])
  {
  }

  lemma NoDigits()
    ensures Places("") == 0
  {
  }

  lemma TensOne(n: nat)
    ensures Tens(0) == 1 && (n > 0 ==> Tens(n) == 10 * Tens(n - 1))
  {
  }

  lemma TenTimes(d: int, t: int)
    ensures d * (10 * t) == 10 * (d * t)
  {
  }

  lemma {:induction false} IntOfDigits(s: string)
    requires AllDigits(s)
    ensures IntOf(s) == Places(s) && Digits(s) == |s| && Dots(s) == 0
    decreases |s|
  {
    if s != "" {
      var most, c := s[..|s| - 1], s[|s| - 1];
      IntOfDigits(most);
      PlacesMore(most, c);
      assert most + [c] == s;
    }
  }

  lemma {:induction false} AfterTheDot(whole: string, frac: string)
    requires AllDigits(whole) && AllDigits(frac)
    ensures var m := whole + "." + frac;
            IntOf(m) == Places(whole) * Tens(|frac|) + Places(frac) && AfterDot(m) == |frac|
            && Digits(m) == |whole| + |frac| && Dots(m) == 1
    decreases |frac|
  {
    hide Tens, Places;
    var m := whole + "." + frac;
    TensOne(|frac|);
    if frac == "" {
      assert m == whole + "." && m[..|m| - 1] == whole;
      IntOfDigits(whole);
      NoDigits();
    } else {
      var most, c := frac[..|frac| - 1], frac[|frac| - 1];
      assert m[..|m| - 1] == whole + "." + most;
      AfterTheDot(whole, most);
      PlacesMore(most, c);
      assert most + [c] == frac;
      TenTimes(Places(whole), Tens(|most|));
    }
  }

  lemma {:induction false} TenIsTens(n: nat)
    ensures Ten(n) == Tens(n) as real
  {
    if n > 0 { TenIsTens(n - 1); }
  }

  lemma {:induction false} TensAdd(m: nat, n: nat)
    ensures Tens(m + n) == Tens(m) * Tens(n)
    decreases m
  {
    if m > 0 {
      TensAdd(m - 1, n);
      var a, b := Tens(m - 1), Tens(n);
      assert (10 * a) * b == 10 * (a * b);
    }
  }

  lemma Over(w: real, f: real, t: real)
    requires t > 0.0
    ensures (w * t + f) / t == w + f / t
  {
    assert (w + f / t) * t == w * t + f;
  }

  lemma Twice(x: real, a: real, b: real)
    requires a > 0.0 && b > 0.0
    ensures a * b > 0.0 && x / (a * b) == (x / a) / b && (x / (a * b)) * b == x / a && (x * (a * b)) / b == x * a
  {
    var q := x / (a * b);
    assert q * (a * b) == x;
    assert (q * b) * a == x;
    assert (x * a) * b == x * (a * b);
  }

  lemma PlacedDown(d: real, n: nat)
    ensures Scale10(d, 0 - n) == d / Real(n)
  {
    hide Ten, Tens;
    TenIsTens(n);
    TensOne(0);
    TenIsTens(0);
  }

  lemma PlacedUp(d: real, n: nat)
    ensures Scale10(d, n) == d * Real(n)
  {
    hide Ten, Tens;
    TenIsTens(n);
  }

  lemma Cast(m: nat, n: nat)
    ensures (m * n) as real == (m as real) * (n as real)
  {
  }

  lemma RealAdd(m: nat, n: nat)
    ensures Real(m + n) == Real(m) * Real(n)
  {
    hide Tens;
    TensAdd(m, n);
    Cast(Tens(m), Tens(n));
  }

  /** Moving the dot f places left and then x places either way. */
  lemma Placed(d: real, f: nat, down: bool, x: nat)
    ensures Scale10(d, (if down then 0 - x else x) - f) == Moved(d / Real(f), down, x)
  {
    hide Scale10, Tens;
    if down {
      PlacedDown(d, f + x);
      DownAgain(d, f, x);
    } else if x >= f {
      PlacedUp(d, x - f);
      BackUp(d, f, x);
    } else {
      PlacedDown(d, f - x);
      LessDown(d, f, x);
    }
  }

  lemma DownAgain(d: real, f: nat, x: nat)
    ensures d / Real(f + x) == (d / Real(f)) / Real(x)
  {
    hide Real;
    RealAdd(f, x);
    Twice(d, Real(f), Real(x));
  }

  lemma BackUp(d: real, f: nat, x: nat)
    requires x >= f
    ensures d * Real(x - f) == (d / Real(f)) * Real(x)
  {
    hide Real;
    RealAdd(x - f, f);
    Shifted(d, Real(x - f), Real(f));
  }

  lemma LessDown(d: real, f: nat, x: nat)
    requires f > x
    ensures d / Real(f - x) == (d / Real(f)) * Real(x)
  {
    hide Real;
    RealAdd(f - x, x);
    Twice(d, Real(f - x), Real(x));
  }

  lemma Shifted(d: real, a: real, b: real)
    requires b > 0.0
    ensures (d / b) * (a * b) == d * a
  {
    var q := d / b;
    assert q * b == d;
    assert q * (a * b) == (q * b) * a;
  }

  /** Nothing that goes on from a number or a word. */
  predicate Stops(s: string, j: nat) { j <= |s| && (j < |s| ==> s[j] in "/()^@ \t") }

  lemma FrontIs(l: Literal)
    requires Digital(l)
    ensures var m := Front(l);
            IntOf(m) == Places(l.whole) * Tens(|l.frac|) + Places(l.frac) && AfterDot(m) == |l.frac|
            && Digits(m) == |l.whole| + |l.frac| && Dots(m) <= 1 && forall k :: 0 <= k < |m| ==> In(m[k], Mantissa)
  {
    hide IntOf, Digits, Dots, AfterDot;
    if l.dot {
      AfterTheDot(l.whole, l.frac);
    } else {
      assert Front(l) == l.whole && l.frac == "";
      IntOfDigits(l.whole);
      assert AfterDot(l.whole) == 0 by { NoDot(l.whole); }
    }
  }

  lemma NoDot(s: string)
    requires Dots(s) == 0
    ensures AfterDot(s) == 0
  {
  }

  lemma ExponentRead(s: string, j: nat, l: Literal)
    requires Spelt(l) && At(s, j, Back(l)) && Stops(s, j + |Back(l)|)
    ensures New.LexExponent(s, j) == Ok((Power(l), j + |Back(l)|))
    ensures j < |s| ==> !In(s[j], Mantissa)
  {
    hide IntOf, Places, At, AllDigits;
    if l.mark == "" {
      NoPlaces(l);
    } else {
      var k, end := j + 1 + |l.sign|, j + |Back(l)|;
      ExponentParts(s, j, l);
      ExponentDigits(s, j, l.sign, k, end);
      IntOfDigits(l.exp);
    }
  }

  lemma ExponentDigits(s: string, j: nat, sign: string, k: nat, end: nat)
    requires j < k < end && k == j + 1 + |sign| && Stops(s, end) && (s[j] == 'e' || s[j] == 'E')
    requires (sign == "" || sign == "+" || sign == "-") && (sign != "" ==> s[j + 1] == sign[0])
    requires forall m :: k <= m < end ==> IsDigit(s[m])
    ensures var x: int := IntOf(s[k..end]); New.LexExponent(s, j) == Ok((if sign == "-" then 0 - x else x, end))
  {
    hide IntOf;
    RunUnique(s, k, Digit, end);
    assert IsDigit(s[k]);
  }

  lemma ExponentParts(s: string, j: nat, l: Literal)
    requires Spelt(l) && At(s, j, Back(l)) && l.mark != ""
    ensures var k, end := j + 1 + |l.sign|, j + |Back(l)|;
            end <= |s| && s[j] == l.mark[0] && s[k..end] == l.exp && (l.sign != "" ==> s[j + 1] == l.sign[0])
            && forall m :: k <= m < end ==> IsDigit(s[m])
  {
    hide At, AllDigits;
    var k, end := j + 1 + |l.sign|, j + |Back(l)|;
    AtSplit(s, j, l.mark + l.sign, l.exp);
    AtSplit(s, j, l.mark, l.sign);
    assert l.mark == [l.mark[0]];
    AtChar(s, j, l.mark[0]);
    if l.sign != "" {
      assert l.sign == [l.sign[0]];
      AtChar(s, j + 1, l.sign[0]);
    }
    DigitsAt(s, k, l.exp);
  }

  lemma DigitsAt(s: string, k: nat, w: string)
    requires At(s, k, w) && AllDigits(w)
    ensures k + |w| <= |s| && s[k..k + |w|] == w && forall m :: k <= m < k + |w| ==> IsDigit(s[m])
  {
    AtSlice(s, k, w);
    assert forall m :: k <= m < k + |w| ==> s[m] == w[m - k];
  }

  lemma NoPlaces(l: Literal)
    requires Spelt(l) && l.mark == ""
    ensures Places(l.exp) == 0
  {
  }

  lemma AmountIs(l: Literal)
    requires Digital(l)
    ensures Scale10((Places(l.whole) * Tens(|l.frac|) + Places(l.frac)) as real, Power(l) - |l.frac|) == Size(l)
  {
    hide Scale10, Places, Real;
    var w, f, n := Places(l.whole), Places(l.frac), |l.frac|;
    var m := w * Tens(n) + f;
    TenPlaces(w, f, n);
    Placed(m as real, n, l.sign == "-", Places(l.exp));
    assert Power(l) == if l.sign == "-" then 0 - Places(l.exp) else Places(l.exp);
  }

  lemma TenPlaces(w: nat, f: nat, n: nat)
    ensures (w * Tens(n) + f) as real / Real(n) == w as real + f as real / Real(n)
  {
    hide Tens;
    Cast(w, Tens(n));
    var p := w * Tens(n);
    assert (p + f) as real == p as real + f as real;
    Over(w as real, f as real, Real(n));
  }

  /** Where the sign, the mantissa and the exponent of a number lie. */
  lemma NumeralParts(s: string, i: nat, l: Literal)
    requires Spelt(l) && At(s, i, Spelling(l))
    ensures var a := if l.neg then i + 1 else i;
            At(s, a, Front(l)) && At(s, a + |Front(l)|, Back(l)) && (l.neg ==> i < |s| && s[i] == '-')
    ensures |Spelling(l)| == (if l.neg then 1 else 0) + |Front(l)| + |Back(l)|
  {
    hide Front, Back, Spelt, At;
    var lead := if l.neg then "-" else "";
    assert Spelling(l) == (lead + Front(l)) + Back(l);
    AtSplit(s, i, lead + Front(l), Back(l));
    AtSplit(s, i, lead, Front(l));
    if l.neg { AtChar(s, i, '-'); }
  }

  lemma MantissaRun(s: string, i: nat, a: nat, m: string)
    requires At(s, a, m) && m != "" && (forall k :: 0 <= k < |m| ==> In(m[k], Mantissa)) && i <= a <= i + 1
    requires a + |m| < |s| ==> !In(s[a + |m|], Mantissa)
    ensures a < |s| && (IsDigit(s[a]) || s[a] == '.') && Run(s, i + 1, Mantissa) == a + |m| && s[a..a + |m|] == m
  {
    AtSlice(s, a, m);
    assert s[a] == m[0] && In(m[0], Mantissa);
    assert forall k :: a <= k < a + |m| ==> s[k] == m[k - a];
    RunUnique(s, i + 1, Mantissa, a + |m|);
  }

  /** A number in a line is its digits by their places, moved as its dot and its
      exponent say, whatever its sign. */
  lemma NumeralRead(s: string, i: nat, l: Literal)
    requires Spelt(l) && At(s, i, Spelling(l)) && Stops(s, i + |Spelling(l)|)
    ensures i < |s| && (IsDigit(s[i]) || s[i] == '-' || s[i] == '.')
    ensures New.LexNumber(s, i) == Ok((Amount(l), i + |Spelling(l)|))
  {
    hide IntOf, Digits, Dots, AfterDot, Scale10, Size, New.LexExponent, Stops, Places, Back, At, Spelling, Front, Spelt, In, Power, Tens;
    var a, m := if l.neg then i + 1 else i, Front(l);
    NumeralParts(s, i, l);
    FrontIs(l);
    ExponentRead(s, a + |m|, l);
    assert m != "" by { NotBare(m); }
    MantissaRun(s, i, a, m);
    AmountIs(l);
  }

  lemma NotBare(m: string)
    requires Digits(m) >= 1
    ensures m != ""
  {
  }
}
