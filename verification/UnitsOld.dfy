/** old/units.c's reader: getflt(), lookup() and convr() over one definition.
    The functions say what is read; class Reader keeps the C's shape, with
    get() and its one character of pushback. */
module UnitsOld {
  import opened Basics
  import opened UnitsValues

  type Table = map<string, Quantity>

  // units.c:28-47, in order: the first match wins.
  const PREFIX: seq<(string, real)> := [
    ("atto", 0.000000000000000001), ("femto", 0.000000000000001), ("pico", 0.000000000001),
    ("nano", 0.000000001), ("micro", 0.000001), ("milli", 0.001), ("centi", 0.01), ("deci", 0.1),
    ("deka", 10.0), ("hecta", 100.0), ("hecto", 100.0), ("kilo", 1000.0),
    ("mega", 1000000.0), ("meg", 1000000.0), ("giga", 1000000000.0), ("tera", 1000000000000.0)
  ]

  // convr's case labels: each ends a name.  Note that 0 does not.
  predicate IsSep(c: char) { '1' <= c <= '9' || c in "-/ \t\n" }

  function PowerOf(c: char): (n: nat)
    ensures 1 <= n <= 9
  {
    if '2' <= c <= '9' then DigitValue(c) else 1
  }

  // ---- getflt ----

  /** Where the pieces of one term of a number lie: the mantissa is
      [mant, sign), and the digits of the exponent are [exp, end). */
  datatype Numeral = Numeral(mant: nat, sign: nat, exp: nat, end: nat)

  function Scan(s: string, i: nat): (n: Numeral)
    requires i <= |s|
    ensures i <= n.mant <= n.sign <= n.exp <= n.end <= |s|
  {
    var a := Run(s, i, Blank);
    var b := Run(s, a, Mantissa);
    if b < |s| && (s[b] == '+' || s[b] == '-') then Numeral(a, b, b + 1, Run(s, b + 1, Digit))
    else Numeral(a, b, b, b)
  }

  function Exponent(s: string, n: Numeral): int
    requires n.sign <= n.exp <= n.end <= |s|
  {
    var x: int := IntOf(s[n.exp..n.end]);
    if n.sign < n.exp && s[n.sign] == '-' then -x else x
  }

  function NumeralValue(s: string, n: Numeral): real
    requires n.mant <= n.sign <= n.exp <= n.end <= |s|
  {
    var m := s[n.mant..n.sign];
    Scale10(IntOf(m) as real, Exponent(s, n) - AfterDot(m))
  }

  /** A NUL pushed back is lost: peekc == 0 means nothing is held. */
  function PastNul(s: string, i: nat): (j: nat)
    requires i <= |s|
    ensures i <= j <= |s|
  {
    if i < |s| && s[i] == '\0' then i + 1 else i
  }

  /** The leading number of s at i, and where reading continues. */
  function GetFlt(s: string, i: nat): (r: Outcome<(real, nat)>)
    requires i <= |s|
    ensures r.Ok? ==> i <= r.value.1 <= |s|
    decreases |s| - i
  {
    var n := Scan(s, i);
    if n.end < |s| && s[n.end] == '|' then
      var (e, j) :- GetFlt(s, n.end + 1);
      if e == 0.0 then Err(DivisionByZero) else Ok((NumeralValue(s, n) / e, j))
    else
      Ok((NumeralValue(s, n), PastNul(s, n.end)))
  }

  function Quotient(d: real, e: real): Outcome<real> {
    if e == 0.0 then Err(DivisionByZero) else Ok(d / e)
  }

  /** One term and what a bar after it leads to. */
  lemma GetFltCases(s: string, i: nat)
    requires i <= |s|
    ensures var n := Scan(s, i);
            if n.end < |s| && s[n.end] == '|' then
              match GetFlt(s, n.end + 1)
              case Err(x) => GetFlt(s, i) == Err(x)
              case Ok(v) => match Quotient(NumeralValue(s, n), v.0)
                            case Err(x) => GetFlt(s, i) == Err(x)
                            case Ok(q) => GetFlt(s, i) == Ok((q, v.1))
            else GetFlt(s, i) == Ok((NumeralValue(s, n), PastNul(s, n.end)))
  {
  }

  // ---- lookup ----

  /** The name itself, else a prefix of it off, else a trailing `s' off. */
  function Find(t: Table, name: string): Option<Quantity>
    decreases |name|
  {
    if name in t then Some(t[name])
    else
      match PrefixOf(PREFIX, name)
      case Some(pf) => Scaled(pf.1, Find(t, name[|pf.0|..]))
      case None =>
        if |name| > 1 && name[|name| - 1] == 's' then Find(t, name[..|name| - 1]) else None
  }

  datatype Reading = Reading(q: Quantity, unknown: nat)

  /** p times v to the n, or over it. */
  function Power(p: Quantity, v: Quantity, den: bool, n: nat): Outcome<Quantity> {
    Once(p, Powered(v, n), den)
  }

  /** One division or multiplication, as lookup()'s inner loop does it. */
  function Once(p: Quantity, v: Quantity, den: bool): Outcome<Quantity> {
    if den then Div(p, v) else Ok(Mul(p, v))
  }

  lemma PowerOne(p: Quantity, v: Quantity, den: bool)
    ensures Power(p, v, den, 1) == Once(p, v, den)
  {
    assert Pow(v.coef, 1) == v.coef * Pow(v.coef, 0) == v.coef;
    assert VScale(1, v.dims) == v.dims;
    if Once(p, v, den).Ok? {
      var l, r := Power(p, v, den, 1).value, Once(p, v, den).value;
      assert l.coef == r.coef;
      assert l.dims == r.dims;
    }
  }

  lemma PowerStep(p: Quantity, v: Quantity, den: bool, n: nat)
    requires n > 0
    ensures Power(p, v, den, n).Ok? <==> Once(p, v, den).Ok?
    ensures Once(p, v, den).Ok? ==> Power(p, v, den, n + 1) == Once(Power(p, v, den, n).value, v, den)
  {
    PowZero(v.coef, n);
    PowZero(v.coef, n + 1);
    if Once(p, v, den).Ok? {
      var q := Power(p, v, den, n).value;
      var x, y := v.coef, Pow(v.coef, n);
      assert Pow(x, n + 1) == x * y;
      var l, r := Power(p, v, den, n + 1).value, Once(q, v, den).value;
      StepDims(p.dims, v.dims, n);
      if den {
        DivTwice(p.coef, y, x);
      } else {
        assert p.coef * (x * y) == (p.coef * y) * x;
      }
      assert l.coef == r.coef;
    }
  }

  lemma StepDims(a: seq<int>, b: seq<int>, n: nat)
    ensures VAdd(a, VScale(n + 1, b)) == VAdd(VAdd(a, VScale(n, b)), b)
    ensures VSub(a, VScale(n + 1, b)) == VSub(VSub(a, VScale(n, b)), b)
  {
    assert forall i :: 0 <= i < |b| ==> (n + 1) * b[i] == n * b[i] + b[i];
  }

  lemma DivTwice(a: real, y: real, x: real)
    requires x != 0.0 && y != 0.0
    ensures x * y != 0.0 && a / (x * y) == (a / y) / x
  {
    NonZeroProduct(x, y);
    var q := (a / y) / x;
    assert q * x == a / y;
    assert (q * x) * y == a;
    assert q * (x * y) == a;
  }

  /** One name met, with the character that ended it. */
  function Apply(t: Table, name: string, den: bool, c: char, p: Reading): Outcome<Reading> {
    match Find(t, name)
    case None => Ok(p.(unknown := p.unknown + 1))
    case Some(v) => var q :- Power(p.q, v, den, PowerOf(c)); Ok(p.(q := q))
  }

  // ---- convr ----

  /** The names of a definition from i to its newline; `name' is the part of
      the current one already read.  Text that ends first is refused. */
  function Names(t: Table, s: string, i: nat, name: string, den: bool, p: Reading): (r: Outcome<(Reading, nat)>)
    requires i <= |s|
    ensures r.Ok? ==> i < r.value.1 <= |s|
    decreases |s| - i
  {
    if i == |s| || s[i] == '\0' then Err(Refused)
    else if IsSep(s[i]) then
      var p1 :- if name == "" then Ok(p) else Apply(t, name, den, s[i], p);
      if s[i] == '\n' then Ok((p1, i + 1))
      else Names(t, s, i + 1, "", den || s[i] == '/', p1)
    else
      Names(t, s, i + 1, name + [s[i]], den, p)
  }

  /** units.c:161: a factor of zero, or no number at all, is one. */
  function Start(f: real): Quantity {
    Quantity(if f == 0.0 then 1.0 else f, Zeros(OLD_NDIM))
  }

  function Convr(t: Table, s: string, i: nat, unknown: nat): Outcome<(Reading, nat)>
    requires i <= |s|
  {
    var (f, j) :- GetFlt(s, i);
    Names(t, s, j, "", false, Reading(Start(f), unknown))
  }

  // ---- the reader ----

  class Reader {
    const data: string
    var pos: nat
    var peekc: char      // '\0' when nothing is held
    var table: Table
    var unknown: nat     // names lookup() could not recognize

    /** A held character is the one before pos. */
    ghost predicate Valid() reads this {
      pos <= |data| && (peekc != '\0' ==> pos > 0 && peekc == data[pos - 1])
    }

    /** Index of what get() returns next. */
    ghost function Next(): nat
      reads this
      requires Valid()
    {
      if peekc != '\0' then pos - 1 else pos
    }

    constructor (data: string, table: Table)
      ensures Valid() && Next() == 0 && this.data == data && this.table == table && unknown == 0
    {
      this.data, this.table := data, table;
      pos, peekc, unknown := 0, '\0', 0;
    }

    /** c is the character at i, and get() continues after it; past the end
        every character is NUL. */
    ghost predicate At(i: nat, c: char)
      reads this
    {
      Valid() && i <= |data| && peekc == '\0'
      && (i < |data| ==> c == data[i] && pos == i + 1)
      && (i == |data| ==> c == '\0' && pos == i)
    }

    method Get() returns (c: char)
      requires Valid()
      modifies this`pos, this`peekc
      ensures At(old(Next()), c)
    {
      if peekc != '\0' {
        c, peekc := peekc, '\0';
        return;
      }
      if pos >= |data| {
        return '\0';
      }
      c := data[pos];
      pos := pos + 1;
    }

    // The loops of getflt().  Each starts and ends with the character it
    // looked at last in hand.

    method SkipBlanks() returns (c: char, ghost i: nat)
      requires Valid()
      modifies this`pos, this`peekc
      ensures i == Run(data, old(Next()), Blank) && At(i, c)
    {
      i := Next();
      c := Get();
      while c == ' ' || c == '\t'
        invariant old(Next()) <= i && At(i, c)
        invariant forall j :: old(Next()) <= j < i ==> In(data[j], Blank)
        decreases |data| - i
      {
        i := i + 1;
        c := Get();
      }
      RunUnique(data, old(Next()), Blank, i);
    }

    method ReadMantissa(c0: char, ghost a: nat) returns (d: real, dp: nat, c: char, ghost i: nat)
      requires At(a, c0)
      modifies this`pos, this`peekc
      ensures i == Run(data, a, Mantissa) && At(i, c)
      ensures d == IntOf(data[a..i]) as real && dp == AfterDot(data[a..i])
    {
      c, i, d, dp := c0, a, 0.0, 0;
      while IsDigit(c) || c == '.'
        invariant a <= i && At(i, c)
        invariant forall j :: a <= j < i ==> In(data[j], Mantissa)
        invariant d == IntOf(data[a..i]) as real
        invariant dp == if Dots(data[a..i]) == 0 then 0 else AfterDot(data[a..i]) + 1
        decreases |data| - i
      {
        assert data[a..i + 1][..i - a] == data[a..i];
        if IsDigit(c) {
          d := d * 10.0 + DigitValue(c) as real;
          if dp != 0 { dp := dp + 1; }
        } else {
          dp := dp + 1;
        }
        i := i + 1;
        c := Get();
      }
      RunUnique(data, a, Mantissa, i);
      if dp != 0 { dp := dp - 1; }
    }

    method ReadDigits() returns (x: nat, c: char, ghost i: nat)
      requires Valid()
      modifies this`pos, this`peekc
      ensures i == Run(data, old(Next()), Digit) && At(i, c)
      ensures x == IntOf(data[old(Next())..i])
    {
      ghost var b := Next();
      x, i := 0, b;
      c := Get();
      while IsDigit(c)
        invariant b <= i && At(i, c)
        invariant forall j :: b <= j < i ==> In(data[j], Digit)
        invariant x == IntOf(data[b..i])
        decreases |data| - i
      {
        assert data[b..i + 1][..i - b] == data[b..i];
        x := x * 10 + DigitValue(c);
        i := i + 1;
        c := Get();
      }
      RunUnique(data, b, Digit, i);
    }

    static method Shift(d: real, dp: int) returns (r: real)
      ensures r == Scale10(d, -dp)
    {
      var e := 1.0;
      var k := 0;
      var n := if dp < 0 then -dp else dp;
      while k < n
        invariant 0 <= k <= n && e == Ten(k)
      {
        e := e * 10.0;
        k := k + 1;
      }
      if dp < 0 { r := d * e; } else { r := d / e; }
    }

    /** The sign and digits after a mantissa that ends at b with c0 in hand. */
    method ReadExponent(c0: char, ghost b: nat) returns (x: int, c: char, ghost exp: nat, ghost end: nat)
      requires At(b, c0)
      modifies this`pos, this`peekc
      ensures b <= exp <= end <= |data| && At(end, c)
      ensures if b < |data| && (data[b] == '+' || data[b] == '-')
              then exp == b + 1 && end == Run(data, b + 1, Digit) else exp == end == b
      ensures x == Exponent(data, Numeral(b, b, exp, end))
    {
      x, c, exp, end := 0, c0, b, b;
      if c0 == '+' || c0 == '-' {
        var i, c1, k := ReadDigits();
        x, c, exp, end := if c0 == '-' then -(i as int) else i, c1, b + 1, k;
      }
    }

    /** One term of the number: its digits, its places and its exponent. */
    method ReadTerm() returns (d: real, c: char, ghost n: Numeral)
      requires Valid()
      modifies this`pos, this`peekc
      ensures n == Scan(data, old(Next())) && At(n.end, c) && d == NumeralValue(data, n)
    {
      hide IntOf, AfterDot, Run;
      var c0, a := SkipBlanks();
      var m, frac, c1, b := ReadMantissa(c0, a);
      var x, c2, exp, end := ReadExponent(c1, b);
      n := Numeral(a, b, exp, end);
      d := Shift(m, frac - x);
      c := c2;
    }

    method GetNumber() returns (r: Outcome<real>)
      requires Valid()
      modifies this`pos, this`peekc
      decreases |data| - Next()
      ensures Valid()
      ensures r.Ok? ==> GetFlt(data, old(Next())) == Ok((r.value, Next()))
      ensures r.Err? ==> GetFlt(data, old(Next())) == Err(r.error)
    {
      hide GetFlt, Scan, NumeralValue, Quotient;
      var d, c, n := ReadTerm();
      ghost var a := old(Next());
      GetFltCases(data, a);
      if c == '|' {
        r := GetNumber();
        if r.Ok? { r := Quotient(d, r.value); }
      } else {
        peekc := c;
        r := Ok(d);
      }
    }

    /** lookup(): apply the unit called `name' to p, once for each of the
        repetitions the character c asks for. */
    method Lookup(name0: string, p0: Quantity, den: bool, c0: char) returns (r: Outcome<Quantity>)
      modifies this`unknown
      ensures r.Ok? ==> Apply(table, name0, den, c0, Reading(p0, old(unknown))) == Ok(Reading(r.value, unknown))
      ensures r.Err? ==> Apply(table, name0, den, c0, Reading(p0, old(unknown))) == Err(r.error)
    {
      hide PrefixOf, Power;
      var name, e := name0, 1.0;
      while name !in table
        invariant Find(table, name0) == Scaled(e, Find(table, name))
        invariant unknown == old(unknown)
        decreases |name|
      {
        var pf := PrefixOf(PREFIX, name);
        if pf.Some? {
          var (pn, f) := pf.value;
          ScaledOnce(e, f, Find(table, name[|pn|..]));
          assert Find(table, name) == Scaled(f, Find(table, name[|pn|..]));
          name, e := name[|pn|..], e * f;
        } else if |name| > 1 && name[|name| - 1] == 's' {
          name := name[..|name| - 1];
        } else {
          unknown := unknown + 1;
          return Ok(p0);
        }
      }
      var v := table[name];
      r := Repeat(p0, Scaled(e, Some(v)).value, den, c0);
    }

    /** convr(): the definition that get() is at the start of. */
    method Convert() returns (r: Outcome<Quantity>)
      requires Valid()
      modifies this`pos, this`peekc, this`unknown
      ensures Valid()
      ensures r.Ok? ==> Convr(table, data, old(Next()), old(unknown)) == Ok((Reading(r.value, unknown), Next()))
      ensures r.Err? ==> Convr(table, data, old(Next()), old(unknown)) == Err(r.error)
    {
      var f := GetNumber();
      if f.Err? { return Err(f.error); }
      r := ReadNames(Start(f.value));
    }

    /** The loop of convr(). */
    method ReadNames(p0: Quantity) returns (r: Outcome<Quantity>)
      requires Valid()
      modifies this`pos, this`peekc, this`unknown
      ensures Valid()
      ensures Names(table, data, old(Next()), "", false, Reading(p0, old(unknown)))
           == if r.Ok? then Ok((Reading(r.value, unknown), Next())) else Err(r.error)
    {
      var p, den, name := p0, 0, "";
      ghost var want := Names(table, data, Next(), "", false, Reading(p0, unknown));
      while true
        invariant Valid()
        invariant want == Names(table, data, Next(), name, den > 0, Reading(p, unknown))
        decreases |data| - Next()
      {
        var c := Get();
        if c == '\0' { return Err(Refused); }
        if !IsSep(c) {
          name := name + [c];
          continue;
        }
        if name != "" {
          var q := Lookup(name, p, den > 0, c);
          if q.Err? { return q; }
          p, name := q.value, "";
        }
        if c == '/' { den := den + 1; }
        if c == '\n' { return Ok(p); }
      }
    }

    /** The inner loop of lookup(): a digit 2-9 applies the unit again. */
    static method Repeat(p0: Quantity, v: Quantity, den: bool, c0: char) returns (r: Outcome<Quantity>)
      ensures r == Power(p0, v, den, PowerOf(c0))
    {
      var p, c := p0, c0;
      ghost var k := 0;
      while true
        invariant k < PowerOf(c0) && c as int == c0 as int - k
        invariant if k == 0 then p == p0 else Power(p0, v, den, k) == Ok(p)
        decreases PowerOf(c0) - k
      {
        if k == 0 { PowerOne(p0, v, den); } else { PowerStep(p0, v, den, k); }
        k := k + 1;
        if den {
          if v.coef == 0.0 { return Err(DivisionByZero); }
          p := Div(p, v).value;
        } else {
          p := Mul(p, v);
        }
        if '2' <= c <= '9' {
          c := (c as int - 1) as char;
        } else {
          return Ok(p);
        }
      }
    }
  }
}
