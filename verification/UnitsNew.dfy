/** units.y's reader: yylex(), the grammar, look2() and the open-addressed unit
    table.  The functions say what is read; class Reader is the program. */
module UnitsNew {
  import opened Basics
  import opened UnitsValues

  type Table = map<string, Quantity>

  // units.y:69-102, in order: the first match wins.
  const PREFIX: seq<(string, real)> := [
    ("exa", 1000000000000000000.0), ("peta", 1000000000000000.0), ("tera", 1000000000000.0),
    ("giga", 1000000000.0), ("mega", 1000000.0), ("meg", 1000000.0), ("myria", 10000.0),
    ("kilo", 1000.0), ("hekta", 100.0), ("hekto", 100.0), ("deka", 10.0), ("sesqui", 1.5),
    ("hemi", 0.5), ("demi", 0.5), ("semi", 0.5), ("deci", 0.1), ("centi", 0.01), ("milli", 0.001),
    ("micro", 0.000001), ("nano", 0.000000001), ("pico", 0.000000000001),
    ("femto", 0.000000000000001), ("atto", 0.000000000000000001),
    ("G", 1000000000.0), ("M", 1000000.0), ("k", 1000.0), ("m", 0.001), ("u", 0.000001),
    ("n", 0.000000001), ("p", 0.000000000001)
  ]

  // ---- look2 and lookup ----

  /** The name itself, else what is left of it after a prefix.  Unlike the old
      reader's, a bare prefix is a number. */
  function Look2(t: Table, s: string): Option<Quantity>
    decreases |s|
  {
    if s in t then Some(t[s])
    else
      match PrefixOf(PREFIX, s)
      case None => None
      case Some(pf) =>
        if s == pf.0 then Some(Quantity(pf.1, Zeros(NDIM))) else Scaled(pf.1, Look2(t, s[|pf.0|..]))
  }

  function Find(t: Table, name: string): Option<Quantity> {
    var u := Look2(t, name);
    if u.None? && name != "" && name[|name| - 1] == 's' then Look2(t, name[..|name| - 1]) else u
  }

  // ---- yylex ----

  datatype Token = Number(value: real) | Name(word: string) | Sym(c: char) | Square | Cube | Eof

  predicate IsKeyword(w: string) { w == "square" || w == "sq" || w == "cubic" || w == "cu" }

  function WordToken(w: string): Token {
    if w == "square" || w == "sq" then Square
    else if w == "cubic" || w == "cu" then Cube
    else Name(w)
  }

  /** Where the exponent at j ends, and its value; none at all is zero. */
  function LexExponent(s: string, j: nat): (r: Outcome<(int, nat)>)
    requires j <= |s|
    ensures r.Ok? ==> j <= r.value.1 <= |s|
  {
    if j == |s| || (s[j] != 'e' && s[j] != 'E') then Ok((0, j))
    else
      var k := if j + 1 < |s| && (s[j + 1] == '+' || s[j + 1] == '-') then j + 2 else j + 1;
      if k == |s| || !IsDigit(s[k]) then Err(BadNumber)
      else
        var end := Run(s, k, Digit);
        var x: int := IntOf(s[k..end]);
        Ok((if s[k - 1] == '-' then -x else x, end))
  }

  /** A number at i, which starts with a digit, a dot or a minus sign. */
  function LexNumber(s: string, i: nat): (r: Outcome<(real, nat)>)
    requires i < |s|
    ensures r.Ok? ==> i < r.value.1 <= |s|
  {
    var a := if s[i] == '-' then i + 1 else i;
    var j := Run(s, i + 1, Mantissa);
    var m := s[a..j];
    if Digits(m) == 0 || Dots(m) > 1 then Err(BadNumber)
    else
      var (x, end) :- LexExponent(s, j);
      var v := Scale10(IntOf(m) as real, x - AfterDot(m));
      Ok((if s[i] == '-' then -v else v, end))
  }

  function Cons(t: Token, r: Outcome<seq<Token>>): Outcome<seq<Token>> {
    match r
    case Err(e) => Err(e)
    case Ok(ts) => Ok([t] + ts)
  }

  /** The tokens of s from i on, with Eof after the last. */
  function Lex(s: string, i: nat): (r: Outcome<seq<Token>>)
    requires i <= |s|
    ensures r.Ok? ==> r.value != [] && r.value[|r.value| - 1] == Eof
    decreases |s| - i
  {
    if i == |s| then Ok([Eof])
    else if IsBlank(s[i]) then Lex(s, i + 1)
    else if IsDigit(s[i]) || s[i] == '-' || s[i] == '.' then
      var (v, j) :- LexNumber(s, i);
      Cons(Number(v), Lex(s, j))
    else if !NotId(s[i]) then
      var j := Run(s, i, Word);
      assert j > i;
      Cons(WordToken(s[i..j]), Lex(s, j))
    else if s[i] in "*/()^@" then Cons(Sym(s[i]), Lex(s, i + 1))
    else Err(BadChar)
  }

  // ---- the grammar, units.y:26-35 ----

  const ONE := Quantity(1.0, Zeros(NDIM))

  // units.y:236: an unknown unit is given this and the run goes on.
  const UNKNOWN := Quantity(5551212.0, Zeros(NDIM))

  function Named(t: Table, w: string): Quantity {
    match Find(t, w)
    case Some(v) => v
    case None => UNKNOWN
  }

  function Primitive(v: real): Outcome<Quantity> {
    var d := v.Floor;
    if d as real != v || d < 0 || d >= NDIM then Err(Syntax)
    else Ok(Quantity(1.0, Basis(NDIM, d)))
  }

  predicate IsSym(ts: seq<Token>, k: nat, c: char) { k < |ts| && ts[k] == Sym(c) }

  predicate StartsTerm(ts: seq<Token>, k: nat) {
    k < |ts| && match ts[k]
                case Sym(c) => c == '@' || c == '('
                case Eof => false
                case _ => true
  }

  /** The powers that follow v. */
  function Carets(ts: seq<Token>, v: Quantity, k: nat): (r: Outcome<(Quantity, nat)>)
    requires k <= |ts|
    ensures r.Ok? ==> k <= r.value.1 <= |ts|
    decreases |ts| - k
  {
    if !IsSym(ts, k, '^') then Ok((v, k))
    else if k + 1 == |ts| || !ts[k + 1].Number? then Err(Syntax)
    else
      var w :- Raise(v, ts[k + 1].value);
      Carets(ts, w, k + 2)
  }

  function RaiseRead(r: Outcome<(Quantity, nat)>, n: real): Outcome<(Quantity, nat)> {
    var (v, j) :- r;
    var w :- Raise(v, n);
    Ok((w, j))
  }

  /** One term at k, before its powers. */
  function Atom(t: Table, ts: seq<Token>, k: nat): (r: Outcome<(Quantity, nat)>)
    requires k <= |ts|
    ensures r.Ok? ==> k < r.value.1 <= |ts|
    decreases |ts| - k, 0
  {
    if k == |ts| then Err(Syntax)
    else
      match ts[k]
      case Number(v) => Ok((Quantity(v, Zeros(NDIM)), k + 1))
      case Name(w) => Ok((Named(t, w), k + 1))
      case Square => RaiseRead(Term(t, ts, k + 1), 2.0)
      case Cube => RaiseRead(Term(t, ts, k + 1), 3.0)
      case Eof => Err(Syntax)
      case Sym(c) =>
        if c == '@' then
          if k + 1 < |ts| && ts[k + 1].Number? then
            var v :- Primitive(ts[k + 1].value);
            Ok((v, k + 2))
          else Err(Syntax)
        else if c == '(' then
          var (v, j) :- Unit(t, ts, ONE, k + 1);
          if IsSym(ts, j, ')') then Ok((v, j + 1)) else Err(Syntax)
        else Err(Syntax)
  }

  function Term(t: Table, ts: seq<Token>, k: nat): (r: Outcome<(Quantity, nat)>)
    requires k <= |ts|
    ensures r.Ok? ==> k < r.value.1 <= |ts|
    decreases |ts| - k, 1
  {
    var (v, j) :- Atom(t, ts, k);
    Carets(ts, v, j)
  }

  /** Terms side by side multiply; `/' divides by the one term after it. */
  function Unit(t: Table, ts: seq<Token>, v: Quantity, k: nat): (r: Outcome<(Quantity, nat)>)
    requires k <= |ts|
    ensures r.Ok? ==> k <= r.value.1 <= |ts|
    decreases |ts| - k, 2
  {
    if IsSym(ts, k, '/') then
      var (u, j) :- Term(t, ts, k + 1);
      var w :- Div(v, u);
      Unit(t, ts, w, j)
    else if StartsTerm(ts, k) then
      var (u, j) :- Term(t, ts, k);
      Unit(t, ts, Mul(v, u), j)
    else Ok((v, k))
  }

  function Parse(t: Table, s: string): Outcome<Quantity> {
    var ts :- Lex(s, 0);
    var (v, k) :- Unit(t, ts, ONE, 0);
    if k < |ts| && ts[k] == Eof then Ok(v) else Err(Syntax)
  }
}
