/** Exact arithmetic shared by the two units readers of tools/v10-units.py:
    coefficients are reals, a dimension vector is a sequence of integers. */
module UnitsValues {

  import opened Basics

  datatype Error = DivisionByZero | BadNumber | BadChar | Syntax | Refused | OutOfSpace

  datatype Outcome<+T> = Ok(value: T) | Err(error: Error) {
    predicate IsFailure() { Err? }
    function PropagateFailure<U>(): Outcome<U> requires Err? { Err(error) }
    function Extract(): T requires Ok? { value }
  }

  // units.c:5's ten primitive dimensions, and units.y:5's eleven.
  const OLD_NDIM := 10
  const NDIM := 11

  datatype Quantity = Quantity(coef: real, dims: seq<int>)

  function Zeros(n: nat): (z: seq<int>)
    ensures |z| == n
  {
    seq(n, _ => 0)
  }

  function Basis(n: nat, i: nat): (v: seq<int>)
    requires i < n
    ensures |v| == n
  {
    Zeros(n)[i := 1]
  }

  function Least(m: nat, n: nat): nat { if m < n then m else n }

  // Both readers combine vectors with zip, which stops at the shorter one.
  function VAdd(a: seq<int>, b: seq<int>): (v: seq<int>)
    ensures |v| == Least(|a|, |b|)
  {
    seq(Least(|a|, |b|), i requires 0 <= i < Least(|a|, |b|) => a[i] + b[i])
  }

  function VSub(a: seq<int>, b: seq<int>): (v: seq<int>)
    ensures |v| == Least(|a|, |b|)
  {
    seq(Least(|a|, |b|), i requires 0 <= i < Least(|a|, |b|) => a[i] - b[i])
  }

  function VScale(k: int, a: seq<int>): (v: seq<int>)
    ensures |v| == |a|
  {
    seq(|a|, i requires 0 <= i < |a| => k * a[i])
  }

  function Mul(p: Quantity, q: Quantity): Quantity {
    Quantity(p.coef * q.coef, VAdd(p.dims, q.dims))
  }

  function Div(p: Quantity, q: Quantity): Outcome<Quantity> {
    if q.coef == 0.0 then Err(DivisionByZero)
    else Ok(Quantity(p.coef / q.coef, VSub(p.dims, q.dims)))
  }

  // ---- powers ----

  function Pow(x: real, n: nat): real {
    if n == 0 then 1.0 else x * Pow(x, n - 1)
  }

  lemma {:induction false} PowZero(x: real, n: nat)
    requires n > 0
    ensures Pow(x, n) == 0.0 <==> x == 0.0
  {
    if n == 1 {
      assert Pow(x, 1) == x * Pow(x, 0);
    } else {
      PowZero(x, n - 1);
      if x != 0.0 { NonZeroProduct(x, Pow(x, n - 1)); }
    }
  }

  function Powered(v: Quantity, n: nat): Quantity {
    Quantity(Pow(v.coef, n), VScale(n, v.dims))
  }

  lemma NonZeroProduct(x: real, y: real)
    requires x != 0.0 && y != 0.0
    ensures x * y != 0.0
  {
    assert x == (x * y) / y;
  }

  function Ten(n: nat): (r: real)
    ensures r > 0.0
  {
    if n == 0 then 1.0 else 10.0 * Ten(n - 1)
  }

  /** d times ten to the x, as both readers scale a mantissa. */
  function Scale10(d: real, x: int): real {
    if x >= 0 then d * Ten(x) else d / Ten(-x)
  }

  lemma Scale10Zero(d: real, x: int)
    ensures Scale10(d, x) == 0.0 <==> d == 0.0
  {
    if x >= 0 {
      if d != 0.0 { NonZeroProduct(d, Ten(x)); }
    } else {
      if d != 0.0 { assert (d / Ten(-x)) * Ten(-x) == d; }
    }
  }

  /** units.y's pwr(): only integer powers, and zero has no negative one. */
  function Raise(v: Quantity, f: real): Outcome<Quantity> {
    var n := f.Floor;
    if n as real != f then Err(Syntax)
    else if n >= 0 then Ok(Quantity(Pow(v.coef, n), VScale(n, v.dims)))
    else if v.coef == 0.0 then Err(DivisionByZero)
    else PowZero(v.coef, -n); Ok(Quantity(1.0 / Pow(v.coef, -n), VScale(n, v.dims)))
  }

  // ---- characters ----

  predicate IsDigit(c: char) { '0' <= c <= '9' }
  predicate IsBlank(c: char) { c == ' ' || c == '\t' }
  // idcharfn(): everything else is a name byte.
  predicate NotId(c: char) { c in "\0*/@()^ \t\n" }

  datatype Class = Blank | Digit | Mantissa | Word

  predicate In(c: char, k: Class) {
    match k
    case Blank => IsBlank(c)
    case Digit => IsDigit(c)
    case Mantissa => IsDigit(c) || c == '.'
    case Word => !NotId(c)
  }

  function DigitValue(c: char): (d: nat)
    requires IsDigit(c)
    ensures d <= 9
  {
    c as int - '0' as int
  }

  /** Where the run of characters of class k that starts at i ends. */
  function Run(s: string, i: nat, k: Class): (j: nat)
    requires i <= |s|
    ensures i <= j <= |s|
    ensures forall m :: i <= m < j ==> In(s[m], k)
    ensures j < |s| ==> !In(s[j], k)
    decreases |s| - i
  {
    if i == |s| || !In(s[i], k) then i else Run(s, i + 1, k)
  }

  lemma RunUnique(s: string, i: nat, k: Class, j: nat)
    requires i <= j <= |s|
    requires forall m :: i <= m < j ==> In(s[m], k)
    requires j < |s| ==> !In(s[j], k)
    ensures Run(s, i, k) == j
  {
    var r := Run(s, i, k);
    assert r < |s| ==> !In(s[r], k);
    assert j < |s| ==> !In(s[j], k);
  }

  /** The number spelled by the digits of s; other characters are passed over. */
  function IntOf(s: string): nat {
    if s == "" then 0
    else
      var c := s[|s| - 1];
      if IsDigit(c) then IntOf(s[..|s| - 1]) * 10 + DigitValue(c) else IntOf(s[..|s| - 1])
  }

  function Dots(s: string): nat {
    if s == "" then 0 else Dots(s[..|s| - 1]) + (if s[|s| - 1] == '.' then 1 else 0)
  }

  function Digits(s: string): nat {
    if s == "" then 0 else Digits(s[..|s| - 1]) + (if IsDigit(s[|s| - 1]) then 1 else 0)
  }

  /** How many characters follow the first dot of s: getflt()'s dp, and, when
      there is at most one dot, the number of decimal places. */
  function AfterDot(s: string): nat {
    if Dots(s) == 0 then 0
    else if Dots(s[..|s| - 1]) == 0 then 0
    else AfterDot(s[..|s| - 1]) + 1
  }

  // ---- prefixes ----

  function PrefixOf(ps: seq<(string, real)>, name: string): (r: Option<(string, real)>)
    requires forall i :: 0 <= i < |ps| ==> ps[i].0 != ""
    ensures r.Some? ==> r.value.0 <= name && r.value.0 != ""
  {
    if ps == [] then None
    else if ps[0].0 <= name then Some(ps[0])
    else PrefixOf(ps[1..], name)
  }

  function Scaled(e: real, q: Option<Quantity>): Option<Quantity> {
    match q
    case None => None
    case Some(v) => Some(Quantity(e * v.coef, v.dims))
  }

  lemma ScaledOnce(e: real, f: real, q: Option<Quantity>)
    ensures Scaled(e, Scaled(f, q)) == Scaled(e * f, q)
  {
    if q.Some? {
      var l, r := Scaled(e, Scaled(f, q)), Scaled(e * f, q);
      assert l.value.coef == r.value.coef;
      assert l.value.dims == r.value.dims;
    }
  }
}
