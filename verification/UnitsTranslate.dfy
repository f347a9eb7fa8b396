/** The translation of one definition body from the old table's syntax to
    units.y's: number(), factors(), term() and expression(). */
module UnitsTranslate {
  import opened UnitsValues
  import UnitsOld

  type Numeral = UnitsOld.Numeral

  function Join(sep: string, parts: seq<string>): string {
    if parts == [] then ""
    else if |parts| == 1 then parts[0]
    else parts[0] + sep + Join(sep, parts[1..])
  }

  lemma JoinSnoc(sep: string, parts: seq<string>, last: string)
    requires parts != []
    ensures Join(sep, parts + [last]) == Join(sep, parts) + sep + last
  {
    if |parts| == 1 {
      assert (parts + [last])[1..] == [last];
    } else {
      assert (parts + [last])[1..] == parts[1..] + [last];
      JoinSnoc(sep, parts[1..], last);
    }
  }

  function Decimal(n: nat): string {
    if n < 10 then [n as char + '0'] else Decimal(n / 10) + [(n % 10) as char + '0']
  }

  function Signed(n: int): string {
    if n < 0 then "-" + Decimal(-n) else Decimal(n)
  }

  // ---- number ----

  /** getflt()'s exponent re-spelled for atof; a lone sign is eaten. */
  function ExponentText(sign: char, digits: string): string {
    if digits == "" then ""
    else if sign == '-' then "e-" + digits
    else "e" + digits
  }

  function SpeltExponent(s: string, n: Numeral): string
    requires n.sign <= n.exp <= n.end <= |s|
  {
    if n.sign == n.exp then "" else ExponentText(s[n.sign], s[n.exp..n.end])
  }

  predicate Within(s: string, n: Numeral) { n.mant <= n.sign <= n.exp <= n.end <= |s| }

  function Spell(s: string, n: Numeral): Outcome<string>
    requires Within(s, n)
  {
    var mant := s[n.mant..n.sign];
    var exp := SpeltExponent(s, n);
    if exp != "" && mant == "" then Err(Refused) else Ok(mant + exp)
  }

  /** The terms of the number at i, which bars separate. */
  function Numerals(s: string, i: nat): (ns: seq<Numeral>)
    requires i <= |s|
    ensures ns != [] && forall k :: 0 <= k < |ns| ==> Within(s, ns[k])
    decreases |s| - i
  {
    var n := UnitsOld.Scan(s, i);
    if n.end < |s| && s[n.end] == '|' then [n] + Numerals(s, n.end + 1) else [n]
  }

  function Spellings(s: string, ns: seq<Numeral>): (r: Outcome<seq<string>>)
    requires forall k :: 0 <= k < |ns| ==> Within(s, ns[k])
    ensures r.Ok? ==> |r.value| == |ns|
  {
    if ns == [] then Ok([])
    else
      var w :- Spell(s, ns[0]);
      var ws :- Spellings(s, ns[1..]);
      Ok([w] + ws)
  }

  /** number()'s spelling, and where the names start. */
  function NumberText(s: string): (r: Outcome<(string, nat)>)
    ensures r.Ok? ==> r.value.1 <= |s|
  {
    var ns := Numerals(s, 0);
    var ws :- Spellings(s, ns);
    if |ws| > 2 then Err(Refused) else Ok((Join("/", ws), ns[|ns| - 1].end))
  }

  /** One more term spelled, and the first one that cannot be. */
  lemma {:induction false} SpellingsSnoc(s: string, done: seq<Numeral>, n: Numeral)
    requires Within(s, n) && forall k :: 0 <= k < |done| ==> Within(s, done[k])
    requires Spellings(s, done).Ok?
    ensures Spellings(s, done + [n]) == match Spell(s, n)
                                        case Err(e) => Err(e)
                                        case Ok(w) => Ok(Spellings(s, done).value + [w])
  {
    if done == [] {
      assert [] + [n] == [n] && [n][1..] == [];
      if Spell(s, n).Ok? { assert [Spell(s, n).value] + [] == [] + [Spell(s, n).value]; }
    } else {
      assert (done + [n])[0] == done[0] && (done + [n])[1..] == done[1..] + [n];
      SpellingsSnoc(s, done[1..], n);
      if Spell(s, n).Ok? {
        var w, vs := Spell(s, done[0]).value, Spellings(s, done[1..]).value;
        assert [w] + (vs + [Spell(s, n).value]) == ([w] + vs) + [Spell(s, n).value];
      }
    }
  }

  lemma {:induction false} SpellingsStop(s: string, done: seq<Numeral>, rest: seq<Numeral>)
    requires forall k :: 0 <= k < |done| ==> Within(s, done[k])
    requires forall k :: 0 <= k < |rest| ==> Within(s, rest[k])
    requires Spellings(s, done).Err?
    ensures Spellings(s, done + rest) == Err(Spellings(s, done).error)
  {
    assert (done + rest)[0] == done[0] && (done + rest)[1..] == done[1..] + rest;
    if Spell(s, done[0]).Ok? { SpellingsStop(s, done[1..], rest); }
  }

  method ScanTerm(text: string, i0: nat) returns (n: Numeral)
    requires i0 <= |text|
    ensures n == UnitsOld.Scan(text, i0)
  {
    var i := i0;
    while i < |text| && (text[i] == ' ' || text[i] == '\t')
      invariant i0 <= i <= |text|
      invariant forall m :: i0 <= m < i ==> In(text[m], Blank)
    {
      i := i + 1;
    }
    RunUnique(text, i0, Blank, i);
    var j := i;
    while j < |text| && (IsDigit(text[j]) || text[j] == '.')
      invariant i <= j <= |text|
      invariant forall m :: i <= m < j ==> In(text[m], Mantissa)
    {
      j := j + 1;
    }
    RunUnique(text, i, Mantissa, j);
    if j == |text| || (text[j] != '+' && text[j] != '-') {
      return UnitsOld.Numeral(i, j, j, j);
    }
    var k := j + 1;
    while k < |text| && IsDigit(text[k])
      invariant j + 1 <= k <= |text|
      invariant forall m :: j + 1 <= m < k ==> In(text[m], Digit)
    {
      k := k + 1;
    }
    RunUnique(text, j + 1, Digit, k);
    n := UnitsOld.Numeral(i, j, j + 1, k);
  }

  /** The first `done' terms of s are spelled, and the next starts at i. */
  ghost predicate Collected(s: string, i: nat, done: seq<Numeral>, terms: seq<string>) {
    i <= |s| && (forall k :: 0 <= k < |done| ==> Within(s, done[k]))
    && Numerals(s, 0) == done + Numerals(s, i) && Spellings(s, done) == Ok(terms)
  }

  lemma NumeralsStep(s: string, i: nat, n: Numeral)
    requires i <= |s| && n == UnitsOld.Scan(s, i)
    ensures Numerals(s, i) == [n] + if n.end < |s| && s[n.end] == '|' then Numerals(s, n.end + 1) else []
  {
    hide UnitsOld.Scan;
  }

  lemma CollectError(s: string, i: nat, done: seq<Numeral>, terms: seq<string>, n: Numeral, rest: seq<Numeral>)
    requires Collected(s, i, done, terms) && Numerals(s, i) == [n] + rest && Within(s, n) && Spell(s, n).Err?
    ensures Spellings(s, Numerals(s, 0)) == Err(Spell(s, n).error)
  {
    hide Spell, Spellings, Numerals;
    assert done + ([n] + rest) == (done + [n]) + rest;
    SpellingsSnoc(s, done, n);
    assert forall k :: 0 <= k < |rest| ==> rest[k] == Numerals(s, i)[k + 1];
    SpellingsStop(s, done + [n], rest);
  }

  lemma CollectNext(s: string, i: nat, done: seq<Numeral>, terms: seq<string>, n: Numeral, rest: seq<Numeral>)
    requires Collected(s, i, done, terms) && Numerals(s, i) == [n] + rest && Within(s, n) && Spell(s, n).Ok?
    ensures Numerals(s, 0) == (done + [n]) + rest
    ensures Spellings(s, done + [n]) == Ok(terms + [Spell(s, n).value])
  {
    assert done + ([n] + rest) == (done + [n]) + rest;
    SpellingsSnoc(s, done, n);
  }

  lemma CollectMore(s: string, i: nat, done: seq<Numeral>, terms: seq<string>, n: Numeral)
    requires Collected(s, i, done, terms) && n == UnitsOld.Scan(s, i) && Spell(s, n).Ok?
    requires n.end < |s| && s[n.end] == '|'
    ensures Collected(s, n.end + 1, done + [n], terms + [Spell(s, n).value])
  {
    NumeralsStep(s, i, n);
    CollectNext(s, i, done, terms, n, Numerals(s, n.end + 1));
  }

  lemma CollectLast(s: string, i: nat, done: seq<Numeral>, terms: seq<string>, n: Numeral)
    requires Collected(s, i, done, terms) && n == UnitsOld.Scan(s, i) && Spell(s, n).Ok?
    requires n.end == |s| || s[n.end] != '|'
    ensures Spellings(s, Numerals(s, 0)) == Ok(terms + [Spell(s, n).value])
    ensures Numerals(s, 0)[|Numerals(s, 0)| - 1] == n
  {
    NumeralsStep(s, i, n);
    CollectNext(s, i, done, terms, n, []);
    assert (done + [n]) + [] == done + [n];
  }

  lemma CollectBad(s: string, i: nat, done: seq<Numeral>, terms: seq<string>, n: Numeral)
    requires Collected(s, i, done, terms) && n == UnitsOld.Scan(s, i) && Spell(s, n).Err?
    ensures Spellings(s, Numerals(s, 0)) == Err(Spell(s, n).error)
  {
    NumeralsStep(s, i, n);
    CollectError(s, i, done, terms, n, if n.end < |s| && s[n.end] == '|' then Numerals(s, n.end + 1) else []);
  }

  lemma CollectNothing(s: string)
    ensures Collected(s, 0, [], [])
  {
  }

  /** The loop of number(). */
  method CollectTerms(text: string) returns (r: Outcome<(seq<string>, nat)>)
    ensures r.Err? ==> Spellings(text, Numerals(text, 0)) == Err(r.error)
    ensures r.Ok? ==> Spellings(text, Numerals(text, 0)) == Ok(r.value.0)
                      && r.value.1 == Numerals(text, 0)[|Numerals(text, 0)| - 1].end
  {
    hide Spell, Spellings, Numerals, Collected;
    var terms: seq<string> := [];
    var i := 0;
    ghost var done := [];
    CollectNothing(text);
    while true
      invariant i <= |text| && Collected(text, i, done, terms)
      decreases |text| - i
    {
      var n := ScanTerm(text, i);
      var w := Spell(text, n);
      if w.Err? {
        CollectBad(text, i, done, terms, n);
        return Err(w.error);
      }
      if n.end == |text| || text[n.end] != '|' {
        CollectLast(text, i, done, terms, n);
        return Ok((terms + [w.value], n.end));
      }
      CollectMore(text, i, done, terms, n);
      done, terms := done + [n], terms + [w.value];
      i := n.end + 1;
    }
  }

  /** number(): getflt()'s leading number, re-spelled, and what follows it. */
  method SplitNumber(text: string) returns (r: Outcome<(string, string)>)
    ensures r == match NumberText(text)
                 case Err(e) => Err(e)
                 case Ok(v) => Ok((v.0, text[v.1..]))
  {
    var w :- CollectTerms(text);
    r := if |w.0| > 2 then Err(Refused) else Ok((Join("/", w.0), text[w.1..]));
  }

  // ---- factors ----

  datatype Factor = Factor(name: string, power: nat, den: bool)

  function FactorPower(c: char): nat { if IsDigit(c) then DigitValue(c) else 1 }

  /** convr()'s names from i on, the text taken to end in a newline; `name' is
      the part of the current one already read. */
  function Factors(s: string, i: nat, name: string, den: bool): seq<Factor>
    requires i <= |s|
    decreases |s| - i
  {
    if i == |s| then if name == "" then [] else [Factor(name, 1, den)]
    else if UnitsOld.IsSep(s[i]) then
      (if name == "" then [] else [Factor(name, FactorPower(s[i]), den)])
      + Factors(s, i + 1, "", den || s[i] == '/')
    else Factors(s, i + 1, name + [s[i]], den)
  }

  lemma {:induction false} FactorsDrop(s: string, j: nat, i: nat, name: string, den: bool)
    requires j <= i <= |s|
    ensures Factors(s[j..], i - j, name, den) == Factors(s, i, name, den)
    decreases |s| - i
  {
    if i < |s| {
      assert s[j..][i - j] == s[i];
      if UnitsOld.IsSep(s[i]) {
        FactorsDrop(s, j, i + 1, "", den || s[i] == '/');
      } else {
        FactorsDrop(s, j, i + 1, name + [s[i]], den);
      }
    }
  }

  /** factors() */
  method SplitFactors(text: string) returns (out: seq<Factor>)
    ensures out == Factors(text, 0, "", false)
  {
    out := [];
    var den, name := false, "";
    for i := 0 to |text| + 1
      invariant i <= |text| ==> Factors(text, 0, "", false) == out + Factors(text, i, name, den)
      invariant i > |text| ==> out == Factors(text, 0, "", false)
    {
      var c := if i == |text| then '\n' else text[i];
      if UnitsOld.IsSep(c) {
        if name != "" {
          var f := Factor(name, FactorPower(c), den);
          assert forall gs: seq<Factor> :: out + ([f] + gs) == (out + [f]) + gs;
          out := out + [f];
          name := "";
        }
        if c == '/' { den := true; }
      } else {
        name := name + [c];
      }
    }
  }

  // ---- term and expression ----

  predicate IsPrimitive(name: string) {
    |name| == 3 && name[0] == '*' && name[2] == '*'
  }

  /** term(): a primitive dimension's power is dropped. */
  function TermText(f: Factor): string {
    if IsPrimitive(f.name) then "@" + Signed(f.name[1] as int - 'a' as int)
    else if f.power == 1 then f.name
    else f.name + "^" + Decimal(f.power)
  }

  function Select(fs: seq<Factor>, den: bool): (r: seq<Factor>)
    ensures forall f :: f in r ==> f in fs
  {
    if fs == [] then []
    else (if fs[0].den == den then [fs[0]] else []) + Select(fs[1..], den)
  }

  function Texts(fs: seq<Factor>): (ts: seq<string>)
    ensures |ts| == |fs|
  {
    if fs == [] then [] else [TermText(fs[0])] + Texts(fs[1..])
  }

  function Divisor(bottom: seq<Factor>): string {
    if bottom == [] then ""
    else if |bottom| == 1 then "/" + TermText(bottom[0])
    else "/(" + Join(" ", Texts(bottom)) + ")"
  }

  /** expression() */
  function Expression(text: string): Outcome<string> {
    var (num, j) :- NumberText(text);
    var fs := Factors(text[j..], 0, "", false);
    var top := (if num == "" then [] else [num]) + Texts(Select(fs, false));
    Ok(Join(" ", top) + Divisor(Select(fs, true)))
  }
}
