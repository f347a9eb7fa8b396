/** What old/units.c's convr() reads in a definition: numbers one over another, then
    names with their powers, those after a slash divided by. */
module UnitsDefinitions {
  import opened Basics
  import opened UnitsValues
  import opened UnitsNumerals
  import opened UnitsExpressions
  import Old = UnitsOld

  // ---- the number ----

  /** A number may be nothing at all, and a sign is that of its exponent. */
  predicate OldSpelt(l: Literal) {
    Digital(l) && !l.neg && l.mark == "" && (l.sign == "" || l.sign == "+" || l.sign == "-") && (l.sign == "" ==> l.exp == "")
  }

  datatype Ratio = Last(lead: string, l: Literal) | Bar(lead: string, l: Literal, below: Ratio)

  predicate RatioSpelt(r: Ratio) { Blanks(r.lead) && OldSpelt(r.l) && (r.Bar? ==> RatioSpelt(r.below)) }

  function RatioText(r: Ratio): string {
    r.lead + (Spelling(r.l) + if r.Bar? then "|" + RatioText(r.below) else "")
  }

  predicate RatioSound(r: Ratio)
    requires RatioSpelt(r)
  {
    r.Bar? ==> RatioSound(r.below) && RatioAmount(r.below) != 0.0
  }

  /** Each number over all that its bar is followed by. */
  function RatioAmount(r: Ratio): real
    requires RatioSpelt(r)
  {
    match r
    case Last(_, l) => Amount(l)
    case Bar(_, l, below) => Quotient(Amount(l), RatioAmount(below))
  }

  predicate Lies(s: string, i: nat, w: string) { i + |w| <= |s| && s[i..i + |w|] == w }

  lemma LiesSplit(s: string, i: nat, a: string, b: string)
    requires Lies(s, i, a + b)
    ensures Lies(s, i, a) && Lies(s, i + |a|, b)
  {
    assert s[i..i + |a|] == (a + b)[..|a|];
    assert s[i + |a|..i + |a| + |b|] == (a + b)[|a|..];
  }

  lemma LiesAt(s: string, i: nat, w: string, k: nat)
    requires Lies(s, i, w) && k < |w|
    ensures s[i + k] == w[k]
  {
    assert s[i + k] == s[i..i + |w|][k];
  }

  lemma RunIs(s: string, i: nat, w: string, k: Class)
    requires Lies(s, i, w) && (forall m :: 0 <= m < |w| ==> In(w[m], k)) && (i + |w| < |s| ==> !In(s[i + |w|], k))
    ensures Run(s, i, k) == i + |w|
  {
    forall m | i <= m < i + |w|
      ensures In(s[m], k)
    {
      LiesAt(s, i, w, m - i);
    }
    RunUnique(s, i, k, i + |w|);
  }

  /** A bar, or the end of the numbers: nothing that this one could go on with. */
  predicate Follows(s: string, j: nat, l: Literal) {
    j < |s| && s[j] !in "0123456789\0" && (l.sign == "" ==> s[j] !in ".+-") && (Front(l) + l.sign == "" ==> !IsBlank(s[j]))
  }

  lemma NumeralScanned(s: string, i: nat, lead: string, l: Literal)
    requires Blanks(lead) && OldSpelt(l) && Lies(s, i, lead + Spelling(l)) && Follows(s, i + |lead| + |Spelling(l)|, l)
    ensures Old.Scan(s, i).end == i + |lead| + |Spelling(l)| && Old.NumeralValue(s, Old.Scan(s, i)) == Amount(l)
  {
    hide Lies, Follows, Old.NumeralValue, Old.Scan, Front, Amount;
    var m := Front(l);
    var a := i + |lead|;
    var b := a + |m|;
    assert Spelling(l) == m + (l.sign + l.exp);
    LiesSplit(s, i, lead, m + (l.sign + l.exp));
    LiesSplit(s, a, m, l.sign + l.exp);
    LiesSplit(s, b, l.sign, l.exp);
    NumeralRuns(s, i, lead, l);
    ScannedValue(s, a, l);
  }

  lemma ScannedValue(s: string, a: nat, l: Literal)
    requires OldSpelt(l)
    requires var b := a + |Front(l)|; Lies(s, a, Front(l)) && Lies(s, b, l.sign) && Lies(s, b + |l.sign|, l.exp)
    ensures var b := a + |Front(l)|;
            Old.NumeralValue(s, Old.Numeral(a, b, b + |l.sign|, b + |l.sign| + |l.exp|)) == Amount(l)
  {
    hide IntOf, AfterDot, Scale10, Places, Tens, Size, Front;
    if l.sign != "" { LiesAt(s, a + |Front(l)|, l.sign, 0); }
    FrontIs(l);
    IntOfDigits(l.exp);
    AmountIs(l);
  }

  lemma NumeralRuns(s: string, i: nat, lead: string, l: Literal)
    requires Blanks(lead) && OldSpelt(l)
    requires var a, b := i + |lead|, i + |lead| + |Front(l)|;
             Lies(s, i, lead) && Lies(s, a, Front(l)) && Lies(s, b, l.sign) && Lies(s, b + |l.sign|, l.exp)
             && Follows(s, b + |l.sign| + |l.exp|, l)
    ensures var a, b := i + |lead|, i + |lead| + |Front(l)|;
            Old.Scan(s, i) == Old.Numeral(a, b, b + |l.sign|, b + |l.sign| + |l.exp|)
  {
    hide Run, Lies, Front, Follows, In;
    var a, b := i + |lead|, i + |lead| + |Front(l)|;
    var end := b + |l.sign| + |l.exp|;
    FrontIs(l);
    NextNotBlank(s, a, l, end);
    FollowsNone(s, end, l);
    AllIn(lead, l.exp);
    LiesInside(s, b, l.sign);
    RunIs(s, i, lead, Blank);
    if l.sign == "" {
      RunIs(s, a, Front(l), Mantissa);
    } else {
      LiesAt(s, b, l.sign, 0);
      assert !In(s[b], Mantissa) by { SignsNot(s[b]); }
      RunIs(s, a, Front(l), Mantissa);
      RunIs(s, b + 1, l.exp, Digit);
    }
  }

  lemma SignsNot(c: char)
    requires c == '+' || c == '-'
    ensures !In(c, Mantissa)
  {
  }

  lemma FollowsNone(s: string, j: nat, l: Literal)
    requires Follows(s, j, l)
    ensures j < |s| && !In(s[j], Digit) && (l.sign == "" ==> !In(s[j], Mantissa) && s[j] != '+' && s[j] != '-')
  {
  }

  lemma AllIn(lead: string, exp: string)
    requires Blanks(lead) && AllDigits(exp)
    ensures (forall m :: 0 <= m < |lead| ==> In(lead[m], Blank)) && forall m :: 0 <= m < |exp| ==> In(exp[m], Digit)
  {
  }

  /** Blanks before a number end where it starts, or where the line goes on. */
  lemma NextNotBlank(s: string, a: nat, l: Literal, end: nat)
    requires OldSpelt(l) && Lies(s, a, Front(l)) && Lies(s, a + |Front(l)|, l.sign) && end == a + |Front(l)| + |l.sign| + |l.exp|
    requires Follows(s, end, l)
    ensures a < |s| && !In(s[a], Blank)
  {
    hide Lies;
    FrontIs(l);
    if Front(l) != "" {
      LiesAt(s, a, Front(l), 0);
    } else if l.sign != "" {
      LiesAt(s, a, l.sign, 0);
    }
  }

  function Final(r: Ratio): Literal {
    match r
    case Last(_, l) => l
    case Bar(_, _, below) => Final(below)
  }

  /** What getflt() makes of the numbers at i. */
  predicate RatioResult(s: string, i: nat, r: Ratio)
    requires RatioSpelt(r) && i <= |s|
  {
    if RatioSound(r) then Old.GetFlt(s, i) == Ok((RatioAmount(r), i + |RatioText(r)|)) else Old.GetFlt(s, i).Err?
  }

  lemma BarFollows(s: string, j: nat, l: Literal)
    requires j < |s| && s[j] == '|'
    ensures Follows(s, j, l)
  {
  }

  lemma LastRead(s: string, i: nat, lead: string, l: Literal)
    requires Blanks(lead) && OldSpelt(l) && Lies(s, i, lead + Spelling(l)) && i <= |s|
    requires var end := i + |lead| + |Spelling(l)|; Follows(s, end, l) && s[end] != '|'
    ensures RatioResult(s, i, Last(lead, l))
  {
    hide Lies, Spelling, Amount, Old.NumeralValue, Old.Scan, OldSpelt, Old.GetFlt;
    NumeralScanned(s, i, lead, l);
    Old.GetFltCases(s, i);
  }

  lemma BarRead(s: string, i: nat, lead: string, l: Literal, below: Ratio)
    requires Blanks(lead) && OldSpelt(l) && RatioSpelt(below) && Lies(s, i, lead + Spelling(l)) && i <= |s|
    requires var end := i + |lead| + |Spelling(l)|; end < |s| && s[end] == '|' && RatioResult(s, end + 1, below)
    ensures RatioResult(s, i, Bar(lead, l, below))
  {
    hide Lies, Spelling, Amount, Old.NumeralValue, Old.Scan, OldSpelt, Old.GetFlt, Follows;
    BarFollows(s, i + |lead| + |Spelling(l)|, l);
    NumeralScanned(s, i, lead, l);
    Old.GetFltCases(s, i);
  }

  lemma {:induction false} RatioRead(s: string, i: nat, r: Ratio)
    requires RatioSpelt(r) && Lies(s, i, RatioText(r)) && i <= |s|
    requires var end := i + |RatioText(r)|; Follows(s, end, Final(r)) && s[end] != '|'
    ensures RatioResult(s, i, r)
    decreases r
  {
    hide Lies, Spelling, OldSpelt, RatioResult, Follows;
    var lead, l := r.lead, r.l;
    match r
    case Last(_, _) =>
      assert RatioText(r) == lead + Spelling(l);
      LastRead(s, i, lead, l);
    case Bar(_, _, below) =>
      var end, more := i + |lead| + |Spelling(l)|, "|" + RatioText(below);
      assert RatioText(r) == (lead + Spelling(l)) + more;
      LiesSplit(s, i, lead + Spelling(l), more);
      LiesSplit(s, end, "|", RatioText(below));
      LiesAt(s, end, "|", 0);
      LiesInside(s, end, "|");
      RatioRead(s, end + 1, below);
      BarRead(s, i, lead, l, below);
  }

  // ---- the names ----

  /** A name and what ends it. */
  datatype Part = Part(name: string, sep: char)

  predicate Free(w: string) { forall i :: 0 <= i < |w| ==> w[i] !in "123456789-/ \t\n\0" }

  /** The last part ends the line. */
  predicate PartsWritten(ps: seq<Part>) {
    ps != [] && forall k :: 0 <= k < |ps| ==> Free(ps[k].name) && if k == |ps| - 1 then ps[k].sep == '\n' else ps[k].sep in "123456789-/ \t"
  }

  function PartsText(ps: seq<Part>): string {
    if ps == [] then "" else ps[0].name + ([ps[0].sep] + PartsText(ps[1..]))
  }

  function Times(c: char): nat { if '2' <= c <= '9' then c as int - 48 else 1 }

  predicate Counts(t: Old.Table, p: Part) { p.name != "" && Old.Find(t, p.name).Some? }

  function PartCoef(t: Old.Table, p: Part): real {
    if Counts(t, p) then ToThe(Old.Find(t, p.name).value.coef, Times(p.sep)) else 1.0
  }

  function PartDim(t: Old.Table, p: Part, d: nat): int {
    if Counts(t, p) && d < |Old.Find(t, p.name).value.dims| then Times(p.sep) * Old.Find(t, p.name).value.dims[d] else 0
  }

  /** The product of what comes before a slash, unless one came earlier... */
  function Above(t: Old.Table, ps: seq<Part>, below: bool): real
    decreases |ps|
  {
    if ps == [] then 1.0
    else (if below then 1.0 else PartCoef(t, ps[0])) * Above(t, ps[1..], below || ps[0].sep == '/')
  }

  /** ...and of what comes after. */
  function Below(t: Old.Table, ps: seq<Part>, below: bool): real
    decreases |ps|
  {
    if ps == [] then 1.0
    else (if below then PartCoef(t, ps[0]) else 1.0) * Below(t, ps[1..], below || ps[0].sep == '/')
  }

  function PartsDim(t: Old.Table, ps: seq<Part>, below: bool, d: nat): int
    decreases |ps|
  {
    if ps == [] then 0
    else (if below then -1 else 1) * PartDim(t, ps[0], d) + PartsDim(t, ps[1..], below || ps[0].sep == '/', d)
  }

  /** Nothing is divided by zero. */
  predicate PartsSound(t: Old.Table, ps: seq<Part>, below: bool)
    decreases |ps|
  {
    ps == [] || ((below ==> PartCoef(t, ps[0]) != 0.0) && PartsSound(t, ps[1..], below || ps[0].sep == '/'))
  }

  /** Names that mean nothing. */
  function Missing(t: Old.Table, ps: seq<Part>): nat {
    if ps == [] then 0 else (if ps[0].name != "" && !Counts(t, ps[0]) then 1 else 0) + Missing(t, ps[1..])
  }

  function OldDims(f: nat -> int): (v: seq<int>)
    ensures |v| == OLD_NDIM && forall d: nat :: d < OLD_NDIM ==> v[d] == f(d)
  {
    seq(OLD_NDIM, d requires 0 <= d < OLD_NDIM => f(d))
  }

  function PartsWorth(t: Old.Table, ps: seq<Part>, below: bool): Quantity {
    Quantity(Quotient(Above(t, ps, below), Below(t, ps, below)), OldDims((d: nat) => PartsDim(t, ps, below, d)))
  }

  // ---- read ----

  predicate OldShaped(t: Old.Table) { forall w :: w in t ==> |t[w].dims| == OLD_NDIM }

  lemma {:induction false} FindShaped(t: Old.Table, s: string)
    requires OldShaped(t)
    ensures Old.Find(t, s).Some? ==> |Old.Find(t, s).value.dims| == OLD_NDIM
    decreases |s|
  {
    hide PrefixOf;
    if s !in t {
      if PrefixOf(Old.PREFIX, s).Some? {
        FindShaped(t, s[|PrefixOf(Old.PREFIX, s).value.0|..]);
      } else if s != "" {
        FindShaped(t, s[..|s| - 1]);
      }
    }
  }

  lemma {:induction false} NameRead(t: Old.Table, s: string, i: nat, w: string, name: string, below: bool, p: Old.Reading)
    requires Free(w) && Lies(s, i, w)
    ensures Old.Names(t, s, i, name, below, p) == Old.Names(t, s, i + |w|, name + w, below, p)
    decreases |w|
  {
    hide Lies, Old.Apply;
    if w == "" {
      assert name + w == name;
      LiesHere(s, i);
    } else {
      var c, rest := w[0], w[1..];
      assert w == [c] + rest;
      LiesSplit(s, i, [c], rest);
      LiesAt(s, i, [c], 0);
      LiesInside(s, i, w);
      assert c !in "123456789-/ \t\n\0";
      OneMore(t, s, i, c, name, below, p);
      NameRead(t, s, i + 1, rest, name + [c], below, p);
      assert name + w == (name + [c]) + rest;
    }
  }

  lemma LiesHere(s: string, i: nat)
    requires Lies(s, i, "")
    ensures i <= |s|
  {
  }

  lemma LiesInside(s: string, i: nat, w: string)
    requires Lies(s, i, w)
    ensures i + |w| <= |s|
  {
  }

  lemma Separators(c: char)
    ensures Old.IsSep(c) <==> c in "123456789-/ \t\n"
  {
  }

  lemma OneMore(t: Old.Table, s: string, i: nat, c: char, name: string, below: bool, p: Old.Reading)
    requires i < |s| && s[i] == c && c !in "123456789-/ \t\n\0"
    ensures Old.Names(t, s, i, name, below, p) == Old.Names(t, s, i + 1, name + [c], below, p)
  {
    hide Old.Apply;
    Separators(c);
  }

  /** One part applied. */
  lemma PartApplied(t: Old.Table, a: Part, below: bool, p: Old.Reading)
    requires OldShaped(t) && |p.q.dims| == OLD_NDIM && a.name != ""
    ensures var r := Old.Apply(t, a.name, below, a.sep, p);
            if below && PartCoef(t, a) == 0.0 then r.Err?
            else r.Ok? && r.value.unknown == p.unknown + (if Counts(t, a) then 0 else 1)
                 && r.value.q == PartGiven(t, a, below, p.q)
  {
    hide Old.Find, ToThe, Pow;
    FindShaped(t, a.name);
    if Counts(t, a) {
      var v, n := Old.Find(t, a.name).value, Times(a.sep);
      ToTheUp(v.coef, n);
      assert Old.PowerOf(a.sep) == n;
      var r, g := Old.Once(p.q, Powered(v, n), below), PartGiven(t, a, below, p.q);
      if r.Ok? { assert r.value.dims == g.dims; }
    } else {
      assert PartGiven(t, a, below, p.q).dims == p.q.dims;
    }
  }

  function PartGiven(t: Old.Table, a: Part, below: bool, q: Quantity): (r: Quantity)
    ensures |r.dims| == OLD_NDIM
  {
    Quantity(if below then Quotient(q.coef, PartCoef(t, a)) else q.coef * PartCoef(t, a),
             OldDims((d: nat) => (if d < |q.dims| then q.dims[d] else 0) + (if below then -1 else 1) * PartDim(t, a, d)))
  }

  lemma PartsTextFirst(ps: seq<Part>)
    requires ps != []
    ensures PartsText(ps) == ps[0].name + ([ps[0].sep] + PartsText(ps[1..]))
  {
  }

  lemma PartsWrittenRest(ps: seq<Part>)
    requires PartsWritten(ps)
    ensures ps != [] && Free(ps[0].name) && (if |ps| == 1 then ps[0].sep == '\n' else ps[0].sep in "123456789-/ \t")
    ensures |ps| > 1 ==> PartsWritten(ps[1..])
  {
    hide Free;
    if |ps| > 1 {
      var rest := ps[1..];
      forall k | 0 <= k < |rest|
        ensures Free(rest[k].name) && if k == |rest| - 1 then rest[k].sep == '\n' else rest[k].sep in "123456789-/ \t"
      {
        assert rest[k] == ps[k + 1];
      }
    }
  }

  /** What the parts make of a reading. */
  function Reads(t: Old.Table, ps: seq<Part>, below: bool, p: Old.Reading): Old.Reading {
    Old.Reading(Mul(p.q, PartsWorth(t, ps, below)), p.unknown + Missing(t, ps))
  }

  predicate PartsResult(t: Old.Table, s: string, i: nat, ps: seq<Part>, below: bool, p: Old.Reading)
    requires i <= |s|
  {
    if PartsSound(t, ps, below) then Old.Names(t, s, i, "", below, p) == Ok((Reads(t, ps, below, p), i + |PartsText(ps)|))
    else Old.Names(t, s, i, "", below, p).Err?
  }

  function Given(t: Old.Table, a: Part, below: bool, p: Old.Reading): Old.Reading {
    Old.Reading(PartGiven(t, a, below, p.q), p.unknown + if a.name != "" && !Counts(t, a) then 1 else 0)
  }

  /** A name, what ends it, and the rest. */
  lemma PartStep(t: Old.Table, s: string, i: nat, a: Part, below: bool, p: Old.Reading)
    requires OldShaped(t) && |p.q.dims| == OLD_NDIM && Free(a.name) && a.sep in "123456789-/ \t\n"
    requires Lies(s, i, a.name) && i + |a.name| < |s| && s[i + |a.name|] == a.sep
    ensures var j := i + |a.name|;
            if below && PartCoef(t, a) == 0.0 then Old.Names(t, s, i, "", below, p).Err?
            else if a.sep == '\n' then Old.Names(t, s, i, "", below, p) == Ok((Given(t, a, below, p), j + 1))
            else Old.Names(t, s, i, "", below, p) == Old.Names(t, s, j + 1, "", below || a.sep == '/', Given(t, a, below, p))
  {
    hide Lies, Old.Apply, Old.Names, PartCoef, PartGiven, Free;
    NameRead(t, s, i, a.name, "", below, p);
    assert "" + a.name == a.name;
    PartEnds(t, s, i + |a.name|, a, below, p);
    if a.name == "" {
      EmptyPart(t, a, below, p.q);
    } else {
      PartApplied(t, a, below, p);
    }
  }

  lemma {:induction false} PartsRead(t: Old.Table, s: string, i: nat, ps: seq<Part>, below: bool, p: Old.Reading)
    requires OldShaped(t) && PartsWritten(ps) && Lies(s, i, PartsText(ps)) && |p.q.dims| == OLD_NDIM && i <= |s|
    ensures PartsResult(t, s, i, ps, below, p)
    decreases |ps|
  {
    hide Lies, Old.Names, PartCoef, PartGiven, Reads, PartsText, PartsWritten, Free, PartsSound, Counts;
    PartsWrittenRest(ps);
    PartsTextFirst(ps);
    var a, rest := ps[0], ps[1..];
    var j := i + |a.name|;
    LiesSplit(s, i, a.name, [a.sep] + PartsText(rest));
    LiesSplit(s, j, [a.sep], PartsText(rest));
    LiesAt(s, j, [a.sep], 0);
    LiesInside(s, j, [a.sep]);
    PartStep(t, s, i, a, below, p);
    PartsFirst(t, ps, below);
    if !below || PartCoef(t, a) != 0.0 {
      var d, g := below || a.sep == '/', Given(t, a, below, p);
      if |ps| == 1 {
        NoParts(t, d, g);
      } else {
        PartsRead(t, s, j + 1, rest, d, g);
      }
      if PartsSound(t, ps, below) { NextPart(t, ps, below, p); }
    }
  }

  lemma EmptyPart(t: Old.Table, a: Part, below: bool, q: Quantity)
    requires a.name == "" && |q.dims| == OLD_NDIM
    ensures PartGiven(t, a, below, q) == q && PartCoef(t, a) == 1.0
  {
    assert PartGiven(t, a, below, q).dims == q.dims;
  }

  function PartRead(t: Old.Table, a: Part, below: bool, p: Old.Reading): Outcome<Old.Reading> {
    if a.name == "" then Ok(p) else Old.Apply(t, a.name, below, a.sep, p)
  }

  /** convr() at the character that ends a name. */
  lemma PartEnds(t: Old.Table, s: string, j: nat, a: Part, below: bool, p: Old.Reading)
    requires j < |s| && s[j] == a.sep && a.sep in "123456789-/ \t\n"
    ensures Old.Names(t, s, j, a.name, below, p)
         == match PartRead(t, a, below, p)
            case Err(e) => Err(e)
            case Ok(v) => if a.sep == '\n' then Ok((v, j + 1)) else Old.Names(t, s, j + 1, "", below || a.sep == '/', v)
  {
    hide Old.Apply;
    Separators(a.sep);
  }

  lemma NoParts(t: Old.Table, below: bool, p: Old.Reading)
    requires |p.q.dims| == OLD_NDIM
    ensures Reads(t, [], below, p) == p && PartsSound(t, [], below) && PartsText([]) == ""
  {
    assert Reads(t, [], below, p).q.dims == p.q.dims;
    assert Reads(t, [], below, p).q.coef == p.q.coef;
  }

  lemma NextPart(t: Old.Table, ps: seq<Part>, below: bool, p: Old.Reading)
    requires ps != [] && |p.q.dims| == OLD_NDIM && PartsSound(t, ps, below)
    ensures Reads(t, ps, below, p) == Reads(t, ps[1..], below || ps[0].sep == '/', Given(t, ps[0], below, p))
  {
    hide PartCoef, PartDim, Above, Below, PartsDim, PartsSound;
    NextDims(t, ps, below, p.q);
    NextCoef(t, ps, below, p.q);
    MissingFirst(t, ps);
  }

  lemma MissingFirst(t: Old.Table, ps: seq<Part>)
    requires ps != []
    ensures Missing(t, ps) == (if ps[0].name != "" && !Counts(t, ps[0]) then 1 else 0) + Missing(t, ps[1..])
  {
    hide Counts;
  }

  lemma NextDims(t: Old.Table, ps: seq<Part>, below: bool, q: Quantity)
    requires ps != [] && |q.dims| == OLD_NDIM
    ensures Mul(q, PartsWorth(t, ps, below)).dims
         == Mul(PartGiven(t, ps[0], below, q), PartsWorth(t, ps[1..], below || ps[0].sep == '/')).dims
  {
    hide PartCoef, PartDim, Above, Below;
  }

  lemma {:induction false} BelowSound(t: Old.Table, ps: seq<Part>, below: bool)
    requires PartsSound(t, ps, below)
    ensures Below(t, ps, below) != 0.0
    decreases |ps|
  {
    hide PartCoef;
    if ps != [] {
      BelowSound(t, ps[1..], below || ps[0].sep == '/');
      NonZeroProduct(if below then PartCoef(t, ps[0]) else 1.0, Below(t, ps[1..], below || ps[0].sep == '/'));
    }
  }

  lemma PartsFirst(t: Old.Table, ps: seq<Part>, below: bool)
    requires ps != []
    ensures var c, d := PartCoef(t, ps[0]), below || ps[0].sep == '/';
            Above(t, ps, below) == (if below then 1.0 else c) * Above(t, ps[1..], d)
            && Below(t, ps, below) == (if below then c else 1.0) * Below(t, ps[1..], d)
            && (PartsSound(t, ps, below) <==> (below ==> c != 0.0) && PartsSound(t, ps[1..], d))
  {
    hide PartCoef;
  }

  lemma NextCoef(t: Old.Table, ps: seq<Part>, below: bool, q: Quantity)
    requires ps != [] && PartsSound(t, ps, below)
    ensures Mul(q, PartsWorth(t, ps, below)).coef
         == Mul(PartGiven(t, ps[0], below, q), PartsWorth(t, ps[1..], below || ps[0].sep == '/')).coef
  {
    hide PartCoef, Above, Below, PartsSound, OldDims, Quotient;
    var c, d := PartCoef(t, ps[0]), below || ps[0].sep == '/';
    var x, y := Above(t, ps[1..], d), Below(t, ps[1..], d);
    PartsFirst(t, ps, below);
    BelowSound(t, ps[1..], d);
    assert 1.0 * x == x && 1.0 * y == y;
    if below {
      assert Above(t, ps, below) == x && Below(t, ps, below) == c * y;
      QuotientOver(q.coef, c, x, y);
    } else {
      assert Above(t, ps, below) == c * x && Below(t, ps, below) == y;
      QuotientBy(q.coef, c, x, y);
    }
  }

  lemma QuotientBy(v: real, u: real, p: real, q: real)
    requires q != 0.0
    ensures v * Quotient(u * p, q) == (v * u) * Quotient(p, q)
  {
    ByCoef(v, u, p, q);
  }

  lemma QuotientOver(v: real, u: real, p: real, q: real)
    requires u != 0.0 && q != 0.0
    ensures v * Quotient(p, u * q) == Quotient(v, u) * Quotient(p, q)
  {
    OverCoef(v, u, p, q);
  }

  /** Zero counts as one. */
  function Started(x: real, w: Quantity): Quantity { Quantity((if x == 0.0 then 1.0 else x) * w.coef, w.dims) }

  /** What convr() reads in a definition: its number, or one if that is zero or not
      there, times the names before a slash and over those after it, each to the power
      of the digit that ends it; names that mean nothing are counted.  Only a division
      by zero is refused. */
  lemma DefinitionRead(t: Old.Table, r: Ratio, ps: seq<Part>, unknown: nat)
    requires OldShaped(t) && RatioSpelt(r) && PartsWritten(ps)
    requires Follows(PartsText(ps), 0, Final(r)) && PartsText(ps)[0] != '|'
    ensures var s := RatioText(r) + PartsText(ps);
            if RatioSound(r) && PartsSound(t, ps, false) then
              var x, w := RatioAmount(r), PartsWorth(t, ps, false);
              Old.Convr(t, s, 0, unknown)
              == Ok((Old.Reading(Started(x, w), unknown + Missing(t, ps)), |s|))
            else Old.Convr(t, s, 0, unknown).Err?
  {
    hide Lies, Old.GetFlt, Old.Names, PartsWorth, PartsText, RatioText, PartsWritten, OldSpelt, RatioSound, PartsSound, RatioAmount, RatioSpelt, Final, Front, Started, Missing, Mul;
    var s := RatioText(r) + PartsText(ps);
    var j := |RatioText(r)|;
    assert Lies(s, 0, RatioText(r)) && Lies(s, j, PartsText(ps)) by { LiesParts(RatioText(r), PartsText(ps)); }
    assert s[j] == PartsText(ps)[0];
    RatioRead(s, 0, r);
    assert RatioResult(s, 0, r);
    if RatioSound(r) {
      var p := Old.Reading(Old.Start(RatioAmount(r)), unknown);
      PartsRead(t, s, j, ps, false, p);
      assert PartsResult(t, s, j, ps, false, p);
      StartTimes(t, ps, RatioAmount(r));
    }
  }

  lemma StartTimes(t: Old.Table, ps: seq<Part>, x: real)
    ensures var w := PartsWorth(t, ps, false); Mul(Old.Start(x), w) == Started(x, w)
  {
    hide Above, Below, PartsDim;
    var w := PartsWorth(t, ps, false);
    assert Mul(Old.Start(x), w).dims == w.dims;
    assert Mul(Old.Start(x), w).coef == Started(x, w).coef;
  }

  lemma LiesParts(a: string, b: string)
    ensures Lies(a + b, 0, a) && Lies(a + b, |a|, b)
  {
  }
}
