/** What Python reads in a size field and takes of a slice, as tools/v8-import.py uses
    them: which texts are a number and which, and which bytes a slice has. */
module ArNumbers {

  import opened Basics
  import opened Archive
  import opened ArWalk
  import ArHeaders

  // ---- str.strip() ----

  predicate Gap(c: char) { c == ' ' || 9 <= c as int <= 13 || 28 <= c as int <= 31 }

  predicate AllGap(s: string) { forall i :: 0 <= i < |s| ==> Gap(s[i]) }

  predicate Bare(w: string) { w != "" ==> !Gap(w[0]) && !Gap(w[|w| - 1]) }

  ghost predicate Framed(s: string, w: string) { exists a, b :: AllGap(a) && AllGap(b) && s == a + w + b }

  lemma {:induction false} LeftOff(a: string, w: string)
    requires AllGap(a) && (w != "" ==> !Gap(w[0]))
    ensures TrimLeft(a + w) == w
    decreases |a|
  {
    if a == "" {
      assert a + w == w;
    } else {
      assert (a + w)[1..] == a[1..] + w;
      LeftOff(a[1..], w);
    }
  }

  lemma {:induction false} RightOff(w: string, b: string)
    requires AllGap(b) && (w != "" ==> !Gap(w[|w| - 1]))
    ensures TrimRight(w + b) == w
    decreases |b|
  {
    if b == "" {
      assert w + b == w;
    } else {
      assert (w + b)[..|w + b| - 1] == w + b[..|b| - 1];
      RightOff(w, b[..|b| - 1]);
    }
  }

  lemma {:induction false} LeftLeaves(s: string) returns (a: string)
    ensures AllGap(a) && s == a + TrimLeft(s) && (TrimLeft(s) != "" ==> !Gap(TrimLeft(s)[0]))
    decreases |s|
  {
    a := "";
    if s != "" && Gap(s[0]) {
      var c := LeftLeaves(s[1..]);
      a := [s[0]] + c;
    }
  }

  lemma {:induction false} RightLeaves(s: string) returns (b: string)
    ensures AllGap(b) && s == TrimRight(s) + b && (TrimRight(s) != "" ==> !Gap(TrimRight(s)[|TrimRight(s)| - 1]))
    decreases |s|
  {
    b := "";
    if s != "" && Gap(s[|s| - 1]) {
      var c := RightLeaves(s[..|s| - 1]);
      b := c + [s[|s| - 1]];
    }
  }

  lemma FirstKept(s: string, b: string)
    requires TrimLeft(s) == Trim(s) + b && (TrimLeft(s) != "" ==> !Gap(TrimLeft(s)[0]))
    requires Trim(s) != "" ==> !Gap(Trim(s)[|Trim(s)| - 1])
    ensures Bare(Trim(s))
  {
    hide TrimLeft, TrimRight;
    if Trim(s) != "" { assert TrimLeft(s)[0] == Trim(s)[0]; }
  }

  lemma TrimExactly(s: string, w: string)
    requires w != ""
    ensures Trim(s) == w <==> Bare(w) && Framed(s, w)
  {
    hide TrimLeft, TrimRight;
    if Bare(w) && Framed(s, w) {
      var a, b :| AllGap(a) && AllGap(b) && s == a + w + b;
      assert a + w + b == a + (w + b);
      LeftOff(a, w + b);
      RightOff(w, b);
    }
    var a := LeftLeaves(s);
    var b := RightLeaves(TrimLeft(s));
    assert s == a + Trim(s) + b;
    FirstKept(s, b);
  }

  // ---- int() ----

  predicate AllDigits(s: string) { forall i :: 0 <= i < |s| ==> '0' <= s[i] <= '9' }

  /** Groups of digits, and none of them empty. */
  predicate Grouped(gs: seq<string>) { gs != [] && forall i :: 0 <= i < |gs| ==> gs[i] != "" && AllDigits(gs[i]) }

  /** With one underscore between each two. */
  function Spelled(gs: seq<string>): string
    requires gs != []
  {
    if |gs| == 1 then gs[0] else gs[0] + ("_" + Spelled(gs[1..]))
  }

  function Together(gs: seq<string>): string { if gs == [] then "" else gs[0] + Together(gs[1..]) }

  lemma {:induction false} TogetherDigits(gs: seq<string>)
    requires Grouped(gs)
    ensures AllDigits(Together(gs))
    decreases |gs|
  {
    if |gs| > 1 { TogetherDigits(gs[1..]); } else { assert gs[1..] == [] && gs[0] + "" == gs[0]; }
  }

  lemma UnderscoredMore(g: string, t: string)
    requires g != "" && AllDigits(g) && Underscored(t)
    ensures Underscored(g + ("_" + t))
  {
    var s := g + ("_" + t);
    forall i | 0 <= i < |s|
      ensures Digit(s[i]) || s[i] == '_'
    {
      if i > |g| { assert s[i] == t[i - |g| - 1]; }
    }
    forall i | 0 <= i < |s| - 1
      ensures s[i] != '_' || s[i + 1] != '_'
    {
      if i > |g| { assert s[i] == t[i - |g| - 1] && s[i + 1] == t[i - |g|]; }
    }
    assert s[|s| - 1] == t[|t| - 1];
  }

  lemma {:induction false} SpelledIs(gs: seq<string>)
    requires Grouped(gs)
    ensures Underscored(Spelled(gs))
    decreases |gs|
  {
    hide Underscored;
    if |gs| == 1 {
      DigitsUnderscored(gs[0]);
    } else {
      SpelledIs(gs[1..]);
      UnderscoredMore(gs[0], Spelled(gs[1..]));
    }
  }

  lemma DigitsUnderscored(g: string)
    requires g != "" && AllDigits(g)
    ensures Underscored(g)
  {
  }

  lemma {:induction false} FirstGroup(s: string) returns (k: nat)
    ensures k <= |s| && (forall i :: 0 <= i < k ==> s[i] != '_') && (k < |s| ==> s[k] == '_')
  {
    k := 0;
    if s != "" && s[0] != '_' {
      var j := FirstGroup(s[1..]);
      k := j + 1;
      assert forall i :: 1 <= i < k ==> s[i] == s[1..][i - 1];
    }
  }

  lemma RestUnderscored(s: string, k: nat)
    requires Underscored(s) && k < |s| && s[k] == '_'
    ensures 0 < k && k + 1 < |s| && Underscored(s[k + 1..])
  {
    var t := s[k + 1..];
    assert s[k + 1] != '_';
    assert forall i :: 0 <= i < |t| ==> t[i] == s[k + 1 + i];
  }

  lemma {:induction false} IsSpelled(s: string) returns (gs: seq<string>)
    requires Underscored(s)
    ensures Grouped(gs) && Spelled(gs) == s
    decreases |s|
  {
    var k := FirstGroup(s);
    if k == |s| {
      gs := [s];
    } else {
      RestUnderscored(s, k);
      var rest := IsSpelled(s[k + 1..]);
      gs := [s[..k]] + rest;
      assert gs[1..] == rest && s == s[..k] + ("_" + s[k + 1..]);
    }
  }

  lemma {:induction false} PlainBoth(a: string, b: string)
    ensures Plain(a + b) == Plain(a) + Plain(b)
    decreases |b|
  {
    if b == "" {
      assert a + b == a;
    } else {
      assert (a + b)[..|a + b| - 1] == a + b[..|b| - 1];
      PlainBoth(a, b[..|b| - 1]);
    }
  }

  lemma {:induction false} PlainSpelled(gs: seq<string>)
    requires Grouped(gs)
    ensures Plain(Spelled(gs)) == Together(gs)
    decreases |gs|
  {
    hide Plain;
    PlainDigits(gs[0]);
    if |gs| == 1 {
      assert gs[1..] == [] && gs[0] + "" == gs[0];
    } else {
      PlainSpelled(gs[1..]);
      PlainBoth(gs[0], "_" + Spelled(gs[1..]));
      PlainBoth("_", Spelled(gs[1..]));
      PlainBar();
      assert "" + Together(gs[1..]) == Together(gs[1..]);
    }
  }

  lemma PlainBar()
    ensures Plain("_") == ""
  {
    assert "_"[..0] == "";
  }

  /** A sign or none, and digits that single underscores may part. */
  predicate Spells(t: string, sign: string, gs: seq<string>) {
    (sign == "" || sign == "+" || sign == "-") && Grouped(gs) && t == sign + Spelled(gs)
  }

  function Amount(sign: string, gs: seq<string>): int
    requires Grouped(gs)
  {
    TogetherDigits(gs);
    if sign == "-" then 0 - ArHeaders.Places(Together(gs)) else ArHeaders.Places(Together(gs))
  }

  lemma SpelledFirst(gs: seq<string>)
    requires Grouped(gs)
    ensures Spelled(gs) != "" && '0' <= Spelled(gs)[0] <= '9' && '0' <= Spelled(gs)[|Spelled(gs)| - 1] <= '9'
  {
    hide Plain;
    SpelledIs(gs);
  }

  lemma SpelledSigned(t: string, sign: string, gs: seq<string>)
    requires Spells(t, sign, gs)
    ensures Signed(t) == Some(Amount(sign, gs))
  {
    hide Plain, Value, Spelled, Together, Underscored;
    var s := Spelled(gs);
    SpelledFirst(gs);
    SpelledIs(gs);
    PlainSpelled(gs);
    TogetherDigits(gs);
    ArHeaders.ValueIs(Together(gs));
    if sign == "" { assert t == s; } else { assert t[0] == sign[0] && t[1..] == s; }
  }

  lemma SignedSpelled(t: string) returns (sign: string, gs: seq<string>)
    requires Signed(t).Some?
    ensures Spells(t, sign, gs)
  {
    hide Plain, Value, Underscored, Spelled, Grouped;
    var signed := t != "" && (t[0] == '-' || t[0] == '+');
    gs := IsSpelled(if signed then t[1..] else t);
    sign := if signed then t[..1] else "";
    if signed { assert t[..1] == [t[0]] && t == t[..1] + t[1..]; } else { assert "" + t == t; }
  }

  /** The size field of a header, for all ten bytes that can be there: what int() takes,
      and which number that is. */
  lemma SizeExactly(h: string, n: int)
    requires |h| == HDR
    ensures SizeField(h) == Some(n)
       <==> exists t, sign, gs :: Framed(h[48..58], t) && Spells(t, sign, gs) && n == Amount(sign, gs)
  {
    hide Signed, Trim, Framed, Spelled, Grouped, Amount;
    var field := h[48..58];
    if SizeField(h) == Some(n) {
      var t := Trim(field);
      var sign, gs := SignedSpelled(t);
      SpelledSigned(t, sign, gs);
      SpellsBare(t, sign, gs);
      TrimExactly(field, t);
      assert Framed(field, t) && Spells(t, sign, gs) && n == Amount(sign, gs);
    }
    if t, sign, gs :| Framed(field, t) && Spells(t, sign, gs) && n == Amount(sign, gs) {
      SpellsBare(t, sign, gs);
      TrimExactly(field, t);
      SpelledSigned(t, sign, gs);
    }
  }

  lemma SpellsBare(t: string, sign: string, gs: seq<string>)
    requires Spells(t, sign, gs)
    ensures t != "" && Bare(t)
  {
    hide Spelled;
    SpelledFirst(gs);
    assert t[|t| - 1] == Spelled(gs)[|Spelled(gs)| - 1];
  }

  // ---- slices and names ----

  /** An index below zero counts from the end. */
  function From(i: int, n: nat): int { if i < 0 then i + n else i }

  predicate Within(data: string, i: int, j: int, k: nat) { From(i, |data|) <= k < From(j, |data|) }

  /** data[i:j]: the bytes from one index up to the other, so far as there are any. */
  lemma SliceIs(data: string, i: int, j: int) returns (lo: nat, hi: nat)
    ensures lo <= hi <= |data| && Slice(data, i, j) == data[lo..hi]
    ensures forall k: nat :: k < |data| ==> (lo <= k < hi <==> Within(data, i, j, k))
  {
    lo, hi := Bound(i, |data|), Bound(j, |data|);
    if lo > hi { hi := lo; }
  }

  /** rstrip('/') */
  lemma {:induction false} SlashesOff(s: string)
    ensures var w := StripSlashes(s);
            w <= s && (w != "" ==> w[|w| - 1] != '/') && forall k :: |w| <= k < |s| ==> s[k] == '/'
    decreases |s|
  {
    if s != "" && s[|s| - 1] == '/' { SlashesOff(s[..|s| - 1]); }
  }
}
