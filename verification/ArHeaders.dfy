/** A header of ar(1) as it is written: a name, a date, two owners, a mode and a size, each
    set in blanks, and two bytes that end it. */
module ArHeaders {

  import opened Basics
  import opened Archive

  predicate White(c: char) { c == ' ' || 9 <= c as int <= 13 }

  predicate AllWhite(s: string) { forall i :: 0 <= i < |s| ==> White(s[i]) }

  /** No blank at either end. */
  predicate Bare(w: string) { w != "" ==> !White(w[0]) && !White(w[|w| - 1]) }

  ghost predicate Framed(s: string, w: string) { exists a, b :: AllWhite(a) && AllWhite(b) && s == a + w + b }

  lemma {:induction false} LeftOff(a: string, w: string)
    requires AllWhite(a) && (w != "" ==> !White(w[0]))
    ensures StripLeft(a + w) == w
    decreases |a|
  {
    if a == "" {
      assert a + w == w;
    } else {
      assert (a + w)[1..] == a[1..] + w;
      LeftOff(a[1..], w);
    }
  }

  lemma {:induction false} RightOff(w: string, b: string)
    requires AllWhite(b) && (w != "" ==> !White(w[|w| - 1]))
    ensures StripRight(w + b) == w
    decreases |b|
  {
    if b == "" {
      assert w + b == w;
    } else {
      assert (w + b)[..|w + b| - 1] == w + b[..|b| - 1];
      RightOff(w, b[..|b| - 1]);
    }
  }

  lemma {:induction false} LeftLeaves(s: string) returns (a: string)
    ensures AllWhite(a) && s == a + StripLeft(s) && (StripLeft(s) != "" ==> !White(StripLeft(s)[0]))
    decreases |s|
  {
    a := "";
    if s != "" && White(s[0]) {
      var c := LeftLeaves(s[1..]);
      a := [s[0]] + c;
    }
  }

  lemma {:induction false} RightLeaves(s: string) returns (b: string)
    ensures AllWhite(b) && s == StripRight(s) + b && (StripRight(s) != "" ==> !White(StripRight(s)[|StripRight(s)| - 1]))
    decreases |s|
  {
    b := "";
    if s != "" && White(s[|s| - 1]) {
      var c := RightLeaves(s[..|s| - 1]);
      b := c + [s[|s| - 1]];
    }
  }

  lemma AllBlank(a: string, b: string)
    requires AllWhite(a) && AllWhite(b)
    ensures Strip(a + b) == ""
  {
    assert AllWhite(a + b) && (a + b) + "" == a + b;
    LeftOff(a + b, "");
  }

  /** strip(): what is left has no blank at either end, and blanks are all that is gone. */
  lemma StripExactly(s: string, w: string)
    ensures Strip(s) == w <==> Bare(w) && Framed(s, w)
  {
    hide StripLeft, StripRight;
    if Bare(w) && Framed(s, w) {
      var a, b :| AllWhite(a) && AllWhite(b) && s == a + w + b;
      if w == "" {
        assert a + w + b == a + b;
        AllBlank(a, b);
      } else {
        assert a + w + b == a + (w + b);
        LeftOff(a, w + b);
        RightOff(w, b);
      }
    }
    var a := LeftLeaves(s);
    var b := RightLeaves(StripLeft(s));
    assert s == a + Strip(s) + b;
    FirstKept(s, b);
  }

  lemma FirstKept(s: string, b: string)
    requires AllWhite(b) && StripLeft(s) == Strip(s) + b && (StripLeft(s) != "" ==> !White(StripLeft(s)[0]))
    requires Strip(s) != "" ==> !White(Strip(s)[|Strip(s)| - 1])
    ensures Bare(Strip(s))
  {
    hide StripLeft, StripRight;
    if Strip(s) != "" { assert StripLeft(s)[0] == Strip(s)[0]; }
  }

  // ---- the fields ----

  /** A letter, a digit or one of _ . - + and the slash, in ASCII. */
  predicate Nameable(c: char) {
    var n := c as int;
    65 <= n <= 90 || 97 <= n <= 122 || 48 <= n <= 57 || n == 95 || n == 46 || n == 45 || n == 43 || n == 47
  }

  predicate AllNameable(s: string) { forall i :: 0 <= i < |s| ==> Nameable(s[i]) }

  predicate Decimal(s: string) { s != "" && forall i :: 0 <= i < |s| ==> '0' <= s[i] <= '9' }

  function Tens(n: nat): nat { if n == 0 then 1 else 10 * Tens(n - 1) }

  /** Each digit by its place. */
  function Places(s: string): nat
    requires forall i :: 0 <= i < |s| ==> '0' <= s[i] <= '9'
  {
    if s == "" then 0 else (s[0] as int - 48) * Tens(|s| - 1) + Places(s[1..])
  }

  /** Bytes 0 to 16 are the name, 40 to 48 the mode, 48 to 58 the size. */
  ghost predicate Heads(h: string, name: string, mode: string, size: string)
    requires |h| == HDR
  {
    Bare(name) && Framed(h[0..16], name) && name != "" && AllNameable(name)
    && Bare(mode) && Framed(h[40..48], mode) && Decimal(mode)
    && Bare(size) && Framed(h[48..58], size) && Decimal(size)
    && h[58..] == "`\n"
  }

  lemma {:induction false} PlacesMore(s: string, c: char)
    requires (forall i :: 0 <= i < |s| ==> '0' <= s[i] <= '9') && '0' <= c <= '9'
    ensures Places(s + [c]) == 10 * Places(s) + (c as int - 48)
    decreases |s|
  {
    var t := s + [c];
    if s == "" {
      assert t == [c] && t[1..] == "";
      assert Places(t) == (c as int - 48) * Tens(0) + Places(t[1..]);
    } else {
      assert t[1..] == s[1..] + [c];
      PlacesMore(s[1..], c);
      TenTimes(s[0] as int - 48, Tens(|s| - 1));
      assert Places(t) == (s[0] as int - 48) * Tens(|s|) + Places(t[1..]);
    }
  }

  lemma TenTimes(d: int, t: int)
    ensures d * (10 * t) == 10 * (d * t)
  {
  }

  lemma {:induction false} ValueIs(s: string)
    requires forall i :: 0 <= i < |s| ==> '0' <= s[i] <= '9'
    ensures Value(s) == Places(s)
    decreases |s|
  {
    if s != "" {
      var most, c := s[..|s| - 1], s[|s| - 1];
      ValueIs(most);
      PlacesMore(most, c);
      assert most + [c] == s;
    }
  }

  lemma FieldsSame(s: string)
    ensures Decimal(s) <==> Digits(s)
    ensures AllNameable(s) <==> forall c :: c in s ==> NameChar(c)
  {
    if Digits(s) { forall i | 0 <= i < |s| ensures '0' <= s[i] <= '9' { assert s[i] in s; } }
    if forall c :: c in s ==> NameChar(c) { forall i | 0 <= i < |s| ensures Nameable(s[i]) { assert s[i] in s; } }
  }

  /** The four tests of headers() pass if and only if the bytes are so laid out; the name
      and the size are then those that are written. */
  lemma PassesExactly(h: string)
    requires |h| == HDR
    ensures Passes(h) <==> exists name, mode, size :: Heads(h, name, mode, size)
  {
    hide Strip, Digits, NameChar, Bare, Framed, Decimal, AllNameable;
    if Passes(h) {
      var name, mode, size := Strip(h[0..16]), Strip(h[40..48]), Strip(h[48..58]);
      StripExactly(h[0..16], name);
      StripExactly(h[40..48], mode);
      StripExactly(h[48..58], size);
      FieldsSame(name);
      FieldsSame(mode);
      FieldsSame(size);
      assert Heads(h, name, mode, size);
    }
    if name, mode, size :| Heads(h, name, mode, size) {
      HeadsRead(h, name, mode, size);
    }
  }

  lemma HeadsRead(h: string, name: string, mode: string, size: string)
    requires |h| == HDR && Heads(h, name, mode, size)
    ensures Passes(h) && Name(h) == name && Size(h) == Some(Places(size))
  {
    hide Strip, Digits, NameChar, Bare, Framed, AllNameable, Value, Places;
    StripExactly(h[0..16], name);
    StripExactly(h[40..48], mode);
    StripExactly(h[48..58], size);
    FieldsSame(name);
    FieldsSame(mode);
    FieldsSame(size);
    ValueIs(size);
    assert h[58] == h[58..][0] && h[59] == h[58..][1];
  }
}
