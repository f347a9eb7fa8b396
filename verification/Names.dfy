/** File names that a case-folding host can hold: the percent-escape of
    tools/v8-import.py and tools/v8extract.py, and what it keeps apart. */
module Names {

  type Name = string
  type Path = seq<Name>

  predicate IsUpper(c: char) { 'A' <= c <= 'Z' }

  function LowerChar(c: char): char {
    if IsUpper(c) then (c as int + 32) as char else c
  }

  /** str.lower() on ASCII, which is how the host compares names. */
  function Lower(n: Name): (l: Name)
    ensures |l| == |n|
    ensures forall i :: 0 <= i < |n| ==> l[i] == LowerChar(n[i])
  {
    if n == "" then "" else [LowerChar(n[0])] + Lower(n[1..])
  }

  predicate HasUpper(n: Name) { exists i :: 0 <= i < |n| && IsUpper(n[i]) }

  predicate Plain(n: Name) { '%' !in n }

  function HexDigit(d: nat): char
    requires d < 16
  {
    if d < 10 then (d + 48) as char else (d + 55) as char
  }

  function EscapeChar(c: char): string {
    if IsUpper(c) then ['%', HexDigit(c as int / 16), HexDigit(c as int % 16)] else [c]
  }

  /** Mail -> %4Dail, C -> %43. */
  function Escape(n: Name): Name {
    if n == "" then "" else EscapeChar(n[0]) + Escape(n[1..])
  }

  lemma {:induction false} EscapeKeepsLower(n: Name)
    requires !HasUpper(n)
    ensures Escape(n) == n
  {
    if n != "" {
      assert !IsUpper(n[0]);
      assert forall i :: 0 <= i < |n| - 1 ==> n[1..][i] == n[i + 1];
      EscapeKeepsLower(n[1..]);
      assert [n[0]] + n[1..] == n;
    }
  }

  lemma {:induction false} EscapeMarks(n: Name)
    requires HasUpper(n)
    ensures '%' in Escape(n) && '%' in Lower(Escape(n))
  {
    if IsUpper(n[0]) {
      assert Escape(n)[0] == '%' && Lower(Escape(n))[0] == '%';
    } else {
      var i :| 0 <= i < |n| && IsUpper(n[i]);
      assert n[1..][i - 1] == n[i];
      EscapeMarks(n[1..]);
      var k :| 0 <= k < |Escape(n[1..])| && Escape(n[1..])[k] == '%';
      assert Escape(n)[k + 1] == '%' && Lower(Escape(n))[k + 1] == '%';
    }
  }

  /** Escaping adds no slash, so an escaped name is still one name. */
  lemma {:induction false} EscapeOneComponent(n: Name)
    requires '/' !in n
    ensures '/' !in Escape(n) && (n != "" ==> Escape(n) != "")
  {
    if n != "" {
      assert n[0] in n && forall c :: c in n[1..] ==> c in n;
      EscapeOneComponent(n[1..]);
    }
  }

  lemma PlainLower(n: Name)
    requires Plain(n)
    ensures '%' !in Lower(n)
  {
    forall i | 0 <= i < |n|
      ensures Lower(n)[i] != '%'
    {
      assert n[i] in n;
    }
  }

  // ---- the escape can be undone, even after folding ----

  function HexValue(c: char): int {
    if '0' <= c <= '9' then c as int - 48 else if 'a' <= c <= 'f' then c as int - 87 else 0
  }

  /** Reading a folded escape back: %4dail -> Mail. */
  function Unfold(l: Name): Name {
    if l == "" then ""
    else if l[0] == '%' && |l| >= 3 then
      var v := HexValue(l[1]) * 16 + HexValue(l[2]);
      [if 0 <= v < 128 then v as char else '?'] + Unfold(l[3..])
    else [l[0]] + Unfold(l[1..])
  }

  lemma EscapeCharUnfolds(c: char, rest: Name)
    requires c != '%'
    ensures Unfold(Lower(EscapeChar(c) + rest)) == [c] + Unfold(Lower(rest))
  {
    var e := EscapeChar(c);
    LowerConcat(e, rest);
    if IsUpper(c) {
      var l := Lower(e);
      assert HexValue(l[1]) == c as int / 16 && HexValue(l[2]) == c as int % 16;
      assert (l + Lower(rest))[3..] == Lower(rest);
    } else {
      assert Lower(e) == [c];
      assert ([c] + Lower(rest))[1..] == Lower(rest);
    }
  }

  lemma LowerConcat(a: Name, b: Name)
    ensures Lower(a + b) == Lower(a) + Lower(b)
  {
  }

  lemma {:induction false} UnfoldEscape(n: Name)
    requires Plain(n)
    ensures Unfold(Lower(Escape(n))) == n
  {
    if n != "" {
      assert n[0] in n && forall c :: c in n[1..] ==> c in n;
      UnfoldEscape(n[1..]);
      EscapeCharUnfolds(n[0], Escape(n[1..]));
    }
  }

  /** Escapes of different names stay different under case folding. */
  lemma EscapeApart(a: Name, b: Name)
    requires Plain(a) && Plain(b) && a != b
    ensures Lower(Escape(a)) != Lower(Escape(b))
  {
    UnfoldEscape(a);
    UnfoldEscape(b);
  }

  // ---- exactly which escapes clash ----

  /** The two characters that stand for a capital. */
  function Code(c: char): string
    requires IsUpper(c)
  {
    [HexDigit(c as int / 16), HexDigit(c as int % 16)]
  }

  /** At i a percent sign and, as the host folds it, the code of a capital. */
  predicate CodedAt(n: Name, i: nat, c: char) {
    i + 2 < |n| && n[i] == '%' && IsUpper(c) && Lower(n[i + 1..i + 3]) == Lower(Code(c))
  }

  ghost predicate Coded(n: Name) { exists i: nat, c: char :: CodedAt(n, i, c) }

  lemma {:induction false} EscapeConcat(a: Name, b: Name)
    ensures Escape(a + b) == Escape(a) + Escape(b)
  {
    if a == "" {
      assert a + b == b;
    } else {
      assert (a + b)[1..] == a[1..] + b;
      EscapeConcat(a[1..], b);
      assert EscapeChar(a[0]) + (Escape(a[1..]) + Escape(b)) == (EscapeChar(a[0]) + Escape(a[1..])) + Escape(b);
    }
  }

  lemma {:induction false} LowerOfLower(n: Name)
    requires !HasUpper(n)
    ensures Lower(n) == n
  {
    assert forall i :: 0 <= i < |n| ==> Lower(n)[i] == LowerChar(n[i]) == n[i];
  }

  lemma Folded(n: Name)
    ensures !HasUpper(Lower(n))
  {
    assert forall i :: 0 <= i < |n| ==> Lower(n)[i] == LowerChar(n[i]);
  }

  lemma EscapeAround(a: Name, c: char, b: Name)
    requires IsUpper(c)
    ensures Escape(a + ([c] + b)) == Escape(a) + (['%'] + Code(c) + Escape(b))
  {
    hide IsUpper, HexDigit;
    EscapeConcat(a, [c] + b);
    assert ([c] + b)[1..] == b && ([c] + b)[0] == c;
  }

  lemma LowerAround(a: Name, code: Name, b: Name)
    ensures Lower(a + (['%'] + code + b)) == Lower(a) + (['%'] + Lower(code) + Lower(b))
  {
    LowerConcat(a, ['%'] + code + b);
    LowerConcat(['%'] + code, b);
    LowerConcat(['%'], code);
    assert Lower(['%']) == ['%'] by { assert LowerChar('%') == '%'; }
  }

  lemma AroundAt(a: Name, code: Name, b: Name)
    requires |code| == 2
    ensures var l := a + (['%'] + code + b);
            |a| + 2 < |l| && l[|a|] == '%' && l[|a| + 1..|a| + 3] == code
  {
  }

  /** The code of every capital of a name is there once it is escaped and folded. */
  lemma CapitalCoded(n: Name, k: nat)
    requires k < |n| && IsUpper(n[k])
    ensures Coded(Lower(Escape(n)))
  {
    hide Lower, Escape, IsUpper, Code;
    var a, c, b := n[..k], n[k], n[k + 1..];
    assert n == a + ([c] + b);
    var code := Lower(Code(c));
    CodeLength(c);
    EscapeAround(a, c, b);
    LowerAround(Escape(a), Code(c), Escape(b));
    AroundAt(Lower(Escape(a)), code, Lower(Escape(b)));
    Folded(Code(c));
    LowerOfLower(code);
    assert CodedAt(Lower(Escape(n)), |Lower(Escape(a))|, c);
  }

  lemma CodeLength(c: char)
    requires IsUpper(c)
    ensures |Code(c)| == 2
  {
  }

  lemma PartLower(n: Name, i: nat, j: nat)
    requires !HasUpper(n) && i <= j <= |n|
    ensures !HasUpper(n[i..j])
  {
    assert forall k :: 0 <= k < j - i ==> n[i..j][k] == n[i + k];
  }

  /** The name with the capital in place of its code. */
  lemma CodeClashes(n: Name, i: nat, c: char) returns (m: Name)
    requires !HasUpper(n) && CodedAt(n, i, c)
    ensures m != n && Lower(Escape(m)) == Lower(Escape(n))
  {
    hide Lower, Escape, HasUpper, Code;
    var a, code, b := n[..i], n[i + 1..i + 3], n[i + 3..];
    m := a + ([c] + b);
    assert |m| == |n| - 2;
    assert n[0..i] == a && n[i + 3..|n|] == b;
    PartLower(n, 0, i);
    PartLower(n, i + 1, i + 3);
    PartLower(n, i + 3, |n|);
    EscapeKeepsLower(a);
    EscapeKeepsLower(b);
    EscapeKeepsLower(n);
    LowerOfLower(a);
    LowerOfLower(b);
    LowerOfLower(n);
    LowerOfLower(code);
    EscapeAround(a, c, b);
    LowerAround(a, Code(c), b);
    assert n == a + (['%'] + code + b);
  }

  /** A name shares its folded escape with some other name if and only if it has a
      capital, or a percent sign before the code of one. */
  lemma EscapeClashesExactly(n: Name)
    ensures (exists m :: m != n && Lower(Escape(m)) == Lower(Escape(n))) <==> HasUpper(n) || Coded(n)
  {
    if HasUpper(n) {
      var m := Lower(Escape(n));
      Folded(Escape(n));
      EscapeKeepsLower(m);
      LowerOfLower(m);
      assert m != n && Lower(Escape(m)) == Lower(Escape(n));
    } else if Coded(n) {
      var i: nat, c: char :| CodedAt(n, i, c);
      var m := CodeClashes(n, i, c);
    } else {
      EscapeKeepsLower(n);
      LowerOfLower(n);
      forall m | m != n
        ensures Lower(Escape(m)) != Lower(Escape(n))
      {
        if HasUpper(m) {
          var k :| 0 <= k < |m| && IsUpper(m[k]);
          CapitalCoded(m, k);
        } else {
          EscapeKeepsLower(m);
          LowerOfLower(m);
        }
      }
    }
  }

  /** So with a percent sign it can happen: %43 is what C is escaped to. */
  lemma PercentCollides()
    ensures "%43" != "C" && Escape("%43") == Escape("C") && Coded("%43")
  {
    assert "%43"[1..3] == "43" && Code('C') == "43";
    assert CodedAt("%43", 0, 'C');
    assert EscapeChar('C') == "%43" && Escape("C") == EscapeChar('C') + Escape("");
    EscapeKeepsLower("%43");
  }

  // ---- paths ----

  function Parent(p: Path): Path requires p != [] { p[..|p| - 1] }
  function Leaf(p: Path): Name requires p != [] { p[|p| - 1] }

  predicate Above(p: Path, q: Path) { p <= q }

  function FoldPath(p: Path): (f: Path)
    ensures |f| == |p| && forall i :: 0 <= i < |p| ==> f[i] == Lower(p[i])
  {
    if p == [] then [] else FoldPath(Parent(p)) + [Lower(Leaf(p))]
  }

  /** The stored spelling of each renamed path's last component. */
  type Renaming = map<Path, Name>

  function StoredLeaf(ren: Renaming, p: Path): Name
    requires p != []
  {
    if p in ren then ren[p] else Leaf(p)
  }

  /** A path's stored spelling, component by component from the top. */
  function Stored(ren: Renaming, p: Path): (s: Path)
    ensures |s| == |p|
  {
    if p == [] then [] else Stored(ren, Parent(p)) + [StoredLeaf(ren, p)]
  }

  lemma {:induction false} StoredAt(ren: Renaming, p: Path, i: nat)
    requires i < |p|
    ensures Stored(ren, p)[i] == StoredLeaf(ren, p[..i + 1])
    ensures Stored(ren, p)[..i] == Stored(ren, p[..i])
    decreases |p|
  {
    if i == |p| - 1 {
      assert p[..i + 1] == p && Stored(ren, p)[..i] == Stored(ren, Parent(p));
    } else {
      StoredAt(ren, Parent(p), i);
      assert Parent(p)[..i + 1] == p[..i + 1] && Parent(p)[..i] == p[..i];
      assert Stored(ren, p)[..i] == Stored(ren, Parent(p))[..i];
    }
  }
}
