/** ar_members() of tools/v8-import.py, which believes the size fields: where the
    walk over them ends, where it never does, and what it recovers. */
module ArWalk {
  import opened Basics
  import opened Archive

  // ---- int() and str.strip() ----

  /** str.strip() takes four more characters than bytes.strip(). */
  predicate Blank(c: char) { Space(c) || 28 <= c as int <= 31 }

  function TrimLeft(s: string): string {
    if s != "" && Blank(s[0]) then TrimLeft(s[1..]) else s
  }

  function TrimRight(s: string): string {
    if s != "" && Blank(s[|s| - 1]) then TrimRight(s[..|s| - 1]) else s
  }

  function Trim(s: string): string { TrimRight(TrimLeft(s)) }

  predicate Digit(c: char) { '0' <= c <= '9' }

  /** Digits, with single underscores between them. */
  predicate Underscored(s: string) {
    s != "" && Digit(s[0]) && Digit(s[|s| - 1])
    && (forall i :: 0 <= i < |s| ==> Digit(s[i]) || s[i] == '_')
    && forall i :: 0 <= i < |s| - 1 ==> s[i] != '_' || s[i + 1] != '_'
  }

  function Plain(s: string): string
    decreases |s|
  {
    if s == "" then "" else Plain(s[..|s| - 1]) + if s[|s| - 1] == '_' then "" else [s[|s| - 1]]
  }

  /** int() of a trimmed text, or ValueError. */
  function Signed(s: string): Option<int> {
    var minus := s != "" && s[0] == '-';
    var digits := if s != "" && (s[0] == '-' || s[0] == '+') then s[1..] else s;
    if !Underscored(digits) then None else Some(if minus then -(Value(Plain(digits)) as int) else Value(Plain(digits)))
  }

  function SizeField(h: string): Option<int>
    requires |h| == HDR
  {
    Signed(Trim(h[48..58]))
  }

  // ---- the walk ----

  /** A slice's bound: a negative one counts from the end. */
  function Bound(i: int, n: nat): (b: nat)
    ensures b <= n
  {
    if i >= 0 then (if i < n then i else n) else if i + n >= 0 then i + n else 0
  }

  function Slice(data: string, i: int, j: int): string {
    var a, b := Bound(i, |data|), Bound(j, |data|);
    if a <= b then data[a..b] else ""
  }

  function StripSlashes(s: string): string {
    if s != "" && s[|s| - 1] == '/' then StripSlashes(s[..|s| - 1]) else s
  }

  function Kept(name: string, body: string): seq<Found> { if name != "" then [Found(name, body)] else [] }

  /** One turn of the loop: past the end, no header, or a member and the next
      offset. */
  datatype Turn = Ended | Refused | Onward(kept: seq<Found>, next: int)

  function Look(data: string, off: int): Turn {
    if off + HDR > |data| then Ended
    else
      var h := Slice(data, off, off + HDR);
      if |h| < HDR || !Trailed(h) then Refused
      else
        match SizeField(h)
        case None => Refused
        case Some(size) =>
          Onward(Kept(StripSlashes(Trim(h[0..16])), Slice(data, off + HDR, off + HDR + size)), off + HDR + size + size % 2)
  }

  /** The offset after n members, if the walk has come that far. */
  function After(data: string, n: nat): Option<int> {
    if n == 0 then Some(|MAGIC|)
    else
      match After(data, n - 1)
      case None => None
      case Some(off) => if Look(data, off).Onward? then Some(Look(data, off).next) else None
  }

  /** What it has taken by then. */
  function Taken(data: string, n: nat): seq<Found>
    requires After(data, n).Some?
  {
    if n == 0 then [] else Taken(data, n - 1) + Look(data, After(data, n - 1).value).kept
  }

  /** The walk stops after n members. */
  predicate StopsAt(data: string, n: nat) { After(data, n).Some? && !Look(data, After(data, n).value).Onward? }

  ghost predicate Stops(data: string) { exists n: nat :: StopsAt(data, n) }

  /** What ar_members() returns then. */
  function Outcome(data: string, n: nat): Option<seq<Found>>
    requires StopsAt(data, n)
  {
    if Look(data, After(data, n).value).Ended? then Some(Taken(data, n)) else None
  }

  lemma {:induction false} EarlierToo(data: string, i: nat, n: nat)
    requires i <= n && After(data, n).Some?
    ensures After(data, i).Some? && (i < n ==> Look(data, After(data, i).value).Onward?)
    decreases n
  {
    hide Look;
    if i < n { EarlierToo(data, i, n - 1); }
  }

  lemma StopsOnce(data: string, i: nat, n: nat)
    requires StopsAt(data, i) && StopsAt(data, n)
    ensures i == n
  {
    hide Look;
    if i < n { EarlierToo(data, i, n); }
    if n < i { EarlierToo(data, n, i); }
  }

  lemma NothingTaken(data: string)
    ensures After(data, 0) == Some(|MAGIC|) && Taken(data, 0) == []
  {
  }

  lemma StopsHere(data: string, i: nat, n: nat, off: int)
    requires StopsAt(data, n) && i <= n && After(data, i) == Some(off) && !Look(data, off).Onward?
    ensures i == n && Outcome(data, n) == if Look(data, off).Ended? then Some(Taken(data, n)) else None
  {
    hide Look, Taken;
    StopsOnce(data, i, n);
  }

  lemma GoesOnward(data: string, i: nat, n: nat, off: int)
    requires StopsAt(data, n) && i <= n && After(data, i) == Some(off) && Look(data, off).Onward?
    ensures i < n && After(data, i + 1) == Some(Look(data, off).next) && Taken(data, i + 1) == Taken(data, i) + Look(data, off).kept
  {
    hide Look;
  }

  /** ar_members(), on every archive on which it returns at all. */
  method ArMembers(data: string) returns (out: Option<seq<Found>>)
    requires MAGIC <= data ==> Stops(data)
    ensures !(MAGIC <= data) ==> out == None
    ensures MAGIC <= data ==> exists n: nat :: StopsAt(data, n) && out == Outcome(data, n)
  {
    hide Look, Trim, StripSlashes, SizeField, Trailed, Taken, After, StopsAt, Outcome;
    if !(MAGIC <= data) {
      return None;
    }
    ghost var n: nat :| StopsAt(data, n);
    ghost var i: nat := 0;
    NothingTaken(data);
    var off: int := |MAGIC|;
    var found: seq<Found> := [];
    while off + HDR <= |data|
      invariant i <= n && After(data, i) == Some(off) && found == Taken(data, i)
      decreases n - i
    {
      LookCases(data, off);
      var h := Slice(data, off, off + HDR);
      if |h| < HDR || !Trailed(h) {
        StopsHere(data, i, n, off);
        return None;
      }
      var name := StripSlashes(Trim(h[0..16]));
      var size := SizeField(h);
      if size.None? {
        StopsHere(data, i, n, off);
        return None;
      }
      GoesOnward(data, i, n, off);
      var body := Slice(data, off + HDR, off + HDR + size.value);
      if name != "" { found := found + [Found(name, body)]; }
      off := off + HDR + size.value + size.value % 2;
      i := i + 1;
    }
    LookCases(data, off);
    StopsHere(data, i, n, off);
    out := Some(found);
  }

  lemma PastEnd(data: string, off: int)
    requires off + HDR > |data|
    ensures Look(data, off) == Ended
  {
  }

  lemma EndsHere(data: string, n: nat, off: int)
    requires After(data, n) == Some(off) && Look(data, off) == Ended
    ensures Stops(data) && StopsAt(data, n) && Outcome(data, n) == Some(Taken(data, n))
  {
    hide Look, After, Taken;
    assert StopsAt(data, n);
  }

  lemma LookCases(data: string, off: int)
    ensures off + HDR > |data| ==> Look(data, off) == Ended
    ensures off + HDR <= |data| ==>
              var h := Slice(data, off, off + HDR);
              if |h| < HDR || !Trailed(h) || SizeField(h).None? then Look(data, off) == Refused
              else var size := SizeField(h).value;
                   Look(data, off) == Onward(Kept(StripSlashes(Trim(h[0..16])), Slice(data, off + HDR, off + HDR + size)),
                                             off + HDR + size + size % 2)
  {
    hide Trim, StripSlashes, SizeField;
  }

  // ---- exactly where it returns ----

  /** The walk comes back to where it was. */
  ghost predicate Returns(data: string, i: nat, j: nat) {
    i < j && After(data, i).Some? && After(data, i) == After(data, j)
  }

  lemma {:induction false} Shifted(data: string, i: nat, j: nat, m: nat)
    requires Returns(data, i, j)
    ensures After(data, i + m) == After(data, j + m)
    decreases m
  {
    hide Look;
    if m > 0 { Shifted(data, i, j, m - 1); }
  }

  lemma {:induction false} ForeverAfter(data: string, i: nat, j: nat, n: nat)
    requires Returns(data, i, j)
    ensures After(data, n).Some?
    decreases n
  {
    hide After;
    if n <= j {
      EarlierToo(data, n, j);
    } else {
      ForeverAfter(data, i, j, n - (j - i));
      Shifted(data, i, j, n - j);
    }
  }

  /** A member's header lies within the data, counted from the start or the end. */
  lemma MemberInData(data: string, off: int)
    requires Look(data, off).Onward?
    ensures -|data| <= off <= |data|
  {
    hide SizeField, Trim;
  }

  lemma {:induction false} Offsets(data: string, n: nat) returns (offs: seq<int>)
    requires After(data, n).Some? && forall i, j :: !Returns(data, i, j)
    ensures |offs| == n && forall i :: 0 <= i < n ==> -|data| <= offs[i] <= |data| && After(data, i) == Some(offs[i])
    ensures forall i, j :: 0 <= i < j < n ==> offs[i] != offs[j]
    decreases n
  {
    hide Look;
    offs := [];
    if n > 0 {
      EarlierToo(data, n - 1, n);
      var before := Offsets(data, n - 1);
      MemberInData(data, After(data, n - 1).value);
      offs := before + [After(data, n - 1).value];
      forall i | 0 <= i < n - 1 ensures before[i] != After(data, n - 1).value {
        assert !Returns(data, i, n - 1);
      }
    }
  }

  lemma {:induction false} Range(lo: int, n: nat) returns (s: set<int>)
    ensures |s| == n && forall x :: x in s <==> lo <= x < lo + n
    decreases n
  {
    if n == 0 {
      s := {};
    } else {
      var t := Range(lo, n - 1);
      s := t + {lo + n - 1};
    }
  }

  lemma {:induction false} Values(offs: seq<int>) returns (s: set<int>)
    requires forall i, j :: 0 <= i < j < |offs| ==> offs[i] != offs[j]
    ensures |s| == |offs| && forall x :: x in s <==> x in offs
    decreases |offs|
  {
    if offs == [] {
      s := {};
    } else {
      var t := Values(offs[..|offs| - 1]);
      var last := offs[|offs| - 1];
      assert last !in t;
      s := t + {last};
      assert offs == offs[..|offs| - 1] + [last];
    }
  }

  lemma SubsetSmaller(a: set<int>, b: set<int>)
    requires a <= b
    ensures |a| <= |b|
  {
    assert |b| == |a| + |b - a| by { assert b == a + (b - a); }
  }

  lemma {:induction false} FewOffsets(data: string, n: nat)
    requires After(data, n).Some? && forall i, j :: !Returns(data, i, j)
    ensures n <= 2 * |data| + 1
  {
    hide After;
    var offs := Offsets(data, n);
    var a := Values(offs);
    var b := Range(-|data|, 2 * |data| + 1);
    assert forall x :: x in a ==> x in b;
    SubsetSmaller(a, b);
  }

  lemma {:induction false} StopsBefore(data: string, n: nat)
    requires After(data, n).None?
    ensures exists i: nat :: i < n && StopsAt(data, i)
    decreases n
  {
    hide Look;
    if After(data, n - 1).None? {
      StopsBefore(data, n - 1);
    } else {
      assert StopsAt(data, n - 1);
    }
  }

  /** ar_members() returns if and only if its walk never comes to one offset twice:
      a size that leads back to a member it has read leaves it there for ever. */
  lemma StopsExactly(data: string)
    ensures Stops(data) <==> forall i, j :: !Returns(data, i, j)
  {
    hide Look, After;
    if Stops(data) {
      var n: nat :| StopsAt(data, n);
      forall i, j ensures !Returns(data, i, j) {
        if Returns(data, i, j) {
          ForeverAfter(data, i, j, n + 1);
          EarlierToo(data, n, n + 1);
        }
      }
    }
    if forall i, j :: !Returns(data, i, j) {
      if After(data, 2 * |data| + 2).Some? {
        FewOffsets(data, 2 * |data| + 2);
      } else {
        StopsBefore(data, 2 * |data| + 2);
      }
    }
  }

  /** It is enough that no size met is too negative to go on. */
  predicate Forward(data: string, n: nat) {
    After(data, n).Some? && Look(data, After(data, n).value).Onward? ==> Look(data, After(data, n).value).next > After(data, n).value
  }

  lemma {:induction false} Climbs(data: string, i: nat, j: nat)
    requires i < j && After(data, j).Some? && forall n :: Forward(data, n)
    ensures After(data, i).Some? && After(data, i).value < After(data, j).value
    decreases j
  {
    hide Look;
    EarlierToo(data, i, j);
    EarlierToo(data, j - 1, j);
    assert Forward(data, j - 1);
    if i < j - 1 { Climbs(data, i, j - 1); }
  }

  lemma ForwardStops(data: string)
    requires forall n :: Forward(data, n)
    ensures Stops(data)
  {
    hide After, Forward;
    StopsExactly(data);
    forall i, j ensures !Returns(data, i, j) {
      if Returns(data, i, j) { Climbs(data, i, j); }
    }
  }

  const STUCK := MAGIC + "x               0           0     0     644     -60       `\n"

  /** One member whose size says -60. */
  lemma StuckForEver()
    ensures MAGIC <= STUCK && !Stops(STUCK)
  {
    hide Look;
    StuckLook();
    assert After(STUCK, 0) == Some(8);
    assert After(STUCK, 1) == Some(8);
    assert Returns(STUCK, 0, 1);
    hide After, Returns;
    StopsExactly(STUCK);
  }

  lemma StuckLook()
    ensures Look(STUCK, 8).Onward? && Look(STUCK, 8).next == 8
  {
    hide Trim, Signed, StripSlashes;
    var h := "x               0           0     0     644     -60       `\n";
    assert STUCK[8..68] == h && Slice(STUCK, 8, 68) == h;
    assert h[48..58] == "-60       ";
    TrimmedSixty();
    SixtyBack();
  }

  lemma TrimmedSixty()
    ensures Trim("-60       ") == "-60"
  {
    assert TrimLeft("-60       ") == "-60       ";
    BlankRight();
  }

  lemma BlankRight()
    ensures TrimRight("-60       ") == "-60"
  {
    assert "-60       "[..9] == "-60      " && "-60      "[..8] == "-60     " && "-60     "[..7] == "-60    ";
    assert "-60    "[..6] == "-60   " && "-60   "[..5] == "-60  " && "-60  "[..4] == "-60 " && "-60 "[..3] == "-60";
    assert TrimRight("-60") == "-60";
    assert TrimRight("-60 ") == "-60" && TrimRight("-60  ") == "-60" && TrimRight("-60   ") == "-60";
    assert TrimRight("-60    ") == "-60" && TrimRight("-60     ") == "-60" && TrimRight("-60      ") == "-60";
  }

  lemma SixtyBack()
    ensures Signed("-60") == Some(-60)
  {
    hide Plain, Value;
    assert "-60"[1..] == "60";
    SixtyPlain();
    SixtyValue();
  }

  lemma SixtyPlain()
    ensures Plain("60") == "60"
  {
    PlainDigits("60");
  }

  lemma SixtyValue()
    ensures Value("60") == 60
  {
    assert "60"[..1] == "6" && "6"[..0] == "";
    assert Value("") == 0;
    assert Value("6") == 6;
  }

  // ---- what it recovers ----

  lemma {:induction false} PlainDigits(s: string)
    requires forall i :: 0 <= i < |s| ==> Digit(s[i])
    ensures Plain(s) == s
    decreases |s|
  {
    if s != "" { PlainDigits(s[..|s| - 1]); }
  }

  lemma DigitsSigned(s: string)
    requires Digits(s)
    ensures Signed(s) == Some(Value(s))
  {
    hide Value;
    assert forall i :: 0 <= i < |s| ==> s[i] in s;
    PlainDigits(s);
  }

  lemma {:induction false} TrimLeftPast(s: string)
    ensures TrimLeft(s) == TrimLeft(StripLeft(s))
    decreases |s|
  {
    if s != "" && Space(s[0]) { TrimLeftPast(s[1..]); }
  }

  lemma {:induction false} TrimRightPast(s: string)
    ensures TrimRight(s) == TrimRight(StripRight(s))
    decreases |s|
  {
    if s != "" && Space(s[|s| - 1]) { TrimRightPast(s[..|s| - 1]); }
  }

  lemma {:induction false} RightFirst(s: string)
    ensures StripRight(s) <= s
    decreases |s|
  {
    if s != "" && Space(s[|s| - 1]) { RightFirst(s[..|s| - 1]); }
  }

  /** Where what bytes.strip() leaves has no odd blanks, str.strip() leaves it too. */
  lemma SameTrim(s: string)
    requires Strip(s) != "" && forall c :: c in Strip(s) ==> !Blank(c)
    ensures Trim(s) == Strip(s)
  {
    var l := StripLeft(s);
    var t := StripRight(l);
    RightFirst(l);
    assert t[0] in t && t[|t| - 1] in t && l[0] == t[0];
    TrimLeftPast(s);
    assert TrimLeft(l) == l;
    TrimRightPast(l);
  }

  lemma HeaderRead(m: Member)
    requires Right(m)
    ensures Trailed(m.header) && SizeField(m.header) == Some(|m.body|) && Trim(m.header[0..16]) == Name(m.header)
  {
    hide Strip, Value, Signed, Trim;
    SameTrim(m.header[48..58]) by { NoBlankDigits(Strip(m.header[48..58])); }
    DigitsSigned(Strip(m.header[48..58]));
    SameTrim(m.header[0..16]) by { NoBlankNames(Name(m.header)); }
  }

  lemma NoBlankDigits(s: string)
    requires Digits(s)
    ensures forall c :: c in s ==> !Blank(c)
  {
  }

  lemma NoBlankNames(s: string)
    requires forall c :: c in s ==> NameChar(c)
    ensures forall c :: c in s ==> !Blank(c)
  {
  }

  lemma LookAt(ms: seq<Member>, i: nat)
    requires AllRight(ms) && i < |ms|
    ensures Look(Serialised(ms), Offset(ms, i))
         == Onward(Kept(StripSlashes(Name(ms[i].header)), ms[i].body), Offset(ms, i + 1))
  {
    hide Serialised, Offset, Trim, StripSlashes, Name, SizeField, Trailed, Passes;
    assert Right(ms[i]);
    PartsAt(ms, i);
    HeaderRead(ms[i]);
    var d, o, n := Serialised(ms), Offset(ms, i), |ms[i].body|;
    assert Slice(d, o, o + HDR) == ms[i].header && Slice(d, o + HDR, o + HDR + n) == ms[i].body;
  }

  lemma {:induction false} AfterIs(ms: seq<Member>, i: nat)
    requires AllRight(ms) && i <= |ms|
    ensures After(Serialised(ms), i) == Some(Offset(ms, i))
    decreases i
  {
    hide Look, Serialised, Kept, StripSlashes, Name, Right;
    if i > 0 {
      AfterIs(ms, i - 1);
      LookAt(ms, i - 1);
      assert i - 1 + 1 == i;
    }
  }

  function FoundIn(ms: seq<Member>, i: nat): seq<Found>
    requires AllRight(ms) && i <= |ms|
  {
    if i == 0 then []
    else
      assert Right(ms[i - 1]);
      FoundIn(ms, i - 1) + Kept(StripSlashes(Name(ms[i - 1].header)), ms[i - 1].body)
  }

  lemma {:induction false} TakenIs(ms: seq<Member>, i: nat)
    requires AllRight(ms) && i <= |ms|
    ensures After(Serialised(ms), i).Some? && Taken(Serialised(ms), i) == FoundIn(ms, i)
    decreases i
  {
    hide Look, Serialised, Kept, StripSlashes, Name, Right;
    AfterIs(ms, i);
    if i > 0 {
      TakenIs(ms, i - 1);
      AfterIs(ms, i - 1);
      LookAt(ms, i - 1);
    }
  }

  /** On every archive whose sizes are right the walk returns, and with the members
      that were written. */
  lemma BelievingRecovers(ms: seq<Member>)
    requires AllRight(ms)
    ensures var d := Serialised(ms);
            MAGIC <= d && Stops(d) && StopsAt(d, |ms|) && Outcome(d, |ms|) == Some(FoundIn(ms, |ms|))
  {
    hide Serialised, Offset, FoundIn, StopsAt, Outcome, Right, Look, After, Taken;
    StartsMagic(ms);
    AfterIs(ms, |ms|);
    TakenIs(ms, |ms|);
    EveryByte(ms);
    PastEnd(Serialised(ms), Offset(ms, |ms|));
    EndsHere(Serialised(ms), |ms|, Offset(ms, |ms|));
  }

  lemma {:induction false} StartsMagic(ms: seq<Member>)
    ensures MAGIC <= Serialised(ms)
    decreases |ms|
  {
    if ms != [] { StartsMagic(ms[..|ms| - 1]); }
  }

  // ---- the two readers ----

  lemma {:induction false} FoundAll(ms: seq<Member>, k: nat)
    requires AllRight(ms) && k <= |ms|
    requires forall i :: 0 <= i < |ms| ==> StripSlashes(Name(ms[i].header)) != ""
    ensures |FoundIn(ms, k)| == k
    ensures forall i :: 0 <= i < k ==> FoundIn(ms, k)[i].body == ms[i].body
    decreases k
  {
    hide Passes, StripSlashes, Name, Size;
    if k > 0 { FoundAll(ms, k - 1); }
  }

  /** On an archive in which nothing but a header looks like one, the scan finds as
      many members as the walk, and each with the same body. */
  lemma ReadersAgree(ms: seq<Member>, i: nat)
    requires AllRight(ms) && OnlyHeaders(ms) && i < |ms|
    requires forall k :: 0 <= k < |ms| ==> StripSlashes(Name(ms[k].header)) != ""
    ensures var d := Serialised(ms);
            var offs, walked := Scanned(d, ScanEnd(d)), FoundIn(ms, |ms|);
            StopsAt(d, |ms|) && Outcome(d, |ms|) == Some(walked)
            && InData(d, offs) && |offs| == |walked| == |ms| && MemberFrom(d, offs, i).body == walked[i].body
  {
    hide Scanned, Passes, Serialised, Between, FoundIn, StripSlashes, Name, Offset, StopsAt, Outcome, OnlyHeaders;
    BelievingRecovers(ms);
    ScanningFinds(ms);
    BodyBetween(ms, i);
    FoundAll(ms, |ms|);
    EveryByte(ms);
    ScannedInData(Serialised(ms), ScanEnd(Serialised(ms)));
  }
}
