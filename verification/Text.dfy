/** Byte strings as the Go sources use them. A char stands for one byte; every fact holds for all chars. */
module Text {

  datatype Option<+T> = None | Some(value: T)

  // ----- order: sort.Strings and the listing order of object stores

  predicate Less(a: string, b: string) {
    if b == [] then false
    else if a == [] then true
    else a[0] < b[0] || (a[0] == b[0] && Less(a[1..], b[1..]))
  }

  lemma {:induction false} LessTrichotomy(a: string, b: string)
    ensures a == b || Less(a, b) || Less(b, a)
    ensures !(Less(a, b) && Less(b, a))
    ensures Less(a, b) ==> a != b
  {
    if a != [] && b != [] && a[0] == b[0] {
      LessTrichotomy(a[1..], b[1..]);
      assert a == [a[0]] + a[1..] && b == [b[0]] + b[1..];
    }
  }

  lemma {:induction false} LessTransitive(a: string, b: string, c: string)
    requires Less(a, b) && Less(b, c)
    ensures Less(a, c)
  {
    if a != [] && a[0] == b[0] == c[0] { LessTransitive(a[1..], b[1..], c[1..]); }
  }

  ghost predicate Ascending(xs: seq<string>) {
    forall i, j :: 0 <= i < j < |xs| ==> Less(xs[i], xs[j])
  }

  ghost function Elems<T>(xs: seq<T>): set<T> { set x | x in xs }

  ghost predicate NoDup<T>(xs: seq<T>) {
    forall i, j :: 0 <= i < j < |xs| ==> xs[i] != xs[j]
  }

  function Mapped<T, U>(xs: seq<T>, f: T -> U): (r: seq<U>)
    ensures |r| == |xs| && forall i :: 0 <= i < |xs| ==> r[i] == f(xs[i])
  {
    seq(|xs|, i requires 0 <= i < |xs| => f(xs[i]))
  }

  lemma Regroup<T>(a: seq<T>, b: seq<T>, c: seq<T>)
    ensures a + (b + c) == (a + b) + c
  {
  }

  lemma PushNoDup<T>(xs: seq<T>, x: T)
    requires NoDup(xs) && x !in Elems(xs)
    ensures NoDup(xs + [x])
  {
    forall i | 0 <= i < |xs| ensures xs[i] != x { assert xs[i] in Elems(xs); }
  }

  lemma AscendingNoDup(xs: seq<string>)
    requires Ascending(xs)
    ensures NoDup(xs)
  {
    forall i, j | 0 <= i < j < |xs| ensures xs[i] != xs[j] {
      LessTrichotomy(xs[i], xs[j]);
    }
  }

  /** A set has one ascending enumeration. */
  lemma {:induction false} AscendingUnique(xs: seq<string>, ys: seq<string>)
    requires Ascending(xs) && Ascending(ys) && Elems(xs) == Elems(ys)
    ensures xs == ys
    decreases |xs|
  {
    NoElems(xs);
    NoElems(ys);
    if xs != [] {
      assert xs[0] in Elems(ys) && ys[0] in Elems(xs);
      var i :| 0 <= i < |ys| && ys[i] == xs[0];
      var j :| 0 <= j < |xs| && xs[j] == ys[0];
      LessTrichotomy(xs[0], ys[0]);
      assert xs[0] == ys[0];
      TailElems(xs);
      TailElems(ys);
      AscendingUnique(xs[1..], ys[1..]);
      assert xs == [xs[0]] + xs[1..] && ys == [ys[0]] + ys[1..];
    }
  }

  lemma NoElems<T>(xs: seq<T>)
    ensures Elems(xs) == {} <==> xs == []
  {
    if xs != [] { assert xs[0] in Elems(xs); }
  }

  lemma TailElems(xs: seq<string>)
    requires Ascending(xs) && xs != []
    ensures Elems(xs[1..]) == Elems(xs) - {xs[0]}
  {
    AscendingNoDup(xs);
    assert xs == [xs[0]] + xs[1..];
  }

  ghost function Enumerate(s: set<string>): (r: seq<string>)
    ensures Ascending(r) && Elems(r) == s
  {
    if s == {} then []
    else
      var x :| x in s;
      var rest := Enumerate(s - {x});
      InsertAscends(x, rest);
      Insert(x, rest)
  }

  function Insert(x: string, xs: seq<string>): seq<string> {
    if xs == [] then [x]
    else if Less(x, xs[0]) then [x] + xs
    else [xs[0]] + Insert(x, xs[1..])
  }

  lemma {:induction false} InsertAscends(x: string, xs: seq<string>)
    requires Ascending(xs) && x !in xs
    ensures Ascending(Insert(x, xs)) && Elems(Insert(x, xs)) == Elems(xs) + {x}
  {
    if xs != [] {
      LessTrichotomy(x, xs[0]);
      if Less(x, xs[0]) {
        forall j | 0 < j < |xs| ensures Less(x, xs[j]) {
          LessTransitive(x, xs[0], xs[j]);
        }
      } else {
        InsertAscends(x, xs[1..]);
        FirstStaysBelow(x, xs, Insert(x, xs[1..]));
      }
    }
  }

  lemma ConsElems<T>(x: T, xs: seq<T>)
    ensures Elems([x] + xs) == {x} + Elems(xs)
  {
    forall y | y in Elems(xs) ensures y in Elems([x] + xs) {
      var i :| 0 <= i < |xs| && xs[i] == y;
      assert ([x] + xs)[i + 1] == y;
    }
    assert ([x] + xs)[0] == x;
  }

  lemma PrependAscends(x: string, xs: seq<string>)
    requires Ascending(xs) && forall j :: 0 <= j < |xs| ==> Less(x, xs[j])
    ensures Ascending([x] + xs)
  {
  }

  lemma BelowAll(x: string, xs: seq<string>, r: seq<string>)
    requires xs != [] && Ascending(xs) && Less(xs[0], x) && Elems(r) == Elems(xs[1..]) + {x}
    ensures forall j :: 0 <= j < |r| ==> Less(xs[0], r[j])
  {
    forall j | 0 <= j < |r| ensures Less(xs[0], r[j]) {
      assert r[j] in Elems(r);
      if r[j] != x {
        var i :| 0 <= i < |xs[1..]| && xs[1..][i] == r[j];
        assert xs[i + 1] == r[j];
      }
    }
  }

  /** The first stays first when something larger was put into the rest. */
  lemma FirstStaysBelow(x: string, xs: seq<string>, r: seq<string>)
    requires xs != [] && Ascending(xs) && Less(xs[0], x) && Ascending(r) && Elems(r) == Elems(xs[1..]) + {x}
    ensures Ascending([xs[0]] + r) && Elems([xs[0]] + r) == Elems(xs) + {x}
  {
    BelowAll(x, xs, r);
    PrependAscends(xs[0], r);
    ConsElems(xs[0], r);
    ConsElems(xs[0], xs[1..]);
    assert xs == [xs[0]] + xs[1..];
  }

  /** Collect-then-sort over a set's members in any order, as Go does over a map's keys. */
  method SortedKeys(s: set<string>) returns (r: seq<string>)
    ensures r == Enumerate(s)
  {
    r := [];
    var todo := s;
    while todo != {}
      invariant todo <= s && Ascending(r) && Elems(r) == s - todo
      decreases todo
    {
      var x :| x in todo;
      assert x !in Elems(r);
      InsertAscends(x, r);
      r := Insert(x, r);
      todo := todo - {x};
    }
    AscendingUnique(r, Enumerate(s));
  }

  // ----- decimal numbers: %d and strconv.ParseInt(s, 10, 64)

  const MIN_INT64: int := -0x8000_0000_0000_0000
  const MAX_INT64: int := 0x7fff_ffff_ffff_ffff

  function Digits(n: nat): (s: string)
    ensures s != [] && forall i :: 0 <= i < |s| ==> '0' <= s[i] <= '9'
  {
    var d := '0' + (n % 10) as char;
    if n < 10 then [d] else Digits(n / 10) + [d]
  }

  function Dec(n: int): string { if n < 0 then "-" + Digits(-n) else Digits(n) }

  function DigitsValue(s: string): Option<nat> {
    if s == [] then Some(0)
    else
      var c, front := s[|s| - 1], DigitsValue(s[..|s| - 1]);
      if '0' <= c <= '9' && front.Some? then Some(front.value * 10 + (c - '0') as nat) else None
  }

  function ParseInt64(s: string): Option<int> {
    if s == [] then None
    else
      var signed := s[0] == '+' || s[0] == '-';
      var body := if signed then s[1..] else s;
      var v := if body == [] then None else DigitsValue(body);
      if v.None? then None
      else
        var n: int := if s[0] == '-' then -(v.value as int) else v.value;
        if MIN_INT64 <= n <= MAX_INT64 then Some(n) else None
  }

  lemma {:induction false} DigitsValueOfDigits(n: nat)
    ensures DigitsValue(Digits(n)) == Some(n)
    decreases n
  {
    if n >= 10 {
      DigitsValueOfDigits(n / 10);
      assert Digits(n)[..|Digits(n)| - 1] == Digits(n / 10);
    } else {
      assert Digits(n)[..0] == [];
    }
  }

  /** Reading a printed number gives it back. */
  lemma ParseOfDec(n: int)
    requires MIN_INT64 <= n <= MAX_INT64
    ensures ParseInt64(Dec(n)) == Some(n)
  {
    DigitsValueOfDigits(if n < 0 then -n else n);
    if n < 0 {
      ParseNegative(Digits(-n));
    } else {
      ParseUnsigned(Digits(n));
    }
  }

  lemma ParseNegative(s: string)
    requires s != [] && DigitsValue(s).Some?
    ensures ParseInt64("-" + s)
         == if MIN_INT64 <= -(DigitsValue(s).value as int) then Some(-(DigitsValue(s).value as int)) else None
  {
    assert ("-" + s)[1..] == s;
  }

  lemma ParseUnsigned(s: string)
    requires s != [] && DigitsValue(s).Some? && s[0] != '+' && s[0] != '-'
    ensures ParseInt64(s) == if DigitsValue(s).value <= MAX_INT64 then Some(DigitsValue(s).value) else None
  {
  }

  lemma DecInjective(m: int, n: int)
    requires Dec(m) == Dec(n)
    ensures m == n
  {
    DigitsValueOfDigits(if m < 0 then -m else m);
    DigitsValueOfDigits(if n < 0 then -n else n);
    if m < 0 { assert Dec(m)[1..] == Digits(-m); }
    if n < 0 { assert Dec(n)[1..] == Digits(-n); }
    assert Dec(m)[0] == '-' <==> m < 0;
    assert Dec(n)[0] == '-' <==> n < 0;
  }

  // ----- trimming, case and search

  predicate IsSpace(c: char) {
    c == ' ' || '\t' <= c <= '\r' || c == '\U{85}' || c == '\U{A0}'
  }

  function TrimLeft(s: string, cut: char -> bool): string {
    if s != [] && cut(s[0]) then TrimLeft(s[1..], cut) else s
  }

  function TrimRight(s: string, cut: char -> bool): string {
    if s != [] && cut(s[|s| - 1]) then TrimRight(s[..|s| - 1], cut) else s
  }

  function Trim(s: string, cut: char -> bool): string { TrimRight(TrimLeft(s, cut), cut) }

  lemma {:induction false} TrimLeftIsSuffix(s: string, cut: char -> bool)
    ensures var r := TrimLeft(s, cut);
            |r| <= |s| && r == s[|s| - |r|..] && (r == [] || !cut(r[0]))
  {
    if s != [] && cut(s[0]) { TrimLeftIsSuffix(s[1..], cut); }
  }

  lemma {:induction false} TrimRightIsPrefix(s: string, cut: char -> bool)
    ensures var r := TrimRight(s, cut);
            |r| <= |s| && r == s[..|r|] && (r == [] || !cut(r[|r| - 1]))
  {
    if s != [] && cut(s[|s| - 1]) { TrimRightIsPrefix(s[..|s| - 1], cut); }
  }

  /** Trimming leaves a stretch of the text whose ends stay. */
  lemma TrimEnds(s: string, cut: char -> bool)
    ensures var r := Trim(s, cut);
            (r == [] || (!cut(r[0]) && !cut(r[|r| - 1]))) && forall i :: 0 <= i < |r| ==> r[i] in s
  {
    TrimLeftIsSuffix(s, cut);
    TrimRightIsPrefix(TrimLeft(s, cut), cut);
  }

  lemma TrimTwice(s: string, cut: char -> bool)
    ensures Trim(Trim(s, cut), cut) == Trim(s, cut)
  {
    TrimEnds(s, cut);
  }

  function TrimSpace(s: string): string { Trim(s, IsSpace) }

  predicate Blank(s: string) { forall i :: 0 <= i < |s| ==> IsSpace(s[i]) }

  lemma {:induction false} BlankBefore(a: string, s: string)
    requires Blank(a)
    ensures TrimLeft(a + s, IsSpace) == TrimLeft(s, IsSpace)
    decreases |a|
  {
    if a == [] {
      assert a + s == s;
    } else {
      assert (a + s)[1..] == a[1..] + s;
      BlankBefore(a[1..], s);
    }
  }

  lemma {:induction false} BlankAfter(s: string, b: string)
    requires Blank(b)
    ensures TrimRight(s + b, IsSpace) == TrimRight(s, IsSpace)
    decreases |b|
  {
    if b == [] {
      assert s + b == s;
    } else {
      assert (s + b)[..|s + b| - 1] == s + b[..|b| - 1];
      BlankAfter(s, b[..|b| - 1]);
    }
  }

  lemma {:induction false} CutIsBlank(s: string)
    ensures |TrimLeft(s, IsSpace)| <= |s| && Blank(s[..|s| - |TrimLeft(s, IsSpace)|])
  {
    TrimLeftIsSuffix(s, IsSpace);
    if s != [] && IsSpace(s[0]) {
      CutIsBlank(s[1..]);
      var k := |s| - |TrimLeft(s, IsSpace)|;
      assert s[..k] == [s[0]] + s[1..][..k - 1];
    }
  }

  lemma {:induction false} CutEndIsBlank(s: string)
    ensures |TrimRight(s, IsSpace)| <= |s| && Blank(s[|TrimRight(s, IsSpace)|..])
  {
    TrimRightIsPrefix(s, IsSpace);
    if s != [] && IsSpace(s[|s| - 1]) {
      CutEndIsBlank(s[..|s| - 1]);
      var k := |TrimRight(s, IsSpace)|;
      assert s[k..] == s[..|s| - 1][k..] + [s[|s| - 1]];
    }
  }

  /** Every text is its trimmed self between blanks. */
  lemma BlanksAround(raw: string) returns (a: string, b: string)
    ensures raw == a + TrimSpace(raw) + b && Blank(a) && Blank(b)
  {
    var t := TrimLeft(raw, IsSpace);
    CutIsBlank(raw);
    CutEndIsBlank(t);
    TrimLeftIsSuffix(raw, IsSpace);
    TrimRightIsPrefix(t, IsSpace);
    a, b := raw[..|raw| - |t|], t[|TrimSpace(raw)|..];
    assert raw == a + t && t == TrimSpace(raw) + b;
  }

  predicate Solid(w: string) { w != "" && !IsSpace(w[0]) && !IsSpace(w[|w| - 1]) }

  /** A text without blanks at its ends, put between blanks, is found again. */
  lemma TrimBetween(a: string, w: string, b: string)
    requires Blank(a) && Blank(b) && Solid(w)
    ensures TrimSpace(a + w + b) == w
  {
    assert a + w + b == a + (w + b);
    BlankBefore(a, w + b);
    assert (w + b)[0] == w[0];
    BlankAfter(w, b);
  }

  function LowerChar(c: char): char { if 'A' <= c <= 'Z' then c - 'A' + 'a' else c }
  function UpperChar(c: char): char { if 'a' <= c <= 'z' then c - 'a' + 'A' else c }

  function ToLower(s: string): (r: string)
    ensures |r| == |s| && forall i :: 0 <= i < |s| ==> r[i] == LowerChar(s[i])
  {
    seq(|s|, i requires 0 <= i < |s| => LowerChar(s[i]))
  }

  function ToUpper(s: string): (r: string)
    ensures |r| == |s| && forall i :: 0 <= i < |s| ==> r[i] == UpperChar(s[i])
  {
    seq(|s|, i requires 0 <= i < |s| => UpperChar(s[i]))
  }

  predicate EqualFold(s: string, t: string) { ToLower(s) == ToLower(t) }

  predicate HasPrefix(s: string, prefix: string) { prefix <= s }

  /** sub occurs in s at i. */
  predicate OccursAt(s: string, sub: string, i: int) {
    0 <= i && i + |sub| <= |s| && s[i..i + |sub|] == sub
  }

  predicate Contains(s: string, sub: string) {
    exists i :: 0 <= i <= |s| && OccursAt(s, sub, i)
  }

  /** strings.Index from an offset: the first occurrence at or after it. */
  function IndexFrom(s: string, sub: string, from: nat): (r: Option<nat>)
    requires from <= |s|
    ensures r.Some? ==> from <= r.value && OccursAt(s, sub, r.value)
    ensures forall i :: from <= i && OccursAt(s, sub, i) ==> r.Some? && r.value <= i
    decreases |s| - from
  {
    if OccursAt(s, sub, from) then Some(from)
    else if from == |s| then None
    else IndexFrom(s, sub, from + 1)
  }

  lemma SameTail(p: string, x: string, y: string)
    requires p + x == p + y
    ensures x == y
  {
    assert (p + x)[|p|..] == x && (p + y)[|p|..] == y;
  }

  lemma AfterPrefix(p: string, body: string, key: string) returns (tail: string)
    requires p + body <= key
    ensures |p| <= |key| && key[|p|..] == body + tail
  {
    tail := key[|p + body|..];
    assert key == (p + body) + tail;
  }

  /** Two texts split at the first separator agree field by field. */
  lemma FirstField(sep: char, a: string, x: string, b: string, y: string)
    requires sep !in a && sep !in b
    requires a + [sep] + x == b + [sep] + y
    ensures a == b && x == y
  {
    var s := a + [sep] + x;
    assert s[|a|] == sep && s[|b|] == sep;
    assert s[..|a|] == a && s[..|b|] == b;
    assert s[|a| + 1..] == x && s[|b| + 1..] == y;
  }
}
