/** The "did you mean" distance of `diverge graph validate`. */
module EditDistance {
  import opened Text

  datatype Edit = Insert(at: nat, c: char) | Delete(at: nat) | Replace(at: nat, c: char)

  /** One edit applied to a byte string; None when its position is out of range. */
  function Apply(e: Edit, s: string): Option<string> {
    match e
    case Insert(at, c) => if at <= |s| then Some(s[..at] + [c] + s[at..]) else None
    case Delete(at) => if at < |s| then Some(s[..at] + s[at + 1..]) else None
    case Replace(at, c) => if at < |s| then Some(s[at := c]) else None
  }

  /** A script is applied edit by edit, each at a position of the string it meets. */
  function Run(script: seq<Edit>, s: string): Option<string> {
    if script == [] then Some(s)
    else match Apply(script[0], s)
      case None => None
      case Some(u) => Run(script[1..], u)
  }

  ghost predicate Turns(script: seq<Edit>, s: string, t: string) {
    Run(script, s) == Some(t)
  }

  /** d is the length of a shortest script from s to t. */
  ghost predicate Shortest(d: nat, s: string, t: string) {
    && (exists script :: Turns(script, s, t) && |script| == d)
    && (forall script :: Turns(script, s, t) ==> d <= |script|)
  }

  function Min3(a: nat, b: nat, c: nat): nat {
    var ab := if b < a then b else a;
    if c < ab then c else ab
  }

  /** The table entry for two prefixes, last bytes compared first. */
  function Dist(s: string, t: string): nat
    decreases |s| + |t|
  {
    if s == [] then |t|
    else if t == [] then |s|
    else
      var s', t' := s[..|s| - 1], t[..|t| - 1];
      if s[|s| - 1] == t[|t| - 1] then Dist(s', t')
      else 1 + Min3(Dist(s', t'), Dist(s, t'), Dist(s', t))
  }

  lemma {:induction false} DistSymmetric(s: string, t: string)
    ensures Dist(s, t) == Dist(t, s)
    decreases |s| + |t|
  {
    if s != [] && t != [] {
      var s', t' := s[..|s| - 1], t[..|t| - 1];
      DistSymmetric(s', t');
      DistSymmetric(s, t');
      DistSymmetric(s', t);
    }
  }

  ghost predicate Within1(a: nat, b: nat) { a <= b + 1 && b <= a + 1 }

  /** Dropping the last byte of the left string moves the distance by at most one. */
  lemma {:induction false} LastByte(s: string, t: string)
    requires s != []
    ensures Within1(Dist(s, t), Dist(s[..|s| - 1], t))
    decreases |s| + |t|
  {
    if t != [] {
      var s', t' := s[..|s| - 1], t[..|t| - 1];
      LastByte(t, s');
      DistSymmetric(t, s');
      DistSymmetric(t', s');
      if s[|s| - 1] != t[|t| - 1] {
        LastByte(s, t');
      }
    }
  }

  /** Deleting any byte moves the distance by at most one. */
  lemma {:induction false} AnyByte(s: string, at: nat, t: string)
    requires at < |s|
    ensures Within1(Dist(s, t), Dist(s[..at] + s[at + 1..], t))
    decreases |s| + |t|
  {
    var u := s[..at] + s[at + 1..];
    if at == |s| - 1 {
      assert u == s[..|s| - 1];
      LastByte(s, t);
    } else if t != [] {
      var s', t' := s[..|s| - 1], t[..|t| - 1];
      assert u[..|u| - 1] == s'[..at] + s'[at + 1..];
      assert u[|u| - 1] == s[|s| - 1];
      AnyByte(s', at, t');
      AnyByte(s, at, t');
      AnyByte(s', at, t);
    }
  }

  /** Overwriting any byte moves the distance by at most one. */
  lemma {:induction false} OverwrittenByte(s: string, at: nat, c: char, t: string)
    requires at < |s|
    ensures Within1(Dist(s, t), Dist(s[at := c], t))
    decreases |s| + |t|
  {
    var u := s[at := c];
    if t != [] {
      var s', t' := s[..|s| - 1], t[..|t| - 1];
      OverwrittenByte(s, at, c, t');
      if at == |s| - 1 {
        assert u[..|u| - 1] == s';
        LastByte(s, t');
        LastByte(u, t');
        LastByte(t, s');
        DistSymmetric(t, s');
        DistSymmetric(t', s');
      } else {
        assert u[..|u| - 1] == s'[at := c];
        OverwrittenByte(s', at, c, t');
        OverwrittenByte(s', at, c, t);
      }
    }
  }

  lemma OneEdit(e: Edit, s: string, t: string)
    requires Apply(e, s).Some?
    ensures Dist(s, t) <= Dist(Apply(e, s).value, t) + 1
  {
    var u := Apply(e, s).value;
    match e
    case Insert(at, c) =>
      assert u[..at] + u[at + 1..] == s;
      AnyByte(u, at, t);
    case Delete(at) => AnyByte(s, at, t);
    case Replace(at, c) => OverwrittenByte(s, at, c, t);
  }

  /** No script beats the table. */
  lemma {:induction false} LowerBound(script: seq<Edit>, s: string, t: string)
    requires Turns(script, s, t)
    ensures Dist(s, t) <= |script|
    decreases |script|
  {
    if script == [] {
      SelfDistance(s);
    } else {
      LowerBound(script[1..], Apply(script[0], s).value, t);
      OneEdit(script[0], s, t);
    }
  }

  lemma {:induction false} SelfDistance(s: string)
    ensures Dist(s, s) == 0
    decreases |s|
  {
    if s != [] { SelfDistance(s[..|s| - 1]); }
  }

  /** A script keeps working, with the same positions, under a longer string. */
  lemma {:induction false} UnderSuffix(script: seq<Edit>, s: string, t: string, z: string)
    requires Turns(script, s, t)
    ensures Turns(script, s + z, t + z)
    decreases |script|
  {
    if script != [] {
      var u := Apply(script[0], s).value;
      assert Apply(script[0], s + z).value == u + z by {
        match script[0]
        case Insert(at, c) => assert (s + z)[..at] == s[..at] && (s + z)[at..] == s[at..] + z;
        case Delete(at) => assert (s + z)[..at] == s[..at] && (s + z)[at + 1..] == s[at + 1..] + z;
        case Replace(at, c) => assert (s + z)[at := c] == s[at := c] + z;
      }
      UnderSuffix(script[1..], u, t, z);
    }
  }

  lemma {:induction false} RunConcat(first: seq<Edit>, second: seq<Edit>, s: string)
    requires Run(first, s).Some?
    ensures Run(first + second, s) == Run(second, Run(first, s).value)
    decreases |first|
  {
    if first == [] {
      assert first + second == second;
    } else {
      assert (first + second)[1..] == first[1..] + second;
      RunConcat(first[1..], second, Apply(first[0], s).value);
    }
  }

  /** script, then one more edit. */
  lemma Extend(script: seq<Edit>, e: Edit, s: string, u: string, t: string)
    requires Turns(script, s, u) && Apply(e, u) == Some(t)
    ensures Turns(script + [e], s, t)
  {
    RunConcat(script, [e], s);
    assert Run([e], u) == Run([e][1..], t);
  }

  /** The table is reached by some script. */
  lemma {:induction false} UpperBound(s: string, t: string) returns (script: seq<Edit>)
    ensures Turns(script, s, t) && |script| == Dist(s, t)
    decreases |s| + |t|
  {
    if s == [] && t == [] {
      script := [];
    } else if s == [] {
      var t' := t[..|t| - 1];
      var rest := UpperBound(s, t');
      assert t'[..|t'|] + [t[|t| - 1]] + t'[|t'|..] == t;
      script := rest + [Insert(|t'|, t[|t| - 1])];
      Extend(rest, Insert(|t'|, t[|t| - 1]), s, t', t);
    } else if t == [] {
      script := DropLast(s, t);
    } else {
      var s', t', x, y := s[..|s| - 1], t[..|t| - 1], s[|s| - 1], t[|t| - 1];
      assert s == s' + [x] && t == t' + [y];
      if x == y {
        script := UpperBound(s', t');
        UnderSuffix(script, s', t', [x]);
      } else if Dist(s, t) == 1 + Dist(s', t') {
        var rest := UpperBound(s', t');
        UnderSuffix(rest, s', t', [x]);
        assert (t' + [x])[|t'| := y] == t;
        script := rest + [Replace(|t'|, y)];
        Extend(rest, Replace(|t'|, y), s, t' + [x], t);
      } else if Dist(s, t) == 1 + Dist(s, t') {
        var rest := UpperBound(s, t');
        assert t'[..|t'|] + [y] + t'[|t'|..] == t;
        script := rest + [Insert(|t'|, y)];
        Extend(rest, Insert(|t'|, y), s, t', t);
      } else {
        script := DropLast(s, t);
      }
    }
  }

  lemma {:induction false} DropLast(s: string, t: string) returns (script: seq<Edit>)
    requires s != []
    ensures Turns(script, s, t) && |script| == 1 + Dist(s[..|s| - 1], t)
    decreases |s| + |t|, 0
  {
    var s', x := s[..|s| - 1], s[|s| - 1];
    assert s == s' + [x];
    var rest := UpperBound(s', t);
    UnderSuffix(rest, s', t, [x]);
    assert (t + [x])[..|t|] + (t + [x])[|t| + 1..] == t;
    script := rest + [Delete(|t|)];
    Extend(rest, Delete(|t|), s, t + [x], t);
  }

  lemma DistIsShortest(s: string, t: string)
    ensures Shortest(Dist(s, t), s, t)
  {
    var script := UpperBound(s, t);
    forall script | Turns(script, s, t) ensures Dist(s, t) <= |script| {
      LowerBound(script, s, t);
    }
  }

  /** The table entry for the first i bytes of s and the first j bytes of t. */
  ghost function Entry(s: string, t: string, i: nat, j: nat): nat
    requires i <= |s| && j <= |t|
  {
    Dist(s[..i], t[..j])
  }

  lemma EntryStep(s: string, t: string, i: nat, j: nat)
    requires 0 < i <= |s| && 0 < j <= |t|
    ensures Entry(s, t, i, j)
            == if s[i - 1] == t[j - 1] then Entry(s, t, i - 1, j - 1)
               else 1 + Min3(Entry(s, t, i - 1, j - 1), Entry(s, t, i, j - 1), Entry(s, t, i - 1, j))
  {
    assert s[..i][..i - 1] == s[..i - 1] && t[..j][..j - 1] == t[..j - 1];
  }

  ghost predicate HoldsLine(row: seq<nat>, s: string, t: string, i: nat, from: nat, to: nat)
    requires i <= |s| && to <= |row| == |t| + 1
  {
    forall k :: from <= k < to ==> row[k] == Entry(s, t, i, k)
  }

  /** One pass over the reused row: below j - 1 it holds line i, from j - 1 on still line i - 1. */
  method NextLine(s1: string, s2: string, i: nat, row: array<nat>)
    requires 0 < i <= |s1| && row.Length == |s2| + 1
    requires HoldsLine(row[..], s1, s2, i - 1, 0, |s2| + 1)
    modifies row
    ensures HoldsLine(row[..], s1, s2, i, 0, |s2| + 1)
  {
    var prev: nat := i;
    for j := 1 to |s2| + 1
      invariant prev == Entry(s1, s2, i, j - 1)
      invariant HoldsLine(row[..], s1, s2, i, 0, j - 1)
      invariant HoldsLine(row[..], s1, s2, i - 1, j - 1, |s2| + 1)
    {
      EntryStep(s1, s2, i, j);
      var current: nat;
      if s1[i - 1] == s2[j - 1] {
        current := row[j - 1];
      } else {
        var a, b, c := row[j - 1], prev, row[j];
        var minVal := a;
        if b < minVal { minVal := b; }
        if c < minVal { minVal := c; }
        current := 1 + minVal;
      }
      row[j - 1] := prev;
      prev := current;
    }
    row[|s2|] := prev;
  }

  method EditDistance(s1: string, s2: string) returns (d: nat)
    ensures Shortest(d, s1, s2)
  {
    DistIsShortest(s1, s2);
    var len1, len2 := |s1|, |s2|;
    if len1 == 0 { return len2; }
    if len2 == 0 { return len1; }
    var row := new nat[len2 + 1];
    for i := 0 to len2 + 1
      invariant forall k :: 0 <= k < i ==> row[k] == k
    {
      row[i] := i;
    }
    for i := 1 to len1 + 1
      invariant HoldsLine(row[..], s1, s2, i - 1, 0, len2 + 1)
    {
      NextLine(s1, s2, i, row);
    }
    assert s1[..len1] == s1 && s2[..len2] == s2;
    return row[len2];
  }

  /** The distance is a metric. */
  lemma Metric(s: string, t: string, u: string)
    ensures Dist(s, t) == Dist(t, s)
    ensures Dist(s, t) == 0 <==> s == t
    ensures Dist(s, u) <= Dist(s, t) + Dist(t, u)
  {
    DistSymmetric(s, t);
    SelfDistance(s);
    var script := UpperBound(s, t);
    var rest := UpperBound(t, u);
    RunConcat(script, rest, s);
    LowerBound(script + rest, s, u);
  }
}
