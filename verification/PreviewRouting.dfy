/** Replay: which preview service a request host belongs to. */
module PreviewRouting {
  import opened Text
  import opened Tokens

  // ----- DNS tokens

  predicate IsAlnum(c: char) { 'a' <= c <= 'z' || '0' <= c <= '9' }
  predicate IsSeparator(c: char) { c == '-' || c == '.' || c == '_' }

  function Push(b: string, c: char): string {
    if IsAlnum(c) then b + [c]
    else if IsSeparator(c) && b != [] && b[|b| - 1] != '-' then b + ['-']
    else b
  }

  function PushAll(s: string): string {
    if s == [] then "" else Push(PushAll(s[..|s| - 1]), s[|s| - 1])
  }

  predicate IsDash(c: char) { c == '-' }

  function Sanitize(s: string): string { TrimRight(PushAll(ToLower(TrimSpace(s))), IsDash) }

  method SanitizeDNSLabel(s: string) returns (r: string)
    ensures r == Sanitize(s)
  {
    var t := ToLower(TrimSpace(s));
    var b := "";
    var prevDash := false;
    for i := 0 to |t|
      invariant b == PushAll(t[..i]) && (prevDash <==> b != [] && b[|b| - 1] == '-')
    {
      assert t[..i + 1][..i] == t[..i];
      var c := t[i];
      if IsAlnum(c) {
        b := b + [c];
        prevDash := false;
      } else if c == '-' || c == '.' || c == '_' {
        if !prevDash && |b| > 0 {
          b := b + ['-'];
          prevDash := true;
        }
      }
    }
    assert t[..|t|] == t;
    r := TrimRight(b, IsDash);
  }

  /** Lower-case letters, digits and single inner hyphens. */
  ghost predicate IsToken(t: string) {
    && (forall i :: 0 <= i < |t| ==> IsAlnum(t[i]) || t[i] == '-')
    && (forall i :: 0 <= i < |t| - 1 ==> !(t[i] == '-' && t[i + 1] == '-'))
    && (t != [] ==> t[0] != '-' && t[|t| - 1] != '-')
  }

  ghost predicate IsTokenPrefix(t: string) {
    && (forall i :: 0 <= i < |t| ==> IsAlnum(t[i]) || t[i] == '-')
    && (forall i :: 0 <= i < |t| - 1 ==> !(t[i] == '-' && t[i + 1] == '-'))
    && (t != [] ==> t[0] != '-')
  }

  lemma {:induction false} PushAllIsTokenPrefix(s: string)
    ensures IsTokenPrefix(PushAll(s))
  {
    if s != [] { PushAllIsTokenPrefix(s[..|s| - 1]); }
  }

  lemma {:induction false} PushAllKeepsTokens(t: string)
    requires IsTokenPrefix(t)
    ensures PushAll(t) == t
  {
    if t != [] {
      var front := t[..|t| - 1];
      assert forall i :: 0 <= i < |front| ==> front[i] == t[i];
      PushAllKeepsTokens(front);
      assert t == front + [t[|t| - 1]];
    }
  }

  /** Every identifier becomes a DNS token, and tokens are fixed points. */
  lemma SanitizeIsCanonical(s: string)
    ensures IsToken(Sanitize(s)) && Sanitize(Sanitize(s)) == Sanitize(s)
  {
    PushAllIsTokenPrefix(ToLower(TrimSpace(s)));
    TrimRightIsPrefix(PushAll(ToLower(TrimSpace(s))), IsDash);
    var r := Sanitize(s);
    assert forall i :: 0 <= i < |r| ==> !IsSpace(r[i]) && LowerChar(r[i]) == r[i];
    assert TrimSpace(r) == r by {
      assert TrimLeft(r, IsSpace) == r;
      assert TrimRight(r, IsSpace) == r;
    }
    assert ToLower(r) == r;
    PushAllKeepsTokens(r);
    assert TrimRight(r, IsDash) == r;
  }

  ghost function Dashed(s: string): string { Glue(Words(s, IsAlnum, IsSeparator), '-') }

  /** What the loop has built is the words so far, with a hyphen open after a separator. */
  lemma {:induction false} PushAllIsWords(s: string)
    ensures PushAll(s) == Dashed(s) + if AtBreak(s, IsAlnum, IsSeparator) && Dashed(s) != "" then "-" else ""
  {
    if s == [] {
      NoWords(IsAlnum, IsSeparator);
    } else {
      var front, c := s[..|s| - 1], s[|s| - 1];
      assert s == front + [c];
      PushAllIsWords(front);
      GlueEnds(front, IsAlnum, IsSeparator, '-');
      if IsAlnum(c) { IsKept(front, c, IsAlnum, IsSeparator, '-'); } else { NotKept(front, c, IsAlnum, IsSeparator); }
    }
  }

  lemma TrimDash(g: string)
    requires g != "" ==> IsAlnum(g[|g| - 1])
    ensures TrimRight(g, IsDash) == g && (g != "" ==> TrimRight(g + "-", IsDash) == g)
  {
    assert (g + "-")[..|g|] == g;
  }

  /** The token of an identifier is its words, joined by hyphens: letters and digits in lower case, cut at hyphens, dots
      and underscores, without anything else. */
  lemma SanitizeIsWords(s: string)
    ensures Sanitize(s) == Glue(Words(ToLower(TrimSpace(s)), IsAlnum, IsSeparator), '-')
  {
    var t := ToLower(TrimSpace(s));
    PushAllIsWords(t);
    GlueEnds(t, IsAlnum, IsSeparator, '-');
    TrimDash(Dashed(t));
    assert Dashed(t) + "" == Dashed(t);
  }

  // ----- tokens inside labels

  predicate BoundedBefore(a: string) { a == [] || a[|a| - 1] == '-' }
  predicate BoundedAfter(b: string) { b == [] || b[0] == '-' }

  predicate MatchesToken(lbl: string, token: string) {
    && lbl != "" && token != ""
    && (|| lbl == token || token + "-" <= lbl || Contains(lbl, "-" + token + "-")
        || (|lbl| >= |token| + 1 && lbl[|lbl| - |token| - 1..] == "-" + token))
  }

  ghost predicate BoundedOccurrence(lbl: string, token: string) {
    exists a, b :: Framed(lbl, a, token, b)
  }

  ghost predicate Framed(lbl: string, a: string, token: string, b: string) {
    lbl == a + token + b && BoundedBefore(a) && BoundedAfter(b)
  }

  /** The four tests together say: the token occurs, bounded by hyphens or the label's ends. */
  lemma TokenMatchIsBoundedOccurrence(lbl: string, token: string)
    requires token != ""
    ensures MatchesToken(lbl, token) <==> BoundedOccurrence(lbl, token)
  {
    if MatchesToken(lbl, token) { MatchIsBounded(lbl, token); }
    if BoundedOccurrence(lbl, token) {
      var a, b :| Framed(lbl, a, token, b);
      BoundedIsMatch(lbl, a, token, b);
    }
  }

  lemma MatchIsBounded(lbl: string, token: string)
    requires MatchesToken(lbl, token)
    ensures BoundedOccurrence(lbl, token)
  {
    if lbl == token {
      assert Framed(lbl, "", token, "");
    } else if token + "-" <= lbl {
      assert lbl == "" + token + lbl[|token|..];
      assert Framed(lbl, "", token, lbl[|token|..]);
    } else if Contains(lbl, "-" + token + "-") {
      var i :| 0 <= i <= |lbl| && OccursAt(lbl, "-" + token + "-", i);
      InnerMatch(lbl, token, i);
    } else {
      var k := |lbl| - |token| - 1;
      assert lbl == lbl[..k] + ("-" + token);
      assert lbl == (lbl[..k] + "-") + token + "";
      assert Framed(lbl, lbl[..k] + "-", token, "");
    }
  }

  lemma InnerMatch(lbl: string, token: string, i: nat)
    requires OccursAt(lbl, "-" + token + "-", i)
    ensures BoundedOccurrence(lbl, token)
  {
    var a, b := lbl[..i] + "-", "-" + lbl[i + |token| + 2..];
    assert lbl == lbl[..i] + ("-" + token + "-") + lbl[i + |token| + 2..];
    assert lbl == a + token + b;
    assert Framed(lbl, a, token, b);
  }

  lemma BoundedIsMatch(lbl: string, a: string, token: string, b: string)
    requires token != "" && Framed(lbl, a, token, b)
    ensures MatchesToken(lbl, token)
  {
    if a == [] && b == [] {
      assert lbl == token;
    } else if a == [] {
      assert lbl == token + "-" + b[1..];
    } else {
      var k := |a| - 1;
      assert a == a[..k] + "-";
      if b == [] {
        assert lbl == a[..k] + ("-" + token);
        assert lbl[k..] == "-" + token;
      } else {
        assert b == "-" + b[1..];
        assert lbl == a[..k] + ("-" + token + "-") + b[1..];
        assert lbl[k..k + |token| + 2] == "-" + token + "-";
        assert OccursAt(lbl, "-" + token + "-", k);
      }
    }
  }

  // ----- generated child labels: pg-{group}-{service}-{hash8}

  predicate IsLowerHex8(s: string) {
    |s| == 8 && forall i :: 0 <= i < 8 ==> '0' <= s[i] <= '9' || 'a' <= s[i] <= 'f'
  }

  /** digest gives the first eight hex digits of the SHA-256 of a text. */
  ghost predicate Decomposes(lbl: string, svc: string, key: string, digest: string -> string,
                             a: string, group: string, hash: string, b: string) {
    && lbl == a + ("pg-" + (group + ("-" + svc + "-" + (hash + b))))
    && BoundedBefore(a) && BoundedAfter(b) && group != "" && IsLowerHex8(hash)
    && digest(group + "/" + key) == hash
  }

  ghost predicate Generated(lbl: string, name: string, digest: string -> string) {
    SomeDecomposition(lbl, Sanitize(name), TrimSpace(name), digest)
  }

  /** The same by positions: "pg-" at i, the service's needle at m, the hash after it. */
  ghost predicate GeneratedAt(lbl: string, svc: string, key: string, digest: string -> string, i: int, m: int) {
    var needle := "-" + svc + "-";
    var h := m + |needle|;
    && OccursAt(lbl, "pg-", i) && (i == 0 || lbl[i - 1] == '-')
    && i + 3 < m && OccursAt(lbl, needle, m)
    && h + 8 <= |lbl| && (h + 8 == |lbl| || lbl[h + 8] == '-')
    && IsLowerHex8(lbl[h..h + 8])
    && digest(lbl[i + 3..m] + "/" + key) == lbl[h..h + 8]
  }

  lemma CutAt(s: string, i: nat, j: nat)
    requires i <= j <= |s|
    ensures s[i..] == s[i..j] + s[j..]
  {
  }

  lemma SplitAt(s: string, i: nat, j: nat, m: nat, h: nat, e: nat)
    requires i <= j <= m <= h <= e <= |s|
    ensures s == s[..i] + (s[i..j] + (s[j..m] + (s[m..h] + (s[h..e] + s[e..]))))
  {
    assert s == s[..i] + s[i..];
    CutAt(s, i, j);
    CutAt(s, j, m);
    CutAt(s, m, h);
    CutAt(s, h, e);
  }

  /** The middle part of a text of three, by position. */
  lemma Part(p: string, x: string, rest: string)
    ensures var s := p + (x + rest);
            s == (p + x) + rest && s[..|p|] == p && s[|p|..|p| + |x|] == x && s[|p| + |x|..] == rest
  {
  }

  lemma JoinAt(a: string, group: string, needle: string, hash: string, b: string)
    ensures var lbl := a + ("pg-" + (group + (needle + (hash + b))));
            var i, m := |a|, |a| + 3 + |group|;
            var h := m + |needle|;
            && OccursAt(lbl, "pg-", i) && OccursAt(lbl, needle, m)
            && lbl[..i] == a && lbl[i + 3..m] == group
            && lbl[h..h + |hash|] == hash && lbl[h + |hash|..] == b
  {
    Part(a, "pg-", group + (needle + (hash + b)));
    Part(a + "pg-", group, needle + (hash + b));
    Part(a + "pg-" + group, needle, hash + b);
    Part(a + "pg-" + group + needle, hash, b);
  }

  lemma PositionsOf(lbl: string, svc: string, key: string, digest: string -> string,
                    a: string, group: string, hash: string, b: string)
    requires Decomposes(lbl, svc, key, digest, a, group, hash, b)
    ensures GeneratedAt(lbl, svc, key, digest, |a|, |a| + 3 + |group|)
  {
    var needle := "-" + svc + "-";
    JoinAt(a, group, needle, hash, b);
    var i, m := |a|, |a| + 3 + |group|;
    var h := m + |needle|;
    BeforeAt(lbl, i);
    AfterAt(lbl, h + 8);
  }

  lemma BeforeAt(s: string, i: nat)
    requires i <= |s| && BoundedBefore(s[..i])
    ensures i == 0 || s[i - 1] == '-'
  {
  }

  lemma AfterAt(s: string, i: nat)
    requires i <= |s| && BoundedAfter(s[i..])
    ensures i == |s| || s[i] == '-'
  {
  }

  lemma DecompositionAt(lbl: string, svc: string, key: string, digest: string -> string, i: nat, m: nat)
    requires GeneratedAt(lbl, svc, key, digest, i, m)
    ensures var h := m + |svc| + 2;
            h + 8 <= |lbl| && Decomposes(lbl, svc, key, digest, lbl[..i], lbl[i + 3..m], lbl[h..h + 8], lbl[h + 8..])
  {
    var h := m + |svc| + 2;
    SplitAt(lbl, i, i + 3, m, h, h + 8);
  }

  ghost predicate SomePositions(lbl: string, svc: string, key: string, digest: string -> string) {
    exists i, m :: GeneratedAt(lbl, svc, key, digest, i, m)
  }

  ghost predicate SomeDecomposition(lbl: string, svc: string, key: string, digest: string -> string) {
    exists a, group, hash, b :: Decomposes(lbl, svc, key, digest, a, group, hash, b)
  }

  lemma DecompositionHasPositions(lbl: string, svc: string, key: string, digest: string -> string)
    requires SomeDecomposition(lbl, svc, key, digest)
    ensures SomePositions(lbl, svc, key, digest)
  {
    var a, group, hash, b :| Decomposes(lbl, svc, key, digest, a, group, hash, b);
    PositionsOf(lbl, svc, key, digest, a, group, hash, b);
  }

  lemma PositionsDecompose(lbl: string, svc: string, key: string, digest: string -> string)
    requires SomePositions(lbl, svc, key, digest)
    ensures SomeDecomposition(lbl, svc, key, digest)
  {
    var i, m :| GeneratedAt(lbl, svc, key, digest, i, m);
    DecompositionAt(lbl, svc, key, digest, i, m);
  }

  /** The scan for one "pg-" occurrence: every needle after it is tried. */
  method ScanNeedles(lbl: string, idx: nat, svc: string, key: string, digest: string -> string) returns (found: bool)
    requires svc != "" && OccursAt(lbl, "pg-", idx) && (idx == 0 || lbl[idx - 1] == '-')
    ensures found <==> SomeAt(lbl, svc, key, digest, idx)
  {
    var rem := lbl[idx..];
    var needle := "-" + svc + "-";
    if |rem| <= 12 { return false; }
    var searchFrom := 3;
    while searchFrom < |rem|
      invariant 3 <= searchFrom <= |rem|
      invariant forall m :: GeneratedAt(lbl, svc, key, digest, idx, m) ==> m >= idx + searchFrom
    {
      var pos := IndexFrom(rem, needle, searchFrom);
      if pos.None? {
        NoneLeft(lbl, idx, svc, key, digest, searchFrom);
        return false;
      }
      var matchIdx := pos.value;
      InLabel(lbl, idx, needle, matchIdx);
      forall m | GeneratedAt(lbl, svc, key, digest, idx, m) ensures m >= idx + matchIdx {
        InRem(lbl, idx, needle, m);
      }
      var ok := TestHash(lbl, idx, matchIdx, svc, key, digest);
      if ok { return true; }
      searchFrom := matchIdx + 1;
    }
    found := false;
  }

  lemma NoneLeft(lbl: string, idx: nat, svc: string, key: string, digest: string -> string, from: nat)
    requires idx + from <= |lbl| && IndexFrom(lbl[idx..], "-" + svc + "-", from).None?
    requires forall m :: GeneratedAt(lbl, svc, key, digest, idx, m) ==> m >= idx + from
    ensures forall m :: !GeneratedAt(lbl, svc, key, digest, idx, m)
  {
    forall m ensures !GeneratedAt(lbl, svc, key, digest, idx, m) {
      if m >= idx && OccursAt(lbl, "-" + svc + "-", m) { InRem(lbl, idx, "-" + svc + "-", m); }
    }
  }

  lemma InRem(lbl: string, idx: nat, needle: string, m: int)
    requires idx <= |lbl| && m >= idx && OccursAt(lbl, needle, m)
    ensures OccursAt(lbl[idx..], needle, m - idx)
  {
    assert lbl[idx..][m - idx..m - idx + |needle|] == lbl[m..m + |needle|];
  }

  lemma InLabel(lbl: string, idx: nat, needle: string, k: nat)
    requires idx <= |lbl| && OccursAt(lbl[idx..], needle, k)
    ensures OccursAt(lbl, needle, idx + k)
  {
    assert lbl[idx..][k..k + |needle|] == lbl[idx + k..idx + k + |needle|];
  }

  method TestHash(lbl: string, idx: nat, matchIdx: nat, svc: string, key: string, digest: string -> string)
    returns (ok: bool)
    requires OccursAt(lbl, "pg-", idx) && (idx == 0 || lbl[idx - 1] == '-')
    requires matchIdx >= 3 && OccursAt(lbl, "-" + svc + "-", idx + matchIdx)
    ensures ok <==> GeneratedAt(lbl, svc, key, digest, idx, idx + matchIdx)
  {
    var rem := lbl[idx..];
    var needle := "-" + svc + "-";
    var group := rem[3..matchIdx];
    assert group == lbl[idx + 3..idx + matchIdx];
    if group == "" { return false; }
    var hashStart := matchIdx + |needle|;
    if hashStart + 8 > |rem| { return false; }
    if hashStart + 8 < |rem| && rem[hashStart + 8] != '-' { return false; }
    var hashPart := rem[hashStart..hashStart + 8];
    assert hashPart == lbl[idx + hashStart..idx + hashStart + 8];
    if !IsLowerHex8(hashPart) { return false; }
    return digest(group + "/" + key) == hashPart;
  }

  /** No decomposition starts before the offset. */
  ghost predicate NoneBefore(lbl: string, svc: string, key: string, digest: string -> string, offset: int) {
    forall i, m :: GeneratedAt(lbl, svc, key, digest, i, m) ==> i >= offset
  }

  ghost predicate SomeAt(lbl: string, svc: string, key: string, digest: string -> string, i: int) {
    exists m :: GeneratedAt(lbl, svc, key, digest, i, m)
  }

  /** The next "pg-" has been tried in vain, so the search may go on three bytes later. */
  lemma SkipOccurrence(lbl: string, svc: string, key: string, digest: string -> string, offset: nat, idx: nat)
    requires NoneBefore(lbl, svc, key, digest, offset) && OccursAt(lbl, "pg-", idx)
    requires forall i :: offset <= i < idx ==> !OccursAt(lbl, "pg-", i)
    requires !SomeAt(lbl, svc, key, digest, idx)
    ensures NoneBefore(lbl, svc, key, digest, idx + 3)
  {
    NoOverlap(lbl, idx);
    forall i, m | GeneratedAt(lbl, svc, key, digest, i, m) ensures i >= idx + 3 {
      assert OccursAt(lbl, "pg-", i) && i != idx;
    }
  }

  method ScanLabel(lbl: string, svc: string, key: string, digest: string -> string) returns (r: bool)
    requires svc != ""
    ensures r <==> SomePositions(lbl, svc, key, digest)
  {
    var offset := 0;
    while offset < |lbl|
      invariant 0 <= offset <= |lbl| && NoneBefore(lbl, svc, key, digest, offset)
    {
      var rel := IndexFrom(lbl, "pg-", offset);
      if rel.None? { return false; }
      var idx := rel.value;
      var hit := false;
      if idx == 0 || lbl[idx - 1] == '-' { hit := ScanNeedles(lbl, idx, svc, key, digest); }
      if hit { return true; }
      SkipOccurrence(lbl, svc, key, digest, offset, idx);
      offset := idx + 3;
    }
    r := false;
  }

  /** The nested substring scan finds exactly the declared decomposition. */
  method IsGeneratedChildEnvLabel(lbl: string, serviceName: string, digest: string -> string) returns (r: bool)
    ensures r <==> Sanitize(serviceName) != "" && Generated(lbl, serviceName, digest)
  {
    var svc := SanitizeDNSLabel(serviceName);
    if svc == "" { return false; }
    var key := TrimSpace(serviceName);
    r := ScanLabel(lbl, svc, key, digest);
    if SomePositions(lbl, svc, key, digest) { PositionsDecompose(lbl, svc, key, digest); }
    if SomeDecomposition(lbl, svc, key, digest) { DecompositionHasPositions(lbl, svc, key, digest); }
  }

  lemma PgChars(lbl: string, i: nat)
    ensures OccursAt(lbl, "pg-", i) ==> lbl[i] == 'p' && lbl[i + 1] == 'g' && lbl[i + 2] == '-'
  {
    if OccursAt(lbl, "pg-", i) {
      assert lbl[i..i + 3][0] == lbl[i] && lbl[i..i + 3][1] == lbl[i + 1] && lbl[i..i + 3][2] == lbl[i + 2];
    }
  }

  /** "pg-" does not overlap itself, so skipping three bytes skips no occurrence. */
  lemma NoOverlap(lbl: string, idx: nat)
    requires OccursAt(lbl, "pg-", idx)
    ensures !OccursAt(lbl, "pg-", idx + 1) && !OccursAt(lbl, "pg-", idx + 2)
  {
    PgChars(lbl, idx);
    PgChars(lbl, idx + 1);
    PgChars(lbl, idx + 2);
  }
}
