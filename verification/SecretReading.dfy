/** Which secrets the fingerprint text tells apart: by path, type and the digests of their merged data. */
module SecretReading {
  import opened Text
  import opened Fingerprint
  import opened FingerprintReading
  import opened FingerprintLines
  import opened DeploymentReading

  /** What the secret holds once stringData is written over data. */
  function Merged(s: Secret): map<string, string> { s.data + s.stringData }

  lemma StringDataWins(s: Secret, k: string)
    ensures k in Merged(s) <==> k in s.stringData || k in s.data
    ensures k in s.stringData ==> Merged(s)[k] == s.stringData[k]
    ensures k in s.data && k !in s.stringData ==> Merged(s)[k] == s.data[k]
  {
  }

  /** Names and data keys as Kubernetes has them; the type may be any text. */
  predicate ValidSecret(s: Secret) {
    && '/' !in s.key.namespace && '|' !in s.key.namespace && '|' !in s.key.name
    && '\n' !in s.key.namespace && '\n' !in s.key.name && PlainKeys(Merged(s))
  }

  ghost predicate SameSecret(s: Secret, t: Secret, sum: string -> string) {
    s.key == t.key && s.kind == t.kind && Sums(Merged(s), sum) == Sums(Merged(t), sum)
  }

  ghost function DigestLines(s: Secret, sum: string -> string): string { MapLines("data", Sums(Merged(s), sum)) }

  /** The part of the text after the path. */
  ghost function AfterPath(s: Secret, sum: string -> string): string {
    s.kind + ['\n'] + DigestLines(s, sum)
  }

  lemma TextIsPathAndRest(s: Secret, sum: string -> string)
    ensures SecretText(s, sum) == ("secret:" + Path(s.key)) + ['|'] + ("type:" + AfterPath(s, sum))
  {
    assert "|type:" == ['|'] + "type:";
    RegroupAll("secret:" + Path(s.key), ['|'], "type:", s.kind, ['\n'], DigestLines(s, sum));
  }

  lemma RegroupAll(a: string, b: string, c: string, d: string, e: string, f: string)
    ensures a + (b + c) + d + e + f == a + b + (c + (d + e + f))
  {
    Regroup(a, b, c);
    Regroup(a + b + c + d, e, f);
    Regroup(a + b + c, d, e + f);
    Regroup(d, e, f);
    Regroup(a + b, c, d + e + f);
  }

  lemma SamePath(s: Secret, t: Secret, sum: string -> string)
    requires ValidSecret(s) && ValidSecret(t) && SecretText(s, sum) == SecretText(t, sum)
    ensures s.key == t.key && AfterPath(s, sum) == AfterPath(t, sum)
  {
    TextIsPathAndRest(s, sum);
    TextIsPathAndRest(t, sum);
    FirstField('|', "secret:" + Path(s.key), "type:" + AfterPath(s, sum),
               "secret:" + Path(t.key), "type:" + AfterPath(t, sum));
    SameTail("secret:", Path(s.key), Path(t.key));
    SameTail("type:", AfterPath(s, sum), AfterPath(t, sum));
    PathInjective(s.key, t.key);
  }

  lemma SameSecretText(s: Secret, t: Secret, sum: string -> string)
    requires s.key == t.key && AfterPath(s, sum) == AfterPath(t, sum)
    ensures SecretText(s, sum) == SecretText(t, sum)
  {
    TextIsPathAndRest(s, sum);
    TextIsPathAndRest(t, sum);
  }

  lemma SumsArePlain(m: map<string, string>, sum: string -> string)
    requires PlainKeys(m) && OneLined(sum)
    ensures PlainKeys(Sums(m, sum)) && PlainValues(Sums(m, sum))
  {
  }

  /** Secrets with a single-line type have the same text exactly when path, type and digests agree: a rotated value
      shows as soon as its digest differs. */
  lemma PlainSecretsApart(s: Secret, t: Secret, sum: string -> string)
    requires ValidSecret(s) && ValidSecret(t) && '\n' !in s.kind && '\n' !in t.kind && OneLined(sum)
    ensures SecretText(s, sum) == SecretText(t, sum) <==> SameSecret(s, t, sum)
  {
    if SecretText(s, sum) == SecretText(t, sum) {
      SamePath(s, t, sum);
      FirstField('\n', s.kind, DigestLines(s, sum), t.kind, DigestLines(t, sum));
      SumsArePlain(Merged(s), sum);
      SumsArePlain(Merged(t), sum);
      OneSection("data", Sums(Merged(s), sum), Sums(Merged(t), sum));
    }
  }

  // ----- exactly which secrets have a text of their own, whatever their type

  /** The type ends, after a newline, in what the digest lines of some data would be. */
  ghost predicate SpellsData(kind: string, sum: string -> string) {
    exists w, y :: y != map[] && PlainKeys(y) && TypeEndsIn(kind, w, Sums(y, sum))
  }

  ghost predicate TypeEndsIn(kind: string, w: string, x: map<string, string>) {
    kind + ['\n'] == w + ['\n'] + MapLines("data", x)
  }

  lemma NoDigestLines(sum: string -> string)
    ensures MapLines("data", Sums(map[], sum)) == ""
  {
    assert Sums(map[], sum) == map[];
    NoLines("data");
  }

  lemma DigestLinesEnd(s: Secret, sum: string -> string)
    requires Merged(s) != map[]
    ensures DigestLines(s, sum) != "" && DigestLines(s, sum)[|DigestLines(s, sum)| - 1] == '\n'
  {
    SomeSums(Merged(s), sum);
    LinesShape("data", Sums(Merged(s), sum));
  }

  /** A secret with data reads like one without, whose type holds the lines. */
  lemma FoldIntoType(s: Secret, sum: string -> string) returns (t: Secret)
    requires ValidSecret(s) && Merged(s) != map[]
    ensures ValidSecret(t) && SecretText(t, sum) == SecretText(s, sum) && !SameSecret(s, t, sum)
  {
    var lines := DigestLines(s, sum);
    DigestLinesEnd(s, sum);
    t := Secret(s.key, s.kind + ['\n'] + lines[..|lines| - 1], map[], map[]);
    OnlyData(t);
    AllInType(t, sum);
    LastEnds(s.kind + ['\n'], lines);
    SameSecretText(t, s, sum);
    SomeSums(Merged(s), sum);
    SomeSums(Merged(t), sum);
  }

  lemma AllInType(t: Secret, sum: string -> string)
    requires Merged(t) == map[]
    ensures AfterPath(t, sum) == t.kind + ['\n']
  {
    NoDigestLines(sum);
  }

  lemma LastEnds(a: string, lines: string)
    requires lines != "" && lines[|lines| - 1] == '\n'
    ensures a + lines[..|lines| - 1] + ['\n'] == a + lines
  {
    assert lines == lines[..|lines| - 1] + ['\n'];
    Regroup(a, lines[..|lines| - 1], ['\n']);
  }

  lemma UnfoldFromType(s: Secret, sum: string -> string) returns (t: Secret)
    requires ValidSecret(s) && Merged(s) == map[] && SpellsData(s.kind, sum)
    ensures ValidSecret(t) && SecretText(t, sum) == SecretText(s, sum) && !SameSecret(s, t, sum)
  {
    var w, y :| y != map[] && PlainKeys(y) && TypeEndsIn(s.kind, w, Sums(y, sum));
    t := WithData(s, w, y, sum);
  }

  lemma WithData(s: Secret, w: string, y: map<string, string>, sum: string -> string) returns (t: Secret)
    requires ValidSecret(s) && Merged(s) == map[] && PlainKeys(y) && y != map[]
    requires TypeEndsIn(s.kind, w, Sums(y, sum))
    ensures ValidSecret(t) && SecretText(t, sum) == SecretText(s, sum) && !SameSecret(s, t, sum)
  {
    t := Secret(s.key, w, y, map[]);
    OnlyData(t);
    AllInType(s, sum);
    SameSecretText(t, s, sum);
    SomeSums(y, sum);
    SomeSums(Merged(s), sum);
  }

  lemma OnlyData(s: Secret)
    requires s.stringData == map[]
    ensures Merged(s) == s.data
  {
  }

  lemma NoOtherSecret(s: Secret, t: Secret, sum: string -> string)
    requires ValidSecret(s) && ValidSecret(t) && SecretText(s, sum) == SecretText(t, sum)
    requires Merged(s) == map[] && !SpellsData(s.kind, sum)
    ensures SameSecret(s, t, sum)
  {
    SamePath(s, t, sum);
    NoDigestLines(sum);
    if Merged(t) != map[] {
      assert TypeEndsIn(s.kind, t.kind, Sums(Merged(t), sum));
    } else {
      LastField('\n', s.kind, "", t.kind, "");
    }
  }

  /** A secret has its text to itself exactly when it holds no data and its type does not end in lines of data. */
  lemma OwnSecretTextExactly(s: Secret, sum: string -> string)
    requires ValidSecret(s)
    ensures (forall t :: ValidSecret(t) && SecretText(t, sum) == SecretText(s, sum) ==> SameSecret(s, t, sum))
       <==> Merged(s) == map[] && !SpellsData(s.kind, sum)
  {
    if Merged(s) != map[] {
      var t := FoldIntoType(s, sum);
    } else if SpellsData(s.kind, sum) {
      var t := UnfoldFromType(s, sum);
    } else {
      forall t | ValidSecret(t) && SecretText(t, sum) == SecretText(s, sum) ensures SameSecret(s, t, sum) {
        NoOtherSecret(s, t, sum);
      }
    }
  }
}
