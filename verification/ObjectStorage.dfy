/** Object-storage previews: key prefixes, injected variables and paginated teardown for S3, MinIO and GCS. */
module ObjectStorage {
  import opened Text
  import opened Tokens

  // ----- key prefixes

  predicate IsSlash(c: char) { c == '/' }

  function Clean(s: string): string { Trim(TrimSpace(s), IsSlash) }

  function TargetPart(target: string): string {
    var t := Clean(target);
    if t == "" || t == "default" then "" else t + "/"
  }

  function KeyPrefix(target: string, envName: string, namespace: string): string {
    var ns, tail := Clean(namespace), Clean(envName) + "/" + TargetPart(target);
    if ns != "" then "previews/" + (ns + "/" + tail) else "previews/" + tail
  }

  function NamespacedKeyPrefix(namespace: string, target: string, envName: string): string {
    KeyPrefix(target, envName, OrDefault(Clean(namespace)))
  }

  function OrDefault(ns: string): string { if ns == "" then "default" else ns }

  /** The namespace a preview is filed under. */
  function FiledUnder(namespace: string): string { OrDefault(TrimSpace(namespace)) }

  lemma NothingToTrim(s: string, cut: char -> bool)
    requires s == [] || (!cut(s[0]) && !cut(s[|s| - 1]))
    ensures Trim(s, cut) == s
  {
  }

  lemma CleanOfSlashFree(s: string)
    requires '/' !in s
    ensures Clean(s) == TrimSpace(s) && EndsClean(TrimSpace(s)) && '/' !in TrimSpace(s)
  {
    var t := TrimSpace(s);
    TrimEnds(s, IsSpace);
    NothingToTrim(t, IsSlash);
  }

  lemma AlreadyClean(s: string)
    requires EndsClean(s)
    ensures Clean(s) == s
  {
    NothingToTrim(s, IsSpace);
    NothingToTrim(s, IsSlash);
  }

  lemma FiledIsClean(namespace: string)
    requires '/' !in namespace
    ensures FiledUnder(namespace) != "" && '/' !in FiledUnder(namespace)
    ensures FiledUnder(namespace) == OrDefault(Clean(namespace)) == Clean(FiledUnder(namespace))
  {
    CleanOfSlashFree(namespace);
    OrDefaultIsName(TrimSpace(namespace));
    OrDefaultIsClean(TrimSpace(namespace));
  }

  lemma OrDefaultIsName(t: string)
    requires '/' !in t
    ensures OrDefault(t) != "" && '/' !in OrDefault(t)
  {
  }

  predicate EndsClean(s: string) {
    s == [] || (!IsSpace(s[0]) && !IsSpace(s[|s| - 1]) && !IsSlash(s[0]) && !IsSlash(s[|s| - 1]))
  }

  lemma OrDefaultIsClean(t: string)
    requires EndsClean(t)
    ensures Clean(OrDefault(t)) == OrDefault(t)
  {
    var d := OrDefault(t);
    assert EndsClean(d);
    AlreadyClean(d);
  }

  lemma PrefixShape(namespace: string, target: string, envName: string)
    requires '/' !in namespace && '/' !in envName
    ensures NamespacedKeyPrefix(namespace, target, envName)
         == "previews/" + (FiledUnder(namespace) + "/" + (TrimSpace(envName) + "/" + TargetPart(target)))
  {
    FiledIsClean(namespace);
    CleanOfSlashFree(envName);
    var f := FiledUnder(namespace);
    assert NamespacedKeyPrefix(namespace, target, envName) == KeyPrefix(target, envName, f);
  }

  lemma AfterOpening(p: string, name: string, tail: string, key: string) returns (rest: string)
    requires p + (name + "/" + tail) <= key
    ensures |p| <= |key| && key[|p|..] == name + ['/'] + rest && tail <= rest
  {
    rest := key[|p| + |name| + 1..];
    assert key == (p + (name + "/" + tail)) + key[|p + (name + "/" + tail)|..];
    assert key[|p|..] == (name + "/" + tail) + key[|p + (name + "/" + tail)|..];
    assert rest == tail + key[|p + (name + "/" + tail)|..];
  }

  lemma SameFirst(p: string, name1: string, tail1: string, name2: string, tail2: string, key: string)
    returns (rest: string)
    requires '/' !in name1 && '/' !in name2
    requires p + (name1 + "/" + tail1) <= key && p + (name2 + "/" + tail2) <= key
    ensures name1 == name2 && tail1 <= rest && tail2 <= rest
  {
    rest := AfterOpening(p, name1, tail1, key);
    var rest2 := AfterOpening(p, name2, tail2, key);
    FirstField('/', name1, rest, name2, rest2);
  }

  lemma SameTwoFields(p: string, a1: string, b1: string, t1: string, a2: string, b2: string, t2: string, key: string)
    requires '/' !in a1 && '/' !in b1 && '/' !in a2 && '/' !in b2
    requires p + (a1 + "/" + (b1 + "/" + t1)) <= key && p + (a2 + "/" + (b2 + "/" + t2)) <= key
    ensures a1 == a2 && b1 == b2
  {
    var rest := SameFirst(p, a1, b1 + "/" + t1, a2, b2 + "/" + t2, key);
    assert "" + (b1 + "/" + t1) <= rest && "" + (b2 + "/" + t2) <= rest;
    var _ := SameFirst("", b1, t1, b2, t2, rest);
  }

  /** A key under the prefixes of two environments puts them in one namespace under one name. */
  lemma StorageIsolation(ns1: string, target1: string, env1: string, ns2: string, target2: string, env2: string,
                         key: string)
    requires '/' !in ns1 && '/' !in env1 && '/' !in ns2 && '/' !in env2
    requires NamespacedKeyPrefix(ns1, target1, env1) <= key && NamespacedKeyPrefix(ns2, target2, env2) <= key
    ensures FiledUnder(ns1) == FiledUnder(ns2) && TrimSpace(env1) == TrimSpace(env2)
  {
    var f1, e1, t1 := FieldsOf(ns1, target1, env1);
    var f2, e2, t2 := FieldsOf(ns2, target2, env2);
    SameTwoFields("previews/", f1, e1, t1, f2, e2, t2, key);
  }

  lemma FieldsOf(ns: string, target: string, envName: string) returns (f: string, e: string, t: string)
    requires '/' !in ns && '/' !in envName
    ensures f == FiledUnder(ns) && e == TrimSpace(envName) && '/' !in f && '/' !in e
    ensures NamespacedKeyPrefix(ns, target, envName) == "previews/" + (f + "/" + (e + "/" + t))
  {
    f, e, t := FiledUnder(ns), TrimSpace(envName), TargetPart(target);
    PrefixShape(ns, target, envName);
    FiledIsClean(ns);
    CleanOfSlashFree(envName);
  }

  /** The target a route names; the default one has no name of its own. */
  function NamedTarget(target: string): string { if Clean(target) == "default" then "" else Clean(target) }

  lemma TargetOpens(ns: string, target: string, envName: string)
    requires '/' !in ns && '/' !in envName
    ensures NamespacedKeyPrefix(ns, target, envName)
         == Opening(ns, envName) + if NamedTarget(target) == "" then "" else NamedTarget(target) + "/"
  {
    PrefixShape(ns, target, envName);
  }

  function Opening(ns: string, envName: string): string {
    "previews/" + (FiledUnder(ns) + "/" + (TrimSpace(envName) + "/"))
  }

  /** Two targets of one environment can share an object key exactly when they are the same or one of them is the
      default, whose prefix covers the whole environment. */
  lemma TargetsShareExactly(ns: string, envName: string, target1: string, target2: string)
    requires '/' !in ns && '/' !in envName && '/' !in NamedTarget(target1) && '/' !in NamedTarget(target2)
    ensures (exists key :: HasPrefix(key, NamespacedKeyPrefix(ns, target1, envName))
                           && HasPrefix(key, NamespacedKeyPrefix(ns, target2, envName)))
       <==> NamedTarget(target1) == NamedTarget(target2) || NamedTarget(target1) == "" || NamedTarget(target2) == ""
  {
    var n1, n2 := NamedTarget(target1), NamedTarget(target2);
    var p1, p2 := NamespacedKeyPrefix(ns, target1, envName), NamespacedKeyPrefix(ns, target2, envName);
    TargetOpens(ns, target1, envName);
    TargetOpens(ns, target2, envName);
    if n1 == "" || n1 == n2 { assert HasPrefix(p2, p1) && HasPrefix(p2, p2); }
    if n2 == "" { assert HasPrefix(p1, p2) && HasPrefix(p1, p1); }
    if n1 != "" && n2 != "" {
      forall key | HasPrefix(key, p1) && HasPrefix(key, p2) ensures n1 == n2 {
        SameTarget(Opening(ns, envName), n1, n2, key);
      }
    }
  }

  lemma SameTarget(open: string, n1: string, n2: string, key: string)
    requires open + (n1 + "/") <= key && open + (n2 + "/") <= key && '/' !in n1 && '/' !in n2
    ensures n1 == n2
  {
    var rest1 := AfterPrefix(open, n1 + "/", key);
    var rest2 := AfterPrefix(open, n2 + "/", key);
    FirstField('/', n1, rest1, n2, rest2);
  }

  // ----- injected variables

  /** A storage route; defaultMapped says that it has no explicit variable mapping. */
  datatype Route = Route(protocol: string, target: string, defaultMapped: bool)

  predicate IsStorageProtocol(protocol: string) {
    var p := ToLower(TrimSpace(protocol));
    p == "s3" || p == "gcs" || p == "minio"
  }

  predicate Counted(r: Route) { IsStorageProtocol(r.protocol) && r.defaultMapped }

  predicate IsNamed(target: string) { Clean(target) != "" && !EqualFold(Clean(target), "default") }

  predicate IsUpperAlnum(c: char) { 'A' <= c <= 'Z' || '0' <= c <= '9' }
  predicate IsUnderscore(c: char) { c == '_' }

  function Squeeze(s: string): string {
    if s == [] then ""
    else
      var b, c := Squeeze(s[..|s| - 1]), s[|s| - 1];
      if IsUpperAlnum(c) then b + [c]
      else if b == [] || b[|b| - 1] != '_' then b + ['_']
      else b
  }

  function EnvSuffix(target: string): string {
    if !IsNamed(target) then "DEFAULT"
    else
      var r := Trim(Squeeze(ToUpper(Clean(target))), IsUnderscore);
      if r == "" then "DEFAULT" else r
  }

  method SqueezeBytes(upper: string) returns (b: string)
    ensures b == Squeeze(upper)
  {
    b := "";
    var lastUnderscore := false;
    for i := 0 to |upper|
      invariant b == Squeeze(upper[..i]) && (lastUnderscore <==> b != [] && b[|b| - 1] == '_')
    {
      assert upper[..i + 1][..i] == upper[..i];
      var ch := upper[i];
      if IsUpperAlnum(ch) {
        b := b + [ch];
        lastUnderscore := false;
      } else if !lastUnderscore {
        b := b + ['_'];
        lastUnderscore := true;
      }
    }
    assert upper[..|upper|] == upper;
  }

  method SanitizeSuffix(target: string) returns (r: string)
    ensures r == EnvSuffix(target)
  {
    var trimmed := Clean(target);
    if trimmed == "" || EqualFold(trimmed, "default") { return "DEFAULT"; }
    var b := SqueezeBytes(ToUpper(trimmed));
    var res := Trim(b, IsUnderscore);
    r := if res == "" then "DEFAULT" else res;
  }

  predicate NotUpperAlnum(c: char) { !IsUpperAlnum(c) }

  ghost function Underscored(s: string): string { Glue(Words(s, IsUpperAlnum, NotUpperAlnum), '_') }

  function Lead(s: string): string { if s != [] && !IsUpperAlnum(s[0]) then "_" else "" }

  ghost predicate Trails(s: string) { AtBreak(s, IsUpperAlnum, NotUpperAlnum) && Underscored(s) != "" }

  function Framed(lead: string, g: string, trails: bool): string { lead + (g + if trails then "_" else "") }

  lemma SqueezeSnoc(s: string, c: char)
    ensures Squeeze(s + [c]) == if IsUpperAlnum(c) then Squeeze(s) + [c] else Closed(Squeeze(s))
  {
    assert (s + [c])[..|s|] == s;
  }

  lemma FramedKept(lead: string, g: string, trails: bool, c: char)
    ensures Framed(lead, g, trails) + [c] == Framed(lead, if trails then g + ['_'] + [c] else g + [c], false)
  {
  }

  lemma FramedLast(lead: string, g: string, trails: bool)
    requires (lead == "" || lead == "_") && (g != "" ==> IsUpperAlnum(g[|g| - 1])) && (trails ==> g != "")
    ensures var b := Framed(lead, g, trails);
            (b == [] || b[|b| - 1] != '_') <==> if g == "" then lead == "" else !trails
  {
    var b := Framed(lead, g, trails);
    if g != "" && !trails { assert b[|b| - 1] == g[|g| - 1]; }
  }

  lemma KeptFacts(s: string, c: char)
    requires IsUpperAlnum(c)
    ensures Squeeze(s + [c]) == Squeeze(s) + [c]
    ensures Underscored(s + [c]) == if Trails(s) then Underscored(s) + ['_'] + [c] else Underscored(s) + [c]
    ensures !Trails(s + [c]) && Lead(s + [c]) == Lead(s)
  {
    SqueezeSnoc(s, c);
    GlueEnds(s, IsUpperAlnum, NotUpperAlnum, '_');
    IsKept(s, c, IsUpperAlnum, NotUpperAlnum, '_');
    assert "" + [c] == [c];
    if s != [] { assert (s + [c])[0] == s[0]; }
  }

  lemma SqueezeKept(s: string, c: char)
    requires IsUpperAlnum(c) && Squeeze(s) == Framed(Lead(s), Underscored(s), Trails(s))
    ensures Squeeze(s + [c]) == Framed(Lead(s + [c]), Underscored(s + [c]), Trails(s + [c]))
    ensures Underscored(s + [c]) != ""
  {
    KeptFacts(s, c);
    FramedKept(Lead(s), Underscored(s), Trails(s), c);
  }

  function Closed(b: string): string { if b == [] || b[|b| - 1] != '_' then b + ['_'] else b }

  lemma FramedCut(lead: string, g: string, trails: bool)
    requires (lead == "" || lead == "_") && (g != "" ==> IsUpperAlnum(g[|g| - 1])) && (trails ==> g != "")
    ensures Closed(Framed(lead, g, trails)) == if g == "" then Framed("_", "", false) else Framed(lead, g, true)
  {
    FramedLast(lead, g, trails);
    FramedUnderscore(lead, g);
  }

  lemma SqueezeCut(s: string, c: char)
    requires !IsUpperAlnum(c) && Squeeze(s) == Framed(Lead(s), Underscored(s), Trails(s))
    requires s != [] && Underscored(s) == "" ==> Lead(s) == "_"
    ensures Squeeze(s + [c]) == Framed(Lead(s + [c]), Underscored(s + [c]), Trails(s + [c]))
    ensures Underscored(s + [c]) == "" ==> Lead(s + [c]) == "_"
  {
    CutFacts(s, c);
    GlueEnds(s, IsUpperAlnum, NotUpperAlnum, '_');
    FramedCut(Lead(s), Underscored(s), Trails(s));
  }

  lemma CutFacts(s: string, c: char)
    requires !IsUpperAlnum(c)
    ensures Squeeze(s + [c]) == Closed(Squeeze(s))
    ensures Underscored(s + [c]) == Underscored(s) && Trails(s + [c]) == (Underscored(s) != "")
    ensures if s == [] then Lead(s + [c]) == "_" && Underscored(s) == "" else Lead(s + [c]) == Lead(s)
  {
    SqueezeSnoc(s, c);
    NotKept(s, c, IsUpperAlnum, NotUpperAlnum);
    NoWords(IsUpperAlnum, NotUpperAlnum);
    if s != [] { assert (s + [c])[0] == s[0]; }
  }

  lemma FramedUnderscore(lead: string, g: string)
    ensures Framed(lead, g, false) + ['_'] == Framed(lead, g, true)
    ensures Framed("", "", false) + ['_'] == Framed("_", "", false)
  {
  }

  /** What the loop has built is the words so far, with an underscore for what comes before and after them. */
  lemma {:induction false} SqueezeIsWords(s: string)
    ensures Squeeze(s) == Framed(Lead(s), Underscored(s), Trails(s))
    ensures s != [] && Underscored(s) == "" ==> Lead(s) == "_"
  {
    if s == [] {
      NoWords(IsUpperAlnum, NotUpperAlnum);
    } else {
      var front, c := s[..|s| - 1], s[|s| - 1];
      assert s == front + [c];
      SqueezeIsWords(front);
      if IsUpperAlnum(c) { SqueezeKept(front, c); } else { SqueezeCut(front, c); }
    }
  }

  lemma TrimFrame(lead: string, g: string, trails: bool)
    requires (lead == "" || lead == "_") && (trails ==> g != "")
    requires g != "" ==> IsUpperAlnum(g[0]) && IsUpperAlnum(g[|g| - 1])
    ensures Trim(Framed(lead, g, trails), IsUnderscore) == g
  {
    var t := g + if trails then "_" else "";
    assert TrimLeft(t, IsUnderscore) == t;
    assert lead == "_" ==> (lead + t)[1..] == t;
    assert lead == "" ==> lead + t == t;
    assert TrimLeft(lead + t, IsUnderscore) == t;
    assert trails ==> t[..|t| - 1] == g;
    assert TrimRight(g, IsUnderscore) == g;
  }

  /** The suffix of a named target is its words in upper case, joined by underscores; without any it is DEFAULT. */
  lemma SuffixIsWords(target: string)
    ensures var g := Glue(Words(ToUpper(Clean(target)), IsUpperAlnum, NotUpperAlnum), '_');
            EnvSuffix(target) == if !IsNamed(target) || g == "" then "DEFAULT" else g
  {
    var s := ToUpper(Clean(target));
    SqueezeIsWords(s);
    GlueEnds(s, IsUpperAlnum, NotUpperAlnum, '_');
    TrimFrame(Lead(s), Underscored(s), Trails(s));
  }

  datatype Var = StoragePrefix | S3Prefix | AwsPrefix | GcsPrefix | Bucket | Endpoint

  function Name(v: Var): string {
    match v
    case StoragePrefix => "DIVERGE_STORAGE_PREFIX"
    case S3Prefix => "S3_KEY_PREFIX"
    case AwsPrefix => "AWS_S3_PREFIX"
    case GcsPrefix => "GCS_KEY_PREFIX"
    case Bucket => "DIVERGE_STORAGE_BUCKET"
    case Endpoint => "DIVERGE_STORAGE_ENDPOINT"
  }

  /** A name with something appended tells which variable it is and what was appended. */
  lemma NamesApart(v: Var, x: string, w: Var, y: string)
    requires Name(v) + x == Name(w) + y
    ensures v == w && x == y
  {
    var s := Name(v) + x;
    assert s[0] == Name(v)[0] == Name(w)[0];
    if |Name(v)| > 16 { assert s[16] == Name(v)[16]; }
    if |Name(w)| > 16 { assert s[16] == Name(w)[16]; }
    assert v == w;
    assert s[|Name(v)|..] == x && s[|Name(w)|..] == y;
  }

  function CountIf<T>(xs: seq<T>, p: T -> bool): nat {
    if xs == [] then 0 else CountIf(xs[..|xs| - 1], p) + if p(xs[|xs| - 1]) then 1 else 0
  }

  lemma CountStep<T>(xs: seq<T>, i: nat, p: T -> bool)
    requires i < |xs|
    ensures CountIf(xs[..i + 1], p) == CountIf(xs[..i], p) + if p(xs[i]) then 1 else 0
  {
    assert xs[..i + 1][..i] == xs[..i];
  }

  lemma {:induction false} CountsOne<T>(xs: seq<T>, i: nat, p: T -> bool)
    requires i < |xs| && p(xs[i])
    ensures CountIf(xs, p) >= 1
    decreases |xs|
  {
    if i < |xs| - 1 { CountsOne(xs[..|xs| - 1], i, p); }
  }

  lemma {:induction false} CountsTwo<T>(xs: seq<T>, i: nat, j: nat, p: T -> bool)
    requires i < j < |xs| && p(xs[i]) && p(xs[j])
    ensures CountIf(xs, p) >= 2
    decreases |xs|
  {
    if j < |xs| - 1 { CountsTwo(xs[..|xs| - 1], i, j, p); } else { CountsOne(xs[..|xs| - 1], i, p); }
  }

  predicate CountedAs(r: Route, suffix: string) { Counted(r) && EnvSuffix(r.target) == suffix }

  function Count(routes: seq<Route>): nat { CountIf(routes, Counted) }

  function CountSuffix(routes: seq<Route>, suffix: string): nat { CountIf(routes, r => CountedAs(r, suffix)) }

  /** The variables written under one name ending; bucket and endpoint only if they are known. */
  function Vars(tail: string, prefix: string, bucket: string, endpoint: string): map<string, string> {
    map[Name(StoragePrefix) + tail := prefix, Name(S3Prefix) + tail := prefix,
        Name(AwsPrefix) + tail := prefix, Name(GcsPrefix) + tail := prefix]
    + (if bucket != "" then map[Name(Bucket) + tail := bucket] else map[])
    + (if endpoint != "" then map[Name(Endpoint) + tail := endpoint] else map[])
  }

  function RouteVars(plain: bool, named: bool, suffix: string, prefix: string, bucket: string, endpoint: string)
    : map<string, string>
  {
    (if plain then Vars("", prefix, bucket, endpoint) else map[])
    + (if named then Vars("_" + suffix, prefix, bucket, endpoint) else map[])
  }

  /** What provisioning a default-mapped route yields; None is the refusal of a clashing suffix. */
  function Provisioned(routes: seq<Route>, target: string, prefix: string, bucket: string, endpoint: string)
    : Option<map<string, string>>
  {
    var suffix := EnvSuffix(target);
    if Count(routes) > 1 && CountSuffix(routes, suffix) > 1 then None
    else Some(RouteVars(Count(routes) <= 1 || !IsNamed(target), IsNamed(target), suffix, prefix, bucket, endpoint))
  }

  method CountRoutes(routes: seq<Route>, suffix: string) returns (all: nat, same: nat)
    ensures all == Count(routes) && same == CountSuffix(routes, suffix)
  {
    all, same := 0, 0;
    ghost var p := r => CountedAs(r, suffix);
    for i := 0 to |routes|
      invariant all == CountIf(routes[..i], Counted) && same == CountIf(routes[..i], p)
    {
      CountStep(routes, i, Counted);
      CountStep(routes, i, p);
      var r := routes[i];
      var s := SanitizeSuffix(r.target);
      assert p(r) == (Counted(r) && s == suffix);
      if Counted(r) {
        all := all + 1;
        if s == suffix { same := same + 1; }
      }
    }
    assert routes[..|routes|] == routes;
  }

  method Provision(routes: seq<Route>, target: string, prefix: string, bucket: string, endpoint: string)
    returns (r: Option<map<string, string>>)
    ensures r == Provisioned(routes, target, prefix, bucket, endpoint)
  {
    var suffix := SanitizeSuffix(target);
    var all, same := CountRoutes(routes, suffix);
    if all > 1 && same > 1 { return None; }
    var named := IsNamed(target);
    var vars := WriteVars(all <= 1 || !named, named, suffix, prefix, bucket, endpoint);
    return Some(vars);
  }

  method WriteVars(plain: bool, named: bool, suffix: string, prefix: string, bucket: string, endpoint: string)
    returns (vars: map<string, string>)
    ensures vars == RouteVars(plain, named, suffix, prefix, bucket, endpoint)
  {
    vars := map[];
    if plain { vars := vars + Vars("", prefix, bucket, endpoint); }
    assert plain ==> vars == Vars("", prefix, bucket, endpoint);
    if named { vars := vars + Vars("_" + suffix, prefix, bucket, endpoint); }
    else { assert vars + map[] == vars; }
  }

  lemma VarKey(tail: string, prefix: string, bucket: string, endpoint: string, k: string) returns (v: Var)
    requires k in Vars(tail, prefix, bucket, endpoint)
    ensures k == Name(v) + tail
  {
    v := if k == Name(StoragePrefix) + tail then StoragePrefix
         else if k == Name(S3Prefix) + tail then S3Prefix
         else if k == Name(AwsPrefix) + tail then AwsPrefix
         else if k == Name(GcsPrefix) + tail then GcsPrefix
         else if k == Name(Bucket) + tail then Bucket else Endpoint;
  }

  lemma TailsApart(t1: string, t2: string, p1: string, b1: string, e1: string, p2: string, b2: string, e2: string)
    requires t1 != t2
    ensures Vars(t1, p1, b1, e1).Keys !! Vars(t2, p2, b2, e2).Keys
  {
    forall k | k in Vars(t1, p1, b1, e1) ensures k !in Vars(t2, p2, b2, e2) {
      if k in Vars(t2, p2, b2, e2) {
        var v := VarKey(t1, p1, b1, e1, k);
        var w := VarKey(t2, p2, b2, e2, k);
        NamesApart(v, t1, w, t2);
      }
    }
  }

  function ValueOf(v: Var, prefix: string, bucket: string, endpoint: string): string {
    if v == Bucket then bucket else if v == Endpoint then endpoint else prefix
  }

  /** Bucket and endpoint are written only if they are known. */
  predicate Given(v: Var, bucket: string, endpoint: string) {
    (v == Bucket ==> bucket != "") && (v == Endpoint ==> endpoint != "")
  }

  ghost predicate Holds(m: map<string, string>, k: string, value: string) { k in m && m[k] == value }

  lemma VarWritten(tail: string, prefix: string, bucket: string, endpoint: string, v: Var)
    ensures var m := Vars(tail, prefix, bucket, endpoint);
            if Given(v, bucket, endpoint) then Holds(m, Name(v) + tail, ValueOf(v, prefix, bucket, endpoint))
            else Name(v) + tail !in m
  {
    forall w | Name(w) + tail == Name(v) + tail ensures w == v { NamesApart(w, tail, v, tail); }
    OtherNames(tail, v);
  }

  lemma OtherNames(tail: string, v: Var)
    ensures v != Bucket ==> Name(v) + tail != Name(Bucket) + tail
    ensures v != Endpoint ==> Name(v) + tail != Name(Endpoint) + tail
    ensures v in {Bucket, Endpoint} ==>
              Name(v) + tail !in {Name(StoragePrefix) + tail, Name(S3Prefix) + tail, Name(AwsPrefix) + tail,
                                  Name(GcsPrefix) + tail}
  {
    forall w | Name(w) + tail == Name(v) + tail ensures w == v { NamesApart(w, tail, v, tail); }
  }

  ghost predicate Writes(tail: string, prefix: string, bucket: string, endpoint: string, k: string, value: string) {
    exists v :: k == Name(v) + tail && Given(v, bucket, endpoint) && value == ValueOf(v, prefix, bucket, endpoint)
  }

  lemma VarsExactly(tail: string, prefix: string, bucket: string, endpoint: string, k: string, value: string)
    ensures Holds(Vars(tail, prefix, bucket, endpoint), k, value) <==> Writes(tail, prefix, bucket, endpoint, k, value)
  {
    if Holds(Vars(tail, prefix, bucket, endpoint), k, value) {
      var v := VarKey(tail, prefix, bucket, endpoint, k);
      VarWritten(tail, prefix, bucket, endpoint, v);
    }
    if v :| k == Name(v) + tail && Given(v, bucket, endpoint) && value == ValueOf(v, prefix, bucket, endpoint) {
      VarWritten(tail, prefix, bucket, endpoint, v);
    }
  }

  /** The endings under which a route writes its variables: none, if it is the only default-mapped storage route or has
      the default target, and its own suffix, if it is named. */
  predicate Ending(routes: seq<Route>, target: string, tail: string) {
    || (tail == "" && (Count(routes) <= 1 || !IsNamed(target)))
    || (tail == "_" + EnvSuffix(target) && IsNamed(target))
  }

  /** Exactly which variables a provisioned route writes, and what each holds. */
  lemma ProvisionedExactly(routes: seq<Route>, target: string, prefix: string, bucket: string, endpoint: string,
                           k: string, value: string)
    requires Provisioned(routes, target, prefix, bucket, endpoint).Some?
    ensures Holds(Provisioned(routes, target, prefix, bucket, endpoint).value, k, value)
       <==> exists tail :: Ending(routes, target, tail) && Writes(tail, prefix, bucket, endpoint, k, value)
  {
    var suffix, plain := EnvSuffix(target), Count(routes) <= 1 || !IsNamed(target);
    VarsExactly("", prefix, bucket, endpoint, k, value);
    VarsExactly("_" + suffix, prefix, bucket, endpoint, k, value);
    GroupsHold(plain, IsNamed(target), suffix, prefix, bucket, endpoint, k, value);
    assert plain ==> Ending(routes, target, "");
    assert IsNamed(target) ==> Ending(routes, target, "_" + suffix);
  }

  lemma GroupsHold(plain: bool, named: bool, suffix: string, prefix: string, bucket: string, endpoint: string,
                   k: string, value: string)
    ensures Holds(RouteVars(plain, named, suffix, prefix, bucket, endpoint), k, value)
       <==> || (plain && Holds(Vars("", prefix, bucket, endpoint), k, value))
            || (named && Holds(Vars("_" + suffix, prefix, bucket, endpoint), k, value))
  {
    TailsApart("", "_" + suffix, prefix, bucket, endpoint, prefix, bucket, endpoint);
  }

  lemma {:induction false} CountsMore<T>(xs: seq<T>, p: T -> bool, q: T -> bool)
    requires forall i :: 0 <= i < |xs| && p(xs[i]) ==> q(xs[i])
    ensures CountIf(xs, p) <= CountIf(xs, q)
    decreases |xs|
  {
    if xs != [] { CountsMore(xs[..|xs| - 1], p, q); }
  }

  lemma {:induction false} OneCounted<T>(xs: seq<T>, p: T -> bool) returns (i: nat)
    requires CountIf(xs, p) >= 1
    ensures i < |xs| && p(xs[i])
    decreases |xs|
  {
    i := |xs| - 1;
    if !p(xs[i]) { i := OneCounted(xs[..|xs| - 1], p); }
  }

  lemma {:induction false} TwoCounted<T>(xs: seq<T>, p: T -> bool) returns (i: nat, j: nat)
    requires CountIf(xs, p) >= 2
    ensures i < j < |xs| && p(xs[i]) && p(xs[j])
    decreases |xs|
  {
    j := |xs| - 1;
    if p(xs[j]) { i := OneCounted(xs[..|xs| - 1], p); } else { i, j := TwoCounted(xs[..|xs| - 1], p); }
  }

  /** A route is refused exactly when two default-mapped storage routes share its suffix. */
  lemma RefusedExactly(routes: seq<Route>, target: string, prefix: string, bucket: string, endpoint: string)
    ensures Provisioned(routes, target, prefix, bucket, endpoint).None?
       <==> exists i, j :: 0 <= i < j < |routes| && CountedAs(routes[i], EnvSuffix(target))
                           && CountedAs(routes[j], EnvSuffix(target))
  {
    var suffix := EnvSuffix(target);
    var p := r => CountedAs(r, suffix);
    CountsMore(routes, p, Counted);
    if CountSuffix(routes, suffix) > 1 {
      var i, j := TwoCounted(routes, p);
      assert CountedAs(routes[i], suffix) && CountedAs(routes[j], suffix);
    }
    if i, j :| 0 <= i < j < |routes| && CountedAs(routes[i], suffix) && CountedAs(routes[j], suffix) {
      CountsTwo(routes, i, j, p);
    }
  }

  /** If two default-mapped storage routes of one environment both provision, they write no variable in common. */
  lemma NoVariableCollision(routes: seq<Route>, i: nat, j: nat,
                            p1: string, b1: string, e1: string, p2: string, b2: string, e2: string)
    requires i < j < |routes| && Counted(routes[i]) && Counted(routes[j])
    requires Provisioned(routes, routes[i].target, p1, b1, e1).Some?
    requires Provisioned(routes, routes[j].target, p2, b2, e2).Some?
    ensures Provisioned(routes, routes[i].target, p1, b1, e1).value.Keys
         !! Provisioned(routes, routes[j].target, p2, b2, e2).value.Keys
  {
    var t1, t2 := routes[i].target, routes[j].target;
    var s1, s2 := EnvSuffix(t1), EnvSuffix(t2);
    CountsTwo(routes, i, j, Counted);
    if s1 == s2 { CountsTwo(routes, i, j, r => CountedAs(r, s1)); }
    var tail1 := if IsNamed(t1) then "_" + s1 else "";
    var tail2 := if IsNamed(t2) then "_" + s2 else "";
    if IsNamed(t1) && IsNamed(t2) { assert tail1[1..] == s1 && tail2[1..] == s2; }
    assert tail1 != tail2;
    TailsApart(tail1, tail2, p1, b1, e1, p2, b2, e2);
    OneGroup(t1, s1, p1, b1, e1);
    OneGroup(t2, s2, p2, b2, e2);
  }

  lemma OneGroup(target: string, suffix: string, prefix: string, bucket: string, endpoint: string)
    ensures RouteVars(!IsNamed(target), IsNamed(target), suffix, prefix, bucket, endpoint)
         == Vars(if IsNamed(target) then "_" + suffix else "", prefix, bucket, endpoint)
  {
    assert map[] + Vars("_" + suffix, prefix, bucket, endpoint) == Vars("_" + suffix, prefix, bucket, endpoint);
  }
}
