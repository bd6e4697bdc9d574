/** The baseline fingerprint: what is fed to the hash, and that it depends on the objects alone. */
module Fingerprint {
  import opened Text

  // ----- the objects

  datatype Ref = ConfigKey(name: string, key: string) | SecretKey(name: string, key: string) | NoRef
  datatype EnvVar = EnvVar(name: string, value: string, from: Ref)
  datatype EnvFrom = EnvFrom(prefix: string, configMap: string, secret: string)
  datatype Port = Port(name: string, number: int, protocol: string)
  datatype Container = Container(name: string, image: string, command: seq<string>, args: seq<string>,
                                 ports: seq<Port>, env: seq<EnvVar>, envFrom: seq<EnvFrom>)

  /** The config maps and secrets a volume mounts, projected sources included. */
  datatype Volume = Volume(configMaps: seq<string>, secrets: seq<string>)

  datatype Key = Key(namespace: string, name: string)

  datatype Deployment = Deployment(key: Key, labels: map<string, string>, annotations: map<string, string>,
                                   inits: seq<Container>, containers: seq<Container>, volumes: seq<Volume>)
  datatype ConfigMap = ConfigMap(key: Key, data: map<string, string>, binary: map<string, string>)
  datatype Secret = Secret(key: Key, kind: string, data: map<string, string>, stringData: map<string, string>)

  datatype Lookup<+T> = Found(value: T) | Missing | Failed

  function DeploymentKey(d: Deployment): Key { d.key }
  function ConfigMapKey(c: ConfigMap): Key { c.key }
  function SecretKeyOf(s: Secret): Key { s.key }

  /** The sort key of an object. */
  function PathBy<T>(keyOf: T -> Key): T -> string { x => Path(keyOf(x)) }

  function Path(k: Key): string { k.namespace + "/" + k.name }

  lemma PathInjective(a: Key, b: Key)
    requires '/' !in a.namespace && '/' !in b.namespace && Path(a) == Path(b)
    ensures a == b
  {
    FirstField('/', a.namespace, a.name, b.namespace, b.name);
  }

  // ----- sorting by key

  ghost predicate Keyed<T>(s: set<T>, key: T -> string) {
    forall x, y :: x in s && y in s && key(x) == key(y) ==> x == y
  }

  ghost predicate InOrder<T>(xs: seq<T>, key: T -> string) {
    forall i, j :: 0 <= i < j < |xs| ==> Less(key(xs[i]), key(xs[j]))
  }

  /** One order only: two key-ordered enumerations of a set are equal. */
  lemma OrderUnique<T>(xs: seq<T>, ys: seq<T>, key: T -> string)
    requires InOrder(xs, key) && InOrder(ys, key) && Elems(xs) == Elems(ys) && Keyed(Elems(xs), key)
    ensures xs == ys
  {
    var kx, ky := Mapped(xs, key), Mapped(ys, key);
    KeysElems(xs, ys, key);
    KeysElems(ys, xs, key);
    AscendingUnique(kx, ky);
    forall i | 0 <= i < |xs| ensures xs[i] == ys[i] {
      assert kx[i] == ky[i] && xs[i] in Elems(xs) && ys[i] in Elems(ys);
    }
  }

  lemma KeysElems<T>(xs: seq<T>, ys: seq<T>, key: T -> string)
    requires Elems(xs) <= Elems(ys)
    ensures Elems(Mapped(xs, key)) <= Elems(Mapped(ys, key))
  {
    forall k | k in Elems(Mapped(xs, key)) ensures k in Elems(Mapped(ys, key)) {
      var i :| 0 <= i < |xs| && Mapped(xs, key)[i] == k;
      assert xs[i] in Elems(ys);
      var j :| 0 <= j < |ys| && ys[j] == xs[i];
      assert Mapped(ys, key)[j] == k;
    }
  }

  function InsertBy<T>(x: T, xs: seq<T>, key: T -> string): seq<T> {
    if xs == [] then [x]
    else if Less(key(x), key(xs[0])) then [x] + xs
    else [xs[0]] + InsertBy(x, xs[1..], key)
  }

  lemma {:induction false} InsertElems<T>(x: T, xs: seq<T>, key: T -> string)
    ensures Elems(InsertBy(x, xs, key)) == Elems(xs) + {x}
  {
    if xs != [] && !Less(key(x), key(xs[0])) {
      InsertElems(x, xs[1..], key);
      ConsElems(xs[0], xs[1..]);
      ConsElems(xs[0], InsertBy(x, xs[1..], key));
      assert xs == [xs[0]] + xs[1..];
    } else {
      ConsElems(x, xs);
      assert xs == [] ==> [x] + xs == [x];
    }
  }

  lemma {:induction false} InsertKeepsOrder<T>(x: T, xs: seq<T>, key: T -> string)
    requires InOrder(xs, key) && forall i :: 0 <= i < |xs| ==> key(xs[i]) != key(x)
    ensures InOrder(InsertBy(x, xs, key), key) && Elems(InsertBy(x, xs, key)) == Elems(xs) + {x}
  {
    InsertElems(x, xs, key);
    if xs != [] {
      LessTrichotomy(key(x), key(xs[0]));
      if Less(key(x), key(xs[0])) {
        forall j | 0 < j < |xs| ensures Less(key(x), key(xs[j])) {
          LessTransitive(key(x), key(xs[0]), key(xs[j]));
        }
      } else {
        InsertKeepsOrder(x, xs[1..], key);
        FirstBelow(x, xs, key);
      }
    }
  }

  lemma FirstBelow<T>(x: T, xs: seq<T>, key: T -> string)
    requires xs != [] && InOrder(xs, key) && Less(key(xs[0]), key(x))
    requires Elems(InsertBy(x, xs[1..], key)) == Elems(xs[1..]) + {x}
    ensures var r := InsertBy(x, xs[1..], key); forall j :: 0 <= j < |r| ==> Less(key(xs[0]), key(r[j]))
  {
    var r := InsertBy(x, xs[1..], key);
    forall j | 0 <= j < |r| ensures Less(key(xs[0]), key(r[j])) {
      assert r[j] in Elems(xs[1..]) + {x};
    }
  }

  ghost function Ordered<T>(s: set<T>, key: T -> string): (r: seq<T>)
    requires Keyed(s, key)
    ensures InOrder(r, key) && Elems(r) == s
  {
    if s == {} then []
    else
      var x :| x in s;
      var rest := Ordered(s - {x}, key);
      assert forall i :: 0 <= i < |rest| ==> key(rest[i]) != key(x) by {
        forall i | 0 <= i < |rest| ensures key(rest[i]) != key(x) { assert rest[i] in Elems(rest); }
      }
      InsertKeepsOrder(x, rest, key);
      InsertBy(x, rest, key)
  }

  /** sort.Slice over a list without repeats, by a key that tells its members apart. */
  method SortBy<T>(xs: seq<T>, key: T -> string) returns (r: seq<T>)
    requires NoDup(xs) && Keyed(Elems(xs), key)
    ensures r == Ordered(Elems(xs), key)
  {
    r := [];
    for i := 0 to |xs|
      invariant InOrder(r, key) && Elems(r) == Elems(xs[..i])
    {
      assert xs[..i + 1] == xs[..i] + [xs[i]];
      forall j | 0 <= j < |r| ensures key(r[j]) != key(xs[i]) {
        assert r[j] in Elems(r);
        assert r[j] in xs[..i];
        assert xs[i] in Elems(xs) && r[j] in Elems(xs);
      }
      InsertKeepsOrder(xs[i], r, key);
      r := InsertBy(xs[i], r, key);
    }
    assert xs[..|xs|] == xs;
    OrderUnique(r, Ordered(Elems(xs), key), key);
  }

  // ----- which objects count

  function NonBlank(names: seq<string>): set<string> {
    set n | n in names && TrimSpace(n) != "" :: TrimSpace(n)
  }

  method CollectTargets(names: seq<string>) returns (targets: set<string>)
    ensures targets == NonBlank(names)
  {
    targets := {};
    for i := 0 to |names|
      invariant targets == NonBlank(names[..i])
    {
      NonBlankStep(names, i);
      var trimmed := TrimSpace(names[i]);
      if trimmed != "" { targets := targets + {trimmed}; }
    }
    assert names[..|names|] == names;
  }

  lemma NonBlankStep(names: seq<string>, i: nat)
    requires i < |names|
    ensures NonBlank(names[..i + 1])
         == NonBlank(names[..i]) + if TrimSpace(names[i]) != "" then {TrimSpace(names[i])} else {}
  {
    assert names[..i + 1] == names[..i] + [names[i]];
  }

  function LabelOf(d: Deployment, k: string): string { if k in d.labels then d.labels[k] else "" }

  predicate Matched(d: Deployment, targets: set<string>) {
    var role, svc := LabelOf(d, "divergedev.com/role"), LabelOf(d, "divergedev.com/service");
    var target := targets != {} && ((svc != "" && svc in targets) || (d.key.name != "" && d.key.name in targets));
    && role != "preview" && LabelOf(d, "divergedev.com/environment") == ""
    && ((role == "baseline" && (targets == {} || target)) || target)
  }

  ghost function MatchedIn(listing: seq<Deployment>, targets: set<string>): set<Deployment> {
    set d | d in listing && Matched(d, targets)
  }

  lemma MatchedStep(listing: seq<Deployment>, i: nat, targets: set<string>)
    requires i < |listing|
    ensures MatchedIn(listing[..i + 1], targets)
         == MatchedIn(listing[..i], targets) + if Matched(listing[i], targets) then {listing[i]} else {}
    ensures NoDup(listing) ==> listing[i] !in MatchedIn(listing[..i], targets)
  {
    assert listing[..i + 1] == listing[..i] + [listing[i]];
  }

  method MatchDeployments(listing: seq<Deployment>, targets: set<string>) returns (r: seq<Deployment>)
    requires NoDup(listing)
    ensures NoDup(r) && Elems(r) == MatchedIn(listing, targets)
  {
    r := [];
    for i := 0 to |listing|
      invariant NoDup(r) && Elems(r) == MatchedIn(listing[..i], targets)
    {
      MatchedStep(listing, i, targets);
      if Matched(listing[i], targets) {
        PushNoDup(r, listing[i]);
        r := r + [listing[i]];
      }
    }
    assert listing[..|listing|] == listing;
  }

  function Flat<T>(xs: seq<T>, f: T -> seq<string>): seq<string> {
    if xs == [] then [] else f(xs[0]) + Flat(xs[1..], f)
  }

  function FromConfigMap(e: EnvFrom): seq<string> { [e.configMap] }
  function FromSecret(e: EnvFrom): seq<string> { [e.secret] }
  function VarConfigMap(e: EnvVar): seq<string> { if e.from.ConfigKey? then [e.from.name] else [] }
  function VarSecret(e: EnvVar): seq<string> { if e.from.SecretKey? then [e.from.name] else [] }
  function VolumeConfigMaps(v: Volume): seq<string> { v.configMaps }
  function VolumeSecrets(v: Volume): seq<string> { v.secrets }

  function ContainerConfigMaps(c: Container): seq<string> {
    Flat(c.envFrom, FromConfigMap) + Flat(c.env, VarConfigMap)
  }

  function ContainerSecrets(c: Container): seq<string> {
    Flat(c.envFrom, FromSecret) + Flat(c.env, VarSecret)
  }

  function ConfigMapNames(d: Deployment): seq<string> {
    Flat(d.inits, ContainerConfigMaps) + Flat(d.containers, ContainerConfigMaps)
    + Flat(d.volumes, VolumeConfigMaps)
  }

  function SecretNames(d: Deployment): seq<string> {
    Flat(d.inits, ContainerSecrets) + Flat(d.containers, ContainerSecrets) + Flat(d.volumes, VolumeSecrets)
  }

  /** The objects a set of deployments refers to, each in its deployment's namespace. */
  ghost function Referenced(ds: set<Deployment>, names: Deployment -> seq<string>): set<Key> {
    set d, n | d in ds && n in NonBlank(names(d)) :: Key(d.key.namespace, n)
  }

  method CollectRefs(ds: seq<Deployment>, names: Deployment -> seq<string>) returns (keys: set<Key>)
    ensures keys == Referenced(Elems(ds), names)
  {
    keys := {};
    for i := 0 to |ds|
      invariant keys == Referenced(Elems(ds[..i]), names)
    {
      assert ds[..i + 1] == ds[..i] + [ds[i]];
      assert Elems(ds[..i + 1]) == Elems(ds[..i]) + {ds[i]};
      var trimmed := CollectTargets(names(ds[i]));
      var ns := ds[i].key.namespace;
      keys := keys + set n | n in trimmed :: Key(ns, n);
    }
    assert ds[..|ds|] == ds;
  }

  // ----- fetching them, in any order

  ghost function FoundIn<T>(keys: set<Key>, get: Key -> Lookup<T>): set<T> {
    set k | k in keys && get(k).Found? :: get(k).value
  }

  ghost predicate Readable<T>(keys: set<Key>, get: Key -> Lookup<T>) {
    forall k :: k in keys ==> !get(k).Failed?
  }

  /** What is found under a key carries that key. */
  ghost predicate Consistent<T>(get: Key -> Lookup<T>, keyOf: T -> Key) {
    forall k :: get(k).Found? ==> keyOf(get(k).value) == k
  }

  method FetchAll<T>(keys: set<Key>, get: Key -> Lookup<T>, ghost keyOf: T -> Key) returns (ok: bool, found: seq<T>)
    requires Consistent(get, keyOf)
    ensures ok <==> Readable(keys, get)
    ensures ok ==> NoDup(found) && Elems(found) == FoundIn(keys, get)
  {
    found := [];
    var todo := keys;
    while todo != {}
      invariant todo <= keys && NoDup(found) && Elems(found) == FoundIn(keys - todo, get) && Readable(keys - todo, get)
      decreases todo
    {
      var k :| k in todo;
      var got := get(k);
      if got.Failed? { return false, found; }
      if got.Found? {
        PushNoDup(found, got.value);
        found := found + [got.value];
      }
      FoundStep(keys - todo, k, get);
      assert keys - (todo - {k}) == (keys - todo) + {k};
      todo := todo - {k};
    }
    assert keys - {} == keys;
    ok := true;
  }

  lemma FoundStep<T>(keys: set<Key>, k: Key, get: Key -> Lookup<T>)
    ensures FoundIn(keys + {k}, get) == FoundIn(keys, get) + if get(k).Found? then {get(k).value} else {}
  {
  }

  // ----- the bytes fed to the hash

  ghost function Concat<T>(xs: seq<T>, text: T -> string): string {
    if xs == [] then "" else Concat(xs[..|xs| - 1], text) + text(xs[|xs| - 1])
  }

  lemma ConcatStep<T>(xs: seq<T>, i: nat, text: T -> string)
    requires i < |xs|
    ensures Concat(xs[..i + 1], text) == Concat(xs[..i], text) + text(xs[i])
  {
    assert xs[..i + 1][..i] == xs[..i];
  }

  function Line(tag: string, k: string, v: string): string { tag + ":" + k + "=" + v + "\n" }

  /** One line per entry, keys ascending. */
  ghost function MapLines(tag: string, m: map<string, string>): string {
    Concat(Enumerate(m.Keys), EntryText(tag, m))
  }

  ghost function EntryText(tag: string, m: map<string, string>): string -> string {
    k => if k in m then Line(tag, k, m[k]) else ""
  }

  method WriteMap(h0: string, tag: string, m: map<string, string>) returns (h: string)
    ensures h == h0 + MapLines(tag, m)
  {
    var keys := SortedKeys(m.Keys);
    assert forall i :: 0 <= i < |keys| ==> keys[i] in Elems(keys);
    var lines := WriteEntries(tag, keys, m);
    h := h0 + lines;
  }

  method WriteEntries(tag: string, keys: seq<string>, m: map<string, string>) returns (lines: string)
    requires forall i :: 0 <= i < |keys| ==> keys[i] in m
    ensures lines == Concat(keys, EntryText(tag, m))
  {
    lines := "";
    for i := 0 to |keys|
      invariant lines == Concat(keys[..i], EntryText(tag, m))
    {
      ConcatStep(keys, i, EntryText(tag, m));
      lines := lines + Line(tag, keys[i], m[keys[i]]);
    }
    assert keys[..|keys|] == keys;
  }

  function Joined(xs: seq<string>): string {
    if xs == [] then "" else if |xs| == 1 then xs[0] else xs[0] + "\0" + Joined(xs[1..])
  }

  function Texts<T>(xs: seq<T>, text: T -> string): string {
    if xs == [] then "" else text(xs[0]) + Texts(xs[1..], text)
  }

  function EnvLine(e: EnvVar): string {
    "env:" + e.name + "=" + e.value + "("
    + (match e.from
       case ConfigKey(n, k) => "cm:" + n + ":" + k
       case SecretKey(n, k) => "sec:" + n + ":" + k
       case NoRef => "") + ")\n"
  }

  function PortLine(p: Port): string { "port:" + p.name + ":" + Dec(p.number) + "/" + p.protocol + "\n" }

  function FromLine(e: EnvFrom): string {
    "envFrom:prefix=" + e.prefix + "|cm=" + e.configMap + "|sec=" + e.secret + "\n"
  }

  function ContainerText(prefix: string, c: Container): string {
    prefix + ":" + c.name + "|image:" + c.image + "|cmd:" + Joined(c.command) + "|args:" + Joined(c.args) + "\n"
    + Texts(c.ports, PortLine) + Texts(c.env, EnvLine) + Texts(c.envFrom, FromLine)
  }

  function ContainerTexts(prefix: string): Container -> string { c => ContainerText(prefix, c) }

  function Containers(d: Deployment): string {
    Texts(d.inits, ContainerTexts("init-container")) + Texts(d.containers, ContainerTexts("container"))
  }

  ghost function DeploymentText(d: Deployment): string {
    "deploy:" + Path(d.key) + "\n" + MapLines("pod-anno", d.annotations) + Containers(d)
  }

  function Sums(m: map<string, string>, sum: string -> string): map<string, string> { map k | k in m :: sum(m[k]) }

  ghost function ConfigMapText(c: ConfigMap, sum: string -> string): string {
    "cm:" + Path(c.key) + "\n" + MapLines("data", c.data) + MapLines("bdata", Sums(c.binary, sum))
  }

  ghost function ConfigMapTexts(sum: string -> string): ConfigMap -> string { c => ConfigMapText(c, sum) }

  ghost function SecretText(s: Secret, sum: string -> string): string {
    "secret:" + Path(s.key) + "|type:" + s.kind + "\n" + MapLines("data", Sums(s.data + s.stringData, sum))
  }

  ghost function SecretTexts(sum: string -> string): Secret -> string { s => SecretText(s, sum) }

  ghost function Section<T>(s: set<T>, keyOf: T -> Key, text: T -> string): string {
    if Keyed(s, PathBy(keyOf)) then Concat(Ordered(s, PathBy(keyOf)), text) else ""
  }

  /** The hash input as a function of three sets of objects. */
  ghost function Stream(ds: set<Deployment>, cs: set<ConfigMap>, ss: set<Secret>, sum: string -> string): string {
    Section(ds, DeploymentKey, DeploymentText)
    + Section(cs, ConfigMapKey, ConfigMapTexts(sum))
    + Section(ss, SecretKeyOf, SecretTexts(sum))
  }

  method WriteDeployment(h0: string, d: Deployment) returns (h: string)
    ensures h == h0 + DeploymentText(d)
  {
    ghost var head := "deploy:" + Path(d.key) + "\n";
    h := h0 + ("deploy:" + Path(d.key) + "\n");
    h := WriteMap(h, "pod-anno", d.annotations);
    Regroup(h0, head, MapLines("pod-anno", d.annotations));
    h := h + Containers(d);
    Regroup(h0, head + MapLines("pod-anno", d.annotations), Containers(d));
  }

  method WriteConfigMap(h0: string, c: ConfigMap, sum: string -> string) returns (h: string)
    ensures h == h0 + ConfigMapText(c, sum)
  {
    ghost var head := "cm:" + Path(c.key) + "\n";
    h := h0 + ("cm:" + Path(c.key) + "\n");
    h := WriteMap(h, "data", c.data);
    Regroup(h0, head, MapLines("data", c.data));
    h := WriteMap(h, "bdata", Sums(c.binary, sum));
    Regroup(h0, head + MapLines("data", c.data), MapLines("bdata", Sums(c.binary, sum)));
  }

  method WriteSecret(h0: string, s: Secret, sum: string -> string) returns (h: string)
    ensures h == h0 + SecretText(s, sum)
  {
    ghost var head := "secret:" + Path(s.key) + "|type:" + s.kind + "\n";
    h := h0 + ("secret:" + Path(s.key) + "|type:" + s.kind + "\n");
    h := WriteMap(h, "data", Sums(s.data + s.stringData, sum));
    Regroup(h0, head, MapLines("data", Sums(s.data + s.stringData, sum)));
  }

  method WriteDeployments(ds: seq<Deployment>) returns (h: string)
    ensures h == Concat(ds, DeploymentText)
  {
    h := "";
    for i := 0 to |ds|
      invariant h == Concat(ds[..i], DeploymentText)
    {
      ConcatStep(ds, i, DeploymentText);
      h := WriteDeployment(h, ds[i]);
    }
    assert ds[..|ds|] == ds;
  }

  method WriteConfigMaps(h0: string, cs: seq<ConfigMap>, sum: string -> string) returns (h: string)
    ensures h == h0 + Concat(cs, ConfigMapTexts(sum))
  {
    h := h0;
    for i := 0 to |cs|
      invariant h == h0 + Concat(cs[..i], ConfigMapTexts(sum))
    {
      ConcatStep(cs, i, ConfigMapTexts(sum));
      h := WriteConfigMap(h, cs[i], sum);
      Regroup(h0, Concat(cs[..i], ConfigMapTexts(sum)), ConfigMapText(cs[i], sum));
    }
    assert cs[..|cs|] == cs;
  }

  method WriteSecrets(h0: string, ss: seq<Secret>, sum: string -> string) returns (h: string)
    ensures h == h0 + Concat(ss, SecretTexts(sum))
  {
    h := h0;
    for i := 0 to |ss|
      invariant h == h0 + Concat(ss[..i], SecretTexts(sum))
    {
      ConcatStep(ss, i, SecretTexts(sum));
      h := WriteSecret(h, ss[i], sum);
      Regroup(h0, Concat(ss[..i], SecretTexts(sum)), SecretText(ss[i], sum));
    }
    assert ss[..|ss|] == ss;
  }

  /** The three sorted loops that feed the hash. */
  method WriteStream(ds: seq<Deployment>, cs: seq<ConfigMap>, ss: seq<Secret>, sum: string -> string)
    returns (h: string)
    ensures h == Concat(ds, DeploymentText) + Concat(cs, ConfigMapTexts(sum)) + Concat(ss, SecretTexts(sum))
  {
    h := WriteDeployments(ds);
    h := WriteConfigMaps(h, cs, sum);
    h := WriteSecrets(h, ss, sum);
  }

  // ----- the whole computation

  /** What the cluster and the environment supply; lists come in any order. */
  datatype Inputs = Inputs(services: seq<string>, envNamespace: string, envSecrets: seq<Key>,
                           listing: seq<Deployment>, manifests: seq<Key>,
                           configMap: Key -> Lookup<ConfigMap>, secret: Key -> Lookup<Secret>, sum: string -> string)

  datatype Result = Unreadable | NoBaseline | Hashed(text: string)

  /** Kubernetes names: namespaces hold no slash, and a list names each object once. */
  ghost predicate WellNamed(x: Inputs) {
    && '/' !in x.envNamespace
    && (forall d :: d in x.listing ==> '/' !in d.key.namespace)
    && (forall k :: k in x.manifests ==> '/' !in k.namespace)
    && (forall i, j :: 0 <= i < j < |x.listing| ==> x.listing[i].key != x.listing[j].key)
    && Consistent(x.configMap, ConfigMapKey) && Consistent(x.secret, SecretKeyOf)
  }

  ghost function EnvSecretKeys(refs: seq<Key>, ns: string): set<Key> {
    set r | r in refs && (TrimSpace(r.namespace) == "" || TrimSpace(r.namespace) == ns) && TrimSpace(r.name) != ""
      :: Key(ns, TrimSpace(r.name))
  }

  method CollectEnvSecrets(refs: seq<Key>, ns: string) returns (keys: set<Key>)
    ensures keys == EnvSecretKeys(refs, ns)
  {
    keys := {};
    for i := 0 to |refs|
      invariant keys == EnvSecretKeys(refs[..i], ns)
    {
      assert refs[..i + 1] == refs[..i] + [refs[i]];
      var refNS, name := TrimSpace(refs[i].namespace), TrimSpace(refs[i].name);
      if (refNS == "" || refNS == ns) && name != "" { keys := keys + {Key(ns, name)}; }
    }
    assert refs[..|refs|] == refs;
  }

  ghost function Baseline(x: Inputs): set<Deployment> { MatchedIn(x.listing, NonBlank(x.services)) }

  ghost function ConfigMapKeys(x: Inputs): set<Key> {
    Referenced(Baseline(x), ConfigMapNames) + Elems(x.manifests)
  }

  ghost function SecretKeys(x: Inputs): set<Key> {
    Referenced(Baseline(x), SecretNames) + EnvSecretKeys(x.envSecrets, x.envNamespace)
  }

  ghost function Outcome(x: Inputs): Result {
    var ds, ck, sk := Baseline(x), ConfigMapKeys(x), SecretKeys(x);
    if !Readable(ck, x.configMap) || !Readable(sk, x.secret) then Unreadable
    else
      var cs, ss := FoundIn(ck, x.configMap), FoundIn(sk, x.secret);
      if ds == {} && cs == {} && ss == {} then NoBaseline else Hashed(Stream(ds, cs, ss, x.sum))
  }

  lemma KeyedByPath<T>(s: set<T>, keyOf: T -> Key)
    requires forall x, y :: x in s && y in s && keyOf(x) == keyOf(y) ==> x == y
    requires forall x :: x in s ==> '/' !in keyOf(x).namespace
    ensures Keyed(s, PathBy(keyOf))
  {
    forall x, y | x in s && y in s && Path(keyOf(x)) == Path(keyOf(y)) ensures x == y {
      PathInjective(keyOf(x), keyOf(y));
    }
  }

  lemma FoundIsKeyed<T>(keys: set<Key>, get: Key -> Lookup<T>, keyOf: T -> Key)
    requires Consistent(get, keyOf) && forall k :: k in keys ==> '/' !in k.namespace
    ensures Keyed(FoundIn(keys, get), PathBy(keyOf))
  {
    KeyedByPath(FoundIn(keys, get), keyOf);
  }

  lemma KeysAreWellNamed(x: Inputs)
    requires WellNamed(x)
    ensures forall k :: k in ConfigMapKeys(x) + SecretKeys(x) ==> '/' !in k.namespace
    ensures NoDup(x.listing) && Keyed(Baseline(x), PathBy(DeploymentKey))
  {
    KeyedByPath(Baseline(x), DeploymentKey);
  }

  method SortedSection<T>(xs: seq<T>, keyOf: T -> Key, ghost text: T -> string) returns (r: seq<T>)
    requires NoDup(xs) && Keyed(Elems(xs), PathBy(keyOf))
    ensures Concat(r, text) == Section(Elems(xs), keyOf, text)
  {
    r := SortBy(xs, PathBy(keyOf));
  }

  /** The stream hashed, or the verdict without one, is a function of sets: of the matched deployments, of the
      config maps and secrets they and the environment refer to, and of nothing else. */
  method Compute(x: Inputs) returns (r: Result)
    requires WellNamed(x)
    ensures r == Outcome(x)
  {
    KeysAreWellNamed(x);
    var targets := CollectTargets(x.services);
    var ds := MatchDeployments(x.listing, targets);
    var ck := CollectRefs(ds, ConfigMapNames);
    ck := ck + set k | k in x.manifests;
    var sk := CollectRefs(ds, SecretNames);
    var more := CollectEnvSecrets(x.envSecrets, x.envNamespace);
    sk := sk + more;
    var okC, cs := FetchAll(ck, x.configMap, ConfigMapKey);
    if !okC { return Unreadable; }
    var okS, ss := FetchAll(sk, x.secret, SecretKeyOf);
    if !okS { return Unreadable; }
    NoElems(ds);
    NoElems(cs);
    NoElems(ss);
    if |ds| == 0 && |cs| == 0 && |ss| == 0 { return NoBaseline; }
    FoundIsKeyed(ck, x.configMap, ConfigMapKey);
    FoundIsKeyed(sk, x.secret, SecretKeyOf);
    r := HashSorted(ds, cs, ss, x.sum);
  }

  method HashSorted(ds: seq<Deployment>, cs: seq<ConfigMap>, ss: seq<Secret>, sum: string -> string) returns (r: Result)
    requires NoDup(ds) && NoDup(cs) && NoDup(ss)
    requires Keyed(Elems(ds), PathBy(DeploymentKey))
    requires Keyed(Elems(cs), PathBy(ConfigMapKey))
    requires Keyed(Elems(ss), PathBy(SecretKeyOf))
    ensures r == Hashed(Stream(Elems(ds), Elems(cs), Elems(ss), sum))
  {
    var ds' := SortedSection(ds, DeploymentKey, DeploymentText);
    var cs' := SortedSection(cs, ConfigMapKey, ConfigMapTexts(sum));
    var ss' := SortedSection(ss, SecretKeyOf, SecretTexts(sum));
    var h := WriteStream(ds', cs', ss', sum);
    r := Hashed(h);
  }

  /** Permuting or repeating list results, service names, manifest keys or secret references changes nothing. */
  lemma OrderDoesNotMatter(x: Inputs, y: Inputs)
    requires Elems(x.services) == Elems(y.services) && Elems(x.listing) == Elems(y.listing)
    requires Elems(x.manifests) == Elems(y.manifests) && Elems(x.envSecrets) == Elems(y.envSecrets)
    requires x.envNamespace == y.envNamespace && x.configMap == y.configMap && x.secret == y.secret && x.sum == y.sum
    ensures Outcome(x) == Outcome(y)
  {
    assert NonBlank(x.services) == NonBlank(y.services) by {
      assert forall n :: n in x.services <==> n in Elems(x.services);
      assert forall n :: n in y.services <==> n in Elems(y.services);
    }
    assert Baseline(x) == Baseline(y) by {
      assert forall d :: d in x.listing <==> d in Elems(x.listing);
      assert forall d :: d in y.listing <==> d in Elems(y.listing);
    }
    assert EnvSecretKeys(x.envSecrets, x.envNamespace) == EnvSecretKeys(y.envSecrets, y.envNamespace) by {
      assert forall k :: k in x.envSecrets <==> k in Elems(x.envSecrets);
      assert forall k :: k in y.envSecrets <==> k in Elems(y.envSecrets);
    }
  }

  /** Canonical, not injective: a value holding a newline can spell another entry, so this change goes unseen. */
  lemma DifferentConfigMapsSameText(key: Key, a: string, b: string, v: string, w: string, sum: string -> string)
    requires Less(a, b)
    ensures var one := ConfigMap(key, map[a := v + "\n" + ("data" + ":" + b + "=" + w)], map[]);
            var two := ConfigMap(key, map[a := v, b := w], map[]);
            one != two && ConfigMapText(one, sum) == ConfigMapText(two, sum)
  {
    LessTrichotomy(a, b);
    var folded := v + "\n" + ("data" + ":" + b + "=" + w);
    var m, n := map[a := folded], map[a := v, b := w];
    assert b in n && b !in m;
    OneEntry("data", m, a);
    TwoEntries("data", n, a, b);
    FoldedLine("data", a, b, v, w);
  }

  lemma FoldedLine(tag: string, a: string, b: string, v: string, w: string)
    ensures Line(tag, a, v + "\n" + (tag + ":" + b + "=" + w)) == Line(tag, a, v) + Line(tag, b, w)
  {
  }

  lemma ConcatSmall<T>(x: T, y: T, text: T -> string)
    ensures Concat([x], text) == text(x) && Concat([x, y], text) == text(x) + text(y)
  {
    assert [x][..0] == [] && [x, y][..1] == [x];
    assert Concat([], text) == "";
  }

  lemma OneEntry(tag: string, m: map<string, string>, a: string)
    requires m.Keys == {a}
    ensures MapLines(tag, m) == Line(tag, a, m[a])
  {
    assert Elems([a]) == {a};
    AscendingUnique(Enumerate(m.Keys), [a]);
    ConcatSmall(a, a, EntryText(tag, m));
  }

  lemma TwoEntries(tag: string, m: map<string, string>, a: string, b: string)
    requires m.Keys == {a, b} && Less(a, b)
    ensures MapLines(tag, m) == Line(tag, a, m[a]) + Line(tag, b, m[b])
  {
    assert Elems([a, b]) == {a, b};
    AscendingUnique(Enumerate(m.Keys), [a, b]);
    ConcatSmall(a, b, EntryText(tag, m));
  }
}
