/** The whole hash input: it changes exactly when something that counts of some object changes. */
module FingerprintStream {
  import opened Text
  import opened Fingerprint
  import opened FingerprintReading
  import opened FingerprintLines
  import opened DeploymentReading
  import opened SecretReading

  datatype Object = OfDeployment(d: Deployment) | OfConfigMap(c: ConfigMap) | OfSecret(s: Secret)

  // ----- one object

  ghost function ConfigMapEntries(c: ConfigMap, sum: string -> string): seq<string> {
    ["cm:" + Path(c.key)] + (EntryLines("data", c.data) + EntryLines("bdata", Sums(c.binary, sum)))
  }

  function SecretHead(s: Secret): string { "secret:" + (Path(s.key) + "|type:" + s.kind) }

  ghost function SecretEntries(s: Secret, sum: string -> string): seq<string> {
    [SecretHead(s)] + EntryLines("data", Sums(Merged(s), sum))
  }

  lemma ConfigMapIsLines(c: ConfigMap, sum: string -> string)
    ensures ConfigMapText(c, sum) == Unlines(ConfigMapEntries(c, sum))
  {
    var head, x, y := "cm:" + Path(c.key), EntryLines("data", c.data), EntryLines("bdata", Sums(c.binary, sum));
    OneLine(head);
    MapIsLines("data", c.data);
    MapIsLines("bdata", Sums(c.binary, sum));
    UnlinesConcat(x, y);
    UnlinesConcat([head], x + y);
    Regroup(Unlines([head]), Unlines(x), Unlines(y));
  }

  lemma SecretIsLines(s: Secret, sum: string -> string)
    ensures SecretText(s, sum) == Unlines(SecretEntries(s, sum))
  {
    OneLine(SecretHead(s));
    Regroup("secret:", Path(s.key), "|type:");
    Regroup("secret:", Path(s.key) + "|type:", s.kind);
    assert "secret:" + Path(s.key) + "|type:" + s.kind == SecretHead(s);
    MapIsLines("data", Sums(Merged(s), sum));
    UnlinesConcat([SecretHead(s)], EntryLines("data", Sums(Merged(s), sum)));
  }

  ghost function ObjectEntries(sum: string -> string): Object -> seq<string> {
    (x: Object) => match x
      case OfDeployment(d) => DeploymentEntries(d)
      case OfConfigMap(c) => ConfigMapEntries(c, sum)
      case OfSecret(s) => SecretEntries(s, sum)
  }

  /** Every value that is written as it is fits on one line, and names are as Kubernetes has them. */
  ghost predicate PlainObject(x: Object) {
    match x
    case OfDeployment(d) => PlainDeployment(d)
    case OfConfigMap(c) => Valid(c) && PlainValues(c.data)
    case OfSecret(s) => ValidSecret(s) && '\n' !in s.kind
  }

  /** What counts of an object: binary and secret values by their digests, labels and volumes not at all. */
  ghost function ShownObject(sum: string -> string): Object -> Object {
    (x: Object) => match x
      case OfDeployment(d) => OfDeployment(ShownDeployment(d))
      case OfConfigMap(c) => OfConfigMap(c.(binary := Sums(c.binary, sum)))
      case OfSecret(s) => OfSecret(Secret(s.key, s.kind, Sums(Merged(s), sum), map[]))
  }

  const HEADS := {"deploy", "cm", "secret"}

  lemma PathTag(tag: string, p: string)
    requires tag in HEADS
    ensures TagOf(tag + ":" + p) == tag
  {
    TagOfTagged(tag, p);
  }

  ghost predicate Below(ls: seq<string>) { forall i :: 0 <= i < |ls| ==> TagOf(ls[i]) !in HEADS }

  lemma HeadThenBelow(head: string, ls: seq<string>)
    requires TagOf(head) in HEADS && Below(ls)
    ensures IsBlock([head] + ls, HEADS)
  {
    forall i | 0 < i < |[head] + ls| ensures TagOf(([head] + ls)[i]) !in HEADS {
      assert ([head] + ls)[i] == ls[i - 1];
    }
  }

  lemma BelowConcat(xs: seq<string>, ys: seq<string>)
    requires Below(xs) && Below(ys)
    ensures Below(xs + ys)
  {
  }

  lemma TaggedBelow(ls: seq<string>, tag: string)
    requires Tagged(ls, tag) && tag !in HEADS
    ensures Below(ls)
  {
  }

  lemma ItemBelow(x: Item)
    requires IsPrefix(x.prefix)
    ensures Below(ItemEntries(x))
  {
    TagOfTagged(x.prefix, HeadRest(x.c));
    BodyTags(x.c);
    var ls := ItemEntries(x);
    forall i | 0 < i < |ls| ensures BodyTag(TagOf(ls[i])) { assert ls[i] == BodyEntries(x.c)[i - 1]; }
  }

  lemma {:induction false} ItemsBelow(xs: seq<Item>)
    requires forall i :: 0 <= i < |xs| ==> IsPrefix(xs[i].prefix)
    ensures Below(Flat(xs, ItemEntries))
    decreases |xs|
  {
    if xs != [] {
      ItemBelow(xs[0]);
      ItemsBelow(xs[1..]);
      BelowConcat(ItemEntries(xs[0]), Flat(xs[1..], ItemEntries));
    }
  }

  lemma DeploymentIsBlock(d: Deployment)
    ensures IsBlock(DeploymentEntries(d), HEADS) && TagOf(DeploymentEntries(d)[0]) == "deploy"
  {
    var notes, items := EntryLines("pod-anno", d.annotations), Flat(Items(d), ItemEntries);
    assert "deploy:" + Path(d.key) == "deploy" + ":" + Path(d.key);
    PathTag("deploy", Path(d.key));
    EntriesTagged("pod-anno", d.annotations);
    TaggedBelow(notes, "pod-anno");
    ItemsBelow(Items(d));
    BelowConcat(notes, items);
    HeadThenBelow("deploy:" + Path(d.key), notes + items);
  }

  lemma ConfigMapIsBlock(c: ConfigMap, sum: string -> string)
    ensures IsBlock(ConfigMapEntries(c, sum), HEADS) && TagOf(ConfigMapEntries(c, sum)[0]) == "cm"
  {
    var x, y := EntryLines("data", c.data), EntryLines("bdata", Sums(c.binary, sum));
    assert "cm:" + Path(c.key) == "cm" + ":" + Path(c.key);
    PathTag("cm", Path(c.key));
    EntriesTagged("data", c.data);
    EntriesTagged("bdata", Sums(c.binary, sum));
    TaggedBelow(x, "data");
    TaggedBelow(y, "bdata");
    BelowConcat(x, y);
    HeadThenBelow("cm:" + Path(c.key), x + y);
  }

  lemma SecretIsBlock(s: Secret, sum: string -> string)
    ensures IsBlock(SecretEntries(s, sum), HEADS) && TagOf(SecretEntries(s, sum)[0]) == "secret"
  {
    var rest := Path(s.key) + "|type:" + s.kind;
    assert SecretHead(s) == "secret" + ":" + rest;
    PathTag("secret", rest);
    EntriesTagged("data", Sums(Merged(s), sum));
    TaggedBelow(EntryLines("data", Sums(Merged(s), sum)), "data");
    HeadThenBelow(SecretHead(s), EntryLines("data", Sums(Merged(s), sum)));
  }

  function HeadOf(x: Object): string {
    match x case OfDeployment(_) => "deploy" case OfConfigMap(_) => "cm" case OfSecret(_) => "secret"
  }

  lemma ObjectIsBlock(x: Object, sum: string -> string)
    ensures IsBlock(ObjectEntries(sum)(x), HEADS) && TagOf(ObjectEntries(sum)(x)[0]) == HeadOf(x)
  {
    match x {
      case OfDeployment(d) => DeploymentIsBlock(d);
      case OfConfigMap(c) => ConfigMapIsBlock(c, sum);
      case OfSecret(s) => SecretIsBlock(s, sum);
    }
  }

  lemma ConfigMapIsPlain(c: ConfigMap, sum: string -> string)
    requires Valid(c) && PlainValues(c.data) && OneLined(sum)
    ensures AllPlain(ConfigMapEntries(c, sum))
  {
    EntriesPlain("data", c.data);
    SumsArePlain(c.binary, sum);
    EntriesPlain("bdata", Sums(c.binary, sum));
    PlainConcat(EntryLines("data", c.data), EntryLines("bdata", Sums(c.binary, sum)));
    PlainConcat(["cm:" + Path(c.key)], EntryLines("data", c.data) + EntryLines("bdata", Sums(c.binary, sum)));
  }

  lemma SecretIsPlain(s: Secret, sum: string -> string)
    requires ValidSecret(s) && '\n' !in s.kind && OneLined(sum)
    ensures AllPlain(SecretEntries(s, sum))
  {
    SumsArePlain(Merged(s), sum);
    EntriesPlain("data", Sums(Merged(s), sum));
    PlainConcat([SecretHead(s)], EntryLines("data", Sums(Merged(s), sum)));
  }

  lemma ObjectIsPlain(x: Object, sum: string -> string)
    requires PlainObject(x) && OneLined(sum)
    ensures AllPlain(ObjectEntries(sum)(x))
  {
    match x {
      case OfDeployment(d) => EntriesArePlain(d);
      case OfConfigMap(c) => ConfigMapIsPlain(c, sum);
      case OfSecret(s) => SecretIsPlain(s, sum);
    }
  }

  /** Equal lines show equal objects. */
  lemma ObjectsApart(x: Object, y: Object, sum: string -> string)
    requires PlainObject(x) && PlainObject(y) && OneLined(sum) && ObjectEntries(sum)(x) == ObjectEntries(sum)(y)
    ensures ShownObject(sum)(x) == ShownObject(sum)(y)
  {
    ObjectIsBlock(x, sum);
    ObjectIsBlock(y, sum);
    if x.OfDeployment? && y.OfDeployment? {
      EntriesApart(x.d, y.d);
    } else if x.OfConfigMap? && y.OfConfigMap? {
      ConfigMapIsLines(x.c, sum);
      ConfigMapIsLines(y.c, sum);
      PlainConfigMapsApart(x.c, y.c, sum);
    } else if x.OfSecret? && y.OfSecret? {
      SecretIsLines(x.s, sum);
      SecretIsLines(y.s, sum);
      PlainSecretsApart(x.s, y.s, sum);
    }
  }

  // ----- the stream as lines

  function AsDeployment(d: Deployment): Object { OfDeployment(d) }
  function AsConfigMap(c: ConfigMap): Object { OfConfigMap(c) }
  function AsSecret(s: Secret): Object { OfSecret(s) }

  ghost function Listing(ds: seq<Deployment>, cs: seq<ConfigMap>, ss: seq<Secret>): seq<Object> {
    Mapped(ds, AsDeployment) + (Mapped(cs, AsConfigMap) + Mapped(ss, AsSecret))
  }

  /** Text by text or line by line, it is the same. */
  lemma {:induction false} WrappedIsLines<T>(xs: seq<T>, wrap: T -> Object, text: T -> string, f: Object -> seq<string>)
    requires forall x :: text(x) == Unlines(f(wrap(x)))
    ensures Concat(xs, text) == Unlines(Flat(Mapped(xs, wrap), f))
    decreases |xs|
  {
    if xs != [] {
      var front, last := xs[..|xs| - 1], xs[|xs| - 1];
      WrappedIsLines(front, wrap, text, f);
      assert Mapped(xs, wrap) == Mapped(front, wrap) + [wrap(last)];
      FlatConcat(Mapped(front, wrap), [wrap(last)], f);
      FlatOne(wrap(last), f);
      UnlinesConcat(Flat(Mapped(front, wrap), f), f(wrap(last)));
    }
  }

  ghost function Lines(ds: seq<Deployment>, cs: seq<ConfigMap>, ss: seq<Secret>, sum: string -> string): seq<string> {
    Flat(Listing(ds, cs, ss), ObjectEntries(sum))
  }

  lemma DeploymentLines(sum: string -> string)
    ensures forall d :: DeploymentText(d) == Unlines(ObjectEntries(sum)(AsDeployment(d)))
  {
    forall d ensures DeploymentText(d) == Unlines(ObjectEntries(sum)(AsDeployment(d))) { DeploymentIsLines(d); }
  }

  lemma ConfigMapLines(sum: string -> string)
    ensures forall c :: ConfigMapTexts(sum)(c) == Unlines(ObjectEntries(sum)(AsConfigMap(c)))
  {
    forall c ensures ConfigMapTexts(sum)(c) == Unlines(ObjectEntries(sum)(AsConfigMap(c))) { ConfigMapIsLines(c, sum); }
  }

  lemma SecretLines(sum: string -> string)
    ensures forall s :: SecretTexts(sum)(s) == Unlines(ObjectEntries(sum)(AsSecret(s)))
  {
    forall s ensures SecretTexts(sum)(s) == Unlines(ObjectEntries(sum)(AsSecret(s))) { SecretIsLines(s, sum); }
  }

  lemma TextIsLines(ds: seq<Deployment>, cs: seq<ConfigMap>, ss: seq<Secret>, sum: string -> string)
    ensures Concat(ds, DeploymentText) + Concat(cs, ConfigMapTexts(sum)) + Concat(ss, SecretTexts(sum))
         == Unlines(Lines(ds, cs, ss, sum))
  {
    var f := ObjectEntries(sum);
    var x, y, z := Mapped(ds, AsDeployment), Mapped(cs, AsConfigMap), Mapped(ss, AsSecret);
    DeploymentLines(sum);
    ConfigMapLines(sum);
    SecretLines(sum);
    WrappedIsLines(ds, AsDeployment, DeploymentText, f);
    WrappedIsLines(cs, AsConfigMap, ConfigMapTexts(sum), f);
    WrappedIsLines(ss, AsSecret, SecretTexts(sum), f);
    FlatConcat(y, z, f);
    FlatConcat(x, y + z, f);
    UnlinesConcat(Flat(y, f), Flat(z, f));
    UnlinesConcat(Flat(x, f), Flat(y + z, f));
    Regroup(Unlines(Flat(x, f)), Unlines(Flat(y, f)), Unlines(Flat(z, f)));
  }

  // ----- equal streams show equal objects

  ghost predicate PlainList(xs: seq<Object>) { forall i :: 0 <= i < |xs| ==> PlainObject(xs[i]) }

  ghost function ShownSet(xs: set<Object>, sum: string -> string): set<Object> {
    set x | x in xs :: ShownObject(sum)(x)
  }

  lemma ListIsPlain(xs: seq<Object>, sum: string -> string)
    requires PlainList(xs) && OneLined(sum)
    ensures AllPlain(Flat(xs, ObjectEntries(sum)))
    ensures forall i :: 0 <= i < |xs| ==> IsBlock(ObjectEntries(sum)(xs[i]), HEADS)
  {
    forall i | 0 <= i < |xs| ensures AllPlain(ObjectEntries(sum)(xs[i])) { ObjectIsPlain(xs[i], sum); }
    forall i | 0 <= i < |xs| ensures IsBlock(ObjectEntries(sum)(xs[i]), HEADS) { ObjectIsBlock(xs[i], sum); }
    FlatPlain(xs, ObjectEntries(sum));
  }

  lemma ListsApart(xs: seq<Object>, ys: seq<Object>, sum: string -> string)
    requires PlainList(xs) && PlainList(ys) && OneLined(sum)
    requires Unlines(Flat(xs, ObjectEntries(sum))) == Unlines(Flat(ys, ObjectEntries(sum)))
    ensures |xs| == |ys| && forall i :: 0 <= i < |xs| ==> ShownObject(sum)(xs[i]) == ShownObject(sum)(ys[i])
  {
    var f := ObjectEntries(sum);
    ListIsPlain(xs, sum);
    ListIsPlain(ys, sum);
    UnlinesApart(Flat(xs, f), Flat(ys, f));
    BlocksApart(xs, ys, f, HEADS);
    forall i | 0 <= i < |xs| ensures ShownObject(sum)(xs[i]) == ShownObject(sum)(ys[i]) {
      ObjectsApart(xs[i], ys[i], sum);
    }
  }

  lemma SameShownSet(xs: seq<Object>, ys: seq<Object>, sum: string -> string)
    requires |xs| == |ys| && forall i :: 0 <= i < |xs| ==> ShownObject(sum)(xs[i]) == ShownObject(sum)(ys[i])
    ensures ShownSet(Elems(xs), sum) == ShownSet(Elems(ys), sum)
  {
    forall z | z in ShownSet(Elems(xs), sum) ensures z in ShownSet(Elems(ys), sum) {
      var i :| 0 <= i < |xs| && ShownObject(sum)(xs[i]) == z;
      assert ys[i] in Elems(ys);
    }
    forall z | z in ShownSet(Elems(ys), sum) ensures z in ShownSet(Elems(xs), sum) {
      var i :| 0 <= i < |ys| && ShownObject(sum)(ys[i]) == z;
      assert xs[i] in Elems(xs);
    }
  }

  // ----- and objects that show the same give equal streams

  lemma ShownDecidesDeployment(d: Deployment, e: Deployment)
    requires ShownDeployment(d) == ShownDeployment(e)
    ensures DeploymentEntries(d) == DeploymentEntries(e)
  {
    ShownDecidesItems("init-container", d.inits, e.inits);
    ShownDecidesItems("container", d.containers, e.containers);
    FlatConcat(ItemsOf("init-container", d.inits), ItemsOf("container", d.containers), ItemEntries);
    FlatConcat(ItemsOf("init-container", e.inits), ItemsOf("container", e.containers), ItemEntries);
  }

  lemma JoinedNormal(xs: seq<string>)
    ensures Joined(Normal(xs)) == Joined(xs)
  {
  }

  lemma ShownDecidesContainer(prefix: string, c: Container, d: Container)
    requires Shown(c) == Shown(d)
    ensures ContainerEntries(prefix, c) == ContainerEntries(prefix, d)
  {
    JoinedNormal(c.command);
    JoinedNormal(d.command);
    JoinedNormal(c.args);
    JoinedNormal(d.args);
  }

  lemma {:induction false} FlatSame<T>(xs: seq<T>, ys: seq<T>, f: T -> seq<string>)
    requires |xs| == |ys| && forall i :: 0 <= i < |xs| ==> f(xs[i]) == f(ys[i])
    ensures Flat(xs, f) == Flat(ys, f)
    decreases |xs|
  {
    if xs != [] {
      forall i | 0 <= i < |xs[1..]| ensures f(xs[1..][i]) == f(ys[1..][i]) { assert f(xs[i + 1]) == f(ys[i + 1]); }
      FlatSame(xs[1..], ys[1..], f);
    }
  }

  lemma ShownDecidesItems(prefix: string, cs: seq<Container>, ds: seq<Container>)
    requires |cs| == |ds| && forall i :: 0 <= i < |cs| ==> Shown(cs[i]) == Shown(ds[i])
    ensures Flat(ItemsOf(prefix, cs), ItemEntries) == Flat(ItemsOf(prefix, ds), ItemEntries)
  {
    forall i | 0 <= i < |cs| ensures ItemEntries(ItemsOf(prefix, cs)[i]) == ItemEntries(ItemsOf(prefix, ds)[i]) {
      ShownDecidesContainer(prefix, cs[i], ds[i]);
    }
    FlatSame(ItemsOf(prefix, cs), ItemsOf(prefix, ds), ItemEntries);
  }

  function PathOf(x: Object): string {
    match x case OfDeployment(d) => Path(d.key) case OfConfigMap(c) => Path(c.key) case OfSecret(s) => Path(s.key)
  }

  lemma ShownDecides(x: Object, y: Object, sum: string -> string)
    requires ShownObject(sum)(x) == ShownObject(sum)(y)
    ensures HeadOf(x) == HeadOf(y) && PathOf(x) == PathOf(y) && ObjectEntries(sum)(x) == ObjectEntries(sum)(y)
  {
    if x.OfDeployment? && y.OfDeployment? { ShownDecidesDeployment(x.d, y.d); }
  }

  lemma Partner(xs: seq<Object>, ys: seq<Object>, i: nat, sum: string -> string) returns (j: nat)
    requires ShownSet(Elems(xs), sum) <= ShownSet(Elems(ys), sum) && i < |xs|
    ensures j < |ys| && ShownObject(sum)(xs[i]) == ShownObject(sum)(ys[j])
  {
    assert xs[i] in Elems(xs);
    assert ShownObject(sum)(xs[i]) in ShownSet(Elems(ys), sum);
    var y :| y in Elems(ys) && ShownObject(sum)(y) == ShownObject(sum)(xs[i]);
    j :| j < |ys| && ys[j] == y;
  }

  lemma PathsIn(xs: seq<Object>, ys: seq<Object>, sum: string -> string)
    requires ShownSet(Elems(xs), sum) <= ShownSet(Elems(ys), sum)
    ensures Elems(Mapped(xs, PathOf)) <= Elems(Mapped(ys, PathOf))
  {
    forall k | k in Elems(Mapped(xs, PathOf)) ensures k in Elems(Mapped(ys, PathOf)) {
      var i :| 0 <= i < |xs| && Mapped(xs, PathOf)[i] == k;
      var j := Partner(xs, ys, i, sum);
      ShownDecides(xs[i], ys[j], sum);
      assert Mapped(ys, PathOf)[j] == k;
    }
  }

  lemma OneAtPath(ys: seq<Object>, i: nat, j: nat)
    requires InOrder(ys, PathOf) && i < |ys| && j < |ys| && PathOf(ys[i]) == PathOf(ys[j])
    ensures i == j
  {
    LessTrichotomy(PathOf(ys[i]), PathOf(ys[j]));
  }

  lemma SamePlace(xs: seq<Object>, ys: seq<Object>, i: nat, j: nat, sum: string -> string)
    requires i < |xs| && i < |ys| && j < |ys| && PathOf(xs[i]) == PathOf(ys[i]) && InOrder(ys, PathOf)
    requires ShownObject(sum)(xs[i]) == ShownObject(sum)(ys[j])
    ensures ObjectEntries(sum)(xs[i]) == ObjectEntries(sum)(ys[i])
  {
    ShownDecides(xs[i], ys[j], sum);
    OneAtPath(ys, i, j);
  }

  lemma SamePaths(xs: seq<Object>, ys: seq<Object>, sum: string -> string)
    requires InOrder(xs, PathOf) && InOrder(ys, PathOf) && ShownSet(Elems(xs), sum) == ShownSet(Elems(ys), sum)
    ensures |xs| == |ys| && forall i :: 0 <= i < |xs| ==> PathOf(xs[i]) == PathOf(ys[i])
  {
    PathsIn(xs, ys, sum);
    PathsIn(ys, xs, sum);
    AscendingUnique(Mapped(xs, PathOf), Mapped(ys, PathOf));
    forall i | 0 <= i < |xs| ensures PathOf(xs[i]) == PathOf(ys[i]) {
      assert Mapped(xs, PathOf)[i] == Mapped(ys, PathOf)[i];
    }
  }

  lemma SameShownSameLines(xs: seq<Object>, ys: seq<Object>, sum: string -> string)
    requires InOrder(xs, PathOf) && InOrder(ys, PathOf) && ShownSet(Elems(xs), sum) == ShownSet(Elems(ys), sum)
    ensures Flat(xs, ObjectEntries(sum)) == Flat(ys, ObjectEntries(sum))
  {
    SamePaths(xs, ys, sum);
    forall i | 0 <= i < |xs| ensures ObjectEntries(sum)(xs[i]) == ObjectEntries(sum)(ys[i]) {
      var j := Partner(xs, ys, i, sum);
      SamePlace(xs, ys, i, j, sum);
    }
    FlatSame(xs, ys, ObjectEntries(sum));
  }

  lemma WrappedInOrder<T>(xs: seq<T>, keyOf: T -> Key, wrap: T -> Object)
    requires InOrder(xs, PathBy(keyOf)) && forall x :: PathOf(wrap(x)) == Path(keyOf(x))
    ensures InOrder(Mapped(xs, wrap), PathOf)
  {
    var ys := Mapped(xs, wrap);
    forall i, j | 0 <= i < j < |ys| ensures Less(PathOf(ys[i]), PathOf(ys[j])) {
      assert PathBy(keyOf)(xs[i]) == PathOf(ys[i]) && PathBy(keyOf)(xs[j]) == PathOf(ys[j]);
    }
  }

  // ----- what a fingerprint is the fingerprint of

  ghost function FoundConfigMaps(x: Inputs): set<ConfigMap> { FoundIn(ConfigMapKeys(x), x.configMap) }
  ghost function FoundSecrets(x: Inputs): set<Secret> { FoundIn(SecretKeys(x), x.secret) }

  /** With services named, the baseline is what they name, by service label or by name; without any, what is labelled
      so. Previews and whatever belongs to an environment never count. */
  lemma MatchedExactly(d: Deployment, targets: set<string>)
    ensures Matched(d, targets)
       <==> && LabelOf(d, "divergedev.com/role") != "preview" && LabelOf(d, "divergedev.com/environment") == ""
            && if targets == {} then LabelOf(d, "divergedev.com/role") == "baseline"
               else || (LabelOf(d, "divergedev.com/service") != "" && LabelOf(d, "divergedev.com/service") in targets)
                    || (d.key.name != "" && d.key.name in targets)
  {
  }

  lemma {:induction false} InFlat<T>(xs: seq<T>, f: T -> seq<string>, n: string)
    ensures n in Flat(xs, f) <==> exists x :: x in xs && n in f(x)
    decreases |xs|
  {
    if xs != [] {
      InFlat(xs[1..], f, n);
      assert forall x :: x in xs <==> x == xs[0] || x in xs[1..];
    }
  }

  ghost predicate ImportsConfigMap(c: Container, n: string) {
    || (exists e :: e in c.envFrom && e.configMap == n)
    || (exists e :: e in c.env && e.from.ConfigKey? && e.from.name == n)
  }

  ghost predicate ImportsSecret(c: Container, n: string) {
    || (exists e :: e in c.envFrom && e.secret == n)
    || (exists e :: e in c.env && e.from.SecretKey? && e.from.name == n)
  }

  lemma ContainerRefsExactly(c: Container, n: string)
    ensures n in ContainerConfigMaps(c) <==> ImportsConfigMap(c, n)
    ensures n in ContainerSecrets(c) <==> ImportsSecret(c, n)
  {
    InFlat(c.envFrom, FromConfigMap, n);
    InFlat(c.envFrom, FromSecret, n);
    InFlat(c.env, VarConfigMap, n);
    InFlat(c.env, VarSecret, n);
  }

  ghost predicate RefersToConfigMap(d: Deployment, n: string) {
    || (exists c :: (c in d.inits || c in d.containers) && ImportsConfigMap(c, n))
    || (exists v :: v in d.volumes && n in v.configMaps)
  }

  ghost predicate RefersToSecret(d: Deployment, n: string) {
    || (exists c :: (c in d.inits || c in d.containers) && ImportsSecret(c, n))
    || (exists v :: v in d.volumes && n in v.secrets)
  }

  /** The config maps a deployment refers to: from any container, initial ones included, and from any volume. */
  lemma ConfigMapNamesExactly(d: Deployment, n: string)
    ensures n in ConfigMapNames(d) <==> RefersToConfigMap(d, n)
  {
    InFlat(d.inits, ContainerConfigMaps, n);
    InFlat(d.containers, ContainerConfigMaps, n);
    InFlat(d.volumes, VolumeConfigMaps, n);
    forall c { ContainerRefsExactly(c, n); }
  }

  lemma SecretNamesExactly(d: Deployment, n: string)
    ensures n in SecretNames(d) <==> RefersToSecret(d, n)
  {
    InFlat(d.inits, ContainerSecrets, n);
    InFlat(d.containers, ContainerSecrets, n);
    InFlat(d.volumes, VolumeSecrets, n);
    forall c { ContainerRefsExactly(c, n); }
  }

  /** A name written with blanks around it. */
  predicate Names(raw: string, n: string) { n != "" && TrimSpace(raw) == n }

  /** Exactly which config maps are read. */
  lemma ConfigMapKeysExactly(x: Inputs, k: Key)
    ensures k in ConfigMapKeys(x)
       <==> || k in x.manifests
            || exists d, raw :: d in Baseline(x) && d.key.namespace == k.namespace && Names(raw, k.name)
                                && RefersToConfigMap(d, raw)
  {
    forall d, raw { ConfigMapNamesExactly(d, raw); }
  }

  /** Exactly which secrets are read. */
  lemma SecretKeysExactly(x: Inputs, k: Key)
    ensures k in SecretKeys(x)
       <==> || (k.namespace == x.envNamespace
                && exists r :: r in x.envSecrets && TrimSpace(r.namespace) in {"", k.namespace}
                               && Names(r.name, k.name))
            || exists d, raw :: d in Baseline(x) && d.key.namespace == k.namespace && Names(raw, k.name)
                                && RefersToSecret(d, raw)
  {
    forall d, raw { SecretNamesExactly(d, raw); }
  }

  /** The objects a fingerprint covers. */
  ghost predicate Covers(x: Inputs, o: Object) {
    match o
    case OfDeployment(d) => d in Baseline(x)
    case OfConfigMap(c) => c in FoundConfigMaps(x)
    case OfSecret(s) => s in FoundSecrets(x)
  }

  ghost predicate PlainInputs(x: Inputs) { OneLined(x.sum) && forall o :: Covers(x, o) ==> PlainObject(o) }

  ghost predicate SomeReadFails(x: Inputs) {
    || (exists k :: k in ConfigMapKeys(x) && x.configMap(k).Failed?)
    || (exists k :: k in SecretKeys(x) && x.secret(k).Failed?)
  }

  lemma ReadableExactly(x: Inputs)
    ensures Readable(ConfigMapKeys(x), x.configMap) && Readable(SecretKeys(x), x.secret) <==> !SomeReadFails(x)
  {
  }

  lemma NothingCoveredExactly(x: Inputs)
    ensures Baseline(x) == {} && FoundConfigMaps(x) == {} && FoundSecrets(x) == {} <==> forall o :: !Covers(x, o)
  {
    if forall o :: !Covers(x, o) {
      forall d ensures d !in Baseline(x) { assert !Covers(x, OfDeployment(d)); }
      forall c ensures c !in FoundConfigMaps(x) { assert !Covers(x, OfConfigMap(c)); }
      forall s ensures s !in FoundSecrets(x) { assert !Covers(x, OfSecret(s)); }
    }
  }

  /** No fingerprint can be told exactly when something that is referred to cannot be read, and there is none exactly
      when there is nothing to cover. */
  lemma VerdictExactly(x: Inputs)
    ensures Outcome(x) == Unreadable <==> SomeReadFails(x)
    ensures Outcome(x) == NoBaseline <==> !SomeReadFails(x) && forall o :: !Covers(x, o)
  {
    ReadableExactly(x);
    NothingCoveredExactly(x);
  }

  /** The listing of everything covered, kind by kind, each in the order of the paths. */
  ghost predicate Lists(x: Inputs, ds: seq<Deployment>, cs: seq<ConfigMap>, ss: seq<Secret>) {
    && Elems(ds) == Baseline(x) && Elems(cs) == FoundConfigMaps(x) && Elems(ss) == FoundSecrets(x)
    && InOrder(Mapped(ds, AsDeployment), PathOf) && InOrder(Mapped(cs, AsConfigMap), PathOf)
    && InOrder(Mapped(ss, AsSecret), PathOf)
  }

  lemma CoveredAreKeyed(x: Inputs)
    requires WellNamed(x)
    ensures Keyed(Baseline(x), PathBy(DeploymentKey)) && Keyed(FoundConfigMaps(x), PathBy(ConfigMapKey))
    ensures Keyed(FoundSecrets(x), PathBy(SecretKeyOf))
  {
    KeysAreWellNamed(x);
    FoundIsKeyed(ConfigMapKeys(x), x.configMap, ConfigMapKey);
    FoundIsKeyed(SecretKeys(x), x.secret, SecretKeyOf);
  }

  lemma OrderedSection<T>(s: set<T>, keyOf: T -> Key, wrap: T -> Object, text: T -> string) returns (xs: seq<T>)
    requires Keyed(s, PathBy(keyOf)) && forall x :: PathOf(wrap(x)) == Path(keyOf(x))
    ensures Elems(xs) == s && InOrder(Mapped(xs, wrap), PathOf) && Section(s, keyOf, text) == Concat(xs, text)
  {
    xs := Ordered(s, PathBy(keyOf));
    WrappedInOrder(xs, keyOf, wrap);
  }

  lemma DeploymentSection(s: set<Deployment>) returns (ds: seq<Deployment>)
    requires Keyed(s, PathBy(DeploymentKey))
    ensures Elems(ds) == s && InOrder(Mapped(ds, AsDeployment), PathOf)
    ensures Section(s, DeploymentKey, DeploymentText) == Concat(ds, DeploymentText)
  {
    ds := OrderedSection(s, DeploymentKey, AsDeployment, DeploymentText);
  }

  lemma ConfigMapSection(s: set<ConfigMap>, sum: string -> string) returns (cs: seq<ConfigMap>)
    requires Keyed(s, PathBy(ConfigMapKey))
    ensures Elems(cs) == s && InOrder(Mapped(cs, AsConfigMap), PathOf)
    ensures Section(s, ConfigMapKey, ConfigMapTexts(sum)) == Concat(cs, ConfigMapTexts(sum))
  {
    cs := OrderedSection(s, ConfigMapKey, AsConfigMap, ConfigMapTexts(sum));
  }

  lemma SecretSection(s: set<Secret>, sum: string -> string) returns (ss: seq<Secret>)
    requires Keyed(s, PathBy(SecretKeyOf))
    ensures Elems(ss) == s && InOrder(Mapped(ss, AsSecret), PathOf)
    ensures Section(s, SecretKeyOf, SecretTexts(sum)) == Concat(ss, SecretTexts(sum))
  {
    ss := OrderedSection(s, SecretKeyOf, AsSecret, SecretTexts(sum));
  }

  lemma OutcomeIsStream(x: Inputs)
    requires Outcome(x).Hashed?
    ensures Outcome(x).text == Stream(Baseline(x), FoundConfigMaps(x), FoundSecrets(x), x.sum)
  {
  }

  lemma StreamIsLines(x: Inputs) returns (ds: seq<Deployment>, cs: seq<ConfigMap>, ss: seq<Secret>)
    requires WellNamed(x)
    ensures Lists(x, ds, cs, ss)
    ensures Stream(Baseline(x), FoundConfigMaps(x), FoundSecrets(x), x.sum) == Unlines(Lines(ds, cs, ss, x.sum))
  {
    CoveredAreKeyed(x);
    ds := DeploymentSection(Baseline(x));
    cs := ConfigMapSection(FoundConfigMaps(x), x.sum);
    ss := SecretSection(FoundSecrets(x), x.sum);
    TextIsLines(ds, cs, ss, x.sum);
  }

  lemma OutcomeIsLines(x: Inputs) returns (ds: seq<Deployment>, cs: seq<ConfigMap>, ss: seq<Secret>)
    requires WellNamed(x) && Outcome(x).Hashed?
    ensures Lists(x, ds, cs, ss) && Outcome(x).text == Unlines(Lines(ds, cs, ss, x.sum))
  {
    OutcomeIsStream(x);
    ds, cs, ss := StreamIsLines(x);
  }

  lemma WrappedElems<T>(xs: seq<T>, wrap: T -> Object, o: Object)
    ensures o in Mapped(xs, wrap) <==> exists x :: x in Elems(xs) && wrap(x) == o
  {
    var ys := Mapped(xs, wrap);
    if o in ys {
      var i :| 0 <= i < |ys| && ys[i] == o;
      assert xs[i] in Elems(xs);
    }
    if x :| x in Elems(xs) && wrap(x) == o {
      var i :| 0 <= i < |xs| && xs[i] == x;
      assert ys[i] == o;
    }
  }

  /** Each part of the listing holds what is covered of its kind. */
  lemma PartCovers(x: Inputs, ds: seq<Deployment>, cs: seq<ConfigMap>, ss: seq<Secret>, o: Object)
    requires Lists(x, ds, cs, ss)
    ensures o in Mapped(ds, AsDeployment) <==> Covers(x, o) && HeadOf(o) == "deploy"
    ensures o in Mapped(cs, AsConfigMap) <==> Covers(x, o) && HeadOf(o) == "cm"
    ensures o in Mapped(ss, AsSecret) <==> Covers(x, o) && HeadOf(o) == "secret"
    ensures o in Listing(ds, cs, ss) <==> Covers(x, o)
  {
    WrappedElems(ds, AsDeployment, o);
    WrappedElems(cs, AsConfigMap, o);
    WrappedElems(ss, AsSecret, o);
  }

  /** What counts of everything covered. */
  ghost predicate Shows(x: Inputs, z: Object) { exists o :: Covers(x, o) && ShownObject(x.sum)(o) == z }

  ghost predicate SameShows(x: Inputs, y: Inputs) { forall z :: Shows(x, z) <==> Shows(y, z) }

  lemma ListShows(x: Inputs, xs: seq<Object>, heads: set<string>, z: Object)
    requires forall o :: o in xs <==> Covers(x, o) && HeadOf(o) in heads
    ensures z in ShownSet(Elems(xs), x.sum) <==> Shows(x, z) && HeadOf(z) in heads
  {
    if z in ShownSet(Elems(xs), x.sum) {
      var o :| o in Elems(xs) && ShownObject(x.sum)(o) == z;
      assert Covers(x, o);
    }
    if Shows(x, z) && HeadOf(z) in heads {
      var o :| Covers(x, o) && ShownObject(x.sum)(o) == z;
      assert o in Elems(xs);
    }
  }

  lemma SameParts(x: Inputs, xs: seq<Object>, y: Inputs, ys: seq<Object>, heads: set<string>)
    requires x.sum == y.sum && SameShows(x, y)
    requires forall o :: o in xs <==> Covers(x, o) && HeadOf(o) in heads
    requires forall o :: o in ys <==> Covers(y, o) && HeadOf(o) in heads
    ensures ShownSet(Elems(xs), x.sum) == ShownSet(Elems(ys), x.sum)
  {
    forall z ensures z in ShownSet(Elems(xs), x.sum) <==> z in ShownSet(Elems(ys), x.sum) {
      ListShows(x, xs, heads, z);
      ListShows(y, ys, heads, z);
    }
  }

  lemma SameListings(x: Inputs, y: Inputs, ds: seq<Deployment>, cs: seq<ConfigMap>, ss: seq<Secret>,
                     ds': seq<Deployment>, cs': seq<ConfigMap>, ss': seq<Secret>)
    requires Lists(x, ds, cs, ss) && Lists(y, ds', cs', ss') && x.sum == y.sum && SameShows(x, y)
    ensures Lines(ds, cs, ss, x.sum) == Lines(ds', cs', ss', x.sum)
  {
    forall o { PartCovers(x, ds, cs, ss, o); }
    forall o { PartCovers(y, ds', cs', ss', o); }
    var f := ObjectEntries(x.sum);
    SameParts(x, Mapped(ds, AsDeployment), y, Mapped(ds', AsDeployment), {"deploy"});
    SameParts(x, Mapped(cs, AsConfigMap), y, Mapped(cs', AsConfigMap), {"cm"});
    SameParts(x, Mapped(ss, AsSecret), y, Mapped(ss', AsSecret), {"secret"});
    SameShownSameLines(Mapped(ds, AsDeployment), Mapped(ds', AsDeployment), x.sum);
    SameShownSameLines(Mapped(cs, AsConfigMap), Mapped(cs', AsConfigMap), x.sum);
    SameShownSameLines(Mapped(ss, AsSecret), Mapped(ss', AsSecret), x.sum);
    ThreeParts(ds, cs, ss, f);
    ThreeParts(ds', cs', ss', f);
  }

  lemma ThreeParts(ds: seq<Deployment>, cs: seq<ConfigMap>, ss: seq<Secret>, f: Object -> seq<string>)
    ensures Flat(Listing(ds, cs, ss), f)
         == Flat(Mapped(ds, AsDeployment), f) + (Flat(Mapped(cs, AsConfigMap), f) + Flat(Mapped(ss, AsSecret), f))
  {
    FlatConcat(Mapped(cs, AsConfigMap), Mapped(ss, AsSecret), f);
    FlatConcat(Mapped(ds, AsDeployment), Mapped(cs, AsConfigMap) + Mapped(ss, AsSecret), f);
  }

  lemma ListingIsPlain(x: Inputs, ds: seq<Deployment>, cs: seq<ConfigMap>, ss: seq<Secret>)
    requires Lists(x, ds, cs, ss) && PlainInputs(x)
    ensures PlainList(Listing(ds, cs, ss))
  {
    var xs := Listing(ds, cs, ss);
    forall i | 0 <= i < |xs| ensures PlainObject(xs[i]) { PartCovers(x, ds, cs, ss, xs[i]); }
  }

  lemma AllHeads(x: Inputs, ds: seq<Deployment>, cs: seq<ConfigMap>, ss: seq<Secret>, z: Object)
    requires Lists(x, ds, cs, ss)
    ensures z in ShownSet(Elems(Listing(ds, cs, ss)), x.sum) <==> Shows(x, z)
  {
    forall o { PartCovers(x, ds, cs, ss, o); }
    ListShows(x, Listing(ds, cs, ss), HEADS, z);
  }

  lemma SameTextShowsSame(x: Inputs, y: Inputs)
    requires WellNamed(x) && WellNamed(y) && PlainInputs(x) && PlainInputs(y) && x.sum == y.sum
    requires Outcome(x).Hashed? && Outcome(x) == Outcome(y)
    ensures SameShows(x, y)
  {
    var ds, cs, ss := OutcomeIsLines(x);
    var ds', cs', ss' := OutcomeIsLines(y);
    ListingIsPlain(x, ds, cs, ss);
    ListingIsPlain(y, ds', cs', ss');
    ListsApart(Listing(ds, cs, ss), Listing(ds', cs', ss'), x.sum);
    SameShownSet(Listing(ds, cs, ss), Listing(ds', cs', ss'), x.sum);
    forall z ensures Shows(x, z) <==> Shows(y, z) {
      AllHeads(x, ds, cs, ss, z);
      AllHeads(y, ds', cs', ss', z);
    }
  }

  /** The text to be hashed changes exactly when something that counts of a covered object changes, an object appears or
      one disappears: image, command, arguments, ports, variables and annotations of a deployment, data of a config map,
      type and value digests of a secret. */
  lemma EveryChangeShows(x: Inputs, y: Inputs)
    requires WellNamed(x) && WellNamed(y) && PlainInputs(x) && PlainInputs(y) && x.sum == y.sum
    requires Outcome(x).Hashed? && Outcome(y).Hashed?
    ensures Outcome(x) == Outcome(y) <==> SameShows(x, y)
  {
    if Outcome(x) == Outcome(y) {
      SameTextShowsSame(x, y);
    } else if SameShows(x, y) {
      var ds, cs, ss := OutcomeIsLines(x);
      var ds', cs', ss' := OutcomeIsLines(y);
      SameListings(x, y, ds, cs, ss, ds', cs', ss');
    }
  }

  // ----- one object changes

  /** The cluster once a secret was written anew. */
  ghost function Rotated(x: Inputs, t: Secret): Inputs {
    x.(secret := (k: Key) => if k == t.key then Found(t) else x.secret(k))
  }

  /** A covered secret that is written anew shows, as soon as its type or the digest of one of its values differs. */
  lemma RotationShows(x: Inputs, t: Secret)
    requires WellNamed(x) && PlainInputs(x) && PlainObject(OfSecret(t)) && Outcome(x).Hashed?
    requires t.key in SecretKeys(x) && x.secret(t.key).Found? && !SameSecret(x.secret(t.key).value, t, x.sum)
    ensures Outcome(Rotated(x, t)).Hashed? && Outcome(x) != Outcome(Rotated(x, t))
  {
    RotatedCovers(x, t);
    RotatedIsHashed(x, t);
    RotatedDiffers(x, t);
    EveryChangeShows(x, Rotated(x, t));
  }

  lemma RotatedCovers(x: Inputs, t: Secret)
    requires WellNamed(x) && PlainInputs(x) && PlainObject(OfSecret(t))
    requires t.key in SecretKeys(x) && x.secret(t.key).Found?
    ensures var y := Rotated(x, t);
            && WellNamed(y) && PlainInputs(y) && Covers(y, OfSecret(t)) && (SomeReadFails(y) ==> SomeReadFails(x))
  {
    var y := Rotated(x, t);
    assert Baseline(y) == Baseline(x) && SecretKeys(y) == SecretKeys(x) && ConfigMapKeys(y) == ConfigMapKeys(x);
    assert y.secret(t.key) == Found(t);
    forall o | Covers(y, o) ensures PlainObject(o) {
      if o != OfSecret(t) { assert Covers(x, o); }
    }
  }

  lemma RotatedIsHashed(x: Inputs, t: Secret)
    requires Outcome(x).Hashed? && Covers(Rotated(x, t), OfSecret(t))
    requires SomeReadFails(Rotated(x, t)) ==> SomeReadFails(x)
    ensures Outcome(Rotated(x, t)).Hashed?
  {
    VerdictExactly(x);
    VerdictExactly(Rotated(x, t));
  }

  lemma RotatedDiffers(x: Inputs, t: Secret)
    requires WellNamed(x) && t.key in SecretKeys(x) && x.secret(t.key).Found? && Covers(Rotated(x, t), OfSecret(t))
    requires !SameSecret(x.secret(t.key).value, t, x.sum)
    ensures !SameShows(x, Rotated(x, t))
  {
    var z := ShownObject(x.sum)(OfSecret(t));
    assert Shows(Rotated(x, t), z);
    NotShown(x, t, z);
  }

  lemma NotShown(x: Inputs, t: Secret, z: Object)
    requires WellNamed(x) && t.key in SecretKeys(x) && x.secret(t.key).Found? && z == ShownObject(x.sum)(OfSecret(t))
    requires !SameSecret(x.secret(t.key).value, t, x.sum)
    ensures !Shows(x, z)
  {
    forall o | Covers(x, o) ensures ShownObject(x.sum)(o) != z {
      if o.OfSecret? && o.s.key == t.key { OnlyOneOfKey(x, o.s, x.secret(t.key).value); }
    }
  }

  lemma OnlyOneOfKey(x: Inputs, s: Secret, t: Secret)
    requires WellNamed(x) && s in FoundSecrets(x) && t in FoundSecrets(x) && s.key == t.key
    ensures s == t
  {
  }

  /** An environment that refers to one secret, in a cluster without anything else. */
  ghost function OneSecret(s: Secret, sum: string -> string): Inputs {
    Inputs([], s.key.namespace, [s.key], [], [], (k: Key) => Missing,
           (k: Key) => if k == s.key then Found(s) else Missing, sum)
  }

  predicate Trimmed(k: Key) {
    k.name != "" && TrimSpace(k.name) == k.name && TrimSpace(k.namespace) == k.namespace
  }

  lemma OneSecretKeys(s: Secret, sum: string -> string)
    requires Trimmed(s.key)
    ensures Baseline(OneSecret(s, sum)) == {} && ConfigMapKeys(OneSecret(s, sum)) == {}
    ensures SecretKeys(OneSecret(s, sum)) == {s.key} && FoundSecrets(OneSecret(s, sum)) == {s}
  {
    var x := OneSecret(s, sum);
    assert Baseline(x) == {};
    assert s.key in x.envSecrets;
    assert EnvSecretKeys(x.envSecrets, x.envNamespace) == {s.key};
    assert x.secret(s.key) == Found(s);
  }

  lemma OneSecretCovers(s: Secret, sum: string -> string)
    requires Trimmed(s.key)
    ensures forall o :: Covers(OneSecret(s, sum), o) <==> o == OfSecret(s)
  {
    OneSecretKeys(s, sum);
    assert FoundConfigMaps(OneSecret(s, sum)) == {};
  }

  lemma OneSecretIsHashed(s: Secret, sum: string -> string)
    requires Trimmed(s.key)
    ensures Outcome(OneSecret(s, sum)).Hashed?
  {
    OneSecretKeys(s, sum);
    OneSecretCovers(s, sum);
    assert Covers(OneSecret(s, sum), OfSecret(s));
    VerdictExactly(OneSecret(s, sum));
  }

  lemma OneSecretIsFine(s: Secret, sum: string -> string)
    requires Trimmed(s.key) && PlainObject(OfSecret(s)) && OneLined(sum)
    ensures WellNamed(OneSecret(s, sum)) && PlainInputs(OneSecret(s, sum)) && Outcome(OneSecret(s, sum)).Hashed?
  {
    OneSecretCovers(s, sum);
    OneSecretIsHashed(s, sum);
  }

  /** Its rotation shows: the case of one secret, with nothing left to suppose. */
  lemma OneSecretRotated(s: Secret, t: Secret, sum: string -> string)
    requires Trimmed(s.key) && t.key == s.key && PlainObject(OfSecret(s)) && PlainObject(OfSecret(t)) && OneLined(sum)
    requires !SameSecret(s, t, sum)
    ensures Outcome(OneSecret(s, sum)).Hashed? && Outcome(Rotated(OneSecret(s, sum), t)).Hashed?
    ensures Outcome(OneSecret(s, sum)) != Outcome(Rotated(OneSecret(s, sum), t))
  {
    OneSecretIsFine(s, sum);
    OneSecretKeys(s, sum);
    assert OneSecret(s, sum).secret(t.key) == Found(s);
    RotationShows(OneSecret(s, sum), t);
  }
}
