/** Layered settings as values: what merging one layer over another yields. */
module SettingsMerge {
  import opened Text

  datatype Banner = Banner(enabled: Option<bool>, text: string, position: string, color: string)
  datatype Atlas = Atlas(mode: string, engine: string, image: string, dir: string, schema: string,
                         migrationConfigMap: string, schemaConfigMap: string, blocking: Option<bool>,
                         extraArgs: seq<string>, policy: Option<string>)
  datatype Features = Features(provider: string, connectionRef: string, overrides: map<string, string>)

  /** A layer; absent groups are None, absent strings empty. The atlas policy and the dev group hold one string. */
  datatype Settings = Settings(
    deployMode: string, deployNamespace: string,
    routingMode: string, baselineNamespace: string, headerKey: string, domain: string, banner: Option<Banner>,
    databaseMode: string, connectionRef: string, seedSource: string, migrationCommand: string, atlas: Option<Atlas>,
    ttl: string, cleanupOnMerge: Option<bool>, features: Option<Features>, dev: Option<string>)

  const NO_BANNER := Banner(None, "", "", "")
  const NO_ATLAS := Atlas("", "", "", "", "", "", "", None, [], None)
  const NO_FEATURES := Features("", "", map[])
  const EMPTY := Settings("", "", "", "", "", "", None, "", "", "", "", None, "", None, None, None)

  // ----- merging

  /** The later value unless it is empty. */
  function Or<T(==)>(a: seq<T>, b: seq<T>): seq<T> { if b != [] then b else a }
  function OrFlag(a: Option<bool>, b: Option<bool>): Option<bool> { if b.Some? then b else a }

  function MergeText(a: Option<string>, b: Option<string>): Option<string> {
    if b.None? then a else Some(Or(if a.Some? then a.value else "", b.value))
  }

  function OverBanner(a: Banner, b: Banner): Banner {
    Banner(OrFlag(a.enabled, b.enabled), Or(a.text, b.text), Or(a.position, b.position), Or(a.color, b.color))
  }

  function MergeBanner(a: Option<Banner>, b: Option<Banner>): Option<Banner> {
    if b.None? then a else Some(OverBanner(if a.Some? then a.value else NO_BANNER, b.value))
  }

  function OverAtlas(a: Atlas, b: Atlas): Atlas {
    Atlas(Or(a.mode, b.mode), Or(a.engine, b.engine), Or(a.image, b.image), Or(a.dir, b.dir), Or(a.schema, b.schema),
          Or(a.migrationConfigMap, b.migrationConfigMap), Or(a.schemaConfigMap, b.schemaConfigMap),
          OrFlag(a.blocking, b.blocking), Or(a.extraArgs, b.extraArgs), MergeText(a.policy, b.policy))
  }

  function MergeAtlas(a: Option<Atlas>, b: Option<Atlas>): Option<Atlas> {
    if b.None? then a else Some(OverAtlas(if a.Some? then a.value else NO_ATLAS, b.value))
  }

  function OverFeatures(a: Features, b: Features): Features {
    Features(Or(a.provider, b.provider), Or(a.connectionRef, b.connectionRef), a.overrides + b.overrides)
  }

  function MergeFeatures(a: Option<Features>, b: Option<Features>): Option<Features> {
    if b.None? then a else Some(OverFeatures(if a.Some? then a.value else NO_FEATURES, b.value))
  }

  function Merge(a: Settings, b: Settings): Settings {
    Settings(Or(a.deployMode, b.deployMode), Or(a.deployNamespace, b.deployNamespace),
             Or(a.routingMode, b.routingMode), Or(a.baselineNamespace, b.baselineNamespace),
             Or(a.headerKey, b.headerKey), Or(a.domain, b.domain), MergeBanner(a.banner, b.banner),
             Or(a.databaseMode, b.databaseMode), Or(a.connectionRef, b.connectionRef),
             Or(a.seedSource, b.seedSource), Or(a.migrationCommand, b.migrationCommand), MergeAtlas(a.atlas, b.atlas),
             Or(a.ttl, b.ttl), OrFlag(a.cleanupOnMerge, b.cleanupOnMerge),
             MergeFeatures(a.features, b.features), MergeText(a.dev, b.dev))
  }

  // ----- the algebra of layers

  lemma BannerLaws(a: Option<Banner>, b: Option<Banner>, c: Option<Banner>)
    ensures MergeBanner(MergeBanner(a, b), c) == MergeBanner(a, MergeBanner(b, c))
    ensures MergeBanner(None, a) == a == MergeBanner(a, None)
  {
  }

  lemma BannerAbsorbs(a: Option<Banner>, b: Option<Banner>)
    ensures MergeBanner(MergeBanner(a, b), a) == MergeBanner(b, a)
  {
  }

  lemma AtlasAssociative(a: Option<Atlas>, b: Option<Atlas>, c: Option<Atlas>)
    ensures MergeAtlas(MergeAtlas(a, b), c) == MergeAtlas(a, MergeAtlas(b, c))
  {
  }

  lemma AtlasIdentity(a: Option<Atlas>)
    ensures MergeAtlas(None, a) == a == MergeAtlas(a, None)
  {
  }

  lemma AtlasAbsorbs(a: Option<Atlas>, b: Option<Atlas>)
    ensures MergeAtlas(MergeAtlas(a, b), a) == MergeAtlas(b, a)
  {
  }

  lemma FeaturesLaws(a: Option<Features>, b: Option<Features>, c: Option<Features>)
    ensures MergeFeatures(MergeFeatures(a, b), c) == MergeFeatures(a, MergeFeatures(b, c))
    ensures MergeFeatures(None, a) == a == MergeFeatures(a, None)
  {
    var m := (x: Option<Features>) => if x.Some? then x.value.overrides else map[];
    assert (m(a) + m(b)) + m(c) == m(a) + (m(b) + m(c));
    assert map[] + m(a) == m(a) && m(a) + map[] == m(a);
    assert map[] + m(b) == m(b) && map[] + m(c) == m(c);
  }

  lemma FeaturesAbsorb(a: Option<Features>, b: Option<Features>)
    ensures MergeFeatures(MergeFeatures(a, b), a) == MergeFeatures(b, a)
  {
    var m := (x: Option<Features>) => if x.Some? then x.value.overrides else map[];
    assert (m(a) + m(b)) + m(a) == m(b) + m(a);
    assert map[] + m(a) == m(a) && m(a) + m(a) == m(a) && map[] + m(b) == m(b);
  }

  lemma DevAbsorbs(a: Option<string>, b: Option<string>)
    ensures MergeText(MergeText(a, b), a) == MergeText(b, a)
  {
  }

  lemma MergeAssociative(a: Settings, b: Settings, c: Settings)
    ensures Merge(Merge(a, b), c) == Merge(a, Merge(b, c))
  {
    BannerLaws(a.banner, b.banner, c.banner);
    AtlasAssociative(a.atlas, b.atlas, c.atlas);
    FeaturesLaws(a.features, b.features, c.features);
  }

  /** The empty layer is the identity. */
  lemma MergeIdentity(a: Settings)
    ensures Merge(EMPTY, a) == a == Merge(a, EMPTY)
  {
    BannerLaws(a.banner, None, None);
    AtlasIdentity(a.atlas);
    FeaturesLaws(a.features, None, None);
  }

  /** An earlier copy of a later layer does not matter. */
  lemma MergeAbsorbs(a: Settings, b: Settings)
    ensures Merge(Merge(a, b), a) == Merge(b, a)
  {
    BannerAbsorbs(a.banner, b.banner);
    AtlasAbsorbs(a.atlas, b.atlas);
    FeaturesAbsorb(a.features, b.features);
    DevAbsorbs(a.dev, b.dev);
  }

  /** Layers merged in order, first to last. */
  function Layered(layers: seq<Settings>): Settings {
    if layers == [] then EMPTY else Merge(Layered(layers[..|layers| - 1]), layers[|layers| - 1])
  }

  lemma {:induction false} LayeredConcat(xs: seq<Settings>, ys: seq<Settings>)
    ensures Layered(xs + ys) == Merge(Layered(xs), Layered(ys))
    decreases |ys|
  {
    if ys == [] {
      assert xs + ys == xs;
      MergeIdentity(Layered(xs));
    } else {
      var front, last := ys[..|ys| - 1], ys[|ys| - 1];
      assert (xs + ys)[..|xs + ys| - 1] == xs + front;
      LayeredConcat(xs, front);
      MergeAssociative(Layered(xs), Layered(front), last);
    }
  }

  lemma LayeredOne(x: Settings)
    ensures Layered([x]) == x
  {
    assert [x][..0] == [];
    MergeIdentity(x);
  }

  /** Only the last occurrence of a repeated layer matters. */
  lemma OnlyLastOccurrence(xs: seq<Settings>, l: Settings, ys: seq<Settings>, zs: seq<Settings>)
    ensures Layered(xs + [l] + ys + [l] + zs) == Layered(xs + ys + [l] + zs)
  {
    var x, y, z := Layered(xs), Layered(ys), Layered(zs);
    LayeredOne(l);
    LayeredConcat(xs, [l]);
    LayeredConcat(xs + [l], ys);
    LayeredConcat(xs + [l] + ys, [l]);
    LayeredConcat(xs + [l] + ys + [l], zs);
    LayeredConcat(xs, ys);
    LayeredConcat(xs + ys, [l]);
    LayeredConcat(xs + ys + [l], zs);
    Sandwich(x, l, y);
  }

  lemma Sandwich(x: Settings, l: Settings, y: Settings)
    ensures Merge(Merge(Merge(x, l), y), l) == Merge(Merge(x, y), l)
  {
    MergeAssociative(x, l, y);
    MergeAssociative(x, Merge(l, y), l);
    MergeAbsorbs(l, y);
    MergeAssociative(x, y, l);
  }

  // ----- resolving

  datatype Config = Config(defaults: Settings, environments: map<string, Settings>,
                           labelOverrides: map<string, Settings>)

  /** The overrides of the labels that have one, in label order. */
  function Chosen(c: Config, labels: seq<string>): seq<Settings> {
    if labels == [] then []
    else
      var l := labels[|labels| - 1];
      Chosen(c, labels[..|labels| - 1]) + if l in c.labelOverrides then [c.labelOverrides[l]] else []
  }

  function Base(c: Config, envType: string): seq<Settings> {
    [c.defaults] + if envType in c.environments then [c.environments[envType]] else []
  }

  function Resolved(c: Config, envType: string, labels: seq<string>): Settings {
    Layered(Base(c, envType) + Chosen(c, labels))
  }

  lemma LayeredPush(xs: seq<Settings>, x: Settings)
    ensures Layered(xs + [x]) == Merge(Layered(xs), x)
  {
    assert (xs + [x])[..|xs|] == xs;
  }

  lemma ResolvedStart(c: Config, envType: string)
    ensures Resolved(c, envType, [])
         == if envType in c.environments then Merge(c.defaults, c.environments[envType]) else c.defaults
  {
    assert Base(c, envType) + [] == Base(c, envType);
    LayeredOne(c.defaults);
    if envType in c.environments { LayeredPush([c.defaults], c.environments[envType]); }
  }

  lemma ResolvedStep(c: Config, envType: string, labels: seq<string>, i: nat)
    requires i < |labels|
    ensures Resolved(c, envType, labels[..i + 1])
         == if labels[i] in c.labelOverrides then Merge(Resolved(c, envType, labels[..i]), c.labelOverrides[labels[i]])
            else Resolved(c, envType, labels[..i])
  {
    assert labels[..i + 1][..i] == labels[..i];
    var base, front := Base(c, envType), Chosen(c, labels[..i]);
    if labels[i] in c.labelOverrides {
      var o := c.labelOverrides[labels[i]];
      assert base + (front + [o]) == (base + front) + [o];
      LayeredPush(base + front, o);
    } else {
      assert front + [] == front;
    }
  }

  lemma {:induction false} ChosenConcat(c: Config, xs: seq<string>, ys: seq<string>)
    ensures Chosen(c, xs + ys) == Chosen(c, xs) + Chosen(c, ys)
    decreases |ys|
  {
    if ys == [] {
      assert xs + ys == xs;
    } else {
      assert (xs + ys)[..|xs + ys| - 1] == xs + ys[..|ys| - 1];
      ChosenConcat(c, xs, ys[..|ys| - 1]);
    }
  }

  lemma ChosenAround(c: Config, xs: seq<string>, l: string, zs: seq<string>)
    ensures Chosen(c, xs + [l] + zs)
         == Chosen(c, xs) + (if l in c.labelOverrides then [c.labelOverrides[l]] else []) + Chosen(c, zs)
  {
    ChosenConcat(c, xs, [l]);
    ChosenConcat(c, xs + [l], zs);
    assert [l][..0] == [];
  }

  /** Of a repeated label only the last occurrence matters. */
  lemma RepeatedLabel(c: Config, envType: string, xs: seq<string>, l: string, ys: seq<string>, zs: seq<string>)
    ensures Resolved(c, envType, xs + [l] + ys + [l] + zs) == Resolved(c, envType, xs + ys + [l] + zs)
  {
    var b, x, y, z := Base(c, envType), Chosen(c, xs), Chosen(c, ys), Chosen(c, zs);
    ChosenAround(c, xs + [l] + ys, l, zs);
    ChosenAround(c, xs, l, ys);
    ChosenAround(c, xs + ys, l, zs);
    ChosenConcat(c, xs, ys);
    if l in c.labelOverrides {
      var o := c.labelOverrides[l];
      OnlyLastOccurrence(b + x, o, y, z);
      LeftAssociated(b, x, [o], y, [o], z);
    } else {
      assert x + [] + y == x + y;
    }
  }

  lemma LeftAssociated(b: seq<Settings>, x: seq<Settings>, o: seq<Settings>,
                       y: seq<Settings>, p: seq<Settings>, z: seq<Settings>)
    ensures b + (x + o + y + p + z) == (b + x) + o + y + p + z
    ensures b + (x + y + p + z) == (b + x) + y + p + z
  {
  }

  // ----- field by field

  datatype AtlasField =
    | Mode | Engine | Image | Dir | Schema | MigrationConfigMap | SchemaConfigMap | Blocking | ExtraArgs | Destructive

  datatype Field =
    | DeployMode | DeployNamespace | RoutingMode | BaselineNamespace | HeaderKey | Domain
    | BannerEnabled | BannerText | BannerPosition | BannerColor
    | DatabaseMode | ConnectionRef | SeedSource | MigrationCommand | InAtlas(field: AtlasField)
    | Ttl | CleanupOnMerge | FeatureProvider | FeatureConnectionRef | OnConflict

  function BannerOf(s: Settings): Banner { if s.banner.Some? then s.banner.value else NO_BANNER }
  function AtlasOf(s: Settings): Atlas { if s.atlas.Some? then s.atlas.value else NO_ATLAS }
  function FeaturesOf(s: Settings): Features { if s.features.Some? then s.features.value else NO_FEATURES }
  function TextOf(t: Option<string>): string { if t.Some? then t.value else "" }

  function One(s: string): seq<string> { if s == "" then [] else [s] }
  function Flag(b: Option<bool>): seq<string> { if b.None? then [] else [if b.value then "true" else "false"] }

  function GetAtlas(a: Atlas, f: AtlasField): seq<string> {
    match f
    case Mode => One(a.mode)
    case Engine => One(a.engine)
    case Image => One(a.image)
    case Dir => One(a.dir)
    case Schema => One(a.schema)
    case MigrationConfigMap => One(a.migrationConfigMap)
    case SchemaConfigMap => One(a.schemaConfigMap)
    case Blocking => Flag(a.blocking)
    case ExtraArgs => a.extraArgs
    case Destructive => One(TextOf(a.policy))
  }

  /** A field of a layer, whatever its type; empty when the layer does not set it. */
  function Get(s: Settings, f: Field): seq<string> {
    match f
    case DeployMode => One(s.deployMode)
    case DeployNamespace => One(s.deployNamespace)
    case RoutingMode => One(s.routingMode)
    case BaselineNamespace => One(s.baselineNamespace)
    case HeaderKey => One(s.headerKey)
    case Domain => One(s.domain)
    case BannerEnabled => Flag(BannerOf(s).enabled)
    case BannerText => One(BannerOf(s).text)
    case BannerPosition => One(BannerOf(s).position)
    case BannerColor => One(BannerOf(s).color)
    case DatabaseMode => One(s.databaseMode)
    case ConnectionRef => One(s.connectionRef)
    case SeedSource => One(s.seedSource)
    case MigrationCommand => One(s.migrationCommand)
    case InAtlas(g) => GetAtlas(AtlasOf(s), g)
    case Ttl => One(s.ttl)
    case CleanupOnMerge => Flag(s.cleanupOnMerge)
    case FeatureProvider => One(FeaturesOf(s).provider)
    case FeatureConnectionRef => One(FeaturesOf(s).connectionRef)
    case OnConflict => One(TextOf(s.dev))
  }

  ghost predicate Unset(layers: seq<Settings>, f: Field, from: nat) {
    forall j :: from <= j < |layers| ==> Get(layers[j], f) == []
  }

  ghost predicate LastSetter(layers: seq<Settings>, f: Field, i: nat) {
    i < |layers| && Get(layers[i], f) != [] && Unset(layers, f, i + 1)
  }

  /** The value of the last layer that sets the field, or nothing if none does. */
  ghost predicate IsLastNonEmpty(layers: seq<Settings>, f: Field, v: seq<string>) {
    || (v == [] && Unset(layers, f, 0))
    || exists i: nat :: LastSetter(layers, f, i) && Get(layers[i], f) == v
  }

  lemma StillUnset(layers: seq<Settings>, f: Field, from: nat)
    requires layers != [] && Get(layers[|layers| - 1], f) == [] && Unset(layers[..|layers| - 1], f, from)
    ensures Unset(layers, f, from)
  {
    var front := layers[..|layers| - 1];
    forall j | from <= j < |layers| ensures Get(layers[j], f) == [] {
      if j < |front| { assert front[j] == layers[j]; }
    }
  }

  /** A missing group merges like an empty one. */
  lemma GroupsMerge(a: Settings, b: Settings)
    ensures BannerOf(Merge(a, b)) == OverBanner(BannerOf(a), BannerOf(b))
    ensures AtlasOf(Merge(a, b)) == OverAtlas(AtlasOf(a), AtlasOf(b))
    ensures FeaturesOf(Merge(a, b)).provider == Or(FeaturesOf(a).provider, FeaturesOf(b).provider)
    ensures FeaturesOf(Merge(a, b)).connectionRef == Or(FeaturesOf(a).connectionRef, FeaturesOf(b).connectionRef)
  {
  }

  lemma AtlasFieldMerges(a: Atlas, b: Atlas, f: AtlasField)
    ensures GetAtlas(OverAtlas(a, b), f) == Or(GetAtlas(a, f), GetAtlas(b, f))
  {
  }

  lemma GetMerge(a: Settings, b: Settings, f: Field)
    ensures Get(Merge(a, b), f) == Or(Get(a, f), Get(b, f))
  {
    GroupsMerge(a, b);
    if f.InAtlas? { AtlasFieldMerges(AtlasOf(a), AtlasOf(b), f.field); }
  }

  /** What the last layer that sets the field sets it to. */
  function Last(layers: seq<Settings>, f: Field): seq<string> {
    if layers == [] then []
    else Or(Last(layers[..|layers| - 1], f), Get(layers[|layers| - 1], f))
  }

  lemma {:induction false} LayeredIsLast(layers: seq<Settings>, f: Field)
    ensures Get(Layered(layers), f) == Last(layers, f)
    decreases |layers|
  {
    if layers != [] {
      LayeredIsLast(layers[..|layers| - 1], f);
      GetMerge(Layered(layers[..|layers| - 1]), layers[|layers| - 1], f);
    }
  }

  lemma {:induction false} LastIsLastNonEmpty(layers: seq<Settings>, f: Field)
    ensures IsLastNonEmpty(layers, f, Last(layers, f))
    decreases |layers|
  {
    if layers != [] {
      var front, last := layers[..|layers| - 1], layers[|layers| - 1];
      LastIsLastNonEmpty(front, f);
      if Get(last, f) != [] {
        assert LastSetter(layers, f, |layers| - 1);
      } else if i: nat :| LastSetter(front, f, i) && Get(front[i], f) == Last(front, f) {
        StillUnset(layers, f, i + 1);
        assert LastSetter(layers, f, i);
      } else {
        StillUnset(layers, f, 0);
      }
    }
  }

  /** Every field of the result comes from the last layer that sets it. */
  lemma LastNonEmptyWins(layers: seq<Settings>, f: Field)
    ensures IsLastNonEmpty(layers, f, Get(Layered(layers), f))
  {
    LayeredIsLast(layers, f);
    LastIsLastNonEmpty(layers, f);
  }

  /** What the last label with an override that sets the field sets it to. */
  function LabelValue(c: Config, labels: seq<string>, f: Field): seq<string> {
    if labels == [] then []
    else
      var l := labels[|labels| - 1];
      if l in c.labelOverrides && Get(c.labelOverrides[l], f) != [] then Get(c.labelOverrides[l], f)
      else LabelValue(c, labels[..|labels| - 1], f)
  }

  function EnvironmentValue(c: Config, envType: string, f: Field): seq<string> {
    if envType in c.environments then Get(c.environments[envType], f) else []
  }

  lemma {:induction false} ChosenIsLabelValue(c: Config, base: seq<Settings>, labels: seq<string>, f: Field)
    ensures Last(base + Chosen(c, labels), f) == Or(Last(base, f), LabelValue(c, labels, f))
    decreases |labels|
  {
    if labels == [] {
      assert base + [] == base;
    } else {
      var front, l := labels[..|labels| - 1], labels[|labels| - 1];
      ChosenIsLabelValue(c, base, front, f);
      if l in c.labelOverrides {
        var o := c.labelOverrides[l];
        assert base + Chosen(c, labels) == (base + Chosen(c, front)) + [o];
        assert ((base + Chosen(c, front)) + [o])[..|base + Chosen(c, front)|] == base + Chosen(c, front);
      } else {
        assert Chosen(c, labels) == Chosen(c, front);
      }
    }
  }

  lemma BaseValue(c: Config, envType: string, f: Field)
    ensures Last(Base(c, envType), f) == Or(Get(c.defaults, f), EnvironmentValue(c, envType, f))
  {
    var d := [c.defaults];
    assert d[..0] == [] && Last([], f) == [] && Or([], Get(c.defaults, f)) == Get(c.defaults, f);
    if envType in c.environments { assert (d + [c.environments[envType]])[..1] == d; }
    else { assert d + [] == d; }
  }

  /** Labels before the environment before the defaults: each field is set by the last label that sets it, else by the
      environment type, else by the defaults. */
  lemma PrecedenceExactly(c: Config, envType: string, labels: seq<string>, f: Field)
    ensures Get(Resolved(c, envType, labels), f)
         == if LabelValue(c, labels, f) != [] then LabelValue(c, labels, f)
            else if EnvironmentValue(c, envType, f) != [] then EnvironmentValue(c, envType, f)
            else Get(c.defaults, f)
  {
    LayeredIsLast(Base(c, envType) + Chosen(c, labels), f);
    ChosenIsLabelValue(c, Base(c, envType), labels, f);
    BaseValue(c, envType, f);
  }

  function Overrides(s: Settings): map<string, string> { FeaturesOf(s).overrides }

  ghost predicate LastHolder(layers: seq<Settings>, k: string, i: int) {
    && 0 <= i < |layers| && k in Overrides(layers[i])
    && forall j :: i < j < |layers| ==> k !in Overrides(layers[j])
  }

  lemma SameHolder(layers: seq<Settings>, k: string, i: int)
    requires layers != [] && k !in Overrides(layers[|layers| - 1])
    ensures LastHolder(layers, k, i) <==> LastHolder(layers[..|layers| - 1], k, i)
  {
    var front := layers[..|layers| - 1];
    if LastHolder(front, k, i) {
      forall j | i < j < |layers| ensures k !in Overrides(layers[j]) {
        if j < |front| { assert layers[j] == front[j]; }
      }
    }
  }

  /** A feature override comes from the last layer that has it; overrides of different keys add up. */
  lemma {:induction false} LastOverrideWins(layers: seq<Settings>, k: string)
    ensures k in Overrides(Layered(layers)) <==> exists i :: LastHolder(layers, k, i)
    ensures forall i :: LastHolder(layers, k, i) ==> Overrides(Layered(layers))[k] == Overrides(layers[i])[k]
    decreases |layers|
  {
    if layers != [] {
      var front, n := layers[..|layers| - 1], |layers| - 1;
      LastOverrideWins(front, k);
      assert Overrides(Layered(layers)) == Overrides(Layered(front)) + Overrides(layers[n]);
      if k in Overrides(layers[n]) {
        assert LastHolder(layers, k, n);
      } else {
        forall i ensures LastHolder(layers, k, i) <==> LastHolder(front, k, i) { SameHolder(layers, k, i); }
      }
    }
  }

  // ----- validity

  predicate IsHexDigit(c: char) { '0' <= c <= '9' || 'a' <= c <= 'f' || 'A' <= c <= 'F' }

  predicate IsHexColor(s: string) {
    (|s| == 4 || |s| == 7) && s[0] == '#' && forall i :: 1 <= i < |s| ==> IsHexDigit(s[i])
  }

  predicate OneOf(v: string, allowed: set<string>) { v == "" || v in allowed }

  predicate ValidBanner(b: Banner) {
    OneOf(b.position, {"top", "bottom"}) && (b.color != "" ==> IsHexColor(b.color))
  }

  predicate ValidFeatures(f: Features) {
    OneOf(f.provider, {"configmap", "flipt", "flagsmith", "unleash", "noop", "none"})
  }

  predicate ValidDev(d: string) { OneOf(d, {"warn", "block", "allow"}) }

  predicate ValidAtlas(a: Atlas) {
    && OneOf(a.mode, {"versioned", "declarative"}) && OneOf(a.engine, {"operator", "job"})
    && !(a.dir != "" && a.mode == "declarative") && !(a.schema != "" && a.mode == "versioned")
    && !(a.dir != "" && a.migrationConfigMap != "") && !(a.schema != "" && a.schemaConfigMap != "")
    && OneOf(TextOf(a.policy), {"error", "warn", "allow"})
  }

  predicate ValidLayer(s: Settings) {
    && (s.banner.Some? ==> ValidBanner(s.banner.value)) && (s.atlas.Some? ==> ValidAtlas(s.atlas.value))
    && (s.features.Some? ==> ValidFeatures(s.features.value)) && (s.dev.Some? ==> ValidDev(s.dev.value))
  }

  /** Everything but the atlas group. */
  predicate ValidButAtlas(s: Settings) {
    && (s.banner.Some? ==> ValidBanner(s.banner.value))
    && (s.features.Some? ==> ValidFeatures(s.features.value)) && (s.dev.Some? ==> ValidDev(s.dev.value))
  }

  lemma MergeKeepsValidity(a: Settings, b: Settings)
    requires ValidButAtlas(a) && ValidButAtlas(b)
    ensures ValidButAtlas(Merge(a, b))
  {
  }

  /** Banner, features and dev settings of valid layers stay valid. */
  lemma {:induction false} LayersKeepValidity(layers: seq<Settings>)
    requires forall i :: 0 <= i < |layers| ==> ValidButAtlas(layers[i])
    ensures ValidButAtlas(Layered(layers))
    decreases |layers|
  {
    if layers != [] {
      LayersKeepValidity(layers[..|layers| - 1]);
      MergeKeepsValidity(Layered(layers[..|layers| - 1]), layers[|layers| - 1]);
    }
  }

  /** Two valid atlas layers can merge to an invalid one. */
  lemma AtlasValidityCanBreak()
    ensures var a, b := NO_ATLAS.(mode := "versioned", dir := "migrations"), NO_ATLAS.(mode := "declarative");
            ValidAtlas(a) && ValidAtlas(b) && !ValidAtlas(OverAtlas(a, b))
  {
  }

  /** Directory, schema, mode and the two config maps contradict one another. */
  predicate Clash(dir: seq<string>, schema: seq<string>, mode: seq<string>,
                  migrations: seq<string>, schemas: seq<string>) {
    || (dir != [] && mode == ["declarative"]) || (schema != [] && mode == ["versioned"])
    || (dir != [] && migrations != []) || (schema != [] && schemas != [])
  }

  /** The last settings of these do. */
  predicate LastAtlasClash(layers: seq<Settings>) {
    Clash(Last(layers, InAtlas(Dir)), Last(layers, InAtlas(Schema)), Last(layers, InAtlas(Mode)),
          Last(layers, InAtlas(MigrationConfigMap)), Last(layers, InAtlas(SchemaConfigMap)))
  }

  predicate ValidChoices(a: Atlas) {
    && OneOf(a.mode, {"versioned", "declarative"}) && OneOf(a.engine, {"operator", "job"})
    && OneOf(TextOf(a.policy), {"error", "warn", "allow"})
  }

  lemma ChoicesMerge(a: Atlas, b: Atlas)
    requires ValidChoices(a) && ValidChoices(b)
    ensures ValidChoices(OverAtlas(a, b))
  {
  }

  lemma {:induction false} LayersKeepChoices(layers: seq<Settings>)
    requires forall i :: 0 <= i < |layers| ==> ValidAtlas(AtlasOf(layers[i]))
    ensures ValidChoices(AtlasOf(Layered(layers)))
    decreases |layers|
  {
    if layers != [] {
      var front, last := layers[..|layers| - 1], layers[|layers| - 1];
      LayersKeepChoices(front);
      GroupsMerge(Layered(front), last);
      ChoicesMerge(AtlasOf(Layered(front)), AtlasOf(last));
    }
  }

  /** Any number of valid atlas layers merge to a valid one exactly when the last settings do not contradict one
      another; a clash between earlier layers does not matter once it is overridden. */
  lemma AtlasLayersValidExactly(layers: seq<Settings>)
    requires forall i :: 0 <= i < |layers| ==> ValidAtlas(AtlasOf(layers[i]))
    ensures ValidAtlas(AtlasOf(Layered(layers))) <==> !LastAtlasClash(layers)
  {
    LayersKeepChoices(layers);
    ClashByFields(AtlasOf(Layered(layers)));
    LastOfAtlas(layers, Dir);
    LastOfAtlas(layers, Schema);
    LastOfAtlas(layers, Mode);
    LastOfAtlas(layers, MigrationConfigMap);
    LastOfAtlas(layers, SchemaConfigMap);
  }

  lemma LastOfAtlas(layers: seq<Settings>, g: AtlasField)
    ensures GetAtlas(AtlasOf(Layered(layers)), g) == Last(layers, InAtlas(g))
  {
    LayeredIsLast(layers, InAtlas(g));
  }

  lemma ClashByFields(a: Atlas)
    requires ValidChoices(a)
    ensures ValidAtlas(a) <==> !Clash(GetAtlas(a, Dir), GetAtlas(a, Schema), GetAtlas(a, Mode),
                                      GetAtlas(a, MigrationConfigMap), GetAtlas(a, SchemaConfigMap))
  {
    assert a.mode == "declarative" <==> GetAtlas(a, Mode) == ["declarative"];
    assert a.mode == "versioned" <==> GetAtlas(a, Mode) == ["versioned"];
  }

  predicate ValidConfig(c: Config) {
    && ValidLayer(c.defaults)
    && (forall k :: k in c.environments ==> ValidLayer(c.environments[k]))
    && (forall k :: k in c.labelOverrides ==> ValidLayer(c.labelOverrides[k]))
  }

  lemma {:induction false} ChosenAreValid(c: Config, labels: seq<string>)
    requires ValidConfig(c)
    ensures forall i :: 0 <= i < |Chosen(c, labels)| ==> ValidLayer(Chosen(c, labels)[i])
    decreases |labels|
  {
    if labels != [] { ChosenAreValid(c, labels[..|labels| - 1]); }
  }

  /** A configuration that validates resolves to a valid atlas group exactly when the last settings agree. */
  lemma ResolvedAtlasValidExactly(c: Config, envType: string, labels: seq<string>)
    requires ValidConfig(c)
    ensures ValidAtlas(AtlasOf(Resolved(c, envType, labels))) <==> !LastAtlasClash(Base(c, envType) + Chosen(c, labels))
  {
    ChosenAreValid(c, labels);
    var layers := Base(c, envType) + Chosen(c, labels);
    assert ValidAtlas(NO_ATLAS);
    forall i | 0 <= i < |layers| ensures ValidAtlas(AtlasOf(layers[i])) {
      assert ValidLayer(layers[i]);
    }
    AtlasLayersValidExactly(layers);
  }

  /** A configuration that validates resolves to valid banner, features and dev settings. */
  lemma ResolvedIsValid(c: Config, envType: string, labels: seq<string>)
    requires ValidConfig(c)
    ensures ValidButAtlas(Resolved(c, envType, labels))
  {
    ChosenAreValid(c, labels);
    LayersKeepValidity(Base(c, envType) + Chosen(c, labels));
  }
}
