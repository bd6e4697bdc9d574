/** Resolving a configuration: the layers as the objects they are, merged in place into a result of its own. */
module ConfigResolve {
  import opened Text
  import V = SettingsMerge

  class Banner {
    var enabled: Option<bool>
    var text: string
    var position: string
    var color: string

    constructor ()
      ensures View() == V.NO_BANNER
    {
      enabled, text, position, color := None, "", "", "";
    }

    function View(): V.Banner
      reads this
    {
      V.Banner(enabled, text, position, color)
    }
  }

  class Policy {
    var destructive: string

    constructor ()
      ensures destructive == ""
    {
      destructive := "";
    }
  }

  class Atlas {
    var mode: string
    var engine: string
    var image: string
    var dir: string
    var schema: string
    var migrationConfigMap: string
    var schemaConfigMap: string
    var blocking: Option<bool>
    var extraArgs: seq<string>
    var policy: Policy?

    constructor ()
      ensures View() == V.NO_ATLAS && policy == null
    {
      mode, engine, image, dir, schema, migrationConfigMap, schemaConfigMap := "", "", "", "", "", "", "";
      blocking, extraArgs, policy := None, [], null;
    }

    ghost function View(): V.Atlas
      reads this, policy
    {
      V.Atlas(mode, engine, image, dir, schema, migrationConfigMap, schemaConfigMap, blocking, extraArgs,
              if policy == null then None else Some(policy.destructive))
    }
  }

  /** A Go map held by reference. */
  class StringMap {
    var m: map<string, string>

    constructor (m: map<string, string>)
      ensures this.m == m
    {
      this.m := m;
    }
  }

  class Features {
    var provider: string
    var connectionRef: string
    var overrides: StringMap?

    constructor ()
      ensures View() == V.NO_FEATURES && overrides == null
    {
      provider, connectionRef, overrides := "", "", null;
    }

    ghost function View(): V.Features
      reads this, overrides
    {
      V.Features(provider, connectionRef, if overrides == null then map[] else overrides.m)
    }
  }

  class Dev {
    var onConflict: string

    constructor ()
      ensures onConflict == ""
    {
      onConflict := "";
    }
  }

  datatype Deploy = Deploy(mode: string, namespace: string)
  datatype Routing = Routing(mode: string, baselineNamespace: string, headerKey: string, domain: string,
                             banner: Banner?)
  datatype Database = Database(mode: string, connectionRef: string, seedSource: string, migrationCommand: string,
                               atlas: Atlas?)
  datatype Lifecycle = Lifecycle(ttl: string, cleanupOnMerge: Option<bool>)

  /** The struct of nested structs; groups behind pointers may be shared between layers. */
  datatype Struct = Struct(deploy: Deploy, routing: Routing, database: Database, lifecycle: Lifecycle,
                           features: Features?, dev: Dev?)

  ghost function PolicyOf(a: Atlas?): Policy?
    reads a
  {
    if a == null then null else a.policy
  }

  ghost function OverridesOf(f: Features?): StringMap?
    reads f
  {
    if f == null then null else f.overrides
  }

  ghost function BannerView(b: Banner?): Option<V.Banner>
    reads b
  {
    if b == null then None else Some(b.View())
  }

  ghost function AtlasView(a: Atlas?): Option<V.Atlas>
    reads a, PolicyOf(a)
  {
    if a == null then None else Some(a.View())
  }

  ghost function FeaturesView(f: Features?): Option<V.Features>
    reads f, OverridesOf(f)
  {
    if f == null then None else Some(f.View())
  }

  ghost function DevView(d: Dev?): Option<string>
    reads d
  {
    if d == null then None else Some(d.onConflict)
  }

  ghost function ViewOf(s: Struct): V.Settings
    reads s.routing.banner, s.database.atlas, PolicyOf(s.database.atlas), s.features, OverridesOf(s.features), s.dev
  {
    V.Settings(s.deploy.mode, s.deploy.namespace,
               s.routing.mode, s.routing.baselineNamespace, s.routing.headerKey, s.routing.domain,
               BannerView(s.routing.banner),
               s.database.mode, s.database.connectionRef, s.database.seedSource, s.database.migrationCommand,
               AtlasView(s.database.atlas),
               s.lifecycle.ttl, s.lifecycle.cleanupOnMerge, FeaturesView(s.features), DevView(s.dev))
  }

  // Each merge below has no modifies clause: whatever existed before it is left exactly as it was.

  method MergeBanner(dst: Banner?, src: Banner?) returns (b: Banner?)
    ensures if src == null then b == dst else b != null && fresh(b)
    ensures BannerView(b) == V.MergeBanner(BannerView(dst), BannerView(src))
  {
    if src == null { return dst; }
    b := new Banner();
    if dst != null {
      b.enabled, b.text, b.position, b.color := dst.enabled, dst.text, dst.position, dst.color;
    }
    b.enabled := V.OrFlag(b.enabled, src.enabled);
    b.text := V.Or(b.text, src.text);
    b.position := V.Or(b.position, src.position);
    b.color := V.Or(b.color, src.color);
  }

  method MergePolicy(dst: Policy?, src: Policy?) returns (p: Policy?)
    ensures src == null ==> p == dst
    ensures src != null ==> p != null && fresh(p)
    ensures TextOf(p) == V.MergeText(TextOf(dst), TextOf(src))
  {
    if src == null { return dst; }
    p := new Policy();
    if dst != null { p.destructive := dst.destructive; }
    p.destructive := V.Or(p.destructive, src.destructive);
  }

  ghost function TextOf(p: Policy?): Option<string>
    reads p
  {
    if p == null then None else Some(p.destructive)
  }

  method CopyAtlas(dst: Atlas?) returns (a: Atlas)
    ensures fresh(a) && a.View() == if dst == null then V.NO_ATLAS else dst.View()
    ensures a.policy == if dst == null then null else dst.policy
  {
    a := new Atlas();
    if dst != null {
      a.mode, a.engine, a.image, a.dir, a.schema := dst.mode, dst.engine, dst.image, dst.dir, dst.schema;
      a.migrationConfigMap, a.schemaConfigMap := dst.migrationConfigMap, dst.schemaConfigMap;
      a.blocking, a.extraArgs, a.policy := dst.blocking, dst.extraArgs, dst.policy;
    }
  }

  /** Writes a layer's atlas settings over a copy made for the result. */
  method OverlayAtlas(a: Atlas, src: Atlas, p: Policy?)
    requires a != src && TextOf(p) == V.MergeText(TextOf(a.policy), TextOf(src.policy))
    modifies a
    ensures a.View() == V.OverAtlas(old(a.View()), old(src.View()))
  {
    a.mode := V.Or(a.mode, src.mode);
    a.engine := V.Or(a.engine, src.engine);
    a.image := V.Or(a.image, src.image);
    a.dir := V.Or(a.dir, src.dir);
    a.schema := V.Or(a.schema, src.schema);
    a.migrationConfigMap := V.Or(a.migrationConfigMap, src.migrationConfigMap);
    a.schemaConfigMap := V.Or(a.schemaConfigMap, src.schemaConfigMap);
    a.blocking := V.OrFlag(a.blocking, src.blocking);
    a.extraArgs := V.Or(a.extraArgs, src.extraArgs);
    a.policy := p;
  }

  method MergeAtlas(dst: Atlas?, src: Atlas?) returns (a: Atlas?)
    ensures if src == null then a == dst else a != null && fresh(a)
    ensures AtlasView(a) == V.MergeAtlas(AtlasView(dst), AtlasView(src))
  {
    if src == null { return dst; }
    ghost var x, y := AtlasView(dst), AtlasView(src);
    var c := CopyAtlas(dst);
    var p := MergePolicy(c.policy, src.policy);
    assert c.View() == if x.Some? then x.value else V.NO_ATLAS;
    OverlayAtlas(c, src, p);
    a := c;
    assert AtlasView(dst) == x && AtlasView(src) == y;
  }

  ghost function Entries(o: StringMap?): map<string, string>
    reads o
  {
    if o == null then map[] else o.m
  }

  /** The overrides of a result: always a map of its own, absent only if both are absent or add nothing. */
  method MergeOverrides(dst: StringMap?, src: StringMap?) returns (o: StringMap?)
    ensures o != null ==> fresh(o)
    ensures Entries(o) == Entries(dst) + Entries(src)
  {
    ghost var before, added := Entries(dst), Entries(src);
    o := null;
    if dst != null { o := new StringMap(dst.m); }
    if src != null && |src.m| > 0 {
      var entries := src.m;
      if o == null { o := new StringMap(map[]); }
      o.m := o.m + entries;
    } else {
      NothingToAdd(before, added);
    }
    assert Entries(dst) == before && Entries(src) == added;
  }

  lemma NothingToAdd(m: map<string, string>, added: map<string, string>)
    requires |added| == 0
    ensures m + added == m
  {
  }

  method MergeFeatures(dst: Features?, src: Features?) returns (f: Features?)
    ensures if src == null then f == dst else f != null && fresh(f) && (f.overrides != null ==> fresh(f.overrides))
    ensures FeaturesView(f) == V.MergeFeatures(FeaturesView(dst), FeaturesView(src))
  {
    if src == null { return dst; }
    f := new Features();
    if dst != null { f.provider, f.connectionRef := dst.provider, dst.connectionRef; }
    var o := MergeOverrides(if dst == null then null else dst.overrides, src.overrides);
    f.provider := V.Or(f.provider, src.provider);
    f.connectionRef := V.Or(f.connectionRef, src.connectionRef);
    f.overrides := o;
  }

  method MergeDev(dst: Dev?, src: Dev?) returns (d: Dev?)
    ensures if src == null then d == dst else d != null && fresh(d)
    ensures DevView(d) == V.MergeText(DevView(dst), DevView(src))
  {
    if src == null { return dst; }
    d := new Dev();
    if dst != null { d.onConflict := dst.onConflict; }
    d.onConflict := V.Or(d.onConflict, src.onConflict);
  }

  method MergeBannerAndAtlas(dst: Struct, src: Struct) returns (banner: Banner?, atlas: Atlas?)
    ensures if src.routing.banner == null then banner == dst.routing.banner else banner != null && fresh(banner)
    ensures if src.database.atlas == null then atlas == dst.database.atlas else atlas != null && fresh(atlas)
    ensures BannerView(banner) == V.MergeBanner(BannerView(dst.routing.banner), BannerView(src.routing.banner))
    ensures AtlasView(atlas) == V.MergeAtlas(AtlasView(dst.database.atlas), AtlasView(src.database.atlas))
  {
    atlas := MergeAtlas(dst.database.atlas, src.database.atlas);
    banner := MergeBanner(dst.routing.banner, src.routing.banner);
  }

  method MergeFeaturesAndDev(dst: Struct, src: Struct) returns (features: Features?, dev: Dev?)
    ensures if src.features == null then features == dst.features else features != null && fresh(features)
    ensures if src.dev == null then dev == dst.dev else dev != null && fresh(dev)
    ensures FeaturesView(features) == V.MergeFeatures(FeaturesView(dst.features), FeaturesView(src.features))
    ensures DevView(dev) == V.MergeText(DevView(dst.dev), DevView(src.dev))
  {
    features := MergeFeatures(dst.features, src.features);
    dev := MergeDev(dst.dev, src.dev);
  }

  /** Merges a layer over another: a group that the later layer sets becomes a new object, any other stays the
      earlier layer's. */
  method MergeSettings(dst: Struct, src: Struct) returns (r: Struct)
    ensures ViewOf(r) == V.Merge(ViewOf(dst), ViewOf(src))
    ensures if src.routing.banner == null then r.routing.banner == dst.routing.banner
            else r.routing.banner != null && fresh(r.routing.banner)
    ensures if src.database.atlas == null then r.database.atlas == dst.database.atlas
            else r.database.atlas != null && fresh(r.database.atlas)
    ensures if src.features == null then r.features == dst.features else r.features != null && fresh(r.features)
    ensures if src.dev == null then r.dev == dst.dev else r.dev != null && fresh(r.dev)
  {
    var banner, atlas := MergeBannerAndAtlas(dst, src);
    var features, dev := MergeFeaturesAndDev(dst, src);
    r := Struct(
      Deploy(V.Or(dst.deploy.mode, src.deploy.mode), V.Or(dst.deploy.namespace, src.deploy.namespace)),
      Routing(V.Or(dst.routing.mode, src.routing.mode),
              V.Or(dst.routing.baselineNamespace, src.routing.baselineNamespace),
              V.Or(dst.routing.headerKey, src.routing.headerKey), V.Or(dst.routing.domain, src.routing.domain), banner),
      Database(V.Or(dst.database.mode, src.database.mode), V.Or(dst.database.connectionRef, src.database.connectionRef),
               V.Or(dst.database.seedSource, src.database.seedSource),
               V.Or(dst.database.migrationCommand, src.database.migrationCommand), atlas),
      Lifecycle(V.Or(dst.lifecycle.ttl, src.lifecycle.ttl),
                V.OrFlag(dst.lifecycle.cleanupOnMerge, src.lifecycle.cleanupOnMerge)),
      features, dev);
  }

  /** A struct looks the same as long as the objects it leads to are left alone. */
  twostate lemma LooksTheSame(s: Struct)
    requires s.routing.banner != null ==> unchanged(s.routing.banner)
    requires s.database.atlas != null ==> unchanged(s.database.atlas)
    requires s.features != null ==> unchanged(s.features)
    requires s.dev != null ==> unchanged(s.dev)
    requires old(PolicyOf(s.database.atlas)) != null ==> unchanged(old(PolicyOf(s.database.atlas)))
    requires old(OverridesOf(s.features)) != null ==> unchanged(old(OverridesOf(s.features)))
    ensures ViewOf(s) == old(ViewOf(s))
  {
  }

  // ----- resolving

  /** Structs are copied out of the configuration by value; what they point to is shared with it. */
  datatype Config = Config(defaults: Struct, environments: map<string, Struct>, labelOverrides: map<string, Struct>)

  /** Defaults, then the environment type, then the labels' overrides in order. Nothing reachable from the
      configuration, or any other existing object, is changed. */
  method Resolve(c: Config, envType: string, labels: seq<string>, ghost v: V.Config) returns (r: Struct)
    requires ViewOf(c.defaults) == v.defaults
    requires c.environments.Keys == v.environments.Keys && c.labelOverrides.Keys == v.labelOverrides.Keys
    requires forall k :: k in c.environments ==> ViewOf(c.environments[k]) == v.environments[k]
    requires forall k :: k in c.labelOverrides ==> ViewOf(c.labelOverrides[k]) == v.labelOverrides[k]
    ensures ViewOf(r) == V.Resolved(v, envType, labels)
  {
    r := c.defaults;
    if envType in c.environments { r := MergeOverride(r, c.environments[envType], v.environments[envType]); }
    V.ResolvedStart(v, envType);
    for i := 0 to |labels|
      invariant ViewOf(r) == V.Resolved(v, envType, labels[..i])
    {
      V.ResolvedStep(v, envType, labels, i);
      if labels[i] in c.labelOverrides {
        LooksTheSame(c.labelOverrides[labels[i]]);
        r := MergeOverride(r, c.labelOverrides[labels[i]], v.labelOverrides[labels[i]]);
      }
    }
    assert labels[..|labels|] == labels;
  }

  method MergeOverride(dst: Struct, src: Struct, ghost view: V.Settings) returns (r: Struct)
    requires ViewOf(src) == view
    ensures ViewOf(r) == V.Merge(old(ViewOf(dst)), view)
  {
    r := MergeSettings(dst, src);
    LooksTheSame(dst);
    LooksTheSame(src);
  }
}
