/** Which deployments the fingerprint text tells apart: all that is written of them, as long as it fits on one line. */
module DeploymentReading {
  import opened Text
  import opened Fingerprint
  import opened FingerprintReading
  import opened FingerprintLines

  // ----- fields

  /** Two texts split at the last separator agree part by part. */
  lemma LastField(sep: char, a: string, x: string, b: string, y: string)
    requires sep !in x && sep !in y && a + [sep] + x == b + [sep] + y
    ensures a == b && x == y
  {
    var s := a + [sep] + x;
    assert |a| + |x| == |b| + |y|;
    assert s[|a|] == sep && s[|b|] == sep;
    assert s[|a| + 1..] == x && s[|b| + 1..] == y;
    assert s[..|a|] == a && s[..|b|] == b;
  }

  /** A separator whose first character occurs in it only once. */
  predicate IsSeparator(sep: string) { sep != "" && forall j :: 1 <= j < |sep| ==> sep[j] != sep[0] }

  lemma NotEarlier(sep: string, a: string, x: string, b: string, y: string)
    requires IsSeparator(sep) && !Contains(b, sep) && a + sep + x == b + sep + y
    ensures |a| >= |b|
  {
    var s := a + sep + x;
    assert s[|b|] == sep[0];
    if |a| + |sep| <= |b| {
      assert s[|a|..|a| + |sep|] == sep;
      assert b[|a|..|a| + |sep|] == s[|a|..|a| + |sep|];
      assert OccursAt(b, sep, |a|);
    }
  }

  /** Two texts split at the first such separator agree part by part. */
  lemma FirstSeparator(sep: string, a: string, x: string, b: string, y: string)
    requires IsSeparator(sep) && !Contains(a, sep) && !Contains(b, sep) && a + sep + x == b + sep + y
    ensures a == b && x == y
  {
    NotEarlier(sep, a, x, b, y);
    NotEarlier(sep, b, y, a, x);
    var s := a + sep + x;
    assert s[..|a|] == a && s[..|b|] == b;
    assert s[|a| + |sep|..] == x && s[|b| + |sep|..] == y;
  }

  // ----- lists of words

  predicate PlainWords(xs: seq<string>) { forall i :: 0 <= i < |xs| ==> '\0' !in xs[i] && '\n' !in xs[i] }

  /** A single empty word is written like none. */
  function Normal(xs: seq<string>): seq<string> { if xs == [""] then [] else xs }

  lemma JoinedMore(xs: seq<string>)
    requires |xs| > 1
    ensures Joined(xs) == xs[0] + ['\0'] + Joined(xs[1..]) && '\0' in Joined(xs)
  {
    assert Joined(xs)[|xs[0]|] == '\0';
  }

  lemma {:induction false} WordsApart(xs: seq<string>, ys: seq<string>)
    requires xs != [] && ys != [] && PlainWords(xs) && PlainWords(ys) && Joined(xs) == Joined(ys)
    ensures xs == ys
    decreases |xs|
  {
    if |xs| > 1 { JoinedMore(xs); }
    if |ys| > 1 { JoinedMore(ys); }
    if |xs| > 1 && |ys| > 1 {
      FirstField('\0', xs[0], Joined(xs[1..]), ys[0], Joined(ys[1..]));
      WordsApart(xs[1..], ys[1..]);
      assert xs == [xs[0]] + xs[1..] && ys == [ys[0]] + ys[1..];
    }
  }

  /** A list of words can be read back, but for a single empty one. */
  lemma JoinedApart(xs: seq<string>, ys: seq<string>)
    requires PlainWords(xs) && PlainWords(ys) && Joined(xs) == Joined(ys)
    ensures Normal(xs) == Normal(ys)
  {
    if |xs| > 1 { JoinedMore(xs); }
    if |ys| > 1 { JoinedMore(ys); }
    if xs != [] && ys != [] { WordsApart(xs, ys); }
  }

  lemma {:induction false} JoinedPlain(xs: seq<string>)
    requires PlainWords(xs)
    ensures '\n' !in Joined(xs)
    decreases |xs|
  {
    if |xs| > 1 { JoinedPlain(xs[1..]); }
  }

  // ----- ports

  predicate PlainPort(p: Port) { ':' !in p.name && '\n' !in p.name && '\n' !in p.protocol }

  function PortEntry(p: Port): string { "port:" + (p.name + [':'] + (Dec(p.number) + ['/'] + p.protocol)) }

  function PortEntries(p: Port): seq<string> { [PortEntry(p)] }

  lemma PortIsLine(p: Port)
    ensures PortLine(p) == Unlines(PortEntries(p))
  {
    OneLine(PortEntry(p));
  }

  lemma DecIsPlain(n: int)
    ensures '/' !in Dec(n) && '\n' !in Dec(n)
  {
  }

  lemma PortApart(p: Port, q: Port)
    requires PlainPort(p) && PlainPort(q) && PortEntry(p) == PortEntry(q)
    ensures p == q
  {
    var x, y := Dec(p.number) + ['/'] + p.protocol, Dec(q.number) + ['/'] + q.protocol;
    SameTail("port:", p.name + [':'] + x, q.name + [':'] + y);
    FirstField(':', p.name, x, q.name, y);
    DecIsPlain(p.number);
    DecIsPlain(q.number);
    FirstField('/', Dec(p.number), p.protocol, Dec(q.number), q.protocol);
    DecInjective(p.number, q.number);
  }

  // ----- environment variables

  predicate PlainRef(r: Ref) {
    match r
    case ConfigKey(n, k) => ':' !in n && '(' !in n && '(' !in k && '\n' !in n && '\n' !in k
    case SecretKey(n, k) => ':' !in n && '(' !in n && '(' !in k && '\n' !in n && '\n' !in k
    case NoRef => true
  }

  predicate PlainVar(e: EnvVar) { '=' !in e.name && '\n' !in e.name && '\n' !in e.value && PlainRef(e.from) }

  function RefText(r: Ref): string {
    match r
    case ConfigKey(n, k) => "cm:" + (n + [':'] + k)
    case SecretKey(n, k) => "sec:" + (n + [':'] + k)
    case NoRef => ""
  }

  function VarEntry(e: EnvVar): string { "env:" + (e.name + ['='] + (e.value + ['('] + (RefText(e.from) + ")"))) }

  function VarEntries(e: EnvVar): seq<string> { [VarEntry(e)] }

  lemma VarIsLine(e: EnvVar)
    ensures EnvLine(e) == Unlines(VarEntries(e))
  {
    OneLine(VarEntry(e));
    RefIsText(e.from);
    VarIsText(e.name, e.value, RefText(e.from));
  }

  lemma RefIsText(r: Ref)
    ensures RefText(r) == match r
                          case ConfigKey(n, k) => "cm:" + n + ":" + k
                          case SecretKey(n, k) => "sec:" + n + ":" + k
                          case NoRef => ""
  {
  }

  lemma VarIsText(name: string, value: string, ref: string)
    ensures "env:" + name + "=" + value + "(" + ref + ")\n"
         == "env:" + (name + ['='] + (value + ['('] + (ref + ")"))) + "\n"
  {
    assert ")\n" == ")" + "\n";
    var head := "env:" + name + "=";
    Regroup("env:", name, "=");
    Regroup(head, value, "(");
    Regroup(head + (value + "("), ref, ")");
    Regroup(head, value + "(", ref + ")");
    Regroup("env:", name + "=", value + "(" + (ref + ")"));
    Regroup(head + value + "(" + ref, ")", "\n");
  }

  lemma RefApart(r: Ref, q: Ref)
    requires PlainRef(r) && PlainRef(q) && RefText(r) == RefText(q)
    ensures r == q
  {
    RefStart(r);
    RefStart(q);
    if r.ConfigKey? && q.ConfigKey? {
      SameTail("cm:", r.name + [':'] + r.key, q.name + [':'] + q.key);
      FirstField(':', r.name, r.key, q.name, q.key);
    } else if r.SecretKey? && q.SecretKey? {
      SameTail("sec:", r.name + [':'] + r.key, q.name + [':'] + q.key);
      FirstField(':', r.name, r.key, q.name, q.key);
    }
  }

  lemma RefStart(r: Ref)
    ensures r.ConfigKey? <==> RefText(r) != "" && RefText(r)[0] == 'c'
    ensures r.SecretKey? <==> RefText(r) != "" && RefText(r)[0] == 's'
  {
  }

  lemma RefIsPlain(r: Ref)
    requires PlainRef(r)
    ensures '(' !in RefText(r) + ")" && '\n' !in RefText(r)
  {
  }

  lemma VarApart(e: EnvVar, f: EnvVar)
    requires PlainVar(e) && PlainVar(f) && VarEntry(e) == VarEntry(f)
    ensures e == f
  {
    var r, q := RefText(e.from) + ")", RefText(f.from) + ")";
    var x, y := e.value + ['('] + r, f.value + ['('] + q;
    SameTail("env:", e.name + ['='] + x, f.name + ['='] + y);
    FirstField('=', e.name, x, f.name, y);
    RefIsPlain(e.from);
    RefIsPlain(f.from);
    LastField('(', e.value, r, f.value, q);
    assert r[..|r| - 1] == RefText(e.from) && q[..|q| - 1] == RefText(f.from);
    RefApart(e.from, f.from);
  }

  // ----- imported environments

  predicate PlainFrom(e: EnvFrom) {
    && '|' !in e.prefix && '|' !in e.configMap
    && '\n' !in e.prefix && '\n' !in e.configMap && '\n' !in e.secret
  }

  function FromEntry(e: EnvFrom): string {
    "envFrom:prefix=" + (e.prefix + ['|'] + ("cm=" + (e.configMap + ['|'] + ("sec=" + e.secret))))
  }

  function FromEntries(e: EnvFrom): seq<string> { [FromEntry(e)] }

  lemma FromIsLine(e: EnvFrom)
    ensures FromLine(e) == Unlines(FromEntries(e))
  {
    OneLine(FromEntry(e));
  }

  lemma FromApart(e: EnvFrom, f: EnvFrom)
    requires PlainFrom(e) && PlainFrom(f) && FromEntry(e) == FromEntry(f)
    ensures e == f
  {
    var x, y := "sec=" + e.secret, "sec=" + f.secret;
    var v, w := e.configMap + ['|'] + x, f.configMap + ['|'] + y;
    SameTail("envFrom:prefix=", e.prefix + ['|'] + ("cm=" + v), f.prefix + ['|'] + ("cm=" + w));
    FirstField('|', e.prefix, "cm=" + v, f.prefix, "cm=" + w);
    SameTail("cm=", v, w);
    FirstField('|', e.configMap, x, f.configMap, y);
    SameTail("sec=", e.secret, f.secret);
  }

  // ----- containers

  /** Kubernetes names and images hold no bar; the text of the command must not itself open the arguments. */
  ghost predicate PlainContainer(c: Container) {
    && '|' !in c.name && '|' !in c.image && '\n' !in c.name && '\n' !in c.image
    && PlainWords(c.command) && PlainWords(c.args) && !Contains(Joined(c.command), "|args:")
    && (forall i :: 0 <= i < |c.ports| ==> PlainPort(c.ports[i]))
    && (forall i :: 0 <= i < |c.env| ==> PlainVar(c.env[i]))
    && (forall i :: 0 <= i < |c.envFrom| ==> PlainFrom(c.envFrom[i]))
  }

  /** A container as far as its text goes. */
  function Shown(c: Container): Container { c.(command := Normal(c.command), args := Normal(c.args)) }

  function HeadRest(c: Container): string {
    c.name + ['|'] + ("image:" + (c.image + ['|'] + ("cmd:" + (Joined(c.command) + "|args:" + Joined(c.args)))))
  }

  function HeadEntry(prefix: string, c: Container): string { prefix + ":" + HeadRest(c) }

  function BodyEntries(c: Container): seq<string> {
    Flat(c.ports, PortEntries) + (Flat(c.env, VarEntries) + Flat(c.envFrom, FromEntries))
  }

  function ContainerEntries(prefix: string, c: Container): seq<string> { [HeadEntry(prefix, c)] + BodyEntries(c) }

  lemma HeadIsLine(prefix: string, c: Container)
    ensures Unlines([HeadEntry(prefix, c)])
         == prefix + ":" + c.name + "|image:" + c.image + "|cmd:" + Joined(c.command) + "|args:" + Joined(c.args) + "\n"
  {
    OneLine(HeadEntry(prefix, c));
  }

  lemma BodyIsLines(c: Container)
    ensures Unlines(BodyEntries(c)) == Texts(c.ports, PortLine) + (Texts(c.env, EnvLine) + Texts(c.envFrom, FromLine))
  {
    forall p ensures PortLine(p) == Unlines(PortEntries(p)) { PortIsLine(p); }
    forall e ensures EnvLine(e) == Unlines(VarEntries(e)) { VarIsLine(e); }
    forall e ensures FromLine(e) == Unlines(FromEntries(e)) { FromIsLine(e); }
    TextsAreLines(c.ports, PortLine, PortEntries);
    TextsAreLines(c.env, EnvLine, VarEntries);
    TextsAreLines(c.envFrom, FromLine, FromEntries);
    UnlinesConcat(Flat(c.env, VarEntries), Flat(c.envFrom, FromEntries));
    UnlinesConcat(Flat(c.ports, PortEntries), Flat(c.env, VarEntries) + Flat(c.envFrom, FromEntries));
  }

  lemma ContainerIsLines(prefix: string, c: Container)
    ensures ContainerText(prefix, c) == Unlines(ContainerEntries(prefix, c))
  {
    HeadIsLine(prefix, c);
    BodyIsLines(c);
    UnlinesConcat([HeadEntry(prefix, c)], BodyEntries(c));
    var head, ports := Unlines([HeadEntry(prefix, c)]), Texts(c.ports, PortLine);
    var env, from := Texts(c.env, EnvLine), Texts(c.envFrom, FromLine);
    Regroup(head, ports, env + from);
    Regroup(head + ports, env, from);
  }

  lemma HeadApart(p: string, c: Container, q: string, d: Container)
    requires ':' !in p && ':' !in q && PlainContainer(c) && PlainContainer(d) && HeadEntry(p, c) == HeadEntry(q, d)
    ensures p == q && c.name == d.name && c.image == d.image
    ensures Normal(c.command) == Normal(d.command) && Normal(c.args) == Normal(d.args)
  {
    FirstField(':', p, HeadRest(c), q, HeadRest(d));
    var x, y := Joined(c.command) + "|args:" + Joined(c.args), Joined(d.command) + "|args:" + Joined(d.args);
    var v, w := c.image + ['|'] + ("cmd:" + x), d.image + ['|'] + ("cmd:" + y);
    FirstField('|', c.name, "image:" + v, d.name, "image:" + w);
    SameTail("image:", v, w);
    FirstField('|', c.image, "cmd:" + x, d.image, "cmd:" + y);
    SameTail("cmd:", x, y);
    FirstSeparator("|args:", Joined(c.command), Joined(c.args), Joined(d.command), Joined(d.args));
    JoinedApart(c.command, d.command);
    JoinedApart(c.args, d.args);
  }

  lemma BodyTagged(c: Container)
    ensures Tagged(Flat(c.ports, PortEntries), "port") && Tagged(Flat(c.env, VarEntries), "env")
    ensures Tagged(Flat(c.envFrom, FromEntries), "envFrom")
  {
    forall p ensures Tagged(PortEntries(p), "port") { PortTag(p); }
    forall e ensures Tagged(VarEntries(e), "env") { VarTag(e); }
    forall e ensures Tagged(FromEntries(e), "envFrom") { FromTag(e); }
    FlatTagged(c.ports, PortEntries, "port");
    FlatTagged(c.env, VarEntries, "env");
    FlatTagged(c.envFrom, FromEntries, "envFrom");
  }

  lemma PortTag(p: Port)
    ensures TagOf(PortEntry(p)) == "port"
  {
    var rest := p.name + [':'] + (Dec(p.number) + ['/'] + p.protocol);
    assert PortEntry(p) == "port" + ":" + rest;
    TagOfTagged("port", rest);
  }

  lemma VarTag(e: EnvVar)
    ensures TagOf(VarEntry(e)) == "env"
  {
    var rest := e.name + ['='] + (e.value + ['('] + (RefText(e.from) + ")"));
    assert VarEntry(e) == "env" + ":" + rest;
    TagOfTagged("env", rest);
  }

  lemma FromTag(e: EnvFrom)
    ensures TagOf(FromEntry(e)) == "envFrom"
  {
    var rest := e.prefix + ['|'] + ("cm=" + (e.configMap + ['|'] + ("sec=" + e.secret)));
    assert FromEntry(e) == "envFrom" + ":" + ("prefix=" + rest);
    TagOfTagged("envFrom", "prefix=" + rest);
  }

  lemma PortsApart(xs: seq<Port>, ys: seq<Port>)
    requires forall i :: 0 <= i < |xs| ==> PlainPort(xs[i])
    requires forall i :: 0 <= i < |ys| ==> PlainPort(ys[i])
    requires Flat(xs, PortEntries) == Flat(ys, PortEntries)
    ensures xs == ys
  {
    OneLineEach(xs, ys, PortEntries);
    forall i | 0 <= i < |xs| ensures xs[i] == ys[i] {
      assert PortEntries(xs[i])[0] == PortEntries(ys[i])[0];
      PortApart(xs[i], ys[i]);
    }
  }

  lemma VarsApart(xs: seq<EnvVar>, ys: seq<EnvVar>)
    requires forall i :: 0 <= i < |xs| ==> PlainVar(xs[i])
    requires forall i :: 0 <= i < |ys| ==> PlainVar(ys[i])
    requires Flat(xs, VarEntries) == Flat(ys, VarEntries)
    ensures xs == ys
  {
    OneLineEach(xs, ys, VarEntries);
    forall i | 0 <= i < |xs| ensures xs[i] == ys[i] {
      assert VarEntries(xs[i])[0] == VarEntries(ys[i])[0];
      VarApart(xs[i], ys[i]);
    }
  }

  lemma FromsApart(xs: seq<EnvFrom>, ys: seq<EnvFrom>)
    requires forall i :: 0 <= i < |xs| ==> PlainFrom(xs[i])
    requires forall i :: 0 <= i < |ys| ==> PlainFrom(ys[i])
    requires Flat(xs, FromEntries) == Flat(ys, FromEntries)
    ensures xs == ys
  {
    OneLineEach(xs, ys, FromEntries);
    forall i | 0 <= i < |xs| ensures xs[i] == ys[i] {
      assert FromEntries(xs[i])[0] == FromEntries(ys[i])[0];
      FromApart(xs[i], ys[i]);
    }
  }

  lemma BodyApart(c: Container, d: Container)
    requires PlainContainer(c) && PlainContainer(d) && BodyEntries(c) == BodyEntries(d)
    ensures c.ports == d.ports && c.env == d.env && c.envFrom == d.envFrom
  {
    BodyTagged(c);
    BodyTagged(d);
    var x, y := Flat(c.env, VarEntries) + Flat(c.envFrom, FromEntries),
                Flat(d.env, VarEntries) + Flat(d.envFrom, FromEntries);
    SplitByTag("port", Flat(c.ports, PortEntries), x, Flat(d.ports, PortEntries), y);
    SplitByTag("env", Flat(c.env, VarEntries), Flat(c.envFrom, FromEntries),
               Flat(d.env, VarEntries), Flat(d.envFrom, FromEntries));
    PortsApart(c.ports, d.ports);
    VarsApart(c.env, d.env);
    FromsApart(c.envFrom, d.envFrom);
  }

  lemma ContainerApart(p: string, c: Container, q: string, d: Container)
    requires ':' !in p && ':' !in q && PlainContainer(c) && PlainContainer(d)
    requires ContainerEntries(p, c) == ContainerEntries(q, d)
    ensures p == q && Shown(c) == Shown(d)
  {
    var xs, ys := ContainerEntries(p, c), ContainerEntries(q, d);
    assert xs[0] == HeadEntry(p, c) && ys[0] == HeadEntry(q, d);
    assert xs[1..] == BodyEntries(c) && ys[1..] == BodyEntries(d);
    HeadApart(p, c, q, d);
    BodyApart(c, d);
  }

  // ----- deployments

  /** A container and the word its text starts with. */
  datatype Item = Item(prefix: string, c: Container)

  function ItemEntries(x: Item): seq<string> { ContainerEntries(x.prefix, x.c) }

  function ItemsOf(prefix: string, cs: seq<Container>): (r: seq<Item>)
    ensures |r| == |cs| && forall i :: 0 <= i < |cs| ==> r[i] == Item(prefix, cs[i])
  {
    seq(|cs|, i requires 0 <= i < |cs| => Item(prefix, cs[i]))
  }

  function Items(d: Deployment): seq<Item> { ItemsOf("init-container", d.inits) + ItemsOf("container", d.containers) }

  ghost function DeploymentEntries(d: Deployment): seq<string> {
    ["deploy:" + Path(d.key)] + (EntryLines("pod-anno", d.annotations) + Flat(Items(d), ItemEntries))
  }

  lemma {:induction false} ItemsAreLines(prefix: string, cs: seq<Container>)
    ensures Texts(cs, ContainerTexts(prefix)) == Unlines(Flat(ItemsOf(prefix, cs), ItemEntries))
    decreases |cs|
  {
    if cs != [] {
      ContainerIsLines(prefix, cs[0]);
      ItemsAreLines(prefix, cs[1..]);
      assert ItemsOf(prefix, cs)[1..] == ItemsOf(prefix, cs[1..]);
      UnlinesConcat(ContainerEntries(prefix, cs[0]), Flat(ItemsOf(prefix, cs[1..]), ItemEntries));
    }
  }

  lemma ContainersAreLines(d: Deployment)
    ensures Containers(d) == Unlines(Flat(Items(d), ItemEntries))
  {
    var inits, mains := ItemsOf("init-container", d.inits), ItemsOf("container", d.containers);
    ItemsAreLines("init-container", d.inits);
    ItemsAreLines("container", d.containers);
    FlatConcat(inits, mains, ItemEntries);
    UnlinesConcat(Flat(inits, ItemEntries), Flat(mains, ItemEntries));
  }

  lemma DeploymentIsLines(d: Deployment)
    ensures DeploymentText(d) == Unlines(DeploymentEntries(d))
  {
    var head, notes := "deploy:" + Path(d.key), EntryLines("pod-anno", d.annotations);
    var items := Flat(Items(d), ItemEntries);
    OneLine(head);
    MapIsLines("pod-anno", d.annotations);
    ContainersAreLines(d);
    UnlinesConcat(notes, items);
    UnlinesConcat([head], notes + items);
    Regroup(Unlines([head]), Unlines(notes), Unlines(items));
  }

  ghost predicate PlainContainers(cs: seq<Container>) { forall i :: 0 <= i < |cs| ==> PlainContainer(cs[i]) }

  /** Every value that is written fits on one line, and names are as Kubernetes has them. */
  ghost predicate PlainDeployment(d: Deployment) {
    && '/' !in d.key.namespace && '\n' !in d.key.namespace && '\n' !in d.key.name
    && PlainKeys(d.annotations) && PlainValues(d.annotations)
    && PlainContainers(d.inits) && PlainContainers(d.containers)
  }

  function AllShown(cs: seq<Container>): (r: seq<Container>)
    ensures |r| == |cs| && forall i :: 0 <= i < |cs| ==> r[i] == Shown(cs[i])
  {
    seq(|cs|, i requires 0 <= i < |cs| => Shown(cs[i]))
  }

  /** A deployment as far as its text goes: labels and volumes only decide which objects count. */
  function ShownDeployment(d: Deployment): Deployment {
    Deployment(d.key, map[], d.annotations, AllShown(d.inits), AllShown(d.containers), [])
  }

  // ----- lines of a deployment are plain and tagged

  lemma PortIsPlain(p: Port)
    requires PlainPort(p)
    ensures AllPlain(PortEntries(p))
  {
    DecIsPlain(p.number);
  }

  lemma VarIsPlain(e: EnvVar)
    requires PlainVar(e)
    ensures AllPlain(VarEntries(e))
  {
    RefIsPlain(e.from);
  }

  lemma FromIsPlain(e: EnvFrom)
    requires PlainFrom(e)
    ensures AllPlain(FromEntries(e))
  {
  }

  lemma BodyIsPlain(c: Container)
    requires PlainContainer(c)
    ensures AllPlain(BodyEntries(c))
  {
    forall i | 0 <= i < |c.ports| ensures AllPlain(PortEntries(c.ports[i])) { PortIsPlain(c.ports[i]); }
    forall i | 0 <= i < |c.env| ensures AllPlain(VarEntries(c.env[i])) { VarIsPlain(c.env[i]); }
    forall i | 0 <= i < |c.envFrom| ensures AllPlain(FromEntries(c.envFrom[i])) { FromIsPlain(c.envFrom[i]); }
    FlatPlain(c.ports, PortEntries);
    FlatPlain(c.env, VarEntries);
    FlatPlain(c.envFrom, FromEntries);
    PlainConcat(Flat(c.env, VarEntries), Flat(c.envFrom, FromEntries));
    PlainConcat(Flat(c.ports, PortEntries), Flat(c.env, VarEntries) + Flat(c.envFrom, FromEntries));
  }

  lemma HeadIsPlain(prefix: string, c: Container)
    requires '\n' !in prefix && PlainContainer(c)
    ensures '\n' !in HeadEntry(prefix, c)
  {
    JoinedPlain(c.command);
    JoinedPlain(c.args);
  }

  predicate IsPrefix(p: string) { p == "init-container" || p == "container" }

  ghost predicate PlainItem(x: Item) { IsPrefix(x.prefix) && PlainContainer(x.c) }

  lemma ItemIsPlain(x: Item)
    requires PlainItem(x)
    ensures AllPlain(ItemEntries(x))
  {
    HeadIsPlain(x.prefix, x.c);
    BodyIsPlain(x.c);
  }

  ghost predicate BodyTag(t: string) { t == "port" || t == "env" || t == "envFrom" }

  lemma BodyTags(c: Container)
    ensures forall i :: 0 <= i < |BodyEntries(c)| ==> BodyTag(TagOf(BodyEntries(c)[i]))
  {
    BodyTagged(c);
  }

  const CONTAINERS := {"init-container", "container"}

  lemma ItemIsBlock(x: Item)
    requires IsPrefix(x.prefix)
    ensures IsBlock(ItemEntries(x), CONTAINERS)
  {
    TagOfTagged(x.prefix, HeadRest(x.c));
    BodyTags(x.c);
    var ls := ItemEntries(x);
    forall i | 0 < i < |ls| ensures TagOf(ls[i]) !in CONTAINERS { assert ls[i] == BodyEntries(x.c)[i - 1]; }
  }

  lemma ItemsArePlain(d: Deployment)
    requires PlainDeployment(d)
    ensures forall i :: 0 <= i < |Items(d)| ==> PlainItem(Items(d)[i])
  {
  }

  predicate SameItem(x: Item, y: Item) { x.prefix == y.prefix && Shown(x.c) == Shown(y.c) }

  lemma AllBlocks(xs: seq<Item>)
    requires forall i :: 0 <= i < |xs| ==> PlainItem(xs[i])
    ensures forall i :: 0 <= i < |xs| ==> IsBlock(ItemEntries(xs[i]), CONTAINERS)
  {
    forall i | 0 <= i < |xs| ensures IsBlock(ItemEntries(xs[i]), CONTAINERS) { ItemIsBlock(xs[i]); }
  }

  lemma ItemApart(x: Item, y: Item)
    requires PlainItem(x) && PlainItem(y) && ItemEntries(x) == ItemEntries(y)
    ensures SameItem(x, y)
  {
    ContainerApart(x.prefix, x.c, y.prefix, y.c);
  }

  lemma ItemsApart(xs: seq<Item>, ys: seq<Item>)
    requires forall i :: 0 <= i < |xs| ==> PlainItem(xs[i])
    requires forall i :: 0 <= i < |ys| ==> PlainItem(ys[i])
    requires Flat(xs, ItemEntries) == Flat(ys, ItemEntries)
    ensures |xs| == |ys| && forall i :: 0 <= i < |xs| ==> SameItem(xs[i], ys[i])
  {
    AllBlocks(xs);
    AllBlocks(ys);
    BlocksApart(xs, ys, ItemEntries, CONTAINERS);
    forall i | 0 <= i < |xs| ensures SameItem(xs[i], ys[i]) { ItemApart(xs[i], ys[i]); }
  }

  ghost predicate SameItems(d: Deployment, e: Deployment) {
    |Items(d)| == |Items(e)| && forall i :: 0 <= i < |Items(d)| ==> SameItem(Items(d)[i], Items(e)[i])
  }

  lemma NoFewerInits(d: Deployment, e: Deployment)
    requires SameItems(d, e)
    ensures |d.inits| >= |e.inits|
  {
    var m := |d.inits|;
    assert m < |Items(d)| ==> Items(d)[m].prefix == "container" && SameItem(Items(d)[m], Items(e)[m]);
    assert |Items(d)| == m + |d.containers| && |Items(e)| == |e.inits| + |e.containers|;
  }

  lemma ContainersApart(d: Deployment, e: Deployment)
    requires SameItems(d, e)
    ensures AllShown(d.inits) == AllShown(e.inits) && AllShown(d.containers) == AllShown(e.containers)
  {
    NoFewerInits(d, e);
    NoFewerInits(e, d);
    var m := |d.inits|;
    forall i | 0 <= i < m ensures Shown(d.inits[i]) == Shown(e.inits[i]) {
      assert SameItem(Items(d)[i], Items(e)[i]);
    }
    forall i | 0 <= i < |d.containers| ensures Shown(d.containers[i]) == Shown(e.containers[i]) {
      assert SameItem(Items(d)[m + i], Items(e)[m + i]);
    }
  }

  // ----- the whole text

  lemma HeadersApart(d: Deployment, e: Deployment)
    requires PlainDeployment(d) && PlainDeployment(e) && "deploy:" + Path(d.key) == "deploy:" + Path(e.key)
    ensures d.key == e.key
  {
    SameTail("deploy:", Path(d.key), Path(e.key));
    PathInjective(d.key, e.key);
  }

  lemma ItemsStart(d: Deployment)
    requires PlainDeployment(d)
    ensures StartsOther(Flat(Items(d), ItemEntries), "pod-anno")
  {
    ItemsArePlain(d);
    AllBlocks(Items(d));
    FlatStartsBlock(Items(d), ItemEntries, CONTAINERS);
  }

  lemma NotesApart(m: map<string, string>, x: seq<string>, n: map<string, string>, y: seq<string>)
    requires PlainKeys(m) && PlainValues(m) && PlainKeys(n) && PlainValues(n)
    requires StartsOther(x, "pod-anno") && StartsOther(y, "pod-anno")
    requires EntryLines("pod-anno", m) + x == EntryLines("pod-anno", n) + y
    ensures m == n && x == y
  {
    EntriesTagged("pod-anno", m);
    EntriesTagged("pod-anno", n);
    SplitByTag("pod-anno", EntryLines("pod-anno", m), x, EntryLines("pod-anno", n), y);
    SameEntries("pod-anno", m, n);
  }

  lemma SameEntries(tag: string, m: map<string, string>, n: map<string, string>)
    requires '\n' !in tag && PlainKeys(m) && PlainValues(m) && PlainKeys(n) && PlainValues(n)
    requires EntryLines(tag, m) == EntryLines(tag, n)
    ensures m == n
  {
    MapIsLines(tag, m);
    MapIsLines(tag, n);
    OneSection(tag, m, n);
  }

  lemma SameCons(a: string, x: seq<string>, b: string, y: seq<string>)
    requires [a] + x == [b] + y
    ensures a == b && x == y
  {
    assert ([a] + x)[0] == a && ([b] + y)[0] == b;
    assert ([a] + x)[1..] == x && ([b] + y)[1..] == y;
  }

  lemma EntriesApart(d: Deployment, e: Deployment)
    requires PlainDeployment(d) && PlainDeployment(e) && DeploymentEntries(d) == DeploymentEntries(e)
    ensures ShownDeployment(d) == ShownDeployment(e)
  {
    var x, y := Flat(Items(d), ItemEntries), Flat(Items(e), ItemEntries);
    SameCons("deploy:" + Path(d.key), EntryLines("pod-anno", d.annotations) + x,
             "deploy:" + Path(e.key), EntryLines("pod-anno", e.annotations) + y);
    HeadersApart(d, e);
    ItemsStart(d);
    ItemsStart(e);
    NotesApart(d.annotations, x, e.annotations, y);
    ItemsArePlain(d);
    ItemsArePlain(e);
    ItemsApart(Items(d), Items(e));
    ContainersApart(d, e);
  }

  lemma EntriesArePlain(d: Deployment)
    requires PlainDeployment(d)
    ensures AllPlain(DeploymentEntries(d))
  {
    EntriesPlain("pod-anno", d.annotations);
    ItemsArePlain(d);
    forall i | 0 <= i < |Items(d)| ensures AllPlain(ItemEntries(Items(d)[i])) { ItemIsPlain(Items(d)[i]); }
    FlatPlain(Items(d), ItemEntries);
  }

  /** Deployments of single-line values are told apart by everything that is written of them. */
  lemma PlainDeploymentsApart(d: Deployment, e: Deployment)
    requires PlainDeployment(d) && PlainDeployment(e) && DeploymentText(d) == DeploymentText(e)
    ensures ShownDeployment(d) == ShownDeployment(e)
  {
    DeploymentIsLines(d);
    DeploymentIsLines(e);
    EntriesArePlain(d);
    EntriesArePlain(e);
    UnlinesApart(DeploymentEntries(d), DeploymentEntries(e));
    EntriesApart(d, e);
  }
}
