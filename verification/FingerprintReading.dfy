/** Which config maps the fingerprint text tells apart: it is canonical, and injective exactly as far as shown here. */
module FingerprintReading {
  import opened Text
  import opened Fingerprint

  // ----- lines and entries

  predicate PlainKey(k: string) { '=' !in k && '\n' !in k }

  /** Kubernetes keys: letters, digits, dots, dashes and underscores, so no equals sign and no newline. */
  predicate PlainKeys(m: map<string, string>) { forall k :: k in m ==> PlainKey(k) }

  predicate PlainValues(m: map<string, string>) { forall k :: k in m ==> '\n' !in m[k] }

  lemma {:induction false} ConcatFront(x: string, ys: seq<string>, text: string -> string)
    ensures Concat([x] + ys, text) == text(x) + Concat(ys, text)
    decreases |ys|
  {
    if ys == [] {
      assert [x] + ys == [x];
      ConcatSmall(x, x, text);
      assert text(x) + "" == text(x);
    } else {
      var front, last := ys[..|ys| - 1], ys[|ys| - 1];
      assert ([x] + ys)[..|ys|] == [x] + front;
      assert Concat([x] + ys, text) == Concat([x] + front, text) + text(last);
      ConcatFront(x, front, text);
      Regroup(text(x), Concat(front, text), text(last));
    }
  }

  lemma {:induction false} ConcatSame(xs: seq<string>, f: string -> string, g: string -> string)
    requires forall i :: 0 <= i < |xs| ==> f(xs[i]) == g(xs[i])
    ensures Concat(xs, f) == Concat(xs, g)
    decreases |xs|
  {
    if xs != [] { ConcatSame(xs[..|xs| - 1], f, g); }
  }

  /** The least key of a map. */
  ghost function First(m: map<string, string>): (a: string)
    requires m != map[]
    ensures a in m && forall k :: k in m && k != a ==> Less(a, k)
  {
    var ks := Enumerate(m.Keys);
    HasKeys(m, ks);
    ks[0]
  }

  lemma NoKeys(m: map<string, string>)
    ensures m.Keys == {} <==> m == map[]
  {
  }

  lemma HasKeys(m: map<string, string>, ks: seq<string>)
    requires m != map[] && Elems(ks) == m.Keys && Ascending(ks)
    ensures ks != [] && ks[0] in m && forall k :: k in m && k != ks[0] ==> Less(ks[0], k)
  {
    NoKeys(m);
    NoElems(ks);
    assert ks[0] in Elems(ks);
    forall k | k in m && k != ks[0] ensures Less(ks[0], k) {
      assert k in Elems(ks);
      var i :| 0 <= i < |ks| && ks[i] == k;
    }
  }

  function Without(m: map<string, string>, a: string): map<string, string> { m - {a} }

  /** The text of a map is the line of its least key, then the text of the rest. */
  lemma FirstLine(tag: string, m: map<string, string>)
    requires m != map[]
    ensures MapLines(tag, m) == Line(tag, First(m), m[First(m)]) + MapLines(tag, Without(m, First(m)))
  {
    var a, ks := First(m), Enumerate(m.Keys);
    var rest, n := ks[1..], Without(m, a);
    HasKeys(m, ks);
    assert ks == [a] + rest;
    TailElems(ks);
    assert n.Keys == m.Keys - {a};
    AscendingUnique(rest, Enumerate(n.Keys));
    ConcatFront(a, rest, EntryText(tag, m));
    forall i | 0 <= i < |rest| ensures EntryText(tag, m)(rest[i]) == EntryText(tag, n)(rest[i]) {
      assert rest[i] in Elems(rest);
    }
    ConcatSame(rest, EntryText(tag, m), EntryText(tag, n));
  }

  lemma NoLines(tag: string)
    ensures MapLines(tag, map[]) == ""
  {
    var none: map<string, string> := map[];
    assert none.Keys == {};
    NoElems(Enumerate(none.Keys));
  }

  /** Starts with the tag and ends a line. */
  predicate Lined(tag: string, s: string) { tag + ":" <= s && s[|s| - 1] == '\n' }

  lemma LineIsLined(tag: string, a: string, v: string)
    ensures Lined(tag, Line(tag, a, v))
  {
    assert Line(tag, a, v) == tag + ":" + (a + "=" + v + "\n");
  }

  lemma LinedThen(tag: string, s: string, t: string)
    requires Lined(tag, s) && (t == "" || Lined(tag, t))
    ensures Lined(tag, s + t)
  {
    assert (s + t)[..|s|] == s;
    if t == "" { assert s + t == s; } else { assert (s + t)[|s + t| - 1] == t[|t| - 1]; }
  }

  /** A text of lines is empty, or starts with its tag and ends its last line. */
  lemma {:induction false} LinesShape(tag: string, m: map<string, string>)
    ensures if m == map[] then MapLines(tag, m) == "" else Lined(tag, MapLines(tag, m))
    decreases |m|
  {
    if m == map[] {
      NoLines(tag);
    } else {
      var a := First(m);
      FirstLine(tag, m);
      LineIsLined(tag, a, m[a]);
      Smaller(m, a);
      LinesShape(tag, Without(m, a));
      LinedThen(tag, Line(tag, a, m[a]), MapLines(tag, Without(m, a)));
    }
  }

  /** Two lines without newlines inside say the same when they start the same text. */
  lemma SameLine(tag: string, a: string, v: string, r: string, b: string, w: string, s: string)
    requires Line(tag, a, v) + r == Line(tag, b, w) + s
    requires '\n' !in tag && PlainKey(a) && PlainKey(b) && '\n' !in v && '\n' !in w
    ensures a == b && v == w && r == s
  {
    FirstField('\n', tag + ":" + a + "=" + v, r, tag + ":" + b + "=" + w, s);
    SameEntry(tag, a, v, b, w);
  }

  /** After the tag, the first equals sign ends the key. */
  lemma SameEntry(tag: string, a: string, v: string, b: string, w: string)
    requires tag + ":" + a + "=" + v == tag + ":" + b + "=" + w && PlainKey(a) && PlainKey(b)
    ensures a == b && v == w
  {
    var x, y := a + "=" + v, b + "=" + w;
    assert tag + ":" + a + "=" + v == (tag + ":") + x && tag + ":" + b + "=" + w == (tag + ":") + y;
    assert ((tag + ":") + x)[|tag| + 1..] == x && ((tag + ":") + y)[|tag| + 1..] == y;
    FirstField('=', a, v, b, w);
  }

  lemma Smaller(m: map<string, string>, a: string)
    requires a in m
    ensures |Without(m, a)| < |m|
  {
    var n := Without(m, a);
    assert m.Keys == n.Keys + {a};
    assert |m| == |m.Keys| && |n| == |n.Keys|;
  }

  lemma PutBack(m: map<string, string>, n: map<string, string>, a: string)
    requires a in m && a in n && m[a] == n[a] && Without(m, a) == Without(n, a)
    ensures m == n
  {
    assert m == Without(m, a)[a := m[a]];
    assert n == Without(n, a)[a := n[a]];
  }

  /** One section of plain lines can be read back. */
  lemma {:induction false} OneSection(tag: string, m: map<string, string>, n: map<string, string>)
    requires '\n' !in tag && PlainKeys(m) && PlainKeys(n) && PlainValues(m) && PlainValues(n)
    requires MapLines(tag, m) == MapLines(tag, n)
    ensures m == n
    decreases |m|
  {
    LinesShape(tag, m);
    LinesShape(tag, n);
    if m != map[] {
      var a, b := First(m), First(n);
      FirstLine(tag, m);
      FirstLine(tag, n);
      SameLine(tag, a, m[a], MapLines(tag, Without(m, a)), b, n[b], MapLines(tag, Without(n, b)));
      Smaller(m, a);
      OneSection(tag, Without(m, a), Without(n, b));
      PutBack(m, n, a);
    }
  }

  /** The data lines of a config map, then its binary lines. */
  ghost function Sections(m: map<string, string>, x: map<string, string>): string {
    MapLines("data", m) + MapLines("bdata", x)
  }

  /** Data lines come first: a text starts with 'd' exactly when there are any. */
  lemma FirstByte(m: map<string, string>, x: map<string, string>)
    ensures m != map[] <==> Sections(m, x) != "" && Sections(m, x)[0] == 'd'
  {
    LinesShape("data", m);
    LinesShape("bdata", x);
  }

  lemma {:induction false} TwoSections(m: map<string, string>, x: map<string, string>,
                                       n: map<string, string>, y: map<string, string>)
    requires PlainKeys(m) && PlainKeys(n) && PlainValues(m) && PlainValues(n)
    requires PlainKeys(x) && PlainKeys(y) && PlainValues(x) && PlainValues(y)
    requires Sections(m, x) == Sections(n, y)
    ensures m == n && x == y
    decreases |m|
  {
    FirstByte(m, x);
    FirstByte(n, y);
    if m == map[] {
      OnlyBinary(x);
      OnlyBinary(y);
      OneSection("bdata", x, y);
    } else {
      var a := SameFirstLine(m, x, n, y);
      Smaller(m, a);
      TwoSections(Without(m, a), x, Without(n, a), y);
      PutBack(m, n, a);
    }
  }

  lemma OnlyBinary(x: map<string, string>)
    ensures Sections(map[], x) == MapLines("bdata", x)
  {
    NoLines("data");
  }

  lemma SameFirstLine(m: map<string, string>, x: map<string, string>, n: map<string, string>, y: map<string, string>)
    returns (a: string)
    requires m != map[] && n != map[] && Sections(m, x) == Sections(n, y)
    requires PlainKeys(m) && PlainKeys(n) && PlainValues(m) && PlainValues(n)
    ensures a in m && a in n && m[a] == n[a] && Sections(Without(m, a), x) == Sections(Without(n, a), y)
  {
    a := First(m);
    var b := First(n);
    FirstSectionLine(m, x);
    FirstSectionLine(n, y);
    SameLine("data", a, m[a], Sections(Without(m, a), x), b, n[b], Sections(Without(n, b), y));
  }

  lemma FirstSectionLine(m: map<string, string>, x: map<string, string>)
    requires m != map[]
    ensures Sections(m, x) == Line("data", First(m), m[First(m)]) + Sections(Without(m, First(m)), x)
  {
    var a := First(m);
    FirstLine("data", m);
    Regroup(Line("data", a, m[a]), MapLines("data", Without(m, a)), MapLines("bdata", x));
  }

  // ----- config maps

  predicate Valid(c: ConfigMap) {
    && '/' !in c.key.namespace && '\n' !in c.key.namespace && '\n' !in c.key.name
    && PlainKeys(c.data) && PlainKeys(c.binary)
  }

  /** Digests are hex. */
  ghost predicate OneLined(sum: string -> string) { forall x :: '\n' !in sum(x) }

  ghost function Content(c: ConfigMap, sum: string -> string): string { Sections(c.data, Sums(c.binary, sum)) }

  /** Equal as far as the text can tell: binary values count by their digest. */
  ghost predicate SameContent(c: ConfigMap, d: ConfigMap, sum: string -> string) {
    c.key == d.key && c.data == d.data && Sums(c.binary, sum) == Sums(d.binary, sum)
  }

  lemma TextIsHeaderAndContent(c: ConfigMap, sum: string -> string)
    ensures ConfigMapText(c, sum) == ("cm:" + Path(c.key)) + "\n" + Content(c, sum)
  {
    Regroup("cm:" + Path(c.key) + "\n", MapLines("data", c.data), MapLines("bdata", Sums(c.binary, sum)));
  }

  lemma SameHeader(c: ConfigMap, d: ConfigMap, sum: string -> string)
    requires Valid(c) && Valid(d) && ConfigMapText(c, sum) == ConfigMapText(d, sum)
    ensures c.key == d.key && Content(c, sum) == Content(d, sum)
  {
    TextIsHeaderAndContent(c, sum);
    TextIsHeaderAndContent(d, sum);
    FirstField('\n', "cm:" + Path(c.key), Content(c, sum), "cm:" + Path(d.key), Content(d, sum));
    assert ("cm:" + Path(c.key))[3..] == Path(c.key) && ("cm:" + Path(d.key))[3..] == Path(d.key);
    PathInjective(c.key, d.key);
  }

  lemma SameText(c: ConfigMap, d: ConfigMap, sum: string -> string)
    requires c.key == d.key && Content(c, sum) == Content(d, sum)
    ensures ConfigMapText(c, sum) == ConfigMapText(d, sum)
  {
    TextIsHeaderAndContent(c, sum);
    TextIsHeaderAndContent(d, sum);
  }

  /** Config maps whose values are single lines are told apart. */
  lemma PlainConfigMapsApart(c: ConfigMap, d: ConfigMap, sum: string -> string)
    requires Valid(c) && Valid(d) && PlainValues(c.data) && PlainValues(d.data) && OneLined(sum)
    requires ConfigMapText(c, sum) == ConfigMapText(d, sum)
    ensures SameContent(c, d, sum)
  {
    SameHeader(c, d, sum);
    TwoSections(c.data, Sums(c.binary, sum), d.data, Sums(d.binary, sum));
  }

  // ----- exactly which config maps have a text of their own

  /** The value holds, after a newline, the beginning of an entry for a later key. */
  ghost predicate SpellsEntry(a: string, v: string) {
    exists w, k, rest :: Less(a, k) && PlainKey(k) && v == SpelledOut(w, k, rest)
  }

  function SpelledOut(w: string, k: string, rest: string): string { w + "\n" + ("data" + ":" + k + "=" + rest) }

  /** The value ends, after a newline, in what the lines of some binary entries would be. */
  ghost predicate SpellsBinary(v: string, sum: string -> string) {
    exists w, y :: y != map[] && PlainKeys(y) && EndsIn(v, w, Sums(y, sum))
  }

  ghost predicate EndsIn(v: string, w: string, x: map<string, string>) {
    v + "\n" == w + "\n" + MapLines("bdata", x)
  }

  /** No data at all, or a single entry that spells nothing else. */
  ghost predicate ReadsOneWay(c: ConfigMap, sum: string -> string) {
    c.data == map[]
    || (var a := First(c.data);
        c.data == map[a := c.data[a]] && c.binary == map[]
        && !SpellsEntry(a, c.data[a]) && !SpellsBinary(c.data[a], sum))
  }

  lemma OneDataLine(a: string, v: string, x: map<string, string>)
    ensures Sections(map[a := v], x) == Line("data", a, v) + MapLines("bdata", x)
    ensures Sections(map[a := v], map[]) == Line("data", a, v)
  {
    OneEntry("data", map[a := v], a);
    NoLines("bdata");
    assert Line("data", a, v) + "" == Line("data", a, v);
  }

  /** What follows a line can be taken into its value. */
  lemma LineAbsorbs(tag: string, a: string, v: string, q: string)
    ensures Line(tag, a, v + "\n" + q) == Line(tag, a, v) + (q + "\n")
  {
  }

  lemma LineByEntry(a: string, w: string, r: string)
    ensures Line("data", a, w) + r == "data" + ":" + a + "=" + (w + "\n" + r)
  {
  }

  lemma SectionsEnd(m: map<string, string>, x: map<string, string>)
    requires Sections(m, x) != ""
    ensures Sections(m, x)[|Sections(m, x)| - 1] == '\n'
  {
    LinesShape("data", m);
    LinesShape("bdata", x);
  }

  lemma DropLast(s: string)
    requires s != "" && s[|s| - 1] == '\n'
    ensures s == s[..|s| - 1] + "\n"
  {
  }

  lemma FoldLine(a: string, v: string, rest: string)
    requires rest != "" && rest[|rest| - 1] == '\n'
    ensures Line("data", a, v + "\n" + rest[..|rest| - 1]) == Line("data", a, v) + rest
  {
    DropLast(rest);
    LineAbsorbs("data", a, v, rest[..|rest| - 1]);
  }

  lemma FoldSections(m: map<string, string>, x: map<string, string>) returns (folded: string)
    requires m != map[] && Sections(Without(m, First(m)), x) != ""
    ensures Sections(map[First(m) := folded], map[]) == Sections(m, x) && |folded| > |m[First(m)]|
  {
    var a := First(m);
    var rest := Sections(Without(m, a), x);
    SectionsEnd(Without(m, a), x);
    folded := m[a] + "\n" + rest[..|rest| - 1];
    FoldLine(a, m[a], rest);
    FirstSectionLine(m, x);
    OneDataLine(a, folded, map[]);
  }

  /** Anything after the first data line can be folded into its value. */
  lemma Folds(c: ConfigMap, sum: string -> string) returns (d: ConfigMap)
    requires Valid(c) && c.data != map[] && Sections(Without(c.data, First(c.data)), Sums(c.binary, sum)) != ""
    ensures Valid(d) && ConfigMapText(d, sum) == ConfigMapText(c, sum) && d.data != c.data
  {
    var a := First(c.data);
    var folded := FoldSections(c.data, Sums(c.binary, sum));
    d := ConfigMap(c.key, map[a := folded], map[]);
    SomeSums(d.binary, sum);
    SameText(d, c, sum);
    assert d.data[a] == folded;
  }

  lemma UnfoldSections(a: string, v: string, w: string, x: map<string, string>)
    requires EndsIn(v, w, x)
    ensures Sections(map[a := w], x) == Sections(map[a := v], map[])
  {
    OneDataLine(a, v, map[]);
    OneDataLine(a, w, x);
    LineByEntry(a, w, MapLines("bdata", x));
    LineAsEntry(a, v);
  }

  lemma LineAsEntry(a: string, v: string)
    ensures Line("data", a, v) == "data" + ":" + a + "=" + (v + "\n")
  {
  }

  lemma Shorter(v: string, w: string, x: map<string, string>)
    requires EndsIn(v, w, x) && x != map[]
    ensures |w| < |v|
  {
    LinesShape("bdata", x);
    assert |v + "\n"| == |w + "\n" + MapLines("bdata", x)|;
  }

  /** Spelled-out binary lines can be taken for binary entries. */
  lemma Unfolds(c: ConfigMap, a: string, sum: string -> string) returns (d: ConfigMap)
    requires Valid(c) && a in c.data && c.data == map[a := c.data[a]] && c.binary == map[]
    requires SpellsBinary(c.data[a], sum)
    ensures Valid(d) && ConfigMapText(d, sum) == ConfigMapText(c, sum) && d.data != c.data
  {
    var v := c.data[a];
    var w, y :| y != map[] && PlainKeys(y) && EndsIn(v, w, Sums(y, sum));
    d := ConfigMap(c.key, map[a := w], y);
    SomeSums(c.binary, sum);
    SomeSums(y, sum);
    UnfoldSections(a, v, w, Sums(y, sum));
    Shorter(v, w, Sums(y, sum));
    SameText(d, c, sum);
    assert d.data[a] == w;
  }

  lemma SomeSums(y: map<string, string>, sum: string -> string)
    ensures Sums(y, sum) == map[] <==> y == map[]
  {
    if y != map[] {
      NoKeys(y);
      var k :| k in y.Keys;
      assert k in Sums(y, sum);
    }
  }

  /** Every reading of a single data line. */
  lemma SingleReads(a: string, v: string, n: map<string, string>, y: map<string, string>)
    requires PlainKey(a) && PlainKeys(n) && Sections(n, y) == Line("data", a, v)
    ensures (n == map[a := v] && y == map[]) || SpellsEntry(a, v) || (y != map[] && exists w :: EndsIn(v, w, y))
  {
    LineIsLined("data", a, v);
    FirstByte(n, y);
    var b := First(n);
    var w, n' := n[b], Without(n, b);
    var r := Sections(n', y);
    FirstSectionLine(n, y);
    LineByEntry(b, w, r);
    LineByEntry(a, v, "");
    assert Line("data", a, v) + "" == Line("data", a, v) && v + "\n" + "" == v + "\n";
    SameEntry("data", b, w + "\n" + r, a, v + "\n");
    LinesShape("data", n');
    LinesShape("bdata", y);
    if r == "" {
      NothingElse(n, a, v, w);
    } else if n' == map[] {
      assert r == MapLines("bdata", y);
      assert EndsIn(v, w, y);
    } else {
      LaterEntry(a, v, w, n', y);
    }
  }

  lemma NothingElse(n: map<string, string>, a: string, v: string, w: string)
    requires a in n && n[a] == w && Without(n, a) == map[] && w + "\n" + "" == v + "\n"
    ensures n == map[a := v]
  {
    assert w == (w + "\n" + "")[..|w|] && v == (v + "\n")[..|v|] && |w| == |v|;
    assert n.Keys == {a} by {
      forall k | k in n ensures k == a { assert k != a ==> k in Without(n, a); }
    }
  }

  lemma LaterEntry(a: string, v: string, w: string, n: map<string, string>, y: map<string, string>)
    requires n != map[] && PlainKeys(n) && (forall k :: k in n ==> Less(a, k))
    requires w + "\n" + Sections(n, y) == v + "\n"
    ensures SpellsEntry(a, v)
  {
    var tail := FirstAsEntry(n, y);
    SpelledFrom(v, w, First(n), tail);
  }

  lemma FirstAsEntry(n: map<string, string>, y: map<string, string>) returns (tail: string)
    requires n != map[]
    ensures tail != "" && Sections(n, y) == "data" + ":" + First(n) + "=" + tail
  {
    var k := First(n);
    tail := n[k] + "\n" + Sections(Without(n, k), y);
    FirstSectionLine(n, y);
    LineByEntry(k, n[k], Sections(Without(n, k), y));
  }

  lemma SpelledFrom(v: string, w: string, k: string, tail: string)
    requires w + "\n" + ("data" + ":" + k + "=" + tail) == v + "\n" && tail != ""
    ensures v == SpelledOut(w, k, tail[..|tail| - 1])
  {
    var whole := w + "\n" + ("data" + ":" + k + "=" + tail);
    assert whole[|whole| - 1] == tail[|tail| - 1] && (v + "\n")[|v|] == '\n';
    assert whole[..|whole| - 1] == SpelledOut(w, k, tail[..|tail| - 1]);
    assert (v + "\n")[..|v|] == v;
  }

  lemma EndsInSpells(v: string, w: string, y: map<string, string>, sum: string -> string)
    ensures y != map[] && PlainKeys(y) && EndsIn(v, w, Sums(y, sum)) ==> SpellsBinary(v, sum)
  {
  }

  lemma OneWayMeansOwnText(c: ConfigMap, d: ConfigMap, sum: string -> string)
    requires Valid(c) && Valid(d) && OneLined(sum) && ReadsOneWay(c, sum)
    requires ConfigMapText(d, sum) == ConfigMapText(c, sum)
    ensures SameContent(c, d, sum)
  {
    SameHeader(c, d, sum);
    var x, y := Sums(c.binary, sum), Sums(d.binary, sum);
    if c.data == map[] {
      FirstByte(c.data, x);
      FirstByte(d.data, y);
      TwoSections(c.data, x, d.data, y);
    } else {
      var a := First(c.data);
      var v := c.data[a];
      assert x == map[];
      OneDataLine(a, v, map[]);
      SingleReads(a, v, d.data, y);
      SomeSums(d.binary, sum);
      forall w { EndsInSpells(v, w, d.binary, sum); }
    }
  }

  lemma OtherReading(c: ConfigMap, sum: string -> string) returns (d: ConfigMap)
    requires Valid(c) && !ReadsOneWay(c, sum)
    ensures Valid(d) && ConfigMapText(d, sum) == ConfigMapText(c, sum) && d.data != c.data
  {
    var a := First(c.data);
    var v, n, x := c.data[a], Without(c.data, a), Sums(c.binary, sum);
    if Sections(n, x) != "" {
      d := Folds(c, sum);
    } else {
      LinesShape("data", n);
      LinesShape("bdata", x);
      SomeSums(c.binary, sum);
      OnlyEntry(c.data, a);
      if SpellsBinary(v, sum) {
        d := Unfolds(c, a, sum);
      } else {
        d := Splits(c, a, sum);
      }
    }
  }

  /** A spelled-out entry can be taken for one. */
  lemma Splits(c: ConfigMap, a: string, sum: string -> string) returns (d: ConfigMap)
    requires Valid(c) && a in c.data && c.data == map[a := c.data[a]] && c.binary == map[] && SpellsEntry(a, c.data[a])
    ensures Valid(d) && ConfigMapText(d, sum) == ConfigMapText(c, sum) && d.data != c.data
  {
    var w, k, rest :| Less(a, k) && PlainKey(k) && c.data[a] == SpelledOut(w, k, rest);
    d := ConfigMap(c.key, map[a := w, k := rest], map[]);
    DifferentConfigMapsSameText(c.key, a, k, w, rest, sum);
    LessTrichotomy(a, k);
    assert k in d.data && k !in c.data;
  }

  lemma OnlyEntry(m: map<string, string>, a: string)
    requires a in m && Without(m, a) == map[]
    ensures m == map[a := m[a]]
  {
    forall k | k in m ensures k == a { assert k != a ==> k in Without(m, a); }
  }

  /** The text of a config map is the text of no other exactly when it reads one way only: it has no data entries, or
      one entry and nothing else, whose value spells neither a later entry nor a run of binary lines. */
  lemma OwnTextExactly(c: ConfigMap, sum: string -> string)
    requires Valid(c) && OneLined(sum)
    ensures (forall d :: Valid(d) && ConfigMapText(d, sum) == ConfigMapText(c, sum) ==> SameContent(c, d, sum))
       <==> ReadsOneWay(c, sum)
  {
    if ReadsOneWay(c, sum) {
      forall d | Valid(d) && ConfigMapText(d, sum) == ConfigMapText(c, sum) ensures SameContent(c, d, sum) {
        OneWayMeansOwnText(c, d, sum);
      }
    } else {
      var d := OtherReading(c, sum);
    }
  }
}
