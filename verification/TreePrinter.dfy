/** `diverge graph show`: the service graph printed as a tree, cycles included. */
module TreePrinter {
  import opened Text

  datatype Edge = Edge(to: string, tombstone: bool)
  type Graph = map<string, seq<Edge>>

  ghost function NeighborSet(g: Graph, node: string): set<string> {
    if node in g then set e | e in g[node] && !e.tombstone :: e.to else {}
  }

  ghost function Neighbors(g: Graph, node: string): (ns: seq<string>)
    ensures Ascending(ns) && Elems(ns) == NeighborSet(g, node)
    ensures node !in g ==> ns == []
  {
    var ns := Enumerate(NeighborSet(g, node));
    NoElems(ns);
    ns
  }

  /** The live targets, each once, sorted. */
  method ListNeighbors(g: Graph, node: string) returns (ns: seq<string>)
    ensures ns == Neighbors(g, node)
  {
    var edges := if node in g then g[node] else [];
    var seen: set<string> := {};
    for i := 0 to |edges|
      invariant seen == set e | e in edges[..i] && !e.tombstone :: e.to
    {
      assert edges[..i + 1] == edges[..i] + [edges[i]];
      if !edges[i].tombstone && edges[i].to !in seen {
        seen := seen + {edges[i].to};
      }
    }
    assert edges[..|edges|] == edges;
    ns := SortedKeys(seen);
  }

  // ----- what is printed: one entry per line, an entry being the hops that lead to it

  datatype Hop = Hop(name: string, last: bool)

  ghost function Entries(g: Graph, node: string, visited: set<string>): seq<seq<Hop>>
    decreases g.Keys - visited, 1, 0
  {
    if node in visited then [] else EntriesFrom(g, node, 0, visited)
  }

  ghost function HopAt(ns: seq<string>, i: nat): Hop
    requires i < |ns|
  {
    Hop(ns[i], i == |ns| - 1)
  }

  ghost function EntriesFrom(g: Graph, node: string, i: nat, visited: set<string>): seq<seq<Hop>>
    requires node !in visited && i <= |Neighbors(g, node)|
    decreases g.Keys - visited, 0, |Neighbors(g, node)| - i
  {
    var ns := Neighbors(g, node);
    if i == |ns| then []
    else
      var h := HopAt(ns, i);
      [[h]] + Below(h, Entries(g, h.name, visited + {node})) + EntriesFrom(g, node, i + 1, visited)
  }

  ghost function Below(h: Hop, es: seq<seq<Hop>>): (r: seq<seq<Hop>>)
    ensures |r| == |es| && forall k :: 0 <= k < |es| ==> r[k] == [h] + es[k]
  {
    seq(|es|, k requires 0 <= k < |es| => [h] + es[k])
  }

  function Indent(h: Hop): string { if h.last then "    " else "│   " }
  function Branch(h: Hop): string { (if h.last then "└── → " else "├── → ") + h.name + "\n" }

  /** The line of an entry: one indent per hop passed, then the branch. */
  ghost function Line(e: seq<Hop>, prefix: string): string {
    if e == [] then ""
    else if |e| == 1 then prefix + Branch(e[0])
    else Line(e[1..], prefix + Indent(e[0]))
  }

  ghost function Lines(es: seq<seq<Hop>>, prefix: string): string {
    if es == [] then "" else Line(es[0], prefix) + Lines(es[1..], prefix)
  }

  lemma {:induction false} LinesConcat(a: seq<seq<Hop>>, b: seq<seq<Hop>>, prefix: string)
    ensures Lines(a + b, prefix) == Lines(a, prefix) + Lines(b, prefix)
  {
    if a == [] {
      assert a + b == b;
    } else {
      assert (a + b)[1..] == a[1..] + b;
      LinesConcat(a[1..], b, prefix);
    }
  }

  ghost predicate AllNonEmpty(es: seq<seq<Hop>>) {
    forall k :: 0 <= k < |es| ==> es[k] != []
  }

  lemma {:induction false} LinesBelow(h: Hop, es: seq<seq<Hop>>, prefix: string)
    requires AllNonEmpty(es)
    ensures Lines(Below(h, es), prefix) == Lines(es, prefix + Indent(h))
  {
    if es != [] {
      assert Below(h, es)[1..] == Below(h, es[1..]);
      assert ([h] + es[0])[1..] == es[0];
      assert Line([h] + es[0], prefix) == Line(es[0], prefix + Indent(h));
      LinesBelow(h, es[1..], prefix);
    }
  }

  lemma {:induction false} EntriesNonEmpty(g: Graph, node: string, i: nat, visited: set<string>)
    requires node !in visited && i <= |Neighbors(g, node)|
    ensures AllNonEmpty(EntriesFrom(g, node, i, visited))
    decreases |Neighbors(g, node)| - i
  {
    var ns := Neighbors(g, node);
    if i < |ns| {
      EntriesNonEmpty(g, node, i + 1, visited);
      var group := [[HopAt(ns, i)]] + Below(HopAt(ns, i), Entries(g, ns[i], visited + {node}));
      assert AllNonEmpty(group);
      assert EntriesFrom(g, node, i, visited) == group + EntriesFrom(g, node, i + 1, visited);
    }
  }

  class Printer {
    const g: Graph
    var visited: map<string, bool>
    var out: string

    constructor (g: Graph)
      ensures this.g == g && Marked() == {} && out == ""
    {
      this.g := g;
      visited, out := map[], "";
    }

    ghost function Marked(): set<string>
      reads this
    {
      set n | n in visited && visited[n]
    }

    method PrintBranch(prefix: string, neighbor: string, isLast: bool)
      modifies this`out
      ensures out == old(out) + (prefix + Branch(Hop(neighbor, isLast)))
    {
      out := out + prefix;
      if isLast {
        out := out + "└── → " + neighbor + "\n";
      } else {
        out := out + "├── → " + neighbor + "\n";
      }
    }

    /** Terminates on every graph, leaves the marks as found, and prints exactly the entries. */
    method PrintTree(node: string, prefix: string)
      modifies this`visited, this`out
      ensures Marked() == old(Marked())
      ensures out == old(out) + Lines(Entries(g, node, old(Marked())), prefix)
      decreases g.Keys - Marked()
    {
      if node in visited && visited[node] { return; }
      ghost var before, target := Marked(), out + Lines(Entries(g, node, Marked()), prefix);
      visited := visited[node := true];
      assert Marked() == before + {node};
      var neighbors := ListNeighbors(g, node);
      for i := 0 to |neighbors|
        invariant Marked() == before + {node}
        invariant target == out + Lines(EntriesFrom(g, node, i, before), prefix)
      {
        assert node in g.Keys - before && node !in g.Keys - Marked();
        ghost var h, out0 := HopAt(neighbors, i), out;
        SplitStep(g, node, i, before, prefix);
        PrintBranch(prefix, neighbors[i], i == |neighbors| - 1);
        PrintTree(neighbors[i], prefix + (if i == |neighbors| - 1 then "    " else "│   "));
        ghost var sub := Lines(Entries(g, h.name, before + {node}), prefix + Indent(h));
        Regroup(out0, prefix + Branch(h), sub);
        Regroup(out0, (prefix + Branch(h)) + sub, Lines(EntriesFrom(g, node, i + 1, before), prefix));
      }
      assert out + "" == out;
      visited := visited[node := false];
    }
  }

  lemma SplitStep(g: Graph, node: string, i: nat, visited: set<string>, prefix: string)
    requires node !in visited && i < |Neighbors(g, node)|
    ensures var h := HopAt(Neighbors(g, node), i);
            Lines(EntriesFrom(g, node, i, visited), prefix)
            == ((prefix + Branch(h)) + Lines(Entries(g, h.name, visited + {node}), prefix + Indent(h)))
               + Lines(EntriesFrom(g, node, i + 1, visited), prefix)
  {
    var h := HopAt(Neighbors(g, node), i);
    var sub := Entries(g, h.name, visited + {node});
    if h.name !in visited + {node} { EntriesNonEmpty(g, h.name, 0, visited + {node}); }
    LinesBelow(h, sub, prefix);
    LinesConcat([[h]], Below(h, sub), prefix);
    LinesConcat([[h]] + Below(h, sub), EntriesFrom(g, node, i + 1, visited), prefix);
    assert [[h]][1..] == [];
    assert Lines([[h]], prefix) == prefix + Branch(h);
  }

  // ----- which walks that is

  /** e[..] are hops of g from node, none but the last landing on a node passed before. */
  ghost predicate Admissible(g: Graph, node: string, visited: set<string>, e: seq<Hop>)
    decreases |e|
  {
    && e != [] && node !in visited
    && (exists i :: 0 <= i < |Neighbors(g, node)| && e[0] == HopAt(Neighbors(g, node), i))
    && (|e| == 1 || Admissible(g, e[0].name, visited + {node}, e[1..]))
  }

  lemma {:induction false} EntriesExact(g: Graph, node: string, visited: set<string>, e: seq<Hop>)
    ensures e in Entries(g, node, visited) <==> Admissible(g, node, visited, e)
    decreases g.Keys - visited, 1, 0
  {
    if node !in visited { EntriesFromExact(g, node, 0, visited, e); }
  }

  ghost predicate StartsFrom(g: Graph, node: string, i: nat, visited: set<string>, e: seq<Hop>) {
    && e != []
    && (exists k :: i <= k < |Neighbors(g, node)| && e[0] == HopAt(Neighbors(g, node), k))
    && (|e| == 1 || Admissible(g, e[0].name, visited + {node}, e[1..]))
  }

  lemma {:induction false} EntriesFromExact(g: Graph, node: string, i: nat, visited: set<string>, e: seq<Hop>)
    requires node !in visited && i <= |Neighbors(g, node)|
    ensures e in EntriesFrom(g, node, i, visited) <==> StartsFrom(g, node, i, visited, e)
    decreases g.Keys - visited, 0, |Neighbors(g, node)| - i
  {
    var ns := Neighbors(g, node);
    if i < |ns| {
      var h := HopAt(ns, i);
      var sub := Entries(g, h.name, visited + {node});
      EntriesFromExact(g, node, i + 1, visited, e);
      BelowMember(h, sub, e);
      assert e in EntriesFrom(g, node, i, visited)
        <==> e == [h] || e in Below(h, sub) || StartsFrom(g, node, i + 1, visited, e);
      if e != [] {
        EntriesExact(g, h.name, visited + {node}, e[1..]);
        SplitFirst(g, node, i, visited, e);
      }
    }
  }

  lemma SplitFirst(g: Graph, node: string, i: nat, visited: set<string>, e: seq<Hop>)
    requires i < |Neighbors(g, node)| && e != []
    ensures var h := HopAt(Neighbors(g, node), i);
            StartsFrom(g, node, i, visited, e)
            <==> e == [h] || (e[0] == h && Admissible(g, h.name, visited + {node}, e[1..]))
                 || StartsFrom(g, node, i + 1, visited, e)
  {
    assert e == [e[0]] + e[1..];
  }

  lemma BelowMember(h: Hop, es: seq<seq<Hop>>, e: seq<Hop>)
    ensures e in Below(h, es) <==> e != [] && e[0] == h && e[1..] in es
  {
    if e in Below(h, es) {
      var k :| 0 <= k < |es| && Below(h, es)[k] == e;
      assert e[1..] == es[k];
    }
    if e != [] && e[0] == h && e[1..] in es {
      var k :| 0 <= k < |es| && es[k] == e[1..];
      assert Below(h, es)[k] == e;
    }
  }

  lemma {:induction false} EntriesNoDup(g: Graph, node: string, i: nat, visited: set<string>)
    requires node !in visited && i <= |Neighbors(g, node)|
    ensures NoDup(EntriesFrom(g, node, i, visited))
    decreases g.Keys - visited, |Neighbors(g, node)| - i
  {
    var ns := Neighbors(g, node);
    if i < |ns| {
      var h := HopAt(ns, i);
      var sub := Entries(g, h.name, visited + {node});
      if h.name !in visited + {node} {
        EntriesNoDup(g, h.name, 0, visited + {node});
        EntriesNonEmpty(g, h.name, 0, visited + {node});
      }
      EntriesNoDup(g, node, i + 1, visited);
      AscendingNoDup(ns);
      var rest := EntriesFrom(g, node, i + 1, visited);
      forall e | e in rest ensures e != [] && e[0] != h {
        EntriesFromExact(g, node, i + 1, visited, e);
      }
      BelowNoDup(h, sub);
      NoDupConcat([[h]] + Below(h, sub), rest);
    }
  }

  lemma BelowNoDup(h: Hop, sub: seq<seq<Hop>>)
    requires NoDup(sub) && AllNonEmpty(sub)
    ensures NoDup([[h]] + Below(h, sub))
    ensures forall e :: e in [[h]] + Below(h, sub) ==> e != [] && e[0] == h
  {
    var b := Below(h, sub);
    forall i, j | 0 <= i < j < |b| ensures b[i] != b[j] {
      assert b[i][1..] == sub[i] && b[j][1..] == sub[j];
    }
    forall i | 0 <= i < |b| ensures b[i] != [h] {
      assert b[i][1..] == sub[i] && sub[i] != [];
    }
  }

  lemma NoDupConcat(a: seq<seq<Hop>>, b: seq<seq<Hop>>)
    requires NoDup(a) && NoDup(b) && forall e :: e in a ==> e !in b
    ensures NoDup(a + b)
  {
    forall i, j | 0 <= i < j < |a + b| ensures (a + b)[i] != (a + b)[j] {
      if i < |a| && j >= |a| { assert a[i] in a && b[j - |a|] in b; }
    }
  }

  /** One entry is printed above another: it leads there, or turns off earlier in the order of the names. */
  ghost predicate Above(a: seq<Hop>, b: seq<Hop>)
    decreases |a|
  {
    b != [] && (a == [] || Less(a[0].name, b[0].name) || (a[0] == b[0] && Above(a[1..], b[1..])))
  }

  ghost predicate TopDown(es: seq<seq<Hop>>) { forall i, j :: 0 <= i < j < |es| ==> Above(es[i], es[j]) }

  lemma TopDownConcat(a: seq<seq<Hop>>, b: seq<seq<Hop>>)
    requires TopDown(a) && TopDown(b) && forall i, j :: 0 <= i < |a| && 0 <= j < |b| ==> Above(a[i], b[j])
    ensures TopDown(a + b)
  {
    forall i, j | 0 <= i < j < |a + b| ensures Above((a + b)[i], (a + b)[j]) {
      if i < |a| && j >= |a| { assert Above(a[i], b[j - |a|]); }
    }
  }

  lemma BelowTopDown(h: Hop, sub: seq<seq<Hop>>)
    requires TopDown(sub) && AllNonEmpty(sub)
    ensures TopDown([[h]] + Below(h, sub))
  {
    var b := Below(h, sub);
    forall i, j | 0 <= i < j < |b| ensures Above(b[i], b[j]) {
      assert b[i][1..] == sub[i] && b[j][1..] == sub[j];
    }
    forall i, j | 0 <= i < |[[h]]| && 0 <= j < |b| ensures Above([[h]][i], b[j]) {
      assert [h][1..] == [] && b[j][1..] == sub[j];
    }
    TopDownConcat([[h]], b);
  }

  /** Each node is printed above what it leads to, and its neighbours in the order of their names. */
  lemma {:induction false} EntriesTopDown(g: Graph, node: string, i: nat, visited: set<string>)
    requires node !in visited && i <= |Neighbors(g, node)|
    ensures TopDown(EntriesFrom(g, node, i, visited))
    decreases g.Keys - visited, |Neighbors(g, node)| - i
  {
    var ns := Neighbors(g, node);
    if i < |ns| {
      var h := HopAt(ns, i);
      var sub, rest := Entries(g, h.name, visited + {node}), EntriesFrom(g, node, i + 1, visited);
      if h.name !in visited + {node} {
        EntriesTopDown(g, h.name, 0, visited + {node});
        EntriesNonEmpty(g, h.name, 0, visited + {node});
      }
      EntriesTopDown(g, node, i + 1, visited);
      BelowTopDown(h, sub);
      var group := [[h]] + Below(h, sub);
      forall k, j | 0 <= k < |group| && 0 <= j < |rest| ensures Above(group[k], rest[j]) {
        assert group[k][0] == h && rest[j] in rest;
        EntriesFromExact(g, node, i + 1, visited, rest[j]);
      }
      TopDownConcat(group, rest);
    }
  }

  /** A walk of g from root, given by its nodes. */
  ghost predicate IsWalk(g: Graph, w: seq<string>) {
    forall i :: 0 <= i < |w| - 1 ==> w[i + 1] in NeighborSet(g, w[i])
  }

  ghost predicate SimpleUntilLast(w: seq<string>, visited: set<string>) {
    && |w| >= 2
    && NoDup(w[..|w| - 1])
    && forall i :: 0 <= i < |w| - 1 ==> w[i] !in visited
  }

  ghost function WalkOf(node: string, e: seq<Hop>): (w: seq<string>)
    decreases |e|
    ensures |w| == |e| + 1 && w[0] == node && forall k :: 0 <= k < |e| ==> w[k + 1] == e[k].name
  {
    if e == [] then [node] else [node] + WalkOf(e[0].name, e[1..])
  }

  /** The one entry that follows w: each hop says whether it is its node's last neighbour. */
  ghost function EntryOf(g: Graph, w: seq<string>): (e: seq<Hop>)
    requires w != []
    ensures |e| == |w| - 1 && WalkOf(w[0], e) == w
    ensures forall k :: 0 <= k < |e| ==> e[k].name == w[k + 1]
  {
    if |w| == 1 then []
    else
      var ns := Neighbors(g, w[0]);
      [Hop(w[1], ns != [] && ns[|ns| - 1] == w[1])] + EntryOf(g, w[1..])
  }

  lemma HopIsLast(ns: seq<string>, h: Hop)
    requires Ascending(ns)
    ensures (exists i :: 0 <= i < |ns| && h == HopAt(ns, i))
       <==> h.name in Elems(ns) && h.last == (ns != [] && ns[|ns| - 1] == h.name)
  {
    AscendingNoDup(ns);
    if h.name in Elems(ns) {
      var i :| 0 <= i < |ns| && ns[i] == h.name;
      assert HopAt(ns, i).name == h.name;
    }
  }

  lemma {:induction false} AdmissibleIsSimpleWalk(g: Graph, visited: set<string>, w: seq<string>)
    requires w != []
    ensures Admissible(g, w[0], visited, EntryOf(g, w)) <==> IsWalk(g, w) && SimpleUntilLast(w, visited)
    decreases |w|
  {
    if |w| >= 2 {
      var e := EntryOf(g, w);
      var v := w[1..];
      HopIsLast(Neighbors(g, w[0]), e[0]);
      assert e[1..] == EntryOf(g, v);
      AdmissibleIsSimpleWalk(g, visited + {w[0]}, v);
      assert w == [w[0]] + v;
      WalkTail(g, w);
      if |w| >= 3 { SimpleTail(w, visited); }
    }
  }

  lemma WalkTail(g: Graph, w: seq<string>)
    requires |w| >= 2
    ensures IsWalk(g, w) <==> w[1] in NeighborSet(g, w[0]) && IsWalk(g, w[1..])
  {
    var v := w[1..];
    if w[1] in NeighborSet(g, w[0]) && IsWalk(g, v) {
      forall i | 0 <= i < |w| - 1 ensures w[i + 1] in NeighborSet(g, w[i]) {
        if i > 0 { assert v[i] in NeighborSet(g, v[i - 1]); }
      }
    }
    if IsWalk(g, w) {
      forall i | 0 <= i < |v| - 1 ensures v[i + 1] in NeighborSet(g, v[i]) {
        assert w[i + 2] in NeighborSet(g, w[i + 1]);
      }
    }
  }

  lemma SimpleTail(w: seq<string>, visited: set<string>)
    requires |w| >= 3
    ensures SimpleUntilLast(w, visited) <==> w[0] !in visited && SimpleUntilLast(w[1..], visited + {w[0]})
  {
    var v := w[1..];
    var a, b := w[..|w| - 1], v[..|v| - 1];
    assert a[1..] == b;
    if w[0] !in visited && SimpleUntilLast(v, visited + {w[0]}) {
      forall i, j | 0 <= i < j < |a| ensures a[i] != a[j] {
        assert a[j] == v[j - 1];
        if i > 0 { assert a[i] == b[i - 1] && a[j] == b[j - 1]; }
      }
      forall i | 0 <= i < |w| - 1 ensures w[i] !in visited {
        if i > 0 { assert w[i] == v[i - 1]; }
      }
    }
    if SimpleUntilLast(w, visited) {
      forall i | 0 <= i < |v| - 1 ensures v[i] !in visited + {w[0]} {
        assert v[i] == a[i + 1] == w[i + 1] && a[0] == w[0];
      }
      forall i, j | 0 <= i < j < |b| ensures b[i] != b[j] {
        assert b[i] == a[i + 1] && b[j] == a[j + 1];
      }
    }
  }

  /** Printed exactly once, from the top down: every walk from the root whose nodes other than the last are pairwise
      distinct. */
  lemma PrintsEachSimpleWalkOnce(g: Graph, root: string)
    ensures NoDup(Entries(g, root, {})) && TopDown(Entries(g, root, {}))
    ensures forall e :: e in Entries(g, root, {}) ==> e == EntryOf(g, WalkOf(root, e))
    ensures forall w :: w != [] && w[0] == root ==>
              (EntryOf(g, w) in Entries(g, root, {}) <==> IsWalk(g, w) && SimpleUntilLast(w, {}))
  {
    EntriesNoDup(g, root, 0, {});
    EntriesTopDown(g, root, 0, {});
    forall e | e in Entries(g, root, {}) ensures e == EntryOf(g, WalkOf(root, e)) {
      EntriesExact(g, root, {}, e);
      AdmissibleDetermined(g, root, {}, e);
    }
    forall w: seq<string> | w != [] && w[0] == root
      ensures EntryOf(g, w) in Entries(g, root, {}) <==> IsWalk(g, w) && SimpleUntilLast(w, {})
    {
      EntriesExact(g, root, {}, EntryOf(g, w));
      AdmissibleIsSimpleWalk(g, {}, w);
    }
  }

  lemma {:induction false} AdmissibleDetermined(g: Graph, node: string, visited: set<string>, e: seq<Hop>)
    requires Admissible(g, node, visited, e)
    ensures e == EntryOf(g, WalkOf(node, e))
    decreases |e|
  {
    var w := WalkOf(node, e);
    HopIsLast(Neighbors(g, node), e[0]);
    assert w[1..] == WalkOf(e[0].name, e[1..]);
    if |e| > 1 { AdmissibleDetermined(g, e[0].name, visited + {node}, e[1..]); }
    assert e == [e[0]] + e[1..];
  }
}
