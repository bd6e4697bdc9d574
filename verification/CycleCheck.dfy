/** `diverge graph validate`: Tarjan's strongly connected components, and the verdict on cycles. */
module CycleCheck {
  import opened Text
  import opened TreePrinter

  // ----- reachability

  ghost predicate WalkFrom(g: Graph, w: seq<string>, x: string, y: string) {
    w != [] && w[0] == x && w[|w| - 1] == y && IsWalk(g, w)
  }

  ghost predicate Reach(g: Graph, x: string, y: string) { exists w :: WalkFrom(g, w, x, y) }

  ghost predicate Mutual(g: Graph, x: string, y: string) { Reach(g, x, y) && Reach(g, y, x) }

  lemma ReachSelf(g: Graph, x: string)
    ensures Reach(g, x, x)
  {
    assert WalkFrom(g, [x], x, x);
  }

  lemma ReachEdge(g: Graph, x: string, y: string)
    requires y in NeighborSet(g, x)
    ensures Reach(g, x, y)
  {
    assert WalkFrom(g, [x, y], x, y);
  }

  lemma ReachTrans(g: Graph, x: string, y: string, z: string)
    requires Reach(g, x, y) && Reach(g, y, z)
    ensures Reach(g, x, z)
  {
    var v :| WalkFrom(g, v, x, y);
    var w :| WalkFrom(g, w, y, z);
    var u := v + w[1..];
    forall i | 0 <= i < |u| - 1 ensures u[i + 1] in NeighborSet(g, u[i]) {
      if i < |v| - 1 {
        assert u[i] == v[i] && u[i + 1] == v[i + 1];
      } else {
        assert u[i] == w[i - |v| + 1] && u[i + 1] == w[i - |v| + 2];
      }
    }
    assert u[|u| - 1] == z;
    assert WalkFrom(g, u, x, z);
  }

  ghost predicate Closed(g: Graph, xs: set<string>) {
    forall v, w :: v in xs && w in NeighborSet(g, v) ==> w in xs
  }

  /** Nothing is reached from inside a closed set but what is inside. */
  lemma ClosedReach(g: Graph, xs: set<string>, x: string, y: string)
    requires Closed(g, xs) && x in xs && Reach(g, x, y)
    ensures y in xs
  {
    var w :| WalkFrom(g, w, x, y);
    WalkInside(g, xs, w);
  }

  lemma {:induction false} WalkInside(g: Graph, xs: set<string>, w: seq<string>)
    requires Closed(g, xs) && w != [] && w[0] in xs && IsWalk(g, w)
    ensures w[|w| - 1] in xs
    decreases |w|
  {
    if |w| > 1 {
      WalkTail(g, w);
      WalkInside(g, xs, w[1..]);
    }
  }

  // ----- the state of the algorithm

  datatype State = State(index: nat, indices: map<string, nat>, lowlink: map<string, nat>,
                         stack: seq<string>, sccs: seq<seq<string>>)

  /** Nodes whose component has been popped. */
  ghost function Done(s: State): set<string> { s.indices.Keys - Elems(s.stack) }

  /** The stack holds visited nodes in visiting order. */
  ghost predicate Ordered(s: State) {
    && s.indices.Keys == s.lowlink.Keys
    && (forall i :: 0 <= i < |s.stack| ==> s.stack[i] in s.indices)
    && (forall v :: v in s.indices ==> s.indices[v] < s.index)
    && (forall i, j :: 0 <= i < j < |s.stack| ==> s.indices[s.stack[i]] < s.indices[s.stack[j]])
  }

  /** All neighbours of a node that is done with have been visited; gray nodes are still being explored. */
  ghost predicate BlackSeen(g: Graph, s: State, gray: set<string>) {
    forall v, w :: v in s.indices && v !in gray && w in NeighborSet(g, v) ==> w in s.indices
  }

  ghost predicate ReachesUp(g: Graph, s: State) {
    forall i, j :: 0 <= i < j < |s.stack| ==> Reach(g, s.stack[i], s.stack[j])
  }

  /** Some gray node at or below j is reached from the j-th node of the stack. */
  ghost predicate ReachesGrayFrom(g: Graph, s: State, gray: set<string>, j: nat)
    requires j < |s.stack|
  {
    exists i :: 0 <= i <= j && s.stack[i] in gray && Reach(g, s.stack[j], s.stack[i])
  }

  ghost predicate ReachesGray(g: Graph, s: State, gray: set<string>) {
    forall j: nat :: j < |s.stack| ==> ReachesGrayFrom(g, s, gray, j)
  }

  /** A component is a whole class of mutually reachable nodes. */
  ghost predicate IsComponent(g: Graph, c: seq<string>) {
    && c != [] && NoDup(c)
    && (forall v, w :: v in c && w in c ==> Mutual(g, v, w))
    && (forall v, w :: v in c && Mutual(g, v, w) ==> w in c)
  }

  /** The components found so far are those of the nodes done, each once. */
  ghost predicate Components(g: Graph, sccs: seq<seq<string>>, done: set<string>) {
    && (forall k :: 0 <= k < |sccs| ==> IsComponent(g, sccs[k]) && Elems(sccs[k]) <= done)
    && (forall v :: v in done ==> exists k :: 0 <= k < |sccs| && v in sccs[k])
    && (forall k, l, v :: 0 <= k < l < |sccs| && v in sccs[k] ==> v !in sccs[l])
  }

  ghost predicate Inv(g: Graph, s: State, gray: set<string>) {
    && Ordered(s) && gray <= Elems(s.stack) && BlackSeen(g, s, gray) && Closed(g, Done(s))
    && ReachesUp(g, s) && ReachesGray(g, s, gray) && Components(g, s.sccs, Done(s))
  }

  // ----- entering a node

  function Pushed(s: State, v: string): State {
    State(s.index + 1, s.indices[v := s.index], s.lowlink[v := s.index], s.stack + [v], s.sccs)
  }

  lemma StackReachesNext(g: Graph, s: State, gray: set<string>, v: string, j: nat)
    requires ReachesGray(g, s, gray) && (forall x :: x in gray ==> Reach(g, x, v)) && j < |s.stack|
    ensures Reach(g, s.stack[j], v)
  {
    assert ReachesGrayFrom(g, s, gray, j);
    var i :| 0 <= i <= j && s.stack[i] in gray && Reach(g, s.stack[j], s.stack[i]);
    ReachTrans(g, s.stack[j], s.stack[i], v);
  }

  lemma PushOrdered(s: State, v: string)
    requires Ordered(s) && v !in s.indices
    ensures Ordered(Pushed(s, v)) && Done(Pushed(s, v)) == Done(s)
  {
    var t := Pushed(s, v);
    assert v !in s.stack;
    assert Elems(t.stack) == Elems(s.stack) + {v};
  }

  lemma PushReaches(g: Graph, s: State, gray: set<string>, v: string)
    requires ReachesUp(g, s) && ReachesGray(g, s, gray) && forall x :: x in gray ==> Reach(g, x, v)
    ensures ReachesUp(g, Pushed(s, v)) && ReachesGray(g, Pushed(s, v), gray + {v})
  {
    var t := Pushed(s, v);
    forall i, j | 0 <= i < j < |t.stack| ensures Reach(g, t.stack[i], t.stack[j]) {
      if j == |s.stack| { StackReachesNext(g, s, gray, v, i); }
    }
    forall j: nat | j < |t.stack| ensures ReachesGrayFrom(g, t, gray + {v}, j) {
      if j == |s.stack| {
        ReachSelf(g, v);
        assert t.stack[j] in gray + {v};
      } else {
        assert ReachesGrayFrom(g, s, gray, j);
        var i :| 0 <= i <= j && s.stack[i] in gray && Reach(g, s.stack[j], s.stack[i]);
        assert t.stack[i] in gray + {v} && Reach(g, t.stack[j], t.stack[i]);
      }
    }
  }

  lemma PushKeeps(g: Graph, s: State, gray: set<string>, v: string)
    requires Inv(g, s, gray) && v !in s.indices && forall x :: x in gray ==> Reach(g, x, v)
    ensures Inv(g, Pushed(s, v), gray + {v})
  {
    PushOrdered(s, v);
    PushReaches(g, s, gray, v);
    assert Elems(Pushed(s, v).stack) == Elems(s.stack) + {v};
  }

  // ----- exploring its neighbours

  /** Nothing about the nodes visited before has changed. */
  ghost predicate Kept(s0: State, s: State) {
    && s0.index <= s.index
    && (forall x :: x in s0.indices ==> x in s.indices && s.indices[x] == s0.indices[x])
    && (forall x :: x in s0.lowlink ==> x in s.lowlink && s.lowlink[x] == s0.lowlink[x])
  }

  /** The low link of v is the index of a node on the stack that v reaches. */
  ghost predicate Low(g: Graph, s: State, v: string) {
    && v in s.indices && v in s.lowlink && s.lowlink[v] <= s.indices[v]
    && exists y :: y in s.stack && y in s.indices && s.indices[y] == s.lowlink[v] && Reach(g, v, y)
  }

  /** No edge from the stack at or above `from` to one of the nodes `below` goes under the bound. */
  ghost predicate Bounded(g: Graph, s: State, below: seq<string>, from: nat, low: nat) {
    forall j, y :: from <= j < |s.stack| && y in below && y in s.indices && y in NeighborSet(g, s.stack[j])
      ==> low <= s.indices[y]
  }

  ghost predicate Seen(s0: State, s: State, v: string, ns: seq<string>, i: nat)
    requires i <= |ns| && v in s.lowlink
  {
    forall k :: 0 <= k < i ==> ns[k] in s.indices && (ns[k] in s0.stack ==> s.lowlink[v] <= s.indices[ns[k]])
  }

  /** v, entered in s0, has its first i neighbours behind it. */
  ghost predicate Exploring(g: Graph, s0: State, s: State, v: string, gray: set<string>, ns: seq<string>, i: nat)
    requires i <= |ns|
  {
    && Ordered(s0) && v !in s0.indices && gray <= Elems(s0.stack)
    && Inv(g, s, gray + {v}) && s0.stack + [v] <= s.stack && Kept(s0, s)
    && Low(g, s, v) && s.indices[v] == s0.index
    && Bounded(g, s, s0.stack, |s0.stack| + 1, s.lowlink[v]) && Seen(s0, s, v, ns, i)
  }

  /** v, entered in s0, is left: its component is popped, or it stays on the stack with a lower link. */
  ghost predicate Explored(g: Graph, s0: State, s: State, v: string, gray: set<string>) {
    && Inv(g, s, gray) && Kept(s0, s) && v in s.indices && v in s.lowlink && s.indices[v] == s0.index
    && (|| (s.stack == s0.stack && s.lowlink[v] == s.indices[v])
        || (s0.stack + [v] <= s.stack && Low(g, s, v) && s.lowlink[v] < s.indices[v]
            && Bounded(g, s, s0.stack, |s0.stack|, s.lowlink[v])))
  }

  function Lowered(s: State, v: string, x: nat): State
    requires v in s.lowlink
  {
    if x < s.lowlink[v] then s.(lowlink := s.lowlink[v := x]) else s
  }

  lemma LoweredKeeps(g: Graph, s: State, v: string, x: nat, gray: set<string>)
    requires Inv(g, s, gray) && v in s.lowlink
    ensures Inv(g, Lowered(s, v, x), gray)
  {
    var t := Lowered(s, v, x);
    assert t.lowlink.Keys == s.lowlink.Keys;
    assert Done(t) == Done(s);
    forall j: nat | j < |t.stack| ensures ReachesGrayFrom(g, t, gray, j) {
      assert ReachesGrayFrom(g, s, gray, j);
      var i :| 0 <= i <= j && s.stack[i] in gray && Reach(g, s.stack[j], s.stack[i]);
      assert t.stack[i] in gray && Reach(g, t.stack[j], t.stack[i]);
    }
  }

  lemma Entered(g: Graph, s: State, v: string, gray: set<string>, ns: seq<string>)
    requires Inv(g, s, gray) && v !in s.indices && forall x :: x in gray ==> Reach(g, x, v)
    ensures Exploring(g, s, Pushed(s, v), v, gray, ns, 0)
  {
    PushKeeps(g, s, gray, v);
    var t := Pushed(s, v);
    ReachSelf(g, v);
    assert v in t.stack by { assert t.stack[|s.stack|] == v; }
    assert t.indices[v] == t.lowlink[v];
  }

  /** A neighbour that is the node itself, or whose component is popped, changes nothing. */
  lemma EdgeSkipped(g: Graph, s0: State, s: State, v: string, gray: set<string>, ns: seq<string>, i: nat)
    requires i < |ns| && Exploring(g, s0, s, v, gray, ns, i) && ns[i] in s.indices && ns[i] !in s0.stack
    ensures Exploring(g, s0, s, v, gray, ns, i + 1)
  {
  }

  lemma BackEdge(g: Graph, s0: State, s: State, v: string, gray: set<string>, ns: seq<string>, i: nat)
    requires i < |ns| && Exploring(g, s0, s, v, gray, ns, i)
    requires ns[i] in s.indices && ns[i] in s.stack && ns[i] in NeighborSet(g, v)
    ensures Exploring(g, s0, Lowered(s, v, s.indices[ns[i]]), v, gray, ns, i + 1)
  {
    var x := s.indices[ns[i]];
    LoweredKeeps(g, s, v, x, gray + {v});
    ReachEdge(g, v, ns[i]);
    LowAfterBackEdge(g, s, v, ns[i]);
    KeptThrough(s0, s, s, v, x);
    BoundedLowered(g, s, s0.stack, |s0.stack| + 1, v, x);
    SeenLowered(s0, s, v, ns, i);
  }

  lemma BoundedLowered(g: Graph, s: State, below: seq<string>, from: nat, v: string, x: nat)
    requires v in s.lowlink && Bounded(g, s, below, from, s.lowlink[v])
    ensures Bounded(g, Lowered(s, v, x), below, from, Lowered(s, v, x).lowlink[v])
  {
  }

  lemma SeenLowered(s0: State, s: State, v: string, ns: seq<string>, i: nat)
    requires i < |ns| && v in s.lowlink && ns[i] in s.indices && Seen(s0, s, v, ns, i)
    ensures Seen(s0, Lowered(s, v, s.indices[ns[i]]), v, ns, i + 1)
  {
  }

  lemma LowAfterBackEdge(g: Graph, s: State, v: string, n: string)
    requires Low(g, s, v) && n in s.stack && n in s.indices && Reach(g, v, n)
    ensures Low(g, Lowered(s, v, s.indices[n]), v)
  {
    var t := Lowered(s, v, s.indices[n]);
    if s.indices[n] < s.lowlink[v] {
      assert n in t.stack && t.indices[n] == t.lowlink[v];
    }
  }

  // ----- after a neighbour has been explored

  lemma ChildLow(g: Graph, s: State, t: State, v: string, n: string, gray: set<string>)
    requires Ordered(s) && Low(g, s, v) && n in NeighborSet(g, v) && n !in s.indices
    requires Explored(g, s, t, n, gray) && s.stack <= t.stack
    ensures v in t.lowlink && Low(g, Lowered(t, v, t.lowlink[n]), v)
    ensures Lowered(t, v, t.lowlink[n]).lowlink[v] <= s.lowlink[v]
    ensures Lowered(t, v, t.lowlink[n]).lowlink[v] <= t.lowlink[n]
  {
    var u := Lowered(t, v, t.lowlink[n]);
    if t.lowlink[n] < t.lowlink[v] {
      var y :| y in t.stack && y in t.indices && t.indices[y] == t.lowlink[n] && Reach(g, n, y);
      ReachEdge(g, v, n);
      ReachTrans(g, v, n, y);
      assert y in u.stack && u.indices[y] == u.lowlink[v];
    } else {
      var y :| y in s.stack && y in s.indices && s.indices[y] == s.lowlink[v] && Reach(g, v, y);
      assert y in u.stack && u.indices[y] == u.lowlink[v];
    }
  }

  lemma ChildBounded(g: Graph, s0: State, s: State, t: State, n: string, gray: set<string>, low: nat, from: nat)
    requires Ordered(s) && s0.stack <= s.stack <= t.stack && from <= |s.stack| && Kept(s, t)
    requires Explored(g, s, t, n, gray)
    requires Bounded(g, s, s0.stack, from, low)
    ensures var least := if t.lowlink[n] < low then t.lowlink[n] else low;
            Bounded(g, t, s0.stack, from, least)
  {
    var least := if t.lowlink[n] < low then t.lowlink[n] else low;
    forall j, y | from <= j < |t.stack| && y in s0.stack && y in t.indices && y in NeighborSet(g, t.stack[j])
      ensures least <= t.indices[y]
    {
      assert y in s.stack && y in s.indices;
      if j < |s.stack| { assert t.stack[j] == s.stack[j]; }
    }
  }

  lemma KeptThrough(s0: State, s: State, t: State, v: string, x: nat)
    requires Kept(s0, s) && Kept(s, t) && v !in s0.lowlink && v in t.lowlink
    ensures Kept(s0, Lowered(t, v, x))
  {
  }

  lemma ChildSeen(s0: State, s: State, u: State, v: string, ns: seq<string>, i: nat)
    requires i < |ns| && v in s.lowlink && Seen(s0, s, v, ns, i) && v in u.lowlink && u.lowlink[v] <= s.lowlink[v]
    requires forall x :: x in s.indices ==> x in u.indices && u.indices[x] == s.indices[x]
    requires ns[i] in u.indices && ns[i] !in s0.stack
    ensures Seen(s0, u, v, ns, i + 1)
  {
  }

  lemma ChildBoundedLowered(g: Graph, s0: State, s: State, t: State, v: string, n: string, gray: set<string>)
    requires Ordered(s) && s0.stack <= s.stack <= t.stack && |s0.stack| < |s.stack| && v in s.lowlink
    requires Explored(g, s, t, n, gray) && Bounded(g, s, s0.stack, |s0.stack| + 1, s.lowlink[v])
    ensures v in t.lowlink
    ensures var u := Lowered(t, v, t.lowlink[n]); Bounded(g, u, s0.stack, |s0.stack| + 1, u.lowlink[v])
  {
    ChildBounded(g, s0, s, t, n, gray, s.lowlink[v], |s0.stack| + 1);
  }

  lemma ChildExplored(g: Graph, s0: State, s: State, t: State, v: string, gray: set<string>, ns: seq<string>, i: nat)
    requires i < |ns| && Exploring(g, s0, s, v, gray, ns, i) && ns[i] !in s.indices && ns[i] in NeighborSet(g, v)
    requires Explored(g, s, t, ns[i], gray + {v})
    ensures v in t.lowlink && Exploring(g, s0, Lowered(t, v, t.lowlink[ns[i]]), v, gray, ns, i + 1)
  {
    var n := ns[i];
    PrefixThrough(s0.stack, v, s.stack, n, t.stack);
    ChildLow(g, s, t, v, n, gray + {v});
    var u := Lowered(t, v, t.lowlink[n]);
    LoweredKeeps(g, t, v, t.lowlink[n], gray + {v});
    ChildBoundedLowered(g, s0, s, t, v, n, gray + {v});
    KeptThrough(s0, s, t, v, t.lowlink[n]);
    NotBelow(s0, s, n);
    ChildSeen(s0, s, u, v, ns, i);
  }

  lemma PrefixThrough(a: seq<string>, v: string, b: seq<string>, n: string, c: seq<string>)
    requires a + [v] <= b && (c == b || b + [n] <= c)
    ensures b <= c && a <= b && a + [v] <= c && |a| < |b|
  {
    assert (a + [v])[..|a|] == a;
    if c != b { assert (b + [n])[..|b|] == b; }
  }

  lemma NotBelow(s0: State, s: State, n: string)
    requires Ordered(s0) && Kept(s0, s) && n !in s.indices
    ensures n !in s0.stack
  {
  }

  // ----- leaving a node

  /** A node with a lower link reaches a gray node below it. */
  lemma GrayBelow(g: Graph, s: State, v: string, gray: set<string>, at: nat) returns (c: nat)
    requires Ordered(s) && at < |s.stack| && s.stack[at] == v
    requires ReachesGray(g, s, gray + {v}) && Low(g, s, v) && s.lowlink[v] < s.indices[v]
    ensures c < at && s.stack[c] in gray && Reach(g, v, s.stack[c])
  {
    var y :| y in s.stack && y in s.indices && s.indices[y] == s.lowlink[v] && Reach(g, v, y);
    var b: nat :| b < |s.stack| && s.stack[b] == y;
    Lower(s, b, at);
    assert ReachesGrayFrom(g, s, gray + {v}, b);
    c :| 0 <= c <= b && s.stack[c] in gray + {v} && Reach(g, s.stack[b], s.stack[c]);
    if s.stack[c] == v { OnePlace(s, c, at); }
    ReachTrans(g, v, y, s.stack[c]);
  }

  lemma Lower(s: State, i: nat, j: nat)
    requires Ordered(s) && i < |s.stack| && j < |s.stack| && s.indices[s.stack[i]] < s.indices[s.stack[j]]
    ensures i < j
  {
  }

  /** v stays on the stack: it reaches something gray below, so it need not be gray. */
  lemma StayReachesGray(g: Graph, s: State, v: string, gray: set<string>, at: nat)
    requires Ordered(s) && at < |s.stack| && s.stack[at] == v
    requires ReachesGray(g, s, gray + {v}) && Low(g, s, v) && s.lowlink[v] < s.indices[v]
    ensures ReachesGray(g, s, gray)
  {
    var c := GrayBelow(g, s, v, gray, at);
    forall j: nat | j < |s.stack| ensures ReachesGrayFrom(g, s, gray, j) {
      assert ReachesGrayFrom(g, s, gray + {v}, j);
      var i: nat :| i <= j && s.stack[i] in gray + {v} && Reach(g, s.stack[j], s.stack[i]);
      if s.stack[i] !in gray {
        OnePlace(s, i, at);
        ReachTrans(g, s.stack[j], v, s.stack[c]);
      }
    }
  }

  lemma OnePlace(s: State, i: nat, j: nat)
    requires Ordered(s) && i < |s.stack| && j < |s.stack| && s.stack[i] == s.stack[j]
    ensures i == j
  {
  }

  /** A node is left when all its neighbours have been visited. */
  lemma AllSeen(g: Graph, s0: State, s: State, v: string, gray: set<string>, ns: seq<string>)
    requires Exploring(g, s0, s, v, gray, ns, |ns|) && Elems(ns) == NeighborSet(g, v)
    ensures BlackSeen(g, s, gray)
    ensures Bounded(g, s, s0.stack, |s0.stack|, s.lowlink[v])
  {
    forall w | w in NeighborSet(g, v) ensures w in s.indices && (w in s0.stack ==> s.lowlink[v] <= s.indices[w]) {
      assert w in Elems(ns);
      var k :| 0 <= k < |ns| && ns[k] == w;
    }
    forall j, y | |s0.stack| <= j < |s.stack| && y in s0.stack && y in s.indices && y in NeighborSet(g, s.stack[j])
      ensures s.lowlink[v] <= s.indices[y]
    {
      if j == |s0.stack| { assert s.stack[j] == (s0.stack + [v])[j] == v; }
    }
  }

  lemma Stays(g: Graph, s0: State, s: State, v: string, gray: set<string>, ns: seq<string>)
    requires Exploring(g, s0, s, v, gray, ns, |ns|) && Elems(ns) == NeighborSet(g, v) && s.lowlink[v] < s.indices[v]
    ensures Explored(g, s0, s, v, gray)
  {
    var at := |s0.stack|;
    AllSeen(g, s0, s, v, gray, ns);
    assert s.stack[at] == (s0.stack + [v])[at] == v;
    assert s.stack[..at] == s0.stack;
    StayReachesGray(g, s, v, gray, at);
  }

  // ----- popping a component

  /** v and everything above it. */
  function Segment(s: State, at: nat): seq<string>
    requires at <= |s.stack|
  {
    s.stack[at..]
  }

  function Popped(s: State, at: nat): State
    requires at <= |s.stack|
  {
    s.(stack := s.stack[..at], sccs := s.sccs + [Segment(s, at)])
  }

  /** What the segment and the rest of the stack have to do with each other when v's link is its own index. */
  ghost predicate Root(g: Graph, s: State, v: string, gray: set<string>, at: nat) {
    && at < |s.stack| && s.stack[at] == v && v in s.lowlink
    && Inv(g, s, gray + {v}) && gray <= Elems(s.stack[..at]) && BlackSeen(g, s, gray)
    && s.lowlink[v] == s.indices[v] && Bounded(g, s, s.stack[..at], at, s.lowlink[v])
  }

  lemma Apart(s: State, at: nat)
    requires Ordered(s) && at <= |s.stack|
    ensures Elems(s.stack) == Elems(s.stack[..at]) + Elems(Segment(s, at))
    ensures Elems(s.stack[..at]) !! Elems(Segment(s, at)) && NoDup(Segment(s, at))
  {
    assert s.stack == s.stack[..at] + Segment(s, at);
    forall x | x in Elems(s.stack[..at]) ensures x !in Elems(Segment(s, at)) {
      var i: nat :| i < at && s.stack[i] == x;
      forall j | at <= j < |s.stack| ensures s.stack[j] != x { assert s.indices[s.stack[i]] < s.indices[s.stack[j]]; }
    }
    forall i, j | 0 <= i < j < |Segment(s, at)| ensures Segment(s, at)[i] != Segment(s, at)[j] {
      assert s.indices[s.stack[at + i]] < s.indices[s.stack[at + j]];
    }
  }

  /** Edges of the segment stay in it or go to nodes done. */
  lemma SegmentEdge(g: Graph, s: State, v: string, gray: set<string>, at: nat, j: nat, w: string)
    requires Root(g, s, v, gray, at) && at <= j < |s.stack| && w in NeighborSet(g, s.stack[j])
    ensures w in Elems(Segment(s, at)) + Done(s)
  {
    Apart(s, at);
    assert s.stack[j] in Elems(Segment(s, at)) by { assert Segment(s, at)[j - at] == s.stack[j]; }
    assert w in s.indices;
  }

  lemma SegmentClosed(g: Graph, s: State, v: string, gray: set<string>, at: nat)
    requires Root(g, s, v, gray, at)
    ensures Closed(g, Elems(Segment(s, at)) + Done(s))
  {
    forall a, w | a in Elems(Segment(s, at)) + Done(s) && w in NeighborSet(g, a)
      ensures w in Elems(Segment(s, at)) + Done(s)
    {
      if a in Elems(Segment(s, at)) {
        var k: nat :| k < |Segment(s, at)| && Segment(s, at)[k] == a;
        SegmentEdge(g, s, v, gray, at, at + k, w);
      }
    }
  }

  lemma GrayIsRoot(s: State, v: string, gray: set<string>, at: nat, x: string)
    requires Ordered(s) && at < |s.stack| && gray <= Elems(s.stack[..at])
    requires x in s.stack && x in gray + {v} && x in Elems(Segment(s, at)) + Done(s)
    ensures x == v
  {
    Apart(s, at);
  }

  lemma BackToRoot(g: Graph, s: State, v: string, gray: set<string>, at: nat, j: nat)
    requires Root(g, s, v, gray, at) && at <= j < |s.stack|
    ensures Reach(g, s.stack[j], v)
  {
    SegmentClosed(g, s, v, gray, at);
    assert Segment(s, at)[j - at] == s.stack[j];
    assert ReachesGrayFrom(g, s, gray + {v}, j);
    var i: nat :| i <= j && s.stack[i] in gray + {v} && Reach(g, s.stack[j], s.stack[i]);
    ClosedReach(g, Elems(Segment(s, at)) + Done(s), s.stack[j], s.stack[i]);
    GrayIsRoot(s, v, gray, at, s.stack[i]);
  }

  /** The root and the rest of its segment reach each other. */
  lemma SegmentMutual(g: Graph, s: State, v: string, gray: set<string>, at: nat, j: nat)
    requires Root(g, s, v, gray, at) && at <= j < |s.stack|
    ensures Mutual(g, v, s.stack[j])
  {
    BackToRoot(g, s, v, gray, at, j);
    if j == at { ReachSelf(g, v); }
  }

  lemma RootReaches(g: Graph, s: State, v: string, gray: set<string>, at: nat, x: string)
    requires Root(g, s, v, gray, at) && x in Segment(s, at)
    ensures Mutual(g, v, x)
  {
    var k: nat :| k < |Segment(s, at)| && Segment(s, at)[k] == x;
    SegmentMutual(g, s, v, gray, at, at + k);
  }

  lemma MutualThrough(g: Graph, v: string, x: string, y: string)
    requires Mutual(g, v, x) && Mutual(g, v, y)
    ensures Mutual(g, x, y)
  {
    ReachTrans(g, x, v, y);
    ReachTrans(g, y, v, x);
  }

  lemma SegmentMaximal(g: Graph, s: State, v: string, gray: set<string>, at: nat, x: string, y: string)
    requires Root(g, s, v, gray, at) && x in Segment(s, at) && Mutual(g, x, y)
    ensures y in Segment(s, at)
  {
    SegmentClosed(g, s, v, gray, at);
    ClosedReach(g, Elems(Segment(s, at)) + Done(s), x, y);
    assert x in Elems(s.stack);
    if y in Done(s) { ClosedReach(g, Done(s), y, x); }
  }

  lemma SegmentIsComponent(g: Graph, s: State, v: string, gray: set<string>, at: nat)
    requires Root(g, s, v, gray, at)
    ensures IsComponent(g, Segment(s, at))
  {
    var c := Segment(s, at);
    Apart(s, at);
    forall x, y | x in c && y in c ensures Mutual(g, x, y) {
      RootReaches(g, s, v, gray, at, x);
      RootReaches(g, s, v, gray, at, y);
      MutualThrough(g, v, x, y);
    }
    forall x, y | x in c && Mutual(g, x, y) ensures y in c { SegmentMaximal(g, s, v, gray, at, x, y); }
  }

  lemma PoppedDone(s: State, at: nat)
    requires Ordered(s) && at <= |s.stack|
    ensures Done(Popped(s, at)) == Elems(Segment(s, at)) + Done(s)
  {
    Apart(s, at);
    assert forall x :: x in Elems(s.stack) ==> x in s.indices;
  }

  lemma PoppedComponents(g: Graph, s: State, v: string, gray: set<string>, at: nat)
    requires Root(g, s, v, gray, at)
    ensures Components(g, Popped(s, at).sccs, Done(Popped(s, at)))
  {
    var c, u := Segment(s, at), Popped(s, at);
    PoppedDone(s, at);
    SegmentIsComponent(g, s, v, gray, at);
    Apart(s, at);
    forall x | x in Done(u) ensures exists k :: 0 <= k < |u.sccs| && x in u.sccs[k] {
      if x in Done(s) {
        var k :| 0 <= k < |s.sccs| && x in s.sccs[k];
        assert x in u.sccs[k];
      } else {
        assert x in u.sccs[|s.sccs|];
      }
    }
    forall k, l, x | 0 <= k < l < |u.sccs| && x in u.sccs[k] ensures x !in u.sccs[l] {
      assert x in Elems(s.sccs[k]);
      if l == |s.sccs| { assert x in c ==> x in Elems(s.stack); }
    }
  }

  lemma PoppedReachesGray(g: Graph, s: State, v: string, gray: set<string>, at: nat)
    requires Root(g, s, v, gray, at)
    ensures ReachesGray(g, Popped(s, at), gray)
  {
    var u := Popped(s, at);
    forall j: nat | j < |u.stack| ensures ReachesGrayFrom(g, u, gray, j) {
      assert ReachesGrayFrom(g, s, gray + {v}, j);
      var i: nat :| i <= j && s.stack[i] in gray + {v} && Reach(g, s.stack[j], s.stack[i]);
      if s.stack[i] == v { OnePlace(s, i, at); }
      assert u.stack[i] in gray && Reach(g, u.stack[j], u.stack[i]);
    }
  }

  lemma PopKeeps(g: Graph, s: State, v: string, gray: set<string>, at: nat)
    requires Root(g, s, v, gray, at)
    ensures Inv(g, Popped(s, at), gray)
  {
    PoppedDone(s, at);
    SegmentClosed(g, s, v, gray, at);
    PoppedComponents(g, s, v, gray, at);
    PoppedReachesGray(g, s, v, gray, at);
  }

  lemma Pops(g: Graph, s0: State, s: State, v: string, gray: set<string>, ns: seq<string>)
    requires Exploring(g, s0, s, v, gray, ns, |ns|) && Elems(ns) == NeighborSet(g, v) && s.lowlink[v] == s.indices[v]
    ensures |s0.stack| <= |s.stack| && Explored(g, s0, Popped(s, |s0.stack|), v, gray)
  {
    var at := |s0.stack|;
    AllSeen(g, s0, s, v, gray, ns);
    assert s.stack[at] == (s0.stack + [v])[at] == v;
    assert s.stack[..at] == s0.stack;
    PopKeeps(g, s, v, gray, at);
  }

  // ----- the service graph

  datatype ServiceGraph = ServiceGraph(edges: Graph, nodes: set<string>)

  ghost predicate WellFormed(sg: ServiceGraph) { sg.edges.Keys <= sg.nodes && Closed(sg.edges, sg.nodes) }

  function AddEdge(sg: ServiceGraph, from: string, e: Edge): ServiceGraph {
    var nodes := sg.nodes + {from, e.to};
    if e.tombstone then ServiceGraph(sg.edges, nodes)
    else ServiceGraph(sg.edges[from := (if from in sg.edges then sg.edges[from] else []) + [e]], nodes)
  }

  /** Whatever edges are added, both ends of every edge are known nodes. */
  lemma AddEdgeKeepsWellFormed(sg: ServiceGraph, from: string, e: Edge)
    requires WellFormed(sg)
    ensures WellFormed(AddEdge(sg, from, e))
  {
    var t := AddEdge(sg, from, e);
    forall v, w | v in t.nodes && w in NeighborSet(t.edges, v) ensures w in t.nodes {
      if v != from || e.tombstone {
        assert w in NeighborSet(sg.edges, v) && v in sg.nodes;
      } else {
        assert w == e.to || (from in sg.edges && w in NeighborSet(sg.edges, from));
      }
    }
  }

  lemma GrayReachesNext(g: Graph, gray: set<string>, v: string, n: string)
    requires (forall x :: x in gray ==> Reach(g, x, v)) && n in NeighborSet(g, v)
    ensures forall x :: x in gray + {v} ==> Reach(g, x, n)
  {
    ReachEdge(g, v, n);
    forall x | x in gray + {v} ensures Reach(g, x, n) {
      if x != v { ReachTrans(g, x, v, n); }
    }
  }

  lemma ReadyFor(sg: ServiceGraph, s0: State, s: State, v: string, gray: set<string>, ns: seq<string>, i: nat)
    requires WellFormed(sg) && v in sg.nodes && i < |ns| && ns[i] in NeighborSet(sg.edges, v)
    requires Exploring(sg.edges, s0, s, v, gray, ns, i) && forall x :: x in gray ==> Reach(sg.edges, x, v)
    ensures ns[i] in sg.nodes && Inv(sg.edges, s, gray + {v})
    ensures forall x :: x in gray + {v} ==> Reach(sg.edges, x, ns[i])
  {
    GrayReachesNext(sg.edges, gray, v, ns[i]);
  }

  lemma StillBelow(a: seq<string>, v: string, b: seq<string>, x: string)
    requires a + [v] <= b && x !in b
    ensures x !in a
  {
    assert (a + [v])[..|a|] == a && b[..|a|] == a;
  }

  class Tarjan {
    const sg: ServiceGraph
    var index: nat
    var indices: map<string, nat>
    var lowlink: map<string, nat>
    var onStack: map<string, bool>
    var stack: seq<string>
    var sccs: seq<seq<string>>

    constructor (sg: ServiceGraph)
      ensures this.sg == sg && View() == State(0, map[], map[], [], []) && Flagged()
    {
      this.sg := sg;
      index, indices, lowlink, onStack, stack, sccs := 0, map[], map[], map[], [], [];
    }

    ghost function View(): State
      reads this
    {
      State(index, indices, lowlink, stack, sccs)
    }

    ghost predicate Flagged()
      reads this
    {
      forall x :: x in onStack && onStack[x] <==> x in stack
    }

    method Enter(node: string)
      requires Flagged()
      modifies this
      ensures View() == Pushed(old(View()), node) && Flagged()
    {
      indices := indices[node := index];
      lowlink := lowlink[node := index];
      index := index + 1;
      stack := stack + [node];
      onStack := onStack[node := true];
    }

    method LowerTo(node: string, x: nat)
      requires node in lowlink && Flagged()
      modifies this`lowlink
      ensures View() == Lowered(old(View()), node, x)
    {
      if x < lowlink[node] { lowlink := lowlink[node := x]; }
    }

    /** Pops down to the node, which is at the given place. */
    method PopComponent(node: string, ghost at: nat)
      requires Flagged() && at < |stack| && stack[at] == node && NoDup(stack)
      modifies this`stack, this`onStack, this`sccs
      ensures View() == Popped(old(View()), at) && Flagged()
    {
      var scc := [];
      while true
        invariant at < |stack| <= |old(stack)| && stack == old(stack)[..|stack|] && scc == old(stack)[|stack|..]
        invariant Flagged() && sccs == old(sccs)
        decreases |stack|
      {
        var w := stack[|stack| - 1];
        ghost var top := |stack| - 1;
        assert w !in stack[..top];
        stack := stack[..|stack| - 1];
        onStack := onStack[w := false];
        scc := [w] + scc;
        assert scc == old(stack)[top..];
        if w == node {
          assert top == at;
          break;
        }
      }
      sccs := sccs + [scc];
    }

    /** Explores a node that has not been visited and everything unvisited that it reaches. */
    method StrongConnect(node: string, ghost gray: set<string>)
      requires WellFormed(sg) && node in sg.nodes && indices.Keys <= sg.nodes && Flagged()
      requires Inv(sg.edges, View(), gray) && node !in indices
      requires forall x :: x in gray ==> Reach(sg.edges, x, node)
      modifies this
      ensures Explored(sg.edges, old(View()), View(), node, gray) && Flagged()
      ensures old(indices.Keys) <= indices.Keys <= sg.nodes
      decreases sg.nodes - indices.Keys, 0
    {
      ghost var s0 := View();
      Enter(node);
      var neighbors := ListNeighbors(sg.edges, node);
      Entered(sg.edges, s0, node, gray, neighbors);
      for i := 0 to |neighbors|
        invariant Exploring(sg.edges, s0, View(), node, gray, neighbors, i) && indices.Keys <= sg.nodes && Flagged()
        invariant s0.indices.Keys + {node} <= indices.Keys
      {
        Visit(node, neighbors, i, s0, gray);
      }
      if lowlink[node] == indices[node] {
        Pops(sg.edges, s0, View(), node, gray, neighbors);
        Apart(View(), 0);
        PopComponent(node, |s0.stack|);
      } else {
        Stays(sg.edges, s0, View(), node, gray, neighbors);
      }
    }

    method Visit(node: string, neighbors: seq<string>, i: nat, ghost s0: State, ghost gray: set<string>)
      requires WellFormed(sg) && node in sg.nodes && indices.Keys <= sg.nodes && Flagged()
      requires i < |neighbors| && neighbors[i] in NeighborSet(sg.edges, node)
      requires Exploring(sg.edges, s0, View(), node, gray, neighbors, i)
      requires forall x :: x in gray ==> Reach(sg.edges, x, node)
      modifies this
      ensures Exploring(sg.edges, s0, View(), node, gray, neighbors, i + 1)
      ensures old(indices.Keys) <= indices.Keys <= sg.nodes && Flagged()
      decreases sg.nodes - indices.Keys, 2
    {
      var neighbor := neighbors[i];
      if neighbor == node {
        EdgeSkipped(sg.edges, s0, View(), node, gray, neighbors, i);
      } else if neighbor !in indices {
        VisitNew(node, neighbors, i, s0, gray);
      } else if neighbor in onStack && onStack[neighbor] {
        BackEdge(sg.edges, s0, View(), node, gray, neighbors, i);
        LowerTo(node, indices[neighbor]);
      } else {
        StillBelow(s0.stack, node, stack, neighbor);
        EdgeSkipped(sg.edges, s0, View(), node, gray, neighbors, i);
      }
    }

    method VisitNew(node: string, neighbors: seq<string>, i: nat, ghost s0: State, ghost gray: set<string>)
      requires WellFormed(sg) && node in sg.nodes && indices.Keys <= sg.nodes && Flagged()
      requires i < |neighbors| && neighbors[i] in NeighborSet(sg.edges, node) && neighbors[i] !in indices
      requires Exploring(sg.edges, s0, View(), node, gray, neighbors, i)
      requires forall x :: x in gray ==> Reach(sg.edges, x, node)
      modifies this
      ensures Exploring(sg.edges, s0, View(), node, gray, neighbors, i + 1)
      ensures old(indices.Keys) <= indices.Keys <= sg.nodes && Flagged()
      decreases sg.nodes - indices.Keys, 1
    {
      ghost var s := View();
      ReadyFor(sg, s0, s, node, gray, neighbors, i);
      StrongConnect(neighbors[i], gray + {node});
      TakeOver(node, neighbors, i, s0, s, gray);
    }

    /** The low link of a neighbour just explored counts for the node as well. */
    method TakeOver(node: string, neighbors: seq<string>, i: nat,
                    ghost s0: State, ghost s: State, ghost gray: set<string>)
      requires i < |neighbors| && neighbors[i] in NeighborSet(sg.edges, node) && neighbors[i] !in s.indices && Flagged()
      requires Exploring(sg.edges, s0, s, node, gray, neighbors, i)
      requires Explored(sg.edges, s, View(), neighbors[i], gray + {node})
      modifies this`lowlink
      ensures Exploring(sg.edges, s0, View(), node, gray, neighbors, i + 1)
    {
      ChildExplored(sg.edges, s0, s, View(), node, gray, neighbors, i);
      LowerTo(node, lowlink[neighbors[i]]);
    }

    /** Visits every service. Afterwards the components are exactly the classes of mutually reachable services. */
    method FindComponents()
      requires WellFormed(sg) && View() == State(0, map[], map[], [], []) && Flagged()
      modifies this
      ensures Components(sg.edges, sccs, sg.nodes)
    {
      var services := SortedKeys(sg.nodes);
      NothingVisited(sg.edges);
      VisitAll(services);
      AllVisited(sg.nodes, services, indices.Keys);
      AllDone(sg.edges, View(), sg.nodes);
    }

    method VisitAll(services: seq<string>)
      requires WellFormed(sg) && Elems(services) <= sg.nodes && indices.Keys <= sg.nodes && Flagged()
      requires Inv(sg.edges, View(), {})
      modifies this
      ensures Inv(sg.edges, View(), {}) && indices.Keys <= sg.nodes
      ensures forall k :: 0 <= k < |services| ==> services[k] in indices
    {
      for i := 0 to |services|
        invariant Inv(sg.edges, View(), {}) && indices.Keys <= sg.nodes && Flagged()
        invariant forall k :: 0 <= k < i ==> services[k] in indices
      {
        assert services[i] in Elems(services);
        VisitService(services[i]);
      }
    }

    method VisitService(service: string)
      requires WellFormed(sg) && service in sg.nodes && indices.Keys <= sg.nodes && Flagged()
      requires Inv(sg.edges, View(), {})
      modifies this
      ensures Inv(sg.edges, View(), {}) && indices.Keys <= sg.nodes && Flagged()
      ensures service in indices && old(indices.Keys) <= indices.Keys
    {
      if service !in indices { StrongConnect(service, {}); }
    }

    /** Nil if and only if no cycle passes through two services or more; otherwise the error lists such a cycle. */
    method Validate() returns (err: Option<seq<string>>)
      requires WellFormed(sg) && View() == State(0, map[], map[], [], []) && Flagged()
      modifies this
      ensures Components(sg.edges, sccs, sg.nodes)
      ensures err.None? <==> !exists w :: IsCycle(sg.edges, w)
      ensures err.Some? ==> IsCycle(sg.edges, err.value)
    {
      FindComponents();
      VerdictIsRight(sg, sccs);
      for i := 0 to |sccs|
        invariant forall k :: 0 <= k < i ==> |sccs[k]| <= 1
      {
        if |sccs[i]| > 1 {
          var cycle := FindCycleInSCC(sg.edges, sccs[i]);
          return Some(cycle);
        }
      }
      return None;
    }
  }

  /** With nothing gray there is nothing on the stack. */
  lemma EmptyStack(g: Graph, s: State)
    requires ReachesGray(g, s, {})
    ensures s.stack == []
  {
    assert s.stack != [] ==> ReachesGrayFrom(g, s, {}, 0);
  }

  lemma NothingVisited(g: Graph)
    ensures Inv(g, State(0, map[], map[], [], []), {})
  {
  }

  lemma AllDone(g: Graph, s: State, nodes: set<string>)
    requires Inv(g, s, {}) && s.indices.Keys == nodes
    ensures Components(g, s.sccs, nodes)
  {
    EmptyStack(g, s);
    assert Done(s) == nodes;
  }

  lemma AllVisited(nodes: set<string>, services: seq<string>, visited: set<string>)
    requires Elems(services) == nodes && visited <= nodes && forall k :: 0 <= k < |services| ==> services[k] in visited
    ensures visited == nodes
  {
    forall x | x in nodes ensures x in visited {
      assert x in Elems(services);
      var k :| 0 <= k < |services| && services[k] == x;
    }
  }

  // ----- cycles

  /** A walk that comes back to where it started, through some other node. */
  ghost predicate IsCycle(g: Graph, w: seq<string>) {
    |w| >= 2 && IsWalk(g, w) && w[0] == w[|w| - 1] && exists i :: 0 <= i < |w| && w[i] != w[0]
  }

  lemma CycleMeansMutual(g: Graph, w: seq<string>) returns (x: string, y: string)
    requires IsCycle(g, w)
    ensures x != y && Mutual(g, x, y) && x in g
  {
    var i :| 0 <= i < |w| && w[i] != w[0];
    x, y := w[0], w[i];
    assert WalkFrom(g, w[..i + 1], x, y);
    assert WalkFrom(g, w[i..], y, x);
    assert w[1] in NeighborSet(g, w[0]);
  }

  lemma MutualMeansCycle(g: Graph, x: string, y: string) returns (w: seq<string>)
    requires x != y && Mutual(g, x, y)
    ensures IsCycle(g, w) && w[0] == x
  {
    var u :| WalkFrom(g, u, x, y);
    var v :| WalkFrom(g, v, y, x);
    w := u + v[1..];
    forall i | 0 <= i < |w| - 1 ensures w[i + 1] in NeighborSet(g, w[i]) {
      if i < |u| - 1 {
        assert w[i] == u[i] && w[i + 1] == u[i + 1];
      } else {
        assert w[i] == v[i - |u| + 1] && w[i + 1] == v[i - |u| + 2];
      }
    }
    assert w[|u| - 1] == y;
  }

  lemma BigComponentMeansCycle(g: Graph, c: seq<string>)
    requires IsComponent(g, c) && |c| > 1
    ensures exists w :: IsCycle(g, w)
  {
    assert c[0] in c && c[1] in c;
    var w := MutualMeansCycle(g, c[0], c[1]);
  }

  lemma CycleMeansBigComponent(sg: ServiceGraph, sccs: seq<seq<string>>, w: seq<string>)
    requires WellFormed(sg) && Components(sg.edges, sccs, sg.nodes) && IsCycle(sg.edges, w)
    ensures exists k :: 0 <= k < |sccs| && |sccs[k]| > 1
  {
    var x, y := CycleMeansMutual(sg.edges, w);
    var k :| 0 <= k < |sccs| && x in sccs[k];
    assert y in sccs[k];
    var i :| 0 <= i < |sccs[k]| && sccs[k][i] == x;
    var j :| 0 <= j < |sccs[k]| && sccs[k][j] == y;
    assert |sccs[k]| > 1;
  }

  /** Some component has two members exactly when there is a cycle. */
  lemma VerdictIsRight(sg: ServiceGraph, sccs: seq<seq<string>>)
    requires WellFormed(sg) && Components(sg.edges, sccs, sg.nodes)
    ensures (exists k :: 0 <= k < |sccs| && |sccs[k]| > 1) <==> exists w :: IsCycle(sg.edges, w)
  {
    if k :| 0 <= k < |sccs| && |sccs[k]| > 1 { BigComponentMeansCycle(sg.edges, sccs[k]); }
    if w :| IsCycle(sg.edges, w) { CycleMeansBigComponent(sg, sccs, w); }
  }

  // ----- the cycle that is reported

  class CycleFinder {
    const g: Graph
    const inScc: set<string>
    const start: string
    var visited: set<string>
    var path: seq<string>

    constructor (g: Graph, inScc: set<string>, start: string)
      ensures this.g == g && this.inScc == inScc && this.start == start && visited == {} && path == []
    {
      this.g, this.inScc, this.start := g, inScc, start;
      visited, path := {}, [];
    }

    /** True: the path is a cycle through the start. False: the path is as before, and every node visited on the way
        is a dead end. */
    method Dfs(curr: string) returns (found: bool)
      requires curr in inScc && curr !in visited && visited <= inScc && (path == [] ==> curr == start)
      requires Leads(g, path + [curr], start)
      modifies this
      ensures found ==> IsCycle(g, path)
      ensures !found ==> path == old(path) && curr in visited && old(visited) <= visited <= inScc
      ensures !found ==> forall x :: x in visited - old(visited) ==> DeadEnd(g, inScc, start, visited, x)
      decreases inScc - visited, 0
    {
      path := path + [curr];
      visited := visited + {curr};
      var neighbors := ListNeighbors(g, curr);
      for i := 0 to |neighbors|
        invariant path == old(path) + [curr] && old(visited) + {curr} <= visited <= inScc
        invariant forall x :: x in visited - old(visited) - {curr} ==> DeadEnd(g, inScc, start, visited, x)
        invariant forall k :: 0 <= k < i ==> Tried(inScc, start, visited, curr, neighbors[k])
      {
        ghost var before := visited;
        found := Try(curr, neighbors[i]);
        if found { return true; }
        DeadEndsStay(g, inScc, start, before, visited);
      }
      AllTried(g, inScc, start, visited, curr, neighbors);
      path := path[..|path| - 1];
      return false;
    }

    method Try(curr: string, neighbor: string) returns (found: bool)
      requires neighbor in NeighborSet(g, curr) && curr in visited && visited <= inScc
      requires path != [] && path[|path| - 1] == curr && Leads(g, path, start)
      modifies this
      ensures found ==> IsCycle(g, path)
      ensures !found ==> path == old(path) && old(visited) <= visited <= inScc
      ensures !found ==> Tried(inScc, start, visited, curr, neighbor)
      ensures !found ==> forall x :: x in visited - old(visited) ==> DeadEnd(g, inScc, start, visited, x)
      decreases inScc - visited, 1
    {
      if neighbor == curr || neighbor !in inScc { return false; }
      Onward(g, path, curr, neighbor, start);
      if neighbor == start {
        path := path + [start];
        return true;
      }
      found := false;
      if neighbor !in visited { found := Dfs(neighbor); }
    }
  }

  /** A walk from the start. */
  ghost predicate Leads(g: Graph, w: seq<string>, start: string) { w != [] && w[0] == start && IsWalk(g, w) }

  lemma Onward(g: Graph, w: seq<string>, curr: string, n: string, start: string)
    requires Leads(g, w, start) && w[|w| - 1] == curr && n in NeighborSet(g, curr) && n != curr
    ensures Leads(g, w + [n], start) && (n == start ==> IsCycle(g, w + [n]))
  {
    var u := w + [n];
    forall i | 0 <= i < |u| - 1 ensures u[i + 1] in NeighborSet(g, u[i]) {
      if i < |w| - 1 { assert u[i] == w[i] && u[i + 1] == w[i + 1]; }
    }
    assert u[|w| - 1] == curr;
  }

  /** An edge that leads neither back to the start nor to a node of the component not visited yet. */
  predicate Tried(inScc: set<string>, start: string, visited: set<string>, x: string, n: string) {
    n == x || n !in inScc || (n != start && n in visited)
  }

  ghost predicate DeadEnd(g: Graph, inScc: set<string>, start: string, visited: set<string>, x: string) {
    forall n :: n in NeighborSet(g, x) ==> Tried(inScc, start, visited, x, n)
  }

  lemma DeadEndsStay(g: Graph, inScc: set<string>, start: string, before: set<string>, visited: set<string>)
    requires before <= visited
    ensures forall x :: DeadEnd(g, inScc, start, before, x) ==> DeadEnd(g, inScc, start, visited, x)
    ensures forall x, n :: Tried(inScc, start, before, x, n) ==> Tried(inScc, start, visited, x, n)
  {
  }

  lemma AllTried(g: Graph, inScc: set<string>, start: string, visited: set<string>, x: string, ns: seq<string>)
    requires Elems(ns) == NeighborSet(g, x) && forall k :: 0 <= k < |ns| ==> Tried(inScc, start, visited, x, ns[k])
    ensures DeadEnd(g, inScc, start, visited, x)
  {
    forall n | n in NeighborSet(g, x) ensures Tried(inScc, start, visited, x, n) {
      assert n in Elems(ns);
      var k :| 0 <= k < |ns| && ns[k] == n;
    }
  }

  /** Every node of a walk within a component belongs to it. */
  lemma WalkInComponent(g: Graph, c: seq<string>, w: seq<string>, i: nat)
    requires IsComponent(g, c) && IsCycle(g, w) && w[0] in c && i < |w|
    ensures w[i] in c
  {
    assert WalkFrom(g, w[..i + 1], w[0], w[i]);
    assert WalkFrom(g, w[i..], w[i], w[0]);
    assert Mutual(g, w[0], w[i]);
  }

  /** Dead ends do not lead back to the start. */
  lemma {:induction false} NoWayBack(g: Graph, c: seq<string>, start: string, visited: set<string>,
                                     w: seq<string>, i: nat)
    requires IsComponent(g, c) && IsCycle(g, w) && w[0] == start && start in c && i < |w|
    requires start in visited && forall x :: x in visited ==> DeadEnd(g, Elems(c), start, visited, x)
    ensures w[i] in visited && ((exists j :: 0 <= j <= i && w[j] != start) ==> w[i] != start)
    decreases i
  {
    if i > 0 {
      NoWayBack(g, c, start, visited, w, i - 1);
      WalkInComponent(g, c, w, i);
      assert w[i] in NeighborSet(g, w[i - 1]);
      assert Tried(Elems(c), start, visited, w[i - 1], w[i]);
    }
  }

  lemma CycleThrough(g: Graph, c: seq<string>) returns (w: seq<string>)
    requires IsComponent(g, c) && |c| > 1
    ensures IsCycle(g, w) && w[0] == c[0]
  {
    assert c[0] in c && c[1] in c;
    w := MutualMeansCycle(g, c[0], c[1]);
  }

  /** The search from the first member of a component with several always comes back with a cycle. */
  method FindCycleInSCC(g: Graph, scc: seq<string>) returns (cycle: seq<string>)
    requires IsComponent(g, scc) && |scc| > 1
    ensures IsCycle(g, cycle)
  {
    var inScc := set n | n in scc;
    var finder := new CycleFinder(g, inScc, scc[0]);
    assert [] + [scc[0]] == [scc[0]];
    var found := finder.Dfs(scc[0]);
    ghost var w := CycleThrough(g, scc);
    if !found {
      assert inScc == Elems(scc);
      NoWayBack(g, scc, scc[0], finder.visited, w, |w| - 1);
      assert false;
    }
    return finder.path;
  }
}
