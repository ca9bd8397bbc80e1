/**
 The order in which the search follows edges: the one listed first comes first. It decides which
 of several cycles through the same closing edge is reported.
 */
module CycleOrder {
  import opened CycleTrace
  import opened RelationGraph
  import opened Sequences
  import opened Sorting
  import opened Text

  // ---------------------------------------------------------------- records stay in place

  lemma {:induction false} VisitGrows(g: Graph, s: Search, node: string)
    requires node in Nodes(g)
    ensures s.cycles <= Visit(g, s, node).cycles
    decreases Nodes(g) - s.visiting, 0
  {
    if node !in s.visited && node !in s.visiting {
      VisitAllGrows(g, s.(visiting := s.visiting + {node}, stack := s.stack + [node]), TargetsOf(g, node), 0);
    }
  }

  lemma {:induction false} VisitAllGrows(g: Graph, s: Search, targets: seq<string>, n: nat)
    requires (forall t :: t in targets ==> t in Nodes(g)) && n <= |targets|
    ensures VisitAll(g, s, targets[..n]).cycles <= VisitAll(g, s, targets).cycles
    ensures s.cycles <= VisitAll(g, s, targets).cycles
    decreases Nodes(g) - s.visiting, 1 + |targets|
  {
    if targets != [] {
      var front := targets[..|targets| - 1];
      VisitGrows(g, VisitAll(g, s, front), Last(targets));
      if n < |targets| {
        VisitAllGrows(g, s, front, n);
        assert front[..n] == targets[..n];
      } else {
        VisitAllGrows(g, s, front, 0);
        assert targets[..n] == targets;
      }
    }
  }

  lemma FirstTargetFirst(g: Graph, s: Search, targets: seq<string>)
    requires (forall t :: t in targets ==> t in Nodes(g)) && targets != []
    ensures Visit(g, s, targets[0]).cycles <= VisitAll(g, s, targets).cycles
  {
    VisitAllGrows(g, s, targets, 1);
    assert targets[..1] == [targets[0]] && [targets[0]][..0] == [];
    assert VisitAll(g, s, []) == s;
  }

  // ---------------------------------------------------------------- the first cycle recorded

  /** The edge from u to v is listed before all others that leave u. */
  ghost predicate FirstEdge(edges: seq<Edge>, u: string, v: string) {
    exists i :: 0 <= i < |edges| && edges[i] == Edge(u, v) && Kept(edges[i])
                && forall j :: 0 <= j < i ==> !KeptFrom(u)(edges[j])
  }

  /** From the first node on, always along the edge listed first, no node twice. */
  ghost predicate FirstPath(edges: seq<Edge>, p: seq<string>) {
    p != [] && Distinct(p) && forall i :: 0 <= i < |p| - 1 ==> FirstEdge(edges, p[i], p[i + 1])
  }

  lemma FirstEdgeIsFirstTarget(edges: seq<Edge>, u: string, v: string)
    requires FirstEdge(edges, u, v)
    ensures var targets := TargetsOf(GraphOf(edges), u); targets != [] && targets[0] == v
  {
    TargetsOfGraph(edges, u);
    TargetsInEdgeOrder(edges, u);
    var i: nat :| i < |edges| && edges[i] == Edge(u, v) && Kept(edges[i])
                  && forall j :: 0 <= j < i ==> !KeptFrom(u)(edges[j]);
    var targets := Targets(edges, u);
    var places: seq<nat> :| ArePlaces(edges, KeptFrom(u), places) && ReadsOff(edges, ToNode, places, targets);
    assert KeptFrom(u)(edges[i]) && i in places;
    assert KeptFrom(u)(edges[places[0]]);
  }

  /** The search has come along the path to its i-th node, and has finished none of its nodes. */
  ghost predicate Arrived(s: Search, p: seq<string>, i: nat) {
    && i <= |p| && s.stack == p[..i] && (forall x :: x in s.visiting <==> x in p[..i])
    && forall x :: x in p ==> x !in s.visited
  }

  lemma PathNotVisited(s: Search, p: seq<string>, i: nat)
    requires Arrived(s, p, i) && i < |p| && Distinct(p)
    ensures p[i] !in s.visited && p[i] !in s.visiting
    ensures Arrived(s.(visiting := s.visiting + {p[i]}, stack := s.stack + [p[i]]), p, i + 1)
  {
    assert p[..i + 1] == p[..i] + [p[i]];
  }

  lemma {:induction false} PathIsFollowed(edges: seq<Edge>, s: Search, p: seq<string>, i: nat, k: nat)
    requires FirstPath(edges, p) && i < |p| && k < |p| && FirstEdge(edges, Last(p), p[k])
    requires Arrived(s, p, i)
    ensures p[i] in Nodes(GraphOf(edges)) && s.cycles + [p[k..]] <= Visit(GraphOf(edges), s, p[i]).cycles
    decreases |p| - i
  {
    var g, node := GraphOf(edges), p[i];
    FirstEdgeIsFirstTarget(edges, node, if i + 1 < |p| then p[i + 1] else p[k]);
    PathNotVisited(s, p, i);
    var entered := s.(visiting := s.visiting + {node}, stack := s.stack + [node]);
    FirstTargetFirst(g, entered, TargetsOf(g, node));
    if i + 1 < |p| {
      PathIsFollowed(edges, entered, p, i + 1, k);
    } else {
      assert p[..i + 1] == p;
      SuffixAt(p, p[k], k);
    }
  }

  /**
   From the first key visited, always along the edge listed first: the cycle that this closes is
   the first one recorded, and it is reported.
   */
  lemma FirstEdgesFirst(edges: seq<Edge>, keys: seq<string>, p: seq<string>, k: nat)
    requires ListsKeys(GraphOf(edges), keys) && FirstRound(edges, keys, p, k)
    ensures var found := VisitAll(GraphOf(edges), IDLE, keys).cycles; found != [] && found[0] == p[k..]
    ensures p[k..] in ReportOf(GraphOf(edges), keys)
  {
    var g := GraphOf(edges);
    var found := VisitAll(g, IDLE, keys).cycles;
    PathIsFollowed(edges, IDLE, p, 0, k);
    FirstTargetFirst(g, IDLE, keys);
    assert ([] + [p[k..]])[0] == p[k..];
    assert found[0] == p[k..] && p[k..] in found;
    SortKeepsEntries(NotLonger, found);
    DedupKeepsEntries(Sort(NotLonger, found));
  }

  /** From the first key on, always along the edge listed first, and from the end back to the k-th node. */
  ghost predicate FirstRound(edges: seq<Edge>, keys: seq<string>, p: seq<string>, k: nat) {
    keys != [] && FirstPath(edges, p) && keys[0] == p[0] && k < |p| && FirstEdge(edges, Last(p), p[k])
  }

  /** The cycle closed in this way is reported. */
  ghost predicate FollowsFirstEdges(edges: seq<Edge>, keys: seq<string>, cycles: seq<seq<string>>) {
    forall p, k: nat :: FirstRound(edges, keys, p, k) ==> p[k..] in cycles
  }

  lemma ReportFollowsFirstEdges(edges: seq<Edge>, keys: seq<string>)
    requires ListsKeys(GraphOf(edges), keys)
    ensures FollowsFirstEdges(edges, keys, ReportOf(GraphOf(edges), keys))
  {
    forall p, k: nat | FirstRound(edges, keys, p, k) ensures p[k..] in ReportOf(GraphOf(edges), keys) {
      FirstEdgesFirst(edges, keys, p, k);
    }
  }

  /** Cycles of one length are sorted into the order in which they were recorded. */
  lemma EqualLengthsStayInOrder(found: seq<seq<string>>, n: nat)
    ensures Keeping((c: seq<string>) => |c| == n, Sort(NotLonger, found))
         == Keeping((c: seq<string>) => |c| == n, found)
  {
    SortIsStable(NotLonger, (c: seq<string>) => |c| == n, found);
  }

  // ---------------------------------------------------------------- two ways round

  predicate FourNodes(a: string, b: string, c: string, d: string) {
    a != b && a != c && a != d && b != c && b != d && c != d
  }

  /** From a to d by way of b, and by way of c, and from d back to a. */
  function TwoWays(a: string, b: string, c: string, d: string): seq<Edge> {
    [Edge(a, b), Edge(b, d), Edge(d, a), Edge(a, c), Edge(c, d)]
  }

  lemma TwoWaysFirst(a: string, b: string, c: string, d: string)
    requires FourNodes(a, b, c, d) && !IsBlank(a) && !IsBlank(b) && !IsBlank(d)
    ensures FirstPath(TwoWays(a, b, c, d), [a, b, d]) && FirstEdge(TwoWays(a, b, c, d), d, a)
  {
    var e := TwoWays(a, b, c, d);
    assert e[0] == Edge(a, b) && e[1] == Edge(b, d) && e[2] == Edge(d, a);
    assert FirstEdge(e, a, b) && FirstEdge(e, b, d) && FirstEdge(e, d, a);
  }

  function TargetIn(u: string, e: Edge): seq<string> {
    if KeptFrom(u)(e) then [e.toNode] else []
  }

  lemma TargetsNext(edges: seq<Edge>, n: nat, u: string)
    requires n < |edges|
    ensures Targets(edges[..n + 1], u) == Targets(edges[..n], u) + TargetIn(u, edges[n])
  {
    assert edges[..n + 1][..n] == edges[..n];
  }

  /** The targets of u along a list of five edges, one after the other. */
  lemma FiveTargets(e: seq<Edge>, u: string)
    requires |e| == 5
    ensures Targets(e, u) ==
            TargetIn(u, e[0]) + TargetIn(u, e[1]) + TargetIn(u, e[2]) + TargetIn(u, e[3]) + TargetIn(u, e[4])
  {
    TargetsNext(e, 0, u);
    TargetsNext(e, 1, u);
    TargetsNext(e, 2, u);
    TargetsNext(e, 3, u);
    TargetsNext(e, 4, u);
    assert e[..0] == [] && e[..5] == e;
    assert [] + TargetIn(u, e[0]) == TargetIn(u, e[0]);
  }

  /** The adjacency lists of the two ways round. */
  ghost predicate LeadsTwoWays(g: Graph, a: string, b: string, c: string, d: string) {
    && TargetsOf(g, a) == [b, c] && TargetsOf(g, b) == [d] && TargetsOf(g, c) == [d] && TargetsOf(g, d) == [a]
  }

  lemma TwoWaysFrom(a: string, b: string, c: string, d: string, u: string)
    requires !IsBlank(a) && !IsBlank(b) && !IsBlank(c) && !IsBlank(d)
    ensures TargetsOf(GraphOf(TwoWays(a, b, c, d)), u) ==
            (if u == a then [b] else []) + (if u == b then [d] else []) + (if u == d then [a] else []) +
            (if u == a then [c] else []) + if u == c then [d] else []
  {
    var e := TwoWays(a, b, c, d);
    FiveTargets(e, u);
    TargetsOfGraph(e, u);
  }

  lemma TwoWaysTargets(a: string, b: string, c: string, d: string)
    requires FourNodes(a, b, c, d) && !IsBlank(a) && !IsBlank(b) && !IsBlank(c) && !IsBlank(d)
    ensures LeadsTwoWays(GraphOf(TwoWays(a, b, c, d)), a, b, c, d)
  {
    TwoWaysFrom(a, b, c, d, a);
    TwoWaysFrom(a, b, c, d, b);
    TwoWaysFrom(a, b, c, d, c);
    TwoWaysFrom(a, b, c, d, d);
  }

  lemma TargetsAreNodes(g: Graph, u: string)
    requires TargetsOf(g, u) != []
    ensures u in Nodes(g)
  {
  }

  /** Where all keys have been finished, no visit changes anything. */
  lemma {:induction false} FinishedKeys(g: Graph, s: Search, keys: seq<string>)
    requires forall k :: k in keys ==> k in Nodes(g) && k in s.visited
    ensures VisitAll(g, s, keys) == s
  {
    if keys != [] {
      FinishedKeys(g, s, keys[..|keys| - 1]);
    }
  }

  lemma {:induction false} VisitAllSplit(g: Graph, s: Search, first: seq<string>, second: seq<string>)
    requires (forall t :: t in first ==> t in Nodes(g)) && forall t :: t in second ==> t in Nodes(g)
    ensures VisitAll(g, s, first + second) == VisitAll(g, VisitAll(g, s, first), second)
  {
    if second == [] {
      assert first + second == first;
    } else {
      assert (first + second)[..|first + second| - 1] == first + second[..|second| - 1];
      VisitAllSplit(g, s, first, second[..|second| - 1]);
    }
  }

  lemma VisitOnly(g: Graph, s: Search, t: string)
    requires t in Nodes(g)
    ensures VisitAll(g, s, [t]) == Visit(g, s, t)
  {
    assert [t][..0] == [] && VisitAll(g, s, []) == s;
  }

  lemma VisitTwo(g: Graph, s: Search, t: string, u: string)
    requires t in Nodes(g) && u in Nodes(g)
    ensures VisitAll(g, s, [t, u]) == Visit(g, Visit(g, s, t), u)
  {
    assert [t, u][..1] == [t];
    VisitOnly(g, s, t);
  }

  /** The way by b closes the cycle; on the way by c everything has been finished. */
  lemma TwoWaysSearch(g: Graph, a: string, b: string, c: string, d: string)
    requires FourNodes(a, b, c, d) && LeadsTwoWays(g, a, b, c, d)
    ensures a in Nodes(g) && Visit(g, IDLE, a) == Search({}, {a, b, c, d}, [], [[a, b, d]])
  {
    TargetsAreNodes(g, a);
    TargetsAreNodes(g, b);
    TargetsAreNodes(g, c);
    TargetsAreNodes(g, d);
    var onA, onB, onD := Search({a}, {}, [a], []), Search({a, b}, {}, [a, b], []),
                         Search({a, b, d}, {}, [a, b, d], []);
    VisitOnly(g, onD, a);
    assert Visit(g, onD, a) == onD.(cycles := [[a, b, d]]);
    VisitOnly(g, onB, d);
    assert onB.(visiting := onB.visiting + {d}, stack := onB.stack + [d]) == onD;
    var afterD := Search({a, b}, {d}, [a, b], [[a, b, d]]);
    assert Visit(g, onB, d) == afterD;
    assert onA.(visiting := onA.visiting + {b}, stack := onA.stack + [b]) == onB;
    var afterB := Search({a}, {b, d}, [a], [[a, b, d]]);
    assert Visit(g, onA, b) == afterB;
    var onC := Search({a, c}, {b, d}, [a, c], [[a, b, d]]);
    VisitOnly(g, onC, d);
    assert afterB.(visiting := afterB.visiting + {c}, stack := afterB.stack + [c]) == onC;
    var afterC := Search({a}, {b, c, d}, [a], [[a, b, d]]);
    assert Visit(g, afterB, c) == afterC;
    VisitTwo(g, onA, b, c);
    assert IDLE.(visiting := {} + {a}, stack := [] + [a]) == onA;
    assert {b, c, d} + {a} == {a, b, c, d};
  }

  lemma FirstKeyFinishesAll(g: Graph, keys: seq<string>)
    requires keys != [] && keys[0] in Nodes(g)
    requires forall k :: k in keys ==> k in Nodes(g) && k in Visit(g, IDLE, keys[0]).visited
    ensures VisitAll(g, IDLE, keys) == Visit(g, IDLE, keys[0])
  {
    assert keys == [keys[0]] + keys[1..];
    VisitAllSplit(g, IDLE, [keys[0]], keys[1..]);
    VisitOnly(g, IDLE, keys[0]);
    FinishedKeys(g, Visit(g, IDLE, keys[0]), keys[1..]);
  }

  lemma TwoWaysKeys(a: string, b: string, c: string, d: string, k: string)
    requires k in GraphOf(TwoWays(a, b, c, d))
    ensures k in {a, b, c, d}
  {
    var e := TwoWays(a, b, c, d);
    var i :| 0 <= i < |e| && Kept(e[i]) && e[i].fromNode == k;
    assert e[i] in {Edge(a, b), Edge(b, d), Edge(d, a), Edge(a, c), Edge(c, d)};
  }

  lemma OnlyOneReport(c: seq<string>)
    ensures Dedup(Sort(NotLonger, [c])) == [c]
  {
    assert [c][..0] == [];
    assert Sort(NotLonger, [c]) == [c];
  }

  /**
   With a visited first, the cycle by way of b is the whole report: its first edge is listed before
   that of the cycle by way of c.
   */
  lemma FirstWayIsReported(a: string, b: string, c: string, d: string, keys: seq<string>)
    requires FourNodes(a, b, c, d) && !IsBlank(a) && !IsBlank(b) && !IsBlank(c) && !IsBlank(d)
    requires ListsKeys(GraphOf(TwoWays(a, b, c, d)), keys) && keys != [] && keys[0] == a
    ensures ReportOf(GraphOf(TwoWays(a, b, c, d)), keys) == [[a, b, d]]
  {
    var g := GraphOf(TwoWays(a, b, c, d));
    TwoWaysTargets(a, b, c, d);
    TwoWaysSearch(g, a, b, c, d);
    forall k | k in keys ensures k in {a, b, c, d} {
      TwoWaysKeys(a, b, c, d, k);
    }
    FirstKeyFinishesAll(g, keys);
    OnlyOneReport([a, b, d]);
  }
}
