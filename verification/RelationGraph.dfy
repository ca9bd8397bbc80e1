/** Relation edges as a graph: adjacency lists, walks and cycles. */
module RelationGraph {
  import opened Sequences
  import opened Spelling
  import opened Text

  datatype Edge = Edge(fromNode: string, toNode: string)

  /** Adjacency lists, in edge order. */
  type Graph = map<string, seq<string>>

  // ---------------------------------------------------------------- graph vocabulary

  /** Edges with a blank endpoint are skipped. */
  predicate Kept(e: Edge) {
    !IsBlank(e.fromNode) && !IsBlank(e.toNode)
  }

  ghost predicate HasEdge(edges: seq<Edge>, u: string, v: string) {
    Edge(u, v) in edges && Kept(Edge(u, v))
  }

  predicate Arc(g: Graph, u: string, v: string) {
    u in g && v in g[u]
  }

  ghost predicate Represents(g: Graph, edges: seq<Edge>) {
    forall u, v :: Arc(g, u, v) <==> HasEdge(edges, u, v)
  }

  /** Consecutive nodes are joined by arcs. */
  ghost predicate IsWalk(g: Graph, p: seq<string>) {
    forall i :: 0 <= i < |p| - 1 ==> Arc(g, p[i], p[i + 1])
  }

  ghost predicate IsCycle(g: Graph, c: seq<string>) {
    c != [] && IsWalk(g, c) && Arc(g, Last(c), c[0])
  }

  /** The same notion on the edge list, without the adjacency map. */
  ghost predicate IsEdgeCycle(edges: seq<Edge>, c: seq<string>) {
    && c != []
    && (forall i :: 0 <= i < |c| - 1 ==> HasEdge(edges, c[i], c[i + 1]))
    && HasEdge(edges, Last(c), c[0])
  }

  ghost predicate Acyclic(edges: seq<Edge>) {
    forall c :: !IsEdgeCycle(edges, c)
  }

  /** The arc u -> v closes one of the reported cycles. */
  ghost predicate Closes(cycles: seq<seq<string>>, u: string, v: string) {
    exists c :: c in cycles && c != [] && Last(c) == u && c[0] == v
  }

  /** The arc leaving position i of a cycle, wrapping around at the end. */
  function Successor(c: seq<string>, i: nat): string
    requires i < |c|
  {
    if i + 1 < |c| then c[i + 1] else c[0]
  }

  /** Some arc of c closes a reported cycle. */
  ghost predicate Cut(cycles: seq<seq<string>>, c: seq<string>) {
    exists i :: 0 <= i < |c| && Closes(cycles, c[i], Successor(c, i))
  }

  /** Every reported list is a simple cycle of the edge list. */
  ghost predicate Sound(edges: seq<Edge>, cycles: seq<seq<string>>) {
    forall c :: c in cycles ==> IsEdgeCycle(edges, c) && Distinct(c)
  }

  /** Removing the closing arcs of the reported cycles leaves no cycle. */
  ghost predicate Complete(edges: seq<Edge>, cycles: seq<seq<string>>) {
    forall c :: IsEdgeCycle(edges, c) ==> Cut(cycles, c)
  }

  function Nodes(g: Graph): set<string> {
    g.Keys + (set u, v | u in g && v in g[u] :: v)
  }

  // ---------------------------------------------------------------- graph construction

  /** The targets of u, in edge order. */
  function Targets(edges: seq<Edge>, u: string): seq<string> {
    if edges == [] then []
    else
      var e := Last(edges);
      Targets(edges[..|edges| - 1], u) + if Kept(e) && e.fromNode == u then [e.toNode] else []
  }

  lemma {:induction false} TargetsAreEdges(edges: seq<Edge>, u: string, v: string)
    ensures v in Targets(edges, u) <==> HasEdge(edges, u, v)
  {
    if edges != [] {
      TargetsAreEdges(edges[..|edges| - 1], u, v);
      assert edges == edges[..|edges| - 1] + [Last(edges)];
    }
  }

  function KeptFrom(u: string): Edge -> bool {
    (e: Edge) => Kept(e) && e.fromNode == u
  }

  function ToNode(e: Edge): string {
    e.toNode
  }

  /** The targets of exactly the kept edges from u, in the order in which these are listed. */
  ghost predicate InEdgeOrder(edges: seq<Edge>, u: string, targets: seq<string>) {
    IsSelection(edges, KeptFrom(u), ToNode, targets)
  }

  lemma {:induction false} TargetsInEdgeOrder(edges: seq<Edge>, u: string)
    ensures InEdgeOrder(edges, u, Targets(edges, u))
  {
    if edges == [] {
      NothingSelected(KeptFrom(u), ToNode);
    } else {
      var front, e := edges[..|edges| - 1], Last(edges);
      TargetsInEdgeOrder(front, u);
      SelectionSnoc(front, e, KeptFrom(u), ToNode, Targets(front, u));
      assert edges == front + [e];
    }
  }

  /** The adjacency lists as a function of the edges: a node is a key when it has a target. */
  function GraphOf(edges: seq<Edge>): Graph {
    map u | u in Sources(edges) :: Targets(edges, u)
  }

  function Sources(edges: seq<Edge>): set<string> {
    set i | 0 <= i < |edges| && Kept(edges[i]) :: edges[i].fromNode
  }

  lemma SourcesHaveTargets(edges: seq<Edge>, u: string)
    ensures u in Sources(edges) <==> Targets(edges, u) != []
  {
    if u in Sources(edges) {
      var i :| 0 <= i < |edges| && Kept(edges[i]) && edges[i].fromNode == u;
      TargetsAreEdges(edges, u, edges[i].toNode);
      assert edges[i] == Edge(u, edges[i].toNode);
    }
    if Targets(edges, u) != [] {
      var v := Targets(edges, u)[0];
      TargetsAreEdges(edges, u, v);
      var i :| 0 <= i < |edges| && edges[i] == Edge(u, v);
    }
  }

  lemma GraphHolds(edges: seq<Edge>)
    ensures var g := GraphOf(edges);
            && Represents(g, edges)
            && (forall u :: InEdgeOrder(edges, u, if u in g then g[u] else []))
            && (forall u, v :: Arc(g, u, v) ==> Trim(u) != "" && Trim(v) != "")
  {
    var g := GraphOf(edges);
    forall u ensures InEdgeOrder(edges, u, if u in g then g[u] else []) {
      SourcesHaveTargets(edges, u);
      TargetsInEdgeOrder(edges, u);
    }
    forall u, v ensures Arc(g, u, v) <==> HasEdge(edges, u, v) {
      SourcesHaveTargets(edges, u);
      TargetsAreEdges(edges, u, v);
    }
    forall u, v | Arc(g, u, v) ensures Trim(u) != "" && Trim(v) != "" {
      BlankIffTrimmedAway(u);
      BlankIffTrimmedAway(v);
    }
  }

  /** For each node the targets of its edges, those with a blank endpoint left out, as they are listed. */
  method BuildGraph(edges: seq<Edge>) returns (g: Graph)
    ensures g == GraphOf(edges)
    ensures Represents(g, edges)
    ensures forall u :: InEdgeOrder(edges, u, if u in g then g[u] else [])
    ensures forall u, v :: Arc(g, u, v) ==> Trim(u) != "" && Trim(v) != ""
  {
    g := map[];
    for i := 0 to |edges|
      invariant forall u :: u in g ==> g[u] == Targets(edges[..i], u) && g[u] != []
      invariant forall u :: u !in g ==> Targets(edges[..i], u) == []
    {
      assert edges[..i + 1][..i] == edges[..i];
      var e := edges[i];
      if IsBlank(e.fromNode) || IsBlank(e.toNode) {
        continue;
      }
      var sofar := if e.fromNode in g then g[e.fromNode] else [];
      g := g[e.fromNode := sofar + [e.toNode]];
    }
    assert edges[..|edges|] == edges;
    forall u ensures u in g <==> u in Sources(edges) {
      SourcesHaveTargets(edges, u);
    }
    GraphHolds(edges);
  }
}
