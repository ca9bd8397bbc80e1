/**
 Cycle detection over relation edges: a recursive grey/black depth-first search that
 reports, for every edge closing back onto the search stack, the stack suffix it closes.

 The central fact is stronger than "a cycle is found when there is one": the closing
 edges of the reported cycles cut every cycle of the graph.
 */
module RelationCycles {
  import opened CycleOrder
  import opened CycleTrace
  import opened RelationGraph
  import opened Sequences
  import opened Sorting

  // ---------------------------------------------------------------- the search

  class CycleSearch {
    const graph: Graph
    var visiting: set<string>
    var visited: set<string>
    var stack: seq<string>
    var cycles: seq<seq<string>>
    ghost var order: seq<string>  // the visited nodes, in the order they were finished

    constructor (g: Graph)
      ensures graph == g && Valid() && stack == [] && visited == {} && cycles == []
    {
      graph := g;
      visiting, visited, stack, cycles, order := {}, {}, [], [], [];
    }

    /** The state of the search as a value. */
    ghost function View(): Search
      reads this
    {
      Search(visiting, visited, stack, cycles)
    }

    /** Every arc out of a finished node leads to an earlier finished node or closes a cycle. */
    ghost predicate Ordered()
      reads this
    {
      forall i, w :: 0 <= i < |order| && Arc(graph, order[i], w) ==>
        w in order[..i] || Closes(cycles, order[i], w)
    }

    ghost predicate Valid()
      reads this
    {
      && (forall x :: x in visiting <==> x in stack)
      && (forall x :: x in visited <==> x in order)
      && Distinct(stack)
      && IsWalk(graph, stack)
      && visiting !! visited
      && (forall c :: c in cycles ==> IsCycle(graph, c) && Distinct(c))
      && Ordered()
    }

    /** Nothing found so far is forgotten, and the stack is back where it was. */
    twostate predicate Grown()
      reads this
    {
      && stack == old(stack)
      && visiting == old(visiting)
      && old(visited) <= visited
      && old(cycles) <= cycles
      && old(order) <= order
    }

    /** Records the stack suffix that starts at a node the search stands on. */
    method Report(node: string)
      requires Valid() && node in visiting && Arc(graph, Last(stack), node)
      modifies this`cycles
      ensures Valid() && old(cycles) <= cycles
      ensures Closes(cycles, Last(stack), node)
      ensures View() == Reported(old(View()), node)
    {
      var position := 0;
      while stack[position] != node
        invariant 0 <= position < |stack|
        invariant node !in stack[..position]
        decreases |stack| - position
      {
        position := position + 1;
      }
      var cycle := stack[position..];
      SuffixAt(stack, node, position);
      cycles := cycles + [cycle];
      assert cycle in cycles;
      assert IsCycle(graph, cycle);
      assert Distinct(cycle);
      assert forall c :: c in cycles ==> c in old(cycles) || c == cycle;
      ClosesGrows(old(cycles), cycles);
    }

    method Dfs(node: string)
      requires Valid() && node in Nodes(graph)
      requires stack != [] ==> Arc(graph, Last(stack), node)
      modifies this
      ensures Valid() && Grown()
      ensures node in visited || (node in visiting && Closes(cycles, Last(stack), node))
      ensures View() == Visit(graph, old(View()), node)
      decreases Nodes(graph) - visiting, 1
    {
      if node in visited {
        return;
      }
      if node in visiting {
        Report(node);
        return;
      }
      Explore(node);
    }

    /** Enters a node the search meets for the first time, follows its arcs and finishes it. */
    method Explore(node: string)
      requires Valid() && node in Nodes(graph) && node !in visited && node !in visiting
      requires stack != [] ==> Arc(graph, Last(stack), node)
      modifies this
      ensures Valid() && Grown() && node in visited
      ensures View() == Visit(graph, old(View()), node)
      decreases Nodes(graph) - visiting, 0
    {
      Enter(node);
      ghost var entered := View();
      FollowArcs(node);
      ghost var left := View();
      assert left == VisitAll(graph, entered, TargetsOf(graph, node));
      Finish(node);
      assert stack == old(stack);
      assert visiting == old(visiting);
    }

    method FollowArcs(node: string)
      requires Valid() && stack != [] && Last(stack) == node
      modifies this
      ensures Valid() && Grown()
      ensures forall w :: Arc(graph, node, w) ==> w in visited || Closes(cycles, node, w)
      ensures View() == VisitAll(graph, old(View()), TargetsOf(graph, node))
      decreases Nodes(graph) - visiting, 4
    {
      if node in graph {
        VisitTargets(node, graph[node]);
      }
    }

    /** Every target is finished, or the arc to it closes a recorded cycle. */
    ghost predicate ArcsSettled(node: string, targets: seq<string>)
      reads this
    {
      forall w :: w in targets ==> w in visited || Closes(cycles, node, w)
    }

    method VisitTargets(node: string, next: seq<string>)
      requires Valid() && stack != [] && Last(stack) == node
      requires node in graph && next == graph[node]
      modifies this
      ensures Valid() && Grown()
      ensures ArcsSettled(node, next)
      ensures View() == VisitAll(graph, old(View()), TargetsOf(graph, node))
      decreases Nodes(graph) - visiting, 3
    {
      assert next == TargetsOf(graph, node);
      for i := 0 to |next|
        invariant Valid() && Grown()
        invariant View() == VisitAll(graph, old(View()), next[..i])
        invariant ArcsSettled(node, next[..i])
      {
        ghost var before := cycles;
        FollowArc(node, next[i]);
        ClosesGrows(before, cycles);
        assert next[..i + 1] == next[..i] + [next[i]];
        VisitNext(graph, old(View()), next, i);
      }
      assert next[..|next|] == next;
    }

    /** One arc: a report for a target on the stack, and else a visit. */
    method FollowArc(node: string, target: string)
      requires Valid() && stack != [] && Last(stack) == node && Arc(graph, node, target)
      modifies this
      ensures Valid() && Grown()
      ensures target in visited || Closes(cycles, node, target)
      ensures View() == Visit(graph, old(View()), target)
      decreases Nodes(graph) - visiting, 2
    {
      if target in visiting {
        Report(target);
      } else {
        Dfs(target);
      }
    }

    method Enter(node: string)
      requires Valid() && node !in visiting && node !in visited
      requires stack != [] ==> Arc(graph, Last(stack), node)
      modifies this`visiting, this`stack
      ensures Valid() && stack == old(stack) + [node] && visiting == old(visiting) + {node}
    {
      visiting := visiting + {node};
      stack := stack + [node];
    }

    /** Pops the finished node: all its arcs lead to finished nodes or have been reported. */
    method Finish(node: string)
      requires Valid() && stack != [] && Last(stack) == node
      requires forall w :: Arc(graph, node, w) ==> w in visited || Closes(cycles, node, w)
      modifies this
      ensures Valid() && cycles == old(cycles) && order == old(order) + [node]
      ensures stack == old(stack)[..|old(stack)| - 1]
      ensures visiting == old(visiting) - {node} && visited == old(visited) + {node}
    {
      stack := stack[..|stack| - 1];
      visiting := visiting - {node};
      visited := visited + {node};
      order := order + [node];
      assert order[..|order| - 1] == old(order);
      forall i, w | 0 <= i < |order| && Arc(graph, order[i], w)
        ensures w in order[..i] || Closes(cycles, order[i], w)
      {
        if i < |old(order)| {
          assert order[..i] == old(order)[..i];
        }
      }
    }
  }

  lemma ClosesGrows(before: seq<seq<string>>, after: seq<seq<string>>)
    requires before <= after
    ensures forall u, v :: Closes(before, u, v) ==> Closes(after, u, v)
  {
    assert forall c :: c in before ==> c in after;
  }

  // ---------------------------------------------------------------- cutting every cycle

  /** The arcs of `order` that close no reported cycle lead strictly backwards. */
  ghost predicate OrderedBy(g: Graph, cycles: seq<seq<string>>, order: seq<string>) {
    forall i, w :: 0 <= i < |order| && Arc(g, order[i], w) ==>
      w in order[..i] || Closes(cycles, order[i], w)
  }

  /** Along a walk that uses no closing arc, positions in the finishing order fall at every step. */
  lemma {:induction false} WalkDescends(
    g: Graph, cycles: seq<seq<string>>, order: seq<string>, c: seq<string>, n: nat, start: nat) returns (at: nat)
    requires OrderedBy(g, cycles, order)
    requires c != [] && IsWalk(g, c) && n < |c|
    requires start < |order| && order[start] == c[0]
    requires forall i :: 0 <= i < |c| ==> !Closes(cycles, c[i], Successor(c, i))
    ensures at < |order| && order[at] == c[n] && at + n <= start
  {
    if n == 0 {
      at := start;
    } else {
      var before := WalkDescends(g, cycles, order, c, n - 1, start);
      assert Successor(c, n - 1) == c[n];
      assert c[n] in order[..before];
      at :| 0 <= at < before && order[at] == c[n];
    }
  }

  /** Once every node with an arc is finished, each cycle of the graph uses a closing arc. */
  lemma EveryCycleIsCut(g: Graph, cycles: seq<seq<string>>, order: seq<string>, c: seq<string>)
    requires OrderedBy(g, cycles, order)
    requires forall u :: u in g ==> u in order
    requires IsCycle(g, c)
    ensures Cut(cycles, c)
  {
    if !Cut(cycles, c) {
      assert Arc(g, c[0], Successor(c, 0));
      assert c[0] in order;
      var top := FirstIndex(order, c[0]);
      var at := WalkDescends(g, cycles, order, c, |c| - 1, top);
    }
  }

  lemma FirstIndex(order: seq<string>, x: string) returns (i: nat)
    requires x in order
    ensures i < |order| && order[i] == x && x !in order[..i]
  {
    i := 0;
    while order[i] != x
      invariant i < |order| && x !in order[..i]
      decreases |order| - i
    {
      i := i + 1;
    }
  }

  // ---------------------------------------------------------------- ordering the report

  lemma SameEntriesCutAlike(found: seq<seq<string>>, report: seq<seq<string>>, c: seq<string>)
    requires forall d :: d in found ==> d in report
    requires Cut(found, c)
    ensures Cut(report, c)
  {
    var i :| 0 <= i < |c| && Closes(found, c[i], Successor(c, i));
    assert Closes(report, c[i], Successor(c, i));
  }

  lemma EmptyReportMeansAcyclic(edges: seq<Edge>, report: seq<seq<string>>)
    requires Sound(edges, report) && Complete(edges, report)
    ensures report == [] <==> Acyclic(edges)
  {
    if report != [] {
      assert IsEdgeCycle(edges, report[0]);
    } else {
      forall c ensures !IsEdgeCycle(edges, c) {
        assert !Cut(report, c);
      }
    }
  }

  // ---------------------------------------------------------------- the whole detection

  /**
   The keys are visited in any order (`:|` leaves the choice open), as iteration over a
   hash map does.
   */
  method SearchAll(graph: Graph)
    returns (found: seq<seq<string>>, ghost order: seq<string>, ghost keys: seq<string>)
    ensures forall c :: c in found ==> IsCycle(graph, c) && Distinct(c)
    ensures OrderedBy(graph, found, order)
    ensures forall u :: u in graph ==> u in order
    ensures ListsKeys(graph, keys) && found == VisitAll(graph, IDLE, keys).cycles
  {
    var search := new CycleSearch(graph);
    var pending := graph.Keys;
    keys := [];
    while pending != {}
      invariant search.graph == graph && search.Valid() && search.stack == []
      invariant forall u :: u in graph ==> u in pending || u in search.visited
      invariant pending <= graph.Keys && Distinct(keys) && forall u :: u in keys <==> u in graph.Keys - pending
      invariant search.View() == VisitAll(graph, IDLE, keys)
    {
      var node :| node in pending;
      search.Dfs(node);
      pending := pending - {node};
      VisitSnoc(graph, IDLE, keys, node);
      DistinctSnoc(keys, node);
      keys := keys + [node];
    }
    found, order := search.cycles, search.order;
  }

  /** `keys` is the order in which the keys of the graph were visited. */
  method DetectRelationCycles(edges: seq<Edge>) returns (cycles: seq<seq<string>>, ghost keys: seq<string>)
    ensures Sound(edges, cycles)
    ensures Complete(edges, cycles)
    ensures cycles == [] <==> Acyclic(edges)
    ensures SortedBy(NotLonger, cycles) && NoAdjacentRepeat(cycles)
    ensures NoCycleEdgeTwice(edges) ==> Distinct(cycles)
    ensures ListsKeys(GraphOf(edges), keys) && cycles == ReportOf(GraphOf(edges), keys)
    ensures FollowsFirstEdges(edges, keys, cycles)
  {
    var graph := BuildGraph(edges);
    var found; ghost var order;
    found, order, keys := SearchAll(graph);
    cycles := Dedup(Sort(NotLonger, found));
    ReportHolds(edges, graph, found, order);
    OrderHolds(edges, keys);
  }

  /** What follows from the order in which the keys were visited. */
  lemma OrderHolds(edges: seq<Edge>, keys: seq<string>)
    requires ListsKeys(GraphOf(edges), keys)
    ensures var cycles := ReportOf(GraphOf(edges), keys);
            && FollowsFirstEdges(edges, keys, cycles) && (NoCycleEdgeTwice(edges) ==> Distinct(cycles))
  {
    ReportFollowsFirstEdges(edges, keys);
    if NoCycleEdgeTwice(edges) {
      UnrepeatedEdgesUnrepeatedReport(edges, keys);
    }
  }

  lemma ReportHolds(edges: seq<Edge>, g: Graph, found: seq<seq<string>>, order: seq<string>)
    requires Represents(g, edges) && OrderedBy(g, found, order)
    requires forall c :: c in found ==> IsCycle(g, c) && Distinct(c)
    requires forall u :: u in g ==> u in order
    ensures var cycles := Dedup(Sort(NotLonger, found));
            && Sound(edges, cycles) && Complete(edges, cycles) && (cycles == [] <==> Acyclic(edges))
            && SortedBy(NotLonger, cycles) && NoAdjacentRepeat(cycles)
  {
    var cycles := Dedup(Sort(NotLonger, found));
    OrderedReport(found);
    assert Sound(edges, cycles) by { ReportIsSound(edges, g, found, cycles); }
    assert Complete(edges, cycles) by { ReportIsComplete(edges, g, found, order, cycles); }
    EmptyReportMeansAcyclic(edges, cycles);
  }

  lemma OrderedReport(found: seq<seq<string>>)
    ensures var report := Dedup(Sort(NotLonger, found));
            && (forall c :: c in report <==> c in found)
            && SortedBy(NotLonger, report) && NoAdjacentRepeat(report)
  {
    SortOrders(NotLonger, found);
    SortKeepsEntries(NotLonger, found);
    DedupKeepsEntries(Sort(NotLonger, found));
    DedupKeepsOrder(NotLonger, Sort(NotLonger, found));
  }

  lemma ReportIsSound(edges: seq<Edge>, g: Graph, found: seq<seq<string>>, report: seq<seq<string>>)
    requires Represents(g, edges)
    requires forall c :: c in found ==> IsCycle(g, c) && Distinct(c)
    requires forall c :: c in report ==> c in found
    ensures Sound(edges, report)
  {
    forall c | c in report ensures IsEdgeCycle(edges, c) && Distinct(c) {
      EdgeCycleIsCycle(g, edges, c);
    }
  }

  lemma ReportIsComplete(
    edges: seq<Edge>, g: Graph, found: seq<seq<string>>, order: seq<string>, report: seq<seq<string>>)
    requires Represents(g, edges) && OrderedBy(g, found, order)
    requires forall u :: u in g ==> u in order
    requires forall c :: c in found ==> c in report
    ensures Complete(edges, report)
  {
    forall c | IsEdgeCycle(edges, c) ensures Cut(report, c) {
      EdgeCycleIsCycle(g, edges, c);
      EveryCycleIsCut(g, found, order, c);
      SameEntriesCutAlike(found, report, c);
    }
  }

  lemma EdgeCycleIsCycle(g: Graph, edges: seq<Edge>, c: seq<string>)
    requires Represents(g, edges)
    ensures IsEdgeCycle(edges, c) <==> IsCycle(g, c)
  {
    assert forall u, v :: Arc(g, u, v) <==> HasEdge(edges, u, v);
  }
}
