/** Direct and transitive dependents of a node, in a graph that lists for each source what it depends on. */
module Dependents {
  import opened RelationGraph
  import opened Sequences
  import opened Sorting
  import opened Text

  /** p runs along dependencies, from its first node to one that depends on the target. */
  ghost predicate IsChain(edges: Graph, p: seq<string>, target: string) {
    p != [] && IsWalk(edges, p) && Arc(edges, Last(p), target)
  }

  /** There is a dependency path of length at least one from n to the target. */
  ghost predicate Reaches(edges: Graph, n: string, target: string) {
    exists p :: IsChain(edges, p, target) && p[0] == n
  }

  /** Sorted without repeats, and holding exactly the nodes that satisfy `wanted`. */
  ghost predicate Lists(s: seq<string>, wanted: string -> bool) {
    SortedBy(StrLeq, s) && Distinct(s) && forall n :: n in s <==> wanted(n)
  }

  lemma SortedWithoutRepeats(s: seq<string>)
    requires SortedBy(StrLeq, s) && NoAdjacentRepeat(s)
    ensures Distinct(s)
  {
    forall i, j | 0 <= i < j < |s| ensures s[i] != s[j] {
      assert StrLeq(s[i], s[i + 1]);
      assert i + 1 < j ==> StrLeq(s[i + 1], s[j]);
      StrLeqTotal(s[i], s[i + 1]);
    }
  }

  method ReverseDependents(edges: Graph, target: string) returns (dependents: seq<string>)
    ensures Lists(dependents, n => Arc(edges, n, target))
  {
    var found := [];
    var pending := edges.Keys;
    while pending != {}
      invariant pending <= edges.Keys
      invariant forall n :: n in found <==> n in edges.Keys - pending && Arc(edges, n, target)
    {
      var source :| source in pending;
      if target in edges[source] {
        found := found + [source];
      }
      pending := pending - {source};
    }
    dependents := Dedup(Sort(StrLeq, found));
    StrLeqIsOrder();
    SortOrders(StrLeq, found);
    SortKeepsEntries(StrLeq, found);
    DedupKeepsEntries(Sort(StrLeq, found));
    DedupKeepsOrder(StrLeq, Sort(StrLeq, found));
    SortedWithoutRepeats(dependents);
  }

  /** Everything one dependency step away from a settled node, or from the target, is known. */
  ghost predicate Closed(edges: Graph, target: string, visited: set<string>, queue: seq<string>) {
    forall n, m :: Arc(edges, n, m) && (m == target || m in visited) ==> n in visited || n in queue
  }

  /** A node may be queued several times; each round settles a new node or shortens the queue. */
  method TransitiveDependents(edges: Graph, target: string) returns (ordered: seq<string>)
    ensures Lists(ordered, n => Reaches(edges, n, target))
    ensures target in ordered <==> OnCycle(edges, target)
  {
    ReachesItselfIffOnCycle(edges, target);
    var visited: set<string> := {};
    var queue := ReverseDependents(edges, target);
    forall n | n in queue ensures Reaches(edges, n, target) {
      assert IsChain(edges, [n], target);
    }
    while queue != []
      invariant visited <= edges.Keys
      invariant forall n :: n in visited || n in queue ==> n in edges && Reaches(edges, n, target)
      invariant Closed(edges, target, visited, queue)
      decreases edges.Keys - visited, |queue|
    {
      var node := queue[0];
      var rest := queue[1..];
      assert queue == [node] + rest;
      if node in visited {
        queue := rest;
        continue;
      }
      visited := visited + {node};
      var parents := ReverseDependents(edges, node);
      queue := QueueUnsettled(rest, parents, visited);
      ParentsReach(edges, parents, node, target);
    }
    assert Closed(edges, target, visited, []);
    forall n ensures n in visited <==> Reaches(edges, n, target) {
      ClosedHoldsAll(edges, target, visited, n);
    }
    ordered := SortedElements(visited);
  }

  /** Appends the parents that are not settled yet. */
  method QueueUnsettled(rest: seq<string>, parents: seq<string>, visited: set<string>) returns (queue: seq<string>)
    ensures rest <= queue
    ensures forall n :: n in queue <==> n in rest || (n in parents && n !in visited)
  {
    queue := rest;
    for i := 0 to |parents|
      invariant rest <= queue
      invariant forall n :: n in queue <==> n in rest || (n in parents[..i] && n !in visited)
    {
      if parents[i] !in visited {
        queue := queue + [parents[i]];
      }
      assert parents[..i + 1] == parents[..i] + [parents[i]];
    }
    assert parents[..|parents|] == parents;
  }

  method SortedElements(elements: set<string>) returns (ordered: seq<string>)
    ensures Lists(ordered, n => n in elements)
  {
    var listed := [];
    var pending := elements;
    while pending != {}
      invariant pending <= elements && Distinct(listed)
      invariant forall n :: n in listed <==> n in elements - pending
    {
      var n :| n in pending;
      assert n !in listed;
      listed := listed + [n];
      pending := pending - {n};
    }
    ordered := Sort(StrLeq, listed);
    StrLeqIsOrder();
    SortOrders(StrLeq, listed);
    SortKeepsEntries(StrLeq, listed);
    SortKeepsDistinct(StrLeq, listed);
  }

  lemma ParentsReach(edges: Graph, parents: seq<string>, node: string, target: string)
    requires Reaches(edges, node, target) && forall n :: n in parents ==> n in edges && node in edges[n]
    ensures forall n :: n in parents ==> Reaches(edges, n, target)
  {
    forall n | n in parents ensures Reaches(edges, n, target) {
      ReachesFurther(edges, n, node, target);
    }
  }

  lemma ReachesFurther(edges: Graph, n: string, m: string, target: string)
    requires Arc(edges, n, m) && Reaches(edges, m, target)
    ensures Reaches(edges, n, target)
  {
    var p :| IsChain(edges, p, target) && p[0] == m;
    assert IsChain(edges, [n] + p, target);
  }

  lemma {:induction false} ClosedHoldsChain(
    edges: Graph, target: string, visited: set<string>, p: seq<string>)
    requires Closed(edges, target, visited, []) && IsChain(edges, p, target)
    ensures p[0] in visited
    decreases |p|
  {
    if |p| > 1 {
      assert IsChain(edges, p[1..], target);
      ClosedHoldsChain(edges, target, visited, p[1..]);
      assert Arc(edges, p[0], p[1]);
    }
  }

  lemma ClosedHoldsAll(edges: Graph, target: string, visited: set<string>, n: string)
    requires Closed(edges, target, visited, [])
    requires forall v :: v in visited ==> Reaches(edges, v, target)
    ensures n in visited <==> Reaches(edges, n, target)
  {
    if Reaches(edges, n, target) {
      var p :| IsChain(edges, p, target) && p[0] == n;
      ClosedHoldsChain(edges, target, visited, p);
    }
  }

  // ---------------------------------------------------------------- targets on a cycle

  ghost predicate OnCycle(edges: Graph, n: string) {
    exists c :: IsCycle(edges, c) && n in c
  }

  /** A cycle entered at any of its nodes leads back to that node. */
  lemma RotatedCycle(edges: Graph, c: seq<string>, k: nat)
    requires IsCycle(edges, c) && k < |c|
    ensures IsChain(edges, c[k..] + c[..k], c[k])
  {
    var p, n := c[k..] + c[..k], |c| - k;
    forall i | 0 <= i < |p| - 1 ensures Arc(edges, p[i], p[i + 1]) {
      if i < n - 1 {
        assert p[i] == c[k + i] && p[i + 1] == c[k + i + 1];
      } else if i == n - 1 {
        assert p[i] == Last(c) && p[i + 1] == c[0];
      } else {
        assert p[i] == c[i - n] && p[i + 1] == c[i - n + 1];
      }
    }
    assert Last(p) == if k == 0 then Last(c) else c[k - 1];
  }

  /** A node is among its own transitive dependents exactly when it lies, anywhere, on a dependency cycle. */
  lemma ReachesItselfIffOnCycle(edges: Graph, n: string)
    ensures Reaches(edges, n, n) <==> OnCycle(edges, n)
  {
    if Reaches(edges, n, n) {
      var p :| IsChain(edges, p, n) && p[0] == n;
      assert IsCycle(edges, p) && n in p;
    }
    if OnCycle(edges, n) {
      var c :| IsCycle(edges, c) && n in c;
      var k :| 0 <= k < |c| && c[k] == n;
      RotatedCycle(edges, c, k);
      assert (c[k..] + c[..k])[0] == n;
    }
  }
}
