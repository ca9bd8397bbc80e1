/**
 The cycle search as a function of the graph and of the order in which its keys are visited, and
 how often it reports a cycle: at most as often as the edge that closes it is listed.
 */
module CycleTrace {
  import opened RelationGraph
  import opened Sequences
  import opened Sorting
  import opened Text

  // ---------------------------------------------------------------- the search as a function

  datatype Search = Search(visiting: set<string>, visited: set<string>, stack: seq<string>, cycles: seq<seq<string>>)

  const IDLE := Search({}, {}, [], [])

  /** The stack from the first place of the node on. */
  function SuffixFrom(stack: seq<string>, node: string): seq<string> {
    if stack == [] then [] else if stack[0] == node then stack else SuffixFrom(stack[1..], node)
  }

  lemma {:induction false} SuffixAt(stack: seq<string>, node: string, position: nat)
    requires position < |stack| && stack[position] == node && node !in stack[..position]
    ensures SuffixFrom(stack, node) == stack[position..]
  {
    if position == 0 {
      assert stack[0..] == stack;
    } else {
      assert stack[0] == stack[..position][0];
      assert stack[1..][..position - 1] == stack[..position][1..];
      SuffixAt(stack[1..], node, position - 1);
      assert stack[1..][position - 1..] == stack[position..];
    }
  }

  lemma {:induction false} SuffixEnds(stack: seq<string>, node: string)
    requires node in stack
    ensures var c := SuffixFrom(stack, node); c != [] && c[0] == node && Last(c) == Last(stack)
  {
    if stack[0] != node {
      SuffixEnds(stack[1..], node);
    }
  }

  function Reported(s: Search, node: string): Search {
    if node in s.stack then s.(cycles := s.cycles + [SuffixFrom(s.stack, node)]) else s
  }

  /** Visits a node: nothing for a finished one, a report for one on the stack, and else all its targets. */
  function Visit(g: Graph, s: Search, node: string): (r: Search)
    requires node in Nodes(g)
    ensures r.visiting == s.visiting && r.stack == s.stack
    decreases Nodes(g) - s.visiting, 0
  {
    if node in s.visited then s
    else if node in s.visiting then Reported(s, node)
    else
      var entered := s.(visiting := s.visiting + {node}, stack := s.stack + [node]);
      var left := VisitAll(g, entered, TargetsOf(g, node));
      Search(s.visiting, left.visited + {node}, s.stack, left.cycles)
  }

  function VisitAll(g: Graph, s: Search, targets: seq<string>): (r: Search)
    requires forall t :: t in targets ==> t in Nodes(g)
    ensures r.visiting == s.visiting && r.stack == s.stack
    decreases Nodes(g) - s.visiting, 1 + |targets|
  {
    if targets == [] then s else Visit(g, VisitAll(g, s, targets[..|targets| - 1]), Last(targets))
  }

  function TargetsOf(g: Graph, node: string): (r: seq<string>)
    ensures forall t :: t in r ==> t in Nodes(g)
  {
    if node in g then g[node] else []
  }

  lemma VisitSnoc(g: Graph, s: Search, targets: seq<string>, t: string)
    requires t in Nodes(g) && forall t :: t in targets ==> t in Nodes(g)
    ensures forall u :: u in targets + [t] ==> u in Nodes(g)
    ensures VisitAll(g, s, targets + [t]) == Visit(g, VisitAll(g, s, targets), t)
  {
    assert (targets + [t])[..|targets|] == targets;
  }

  lemma VisitNext(g: Graph, s: Search, targets: seq<string>, i: nat)
    requires i < |targets| && forall t :: t in targets ==> t in Nodes(g)
    ensures VisitAll(g, s, targets[..i + 1]) == Visit(g, VisitAll(g, s, targets[..i]), targets[i])
  {
    assert targets[..i + 1] == targets[..i] + [targets[i]];
    VisitSnoc(g, s, targets[..i], targets[i]);
  }

  /** The keys of the graph in some order. */
  ghost predicate ListsKeys(g: Graph, keys: seq<string>) {
    Distinct(keys) && forall u :: u in keys <==> u in g
  }

  predicate NotLonger(a: seq<string>, b: seq<string>) {
    |a| <= |b|
  }

  /** What is reported when the keys are visited in the given order. */
  function ReportOf(g: Graph, keys: seq<string>): seq<seq<string>>
    requires forall u :: u in keys ==> u in Nodes(g)
  {
    Dedup(Sort(NotLonger, VisitAll(g, IDLE, keys).cycles))
  }

  // ---------------------------------------------------------------- counting reports

  /** How many of the reports are closed by the arc from u to w. */
  function ArcCount(cycles: seq<seq<string>>, u: string, w: string): nat {
    if cycles == [] then 0
    else
      var c := Last(cycles);
      ArcCount(cycles[..|cycles| - 1], u, w) + if c != [] && Last(c) == u && c[0] == w then 1 else 0
  }

  function Occurrences(s: seq<string>, w: string): nat {
    if s == [] then 0 else Occurrences(s[..|s| - 1], w) + if Last(s) == w then 1 else 0
  }

  /** How often the arc from u to w is listed. */
  function Listed(g: Graph, u: string, w: string): nat {
    Occurrences(TargetsOf(g, u), w)
  }

  /** The nodes on the stack are the grey ones. */
  ghost predicate Grey(s: Search) {
    forall x :: x in s.visiting <==> x in s.stack
  }

  lemma ReportAdds(s: Search, node: string, u: string, w: string)
    requires Grey(s) && node in s.visiting
    ensures ArcCount(Reported(s, node).cycles, u, w)
         == ArcCount(s.cycles, u, w) + if Last(s.stack) == u && node == w then 1 else 0
  {
    SuffixEnds(s.stack, node);
    var more := s.cycles + [SuffixFrom(s.stack, node)];
    assert more[..|s.cycles|] == s.cycles;
  }

  /** What visits may add to the reports closed by the arc from u to w, where u is not on top of the stack. */
  ghost predicate AddsWithin(g: Graph, s: Search, r: Search, u: string, w: string) {
    && s.visited <= r.visited
    && ArcCount(r.cycles, u, w) <= ArcCount(s.cycles, u, w) +
         if u in s.visited || u in s.visiting || u !in r.visited then 0 else Listed(g, u, w)
  }

  lemma {:induction false} VisitAdds(g: Graph, s: Search, node: string, u: string, w: string)
    requires node in Nodes(g) && Grey(s) && (s.stack == [] || Last(s.stack) != u)
    ensures AddsWithin(g, s, Visit(g, s, node), u, w)
    decreases Nodes(g) - s.visiting, 0
  {
    if node in s.visited {
    } else if node in s.visiting {
      ReportAdds(s, node, u, w);
    } else {
      var entered := s.(visiting := s.visiting + {node}, stack := s.stack + [node]);
      if u == node {
        TopAdds(g, entered, TargetsOf(g, node), u, w);
      } else {
        VisitAllAdds(g, entered, TargetsOf(g, node), u, w);
      }
    }
  }

  lemma {:induction false} VisitAllAdds(g: Graph, s: Search, targets: seq<string>, u: string, w: string)
    requires (forall t :: t in targets ==> t in Nodes(g)) && Grey(s) && (s.stack == [] || Last(s.stack) != u)
    ensures AddsWithin(g, s, VisitAll(g, s, targets), u, w)
    decreases Nodes(g) - s.visiting, 1 + |targets|
  {
    if targets != [] {
      var front := targets[..|targets| - 1];
      VisitAllAdds(g, s, front, u, w);
      VisitAdds(g, VisitAll(g, s, front), Last(targets), u, w);
    }
  }

  /** The node on top of the stack adds at most one report for each time its arc is listed. */
  lemma {:induction false} TopAdds(g: Graph, s: Search, targets: seq<string>, u: string, w: string)
    requires (forall t :: t in targets ==> t in Nodes(g)) && Grey(s) && s.stack != [] && Last(s.stack) == u
    ensures var r := VisitAll(g, s, targets);
            s.visited <= r.visited && ArcCount(r.cycles, u, w) <= ArcCount(s.cycles, u, w) + Occurrences(targets, w)
    decreases Nodes(g) - s.visiting, 1 + |targets|
  {
    if targets != [] {
      var front, t := targets[..|targets| - 1], Last(targets);
      TopAdds(g, s, front, u, w);
      var r := VisitAll(g, s, front);
      if t !in r.visited && t in r.visiting {
        ReportAdds(r, t, u, w);
      } else if t !in r.visited {
        var entered := r.(visiting := r.visiting + {t}, stack := r.stack + [t]);
        VisitAllAdds(g, entered, TargetsOf(g, t), u, w);
      }
    }
  }

  /** However the keys are ordered, a cycle is recorded at most as often as the edge that closes it is listed. */
  lemma RecordedAtMostAsListed(g: Graph, keys: seq<string>, u: string, w: string)
    requires forall k :: k in keys ==> k in Nodes(g)
    ensures ArcCount(VisitAll(g, IDLE, keys).cycles, u, w) <= Listed(g, u, w)
  {
    VisitAllAdds(g, IDLE, keys, u, w);
  }

  // ---------------------------------------------------------------- repeated reports

  /** The edge from u to w closes some cycle. */
  ghost predicate OnCycle(edges: seq<Edge>, u: string, w: string) {
    exists c :: IsEdgeCycle(edges, c) && Last(c) == u && c[0] == w
  }

  ghost predicate ListedTwice(edges: seq<Edge>, e: Edge) {
    exists i, j :: 0 <= i < j < |edges| && edges[i] == edges[j] == e
  }

  /** No edge that lies on a cycle is listed twice. */
  ghost predicate NoCycleEdgeTwice(edges: seq<Edge>) {
    forall u, w :: OnCycle(edges, u, w) ==> !ListedTwice(edges, Edge(u, w))
  }

  lemma OccurrencesSnoc(s: seq<string>, t: string, w: string)
    ensures Occurrences(s + [t], w) == Occurrences(s, w) + if t == w then 1 else 0
  {
    assert (s + [t])[..|s|] == s;
  }

  /** Counted among the targets as often as listed: not at all, once, or more. */
  lemma {:induction false} ListedAsOften(edges: seq<Edge>, u: string, w: string)
    requires Kept(Edge(u, w))
    ensures Occurrences(Targets(edges, u), w) >= 1 <==> Edge(u, w) in edges
    ensures Occurrences(Targets(edges, u), w) >= 2 <==> ListedTwice(edges, Edge(u, w))
  {
    if edges != [] {
      var front, e := edges[..|edges| - 1], Last(edges);
      ListedAsOften(front, u, w);
      assert edges == front + [e];
      TwiceSnoc(front, e, Edge(u, w));
      if Kept(e) && e.fromNode == u {
        OccurrencesSnoc(Targets(front, u), e.toNode, w);
      } else {
        assert Targets(edges, u) == Targets(front, u);
      }
    }
  }

  lemma TwiceSnoc(front: seq<Edge>, e: Edge, x: Edge)
    ensures ListedTwice(front + [e], x) <==> ListedTwice(front, x) || (e == x && x in front)
  {
    var edges := front + [e];
    if ListedTwice(edges, x) {
      var i, j :| 0 <= i < j < |edges| && edges[i] == edges[j] == x;
      if j < |front| {
        assert front[i] == front[j] == x;
      } else {
        assert front[i] == x;
      }
    }
    if ListedTwice(front, x) {
      var i, j :| 0 <= i < j < |front| && front[i] == front[j] == x;
      assert edges[i] == edges[j] == x;
    }
    if e == x && x in front {
      var i :| 0 <= i < |front| && front[i] == x;
      assert edges[i] == edges[|front|] == x;
    }
  }

  lemma {:induction false} CountedOnce(cycles: seq<seq<string>>, i: nat, c: seq<string>)
    requires i < |cycles| && cycles[i] == c && c != []
    ensures ArcCount(cycles, Last(c), c[0]) >= 1
  {
    if i < |cycles| - 1 {
      CountedOnce(cycles[..|cycles| - 1], i, c);
    }
  }

  lemma {:induction false} CountedTwice(cycles: seq<seq<string>>, i: nat, j: nat, c: seq<string>)
    requires i < j < |cycles| && cycles[i] == cycles[j] == c && c != []
    ensures ArcCount(cycles, Last(c), c[0]) >= 2
  {
    var front := cycles[..|cycles| - 1];
    if j == |front| {
      CountedOnce(front, i, c);
    } else {
      CountedTwice(front, i, j, c);
    }
  }

  lemma {:induction false} DedupOfDistinct<T>(s: seq<T>)
    requires Distinct(s)
    ensures Dedup(s) == s
  {
    if s != [] {
      DedupOfDistinct(s[..|s| - 1]);
      assert s == s[..|s| - 1] + [Last(s)];
    }
  }

  /** Where no edge on a cycle is listed twice, the search records no cycle twice. */
  lemma UnrepeatedRecords(edges: seq<Edge>, keys: seq<string>)
    requires NoCycleEdgeTwice(edges) && forall k :: k in keys ==> k in GraphOf(edges)
    ensures Distinct(VisitAll(GraphOf(edges), IDLE, keys).cycles)
  {
    var g := GraphOf(edges);
    var found := VisitAll(g, IDLE, keys).cycles;
    RecordsAreCycles(g, keys);
    forall i, j | 0 <= i < j < |found| ensures found[i] != found[j] {
      if found[i] == found[j] {
        var c := found[i];
        assert c in found;
        CountedTwice(found, i, j, c);
        RecordedAtMostAsListed(g, keys, Last(c), c[0]);
        CycleOfGraph(edges, c);
        TargetsOfGraph(edges, Last(c));
        ListedAsOften(edges, Last(c), c[0]);
        assert false;
      }
    }
  }

  lemma TargetsOfGraph(edges: seq<Edge>, u: string)
    ensures TargetsOf(GraphOf(edges), u) == Targets(edges, u)
  {
    SourcesHaveTargets(edges, u);
  }

  lemma CycleOfGraph(edges: seq<Edge>, c: seq<string>)
    ensures IsCycle(GraphOf(edges), c) <==> IsEdgeCycle(edges, c)
  {
    forall u, v ensures Arc(GraphOf(edges), u, v) <==> HasEdge(edges, u, v) {
      TargetsOfGraph(edges, u);
      TargetsAreEdges(edges, u, v);
    }
  }

  /** And then it reports none twice. */
  lemma UnrepeatedEdgesUnrepeatedReport(edges: seq<Edge>, keys: seq<string>)
    requires NoCycleEdgeTwice(edges) && forall k :: k in keys ==> k in GraphOf(edges)
    ensures Distinct(ReportOf(GraphOf(edges), keys))
  {
    var found := VisitAll(GraphOf(edges), IDLE, keys).cycles;
    UnrepeatedRecords(edges, keys);
    SortKeepsDistinct(NotLonger, found);
    DedupOfDistinct(Sort(NotLonger, found));
  }

  // ---------------------------------------------------------------- records are cycles

  /** The stack runs along arcs, its nodes are the grey ones, and all records are cycles. */
  ghost predicate Proper(g: Graph, s: Search) {
    Grey(s) && IsWalk(g, s.stack) && forall c :: c in s.cycles ==> IsCycle(g, c)
  }

  lemma {:induction false} SuffixIsWalk(g: Graph, stack: seq<string>, node: string)
    requires IsWalk(g, stack) && node in stack
    ensures IsWalk(g, SuffixFrom(stack, node))
  {
    if stack[0] != node {
      assert IsWalk(g, stack[1..]) by {
        forall i | 0 <= i < |stack[1..]| - 1 ensures Arc(g, stack[1..][i], stack[1..][i + 1]) {
          assert Arc(g, stack[i + 1], stack[i + 2]);
        }
      }
      SuffixIsWalk(g, stack[1..], node);
    }
  }

  lemma ReportIsCycle(g: Graph, s: Search, node: string)
    requires Proper(g, s) && node in s.stack && Arc(g, Last(s.stack), node)
    ensures Proper(g, Reported(s, node))
  {
    SuffixEnds(s.stack, node);
    SuffixIsWalk(g, s.stack, node);
  }

  lemma {:induction false} VisitProper(g: Graph, s: Search, node: string)
    requires node in Nodes(g) && Proper(g, s) && (s.stack != [] ==> Arc(g, Last(s.stack), node))
    ensures Proper(g, Visit(g, s, node))
    decreases Nodes(g) - s.visiting, 0
  {
    if node in s.visited {
    } else if node in s.visiting {
      ReportIsCycle(g, s, node);
    } else {
      var entered := s.(visiting := s.visiting + {node}, stack := s.stack + [node]);
      assert Proper(g, entered);
      VisitAllProper(g, entered, TargetsOf(g, node));
    }
  }

  lemma {:induction false} VisitAllProper(g: Graph, s: Search, targets: seq<string>)
    requires (forall t :: t in targets ==> t in Nodes(g)) && Proper(g, s)
    requires s.stack != [] ==> forall t :: t in targets ==> Arc(g, Last(s.stack), t)
    ensures Proper(g, VisitAll(g, s, targets))
    decreases Nodes(g) - s.visiting, 1 + |targets|
  {
    if targets != [] {
      var front := targets[..|targets| - 1];
      VisitAllProper(g, s, front);
      VisitProper(g, VisitAll(g, s, front), Last(targets));
    }
  }

  lemma RecordsAreCycles(g: Graph, keys: seq<string>)
    requires forall k :: k in keys ==> k in Nodes(g)
    ensures forall c :: c in VisitAll(g, IDLE, keys).cycles ==> IsCycle(g, c)
  {
    VisitAllProper(g, IDLE, keys);
  }

  // ---------------------------------------------------------------- records that repeat

  function TimesRecorded(cycles: seq<seq<string>>, c: seq<string>): nat {
    if cycles == [] then 0 else TimesRecorded(cycles[..|cycles| - 1], c) + if Last(cycles) == c then 1 else 0
  }

  lemma {:induction false} RecordedTwice(cycles: seq<seq<string>>, c: seq<string>)
    requires TimesRecorded(cycles, c) >= 2
    ensures !Distinct(cycles)
  {
    var front := cycles[..|cycles| - 1];
    if Last(cycles) == c {
      var i := RecordedOnce(front, c);
      assert cycles[i] == cycles[|front|];
    } else {
      RecordedTwice(front, c);
      var i, j :| 0 <= i < j < |front| && front[i] == front[j];
      assert cycles[i] == cycles[j];
    }
  }

  lemma {:induction false} RecordedOnce(cycles: seq<seq<string>>, c: seq<string>) returns (i: nat)
    requires TimesRecorded(cycles, c) >= 1
    ensures i < |cycles| && cycles[i] == c
  {
    if Last(cycles) == c {
      i := |cycles| - 1;
    } else {
      i := RecordedOnce(cycles[..|cycles| - 1], c);
    }
  }

  lemma ReportRecords(s: Search, node: string, c: seq<string>)
    requires node in s.stack
    ensures TimesRecorded(Reported(s, node).cycles, c)
         == TimesRecorded(s.cycles, c) + if SuffixFrom(s.stack, node) == c then 1 else 0
  {
    var more := s.cycles + [SuffixFrom(s.stack, node)];
    assert more[..|s.cycles|] == s.cycles;
  }

  /** Nothing recorded or finished is forgotten. */
  lemma {:induction false} VisitKeeps(g: Graph, s: Search, node: string, c: seq<string>)
    requires node in Nodes(g)
    ensures s.visited <= Visit(g, s, node).visited
    ensures TimesRecorded(s.cycles, c) <= TimesRecorded(Visit(g, s, node).cycles, c)
    decreases Nodes(g) - s.visiting, 0
  {
    if node in s.visited {
    } else if node in s.visiting {
      if node in s.stack {
        ReportRecords(s, node, c);
      }
    } else {
      VisitAllKeeps(g, s.(visiting := s.visiting + {node}, stack := s.stack + [node]), TargetsOf(g, node), c);
    }
  }

  lemma {:induction false} VisitAllKeeps(g: Graph, s: Search, targets: seq<string>, c: seq<string>)
    requires forall t :: t in targets ==> t in Nodes(g)
    ensures s.visited <= VisitAll(g, s, targets).visited
    ensures TimesRecorded(s.cycles, c) <= TimesRecorded(VisitAll(g, s, targets).cycles, c)
    decreases Nodes(g) - s.visiting, 1 + |targets|
  {
    if targets != [] {
      var front := targets[..|targets| - 1];
      VisitAllKeeps(g, s, front, c);
      VisitKeeps(g, VisitAll(g, s, front), Last(targets), c);
    }
  }

  /** No grey node is finished. */
  ghost predicate Apart(s: Search) {
    Grey(s) && s.visiting !! s.visited
  }

  lemma {:induction false} VisitApart(g: Graph, s: Search, node: string)
    requires node in Nodes(g) && Apart(s)
    ensures Apart(Visit(g, s, node))
    decreases Nodes(g) - s.visiting, 0
  {
    if node !in s.visited && node !in s.visiting {
      var entered := s.(visiting := s.visiting + {node}, stack := s.stack + [node]);
      assert Apart(entered);
      VisitAllApart(g, entered, TargetsOf(g, node));
    }
  }

  lemma {:induction false} VisitAllApart(g: Graph, s: Search, targets: seq<string>)
    requires (forall t :: t in targets ==> t in Nodes(g)) && Apart(s)
    ensures Apart(VisitAll(g, s, targets))
    decreases Nodes(g) - s.visiting, 1 + |targets|
  {
    if targets != [] {
      VisitAllApart(g, s, targets[..|targets| - 1]);
      VisitApart(g, VisitAll(g, s, targets[..|targets| - 1]), Last(targets));
    }
  }

  /** With w on the stack, each time w is listed one and the same suffix is recorded. */
  lemma {:induction false} TopRecords(g: Graph, s: Search, targets: seq<string>, w: string)
    requires (forall t :: t in targets ==> t in Nodes(g)) && Apart(s) && w in s.visiting
    ensures TimesRecorded(VisitAll(g, s, targets).cycles, SuffixFrom(s.stack, w)) >= Occurrences(targets, w)
  {
    if targets != [] {
      var front, t, c := targets[..|targets| - 1], Last(targets), SuffixFrom(s.stack, w);
      TopRecords(g, s, front, w);
      VisitAllApart(g, s, front);
      var r := VisitAll(g, s, front);
      if t == w {
        ReportRecords(r, w, c);
      } else {
        VisitKeeps(g, r, t, c);
      }
    }
  }

  /** A node finished while w is on the stack has recorded one cycle as often as its arc to w is listed. */
  lemma {:induction false} FinishedRecords(g: Graph, s: Search, node: string, u: string, w: string)
    returns (c: seq<string>)
    requires node in Nodes(g) && Apart(s) && w in s.visiting && u !in s.visited && u in Visit(g, s, node).visited
    ensures TimesRecorded(Visit(g, s, node).cycles, c) >= Listed(g, u, w)
    decreases Nodes(g) - s.visiting, 0
  {
    var entered := s.(visiting := s.visiting + {node}, stack := s.stack + [node]);
    if node in s.visited || node in s.visiting {
      c := [];
      assert false;
    } else if node == u {
      c := SuffixFrom(entered.stack, w);
      TopRecords(g, entered, TargetsOf(g, u), w);
    } else {
      c := FinishedRecordsAll(g, entered, TargetsOf(g, node), u, w);
    }
  }

  lemma {:induction false} FinishedRecordsAll(g: Graph, s: Search, targets: seq<string>, u: string, w: string)
    returns (c: seq<string>)
    requires (forall t :: t in targets ==> t in Nodes(g)) && Apart(s) && w in s.visiting
    requires u !in s.visited && u in VisitAll(g, s, targets).visited
    ensures TimesRecorded(VisitAll(g, s, targets).cycles, c) >= Listed(g, u, w)
    decreases Nodes(g) - s.visiting, 1 + |targets|
  {
    var front := targets[..|targets| - 1];
    var r := VisitAll(g, s, front);
    VisitAllApart(g, s, front);
    if u in r.visited {
      c := FinishedRecordsAll(g, s, front, u, w);
      VisitKeeps(g, r, Last(targets), c);
    } else {
      c := FinishedRecords(g, r, Last(targets), u, w);
    }
  }

  /** Every arc out of a finished node leads to a finished or a grey one. */
  ghost predicate Followed(g: Graph, s: Search) {
    forall x, y :: x in s.visited && Arc(g, x, y) ==> y in s.visited || y in s.visiting
  }

  lemma {:induction false} VisitFollows(g: Graph, s: Search, node: string)
    requires node in Nodes(g) && Followed(g, s)
    ensures var r := Visit(g, s, node);
            Followed(g, r) && s.visited <= r.visited && (node in r.visited || node in r.visiting)
    decreases Nodes(g) - s.visiting, 0
  {
    if node !in s.visited && node !in s.visiting {
      var entered := s.(visiting := s.visiting + {node}, stack := s.stack + [node]);
      VisitAllFollows(g, entered, TargetsOf(g, node));
    }
  }

  lemma {:induction false} VisitAllFollows(g: Graph, s: Search, targets: seq<string>)
    requires (forall t :: t in targets ==> t in Nodes(g)) && Followed(g, s)
    ensures var r := VisitAll(g, s, targets);
            && Followed(g, r) && s.visited <= r.visited
            && forall t :: t in targets ==> t in r.visited || t in r.visiting
    decreases Nodes(g) - s.visiting, 1 + |targets|
  {
    if targets != [] {
      var front := targets[..|targets| - 1];
      VisitAllFollows(g, s, front);
      VisitFollows(g, VisitAll(g, s, front), Last(targets));
      assert targets == front + [Last(targets)];
    }
  }

  /** Everything along a walk from the first key visited is finished with it. */
  lemma {:induction false} WalkIsFinished(g: Graph, c: seq<string>, i: nat)
    requires c != [] && IsWalk(g, c) && c[0] in Nodes(g) && i < |c|
    ensures c[i] in Visit(g, IDLE, c[0]).visited
  {
    VisitFollows(g, IDLE, c[0]);
    if i > 0 {
      WalkIsFinished(g, c, i - 1);
      assert Arc(g, c[i - 1], c[i]);
    }
  }

  /** Visiting the start of a cycle first records some cycle as often as the arc back to the start is listed. */
  lemma CycleRecords(g: Graph, d: seq<string>) returns (c: seq<string>)
    requires IsCycle(g, d)
    ensures d[0] in Nodes(g) && TimesRecorded(Visit(g, IDLE, d[0]).cycles, c) >= Listed(g, Last(d), d[0])
  {
    var v, u := d[0], Last(d);
    WalkIsFinished(g, d, |d| - 1);
    var entered := Search({v}, {}, [v], []);
    assert IDLE.(visiting := IDLE.visiting + {v}, stack := IDLE.stack + [v]) == entered;
    if u == v {
      c := SuffixFrom([v], v);
      TopRecords(g, entered, TargetsOf(g, v), v);
    } else {
      c := FinishedRecordsAll(g, entered, TargetsOf(g, v), u, v);
    }
  }

  lemma ListOfSet(elements: set<string>) returns (s: seq<string>)
    ensures Distinct(s) && forall x :: x in s <==> x in elements
    decreases |elements|
  {
    if elements == {} {
      s := [];
    } else {
      var x :| x in elements;
      s := ListOfSet(elements - {x});
      s := s + [x];
    }
  }

  lemma {:induction false} FirstKeyRecords(g: Graph, v: string, rest: seq<string>, c: seq<string>)
    requires v in Nodes(g) && forall k :: k in rest ==> k in Nodes(g)
    ensures TimesRecorded(Visit(g, IDLE, v).cycles, c) <= TimesRecorded(VisitAll(g, IDLE, [v] + rest).cycles, c)
  {
    if rest == [] {
      assert [v] + rest == [v] && [v][..0] == [];
      assert VisitAll(g, IDLE, [v]) == Visit(g, IDLE, v);
    } else {
      var front := rest[..|rest| - 1];
      FirstKeyRecords(g, v, front, c);
      assert ([v] + rest)[..|rest|] == [v] + front;
      VisitKeeps(g, VisitAll(g, IDLE, [v] + front), Last(rest), c);
    }
  }

  /** An edge on a cycle that is listed twice makes the search record a cycle twice, for some order of the keys. */
  lemma RepeatedEdgeRepeatsRecord(edges: seq<Edge>, u: string, w: string) returns (keys: seq<string>)
    requires OnCycle(edges, u, w) && ListedTwice(edges, Edge(u, w))
    ensures ListsKeys(GraphOf(edges), keys) && !Distinct(VisitAll(GraphOf(edges), IDLE, keys).cycles)
  {
    var g := GraphOf(edges);
    var d :| IsEdgeCycle(edges, d) && Last(d) == u && d[0] == w;
    CycleOfGraph(edges, d);
    TargetsOfGraph(edges, u);
    ListedAsOften(edges, u, w);
    var c := CycleRecords(g, d);
    assert w in g by {
      assert |d| > 1 ==> Arc(g, d[0], d[1]);
    }
    var rest := ListOfSet(g.Keys - {w});
    keys := [w] + rest;
    FirstKeyRecords(g, w, rest, c);
    RecordedTwice(VisitAll(g, IDLE, keys).cycles, c);
  }

  /**
   Whatever the order of the keys, the search records no cycle twice, if and only if no edge on a
   cycle is listed twice.
   */
  lemma RecordsRepeatIff(edges: seq<Edge>)
    ensures (forall keys | ListsKeys(GraphOf(edges), keys) :: Distinct(VisitAll(GraphOf(edges), IDLE, keys).cycles))
            <==> NoCycleEdgeTwice(edges)
  {
    if NoCycleEdgeTwice(edges) {
      forall keys | ListsKeys(GraphOf(edges), keys) ensures Distinct(VisitAll(GraphOf(edges), IDLE, keys).cycles) {
        UnrepeatedRecords(edges, keys);
      }
    } else {
      var u, w :| OnCycle(edges, u, w) && ListedTwice(edges, Edge(u, w));
      var keys := RepeatedEdgeRepeatsRecord(edges, u, w);
      assert ListsKeys(GraphOf(edges), keys);
    }
  }

  // ---------------------------------------------------------------- a repeat that survives

  /** Two nodes with an edge to themselves, one of them listed twice, and an edge between them in between. */
  function TwiceListed(u: string, x: string): seq<Edge> {
    [Edge(u, u), Edge(u, x), Edge(u, u), Edge(x, x)]
  }

  lemma TwiceListedTargets(u: string, x: string)
    requires u != x && !IsBlank(u) && !IsBlank(x)
    ensures Targets(TwiceListed(u, x), u) == [u, x, u] && Targets(TwiceListed(u, x), x) == [x]
    ensures Sources(TwiceListed(u, x)) == {u, x}
  {
    var e := TwiceListed(u, x);
    var e1, e2, e3 := [Edge(u, u)], [Edge(u, u), Edge(u, x)], [Edge(u, u), Edge(u, x), Edge(u, u)];
    assert e[..3] == e3 && e3[..2] == e2 && e2[..1] == e1 && e1[..0] == [];
    assert Targets(e1, u) == [u] && Targets(e1, x) == [];
    assert Targets(e2, u) == [u, x] && Targets(e2, x) == [];
    assert Targets(e3, u) == [u, x, u] && Targets(e3, x) == [];
    assert e[0].fromNode == u && e[3].fromNode == x;
  }

  /** From the node that reports itself, on to the other one and back: three reports. */
  lemma TwiceListedSearch(g: Graph, u: string, x: string)
    requires u != x && g == map[u := [u, x, u], x := [x]]
    ensures u in Nodes(g) && x in Nodes(g) && VisitAll(g, IDLE, [u, x]).cycles == [[u], [x], [u]]
  {
    var targets := [u, x, u];
    assert TargetsOf(g, u) == targets && TargetsOf(g, x) == [x];
    var onU := Search({u}, {}, [u], []);
    assert [u][..0] == [] && [x][..0] == [] && targets[..2] == [u, x] && [u, x][..1] == [u];
    var first := onU.(cycles := [[u]]);
    assert VisitAll(g, onU, [u]) == first by {
      assert VisitAll(g, onU, []) == onU;
      assert Visit(g, onU, u) == Reported(onU, u);
    }
    var onX := Search({u, x}, {}, [u, x], [[u]]);
    assert VisitAll(g, onX, [x]) == onX.(cycles := [[u], [x]]) by {
      assert VisitAll(g, onX, []) == onX;
      assert SuffixFrom([u, x], x) == [x] by {
        assert [u, x][1..] == [x];
      }
      assert Visit(g, onX, x) == Reported(onX, x);
    }
    var second := Search({u}, {x}, [u], [[u], [x]]);
    assert VisitAll(g, onU, [u, x]) == second by {
      assert first.(visiting := first.visiting + {x}, stack := first.stack + [x]) == onX;
      assert Visit(g, first, x) == second;
    }
    var third := second.(cycles := [[u], [x], [u]]);
    assert VisitAll(g, onU, targets) == third by {
      assert Visit(g, second, u) == Reported(second, u);
    }
    TwiceListedEnd(g, u, x, third);
  }

  lemma TwiceListedEnd(g: Graph, u: string, x: string, third: Search)
    requires u != x && u in Nodes(g) && x in Nodes(g) && TargetsOf(g, u) == [u, x, u]
    requires third == Search({u}, {x}, [u], [[u], [x], [u]])
    requires VisitAll(g, Search({u}, {}, [u], []), [u, x, u]) == third
    ensures VisitAll(g, IDLE, [u, x]).cycles == [[u], [x], [u]]
  {
    var done := Search({}, {u, x}, [], [[u], [x], [u]]);
    assert Visit(g, IDLE, u) == done by {
      assert IDLE.(visiting := {} + {u}, stack := [] + [u]) == Search({u}, {}, [u], []);
    }
    assert [u, x][..1] == [u] && [u][..0] == [];
    assert VisitAll(g, IDLE, [u]) == done by {
      assert VisitAll(g, IDLE, []) == IDLE;
    }
    assert Visit(g, done, x) == done;
  }

  /** Reports of one length stay in the order in which they were found. */
  lemma SortOfEqualLengths(a: seq<string>, b: seq<string>)
    requires |a| == |b| && a != b
    ensures Dedup(Sort(NotLonger, [a, b, a])) == [a, b, a]
  {
    assert [a, b, a][..2] == [a, b] && [a, b][..1] == [a] && [a][..0] == [];
    assert Sort(NotLonger, [a]) == [a];
    assert Sort(NotLonger, [a, b]) == [a, b];
    assert Sort(NotLonger, [a, b, a]) == [a, b, a];
    assert Dedup([a, b]) == [a, b];
  }

  /** With an edge listed twice a cycle can be reported twice: the repeats need not be adjacent. */
  lemma RepeatSurvives(u: string, x: string)
    requires u != x && !IsBlank(u) && !IsBlank(x)
    ensures var g := GraphOf(TwiceListed(u, x));
            ListsKeys(g, [u, x]) && ReportOf(g, [u, x]) == [[u], [x], [u]] && !Distinct(ReportOf(g, [u, x]))
  {
    TwiceListedTargets(u, x);
    var g := GraphOf(TwiceListed(u, x));
    assert g == map[u := [u, x, u], x := [x]];
    TwiceListedSearch(g, u, x);
    assert [u] != [x] by {
      assert [u][0] != [x][0];
    }
    SortOfEqualLengths([u], [x]);
    assert ReportOf(g, [u, x])[0] == ReportOf(g, [u, x])[2];
  }
}
