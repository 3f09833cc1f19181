/** The acyclicity check of the Bayesian network loader: Kahn's worklist over a
    directed multigraph, proved sound and complete against "there is a cycle". */
module NetworkStructure {
  import opened Common

  datatype Edge = Edge(source: string, target: string)

  datatype Verdict = Valid | UnknownNode(edge: Edge) | Cyclic

  function ParentsOf(edges: seq<Edge>, node: string): seq<string> {
    if edges == [] then []
    else ParentsOf(Front(edges), node) + if Last(edges).target == node then [Last(edges).source] else []
  }

  function ChildrenOf(edges: seq<Edge>, node: string): seq<string> {
    if edges == [] then []
    else ChildrenOf(Front(edges), node) + if Last(edges).source == node then [Last(edges).target] else []
  }

  predicate Known(nodeIds: set<string>, e: Edge) {
    e.source in nodeIds && e.target in nodeIds
  }

  ghost predicate AllKnown(nodeIds: set<string>, edges: seq<Edge>) {
    forall e :: e in edges ==> Known(nodeIds, e)
  }

  /** A closed walk with at least one edge. */
  ghost predicate IsCycle(edges: seq<Edge>, walk: seq<string>) {
    && |walk| >= 2
    && walk[0] == Last(walk)
    && IsWalk(edges, walk)
  }

  ghost predicate IsWalk(edges: seq<Edge>, walk: seq<string>) {
    forall i :: 0 <= i < |walk| - 1 ==> Edge(walk[i], walk[i + 1]) in edges
  }

  ghost predicate HasCycle(edges: seq<Edge>) {
    exists walk :: IsCycle(edges, walk)
  }

  /** Every node once, and every edge's source strictly before its target. */
  ghost predicate TopologicalOrder(order: seq<string>, nodeIds: set<string>, edges: seq<Edge>) {
    && Distinct(order)
    && Elements(order) == nodeIds
    && SourcesFirst(order, edges)
  }

  ghost predicate SourcesFirst(order: seq<string>, edges: seq<Edge>) {
    forall j, e :: 0 <= j < |order| && e in edges && e.target == order[j] ==> e.source in order[..j]
  }

  /** Edges into `node` whose source is still outside `done`: the in-degree that is left. */
  function Pending(edges: seq<Edge>, done: set<string>, node: string): nat {
    if edges == [] then 0
    else Pending(Front(edges), done, node)
         + if Last(edges).target == node && Last(edges).source !in done then 1 else 0
  }

  lemma {:induction false} PendingWhenDone(edges: seq<Edge>, done: set<string>, u: string, node: string)
    requires u !in done
    ensures Pending(edges, done, node)
         == Pending(edges, done + {u}, node) + multiset(ChildrenOf(edges, u))[node]
  {
    if edges != [] {
      PendingWhenDone(Front(edges), done, u, node);
    }
  }

  lemma {:induction false} PendingZero(edges: seq<Edge>, done: set<string>, node: string)
    ensures Pending(edges, done, node) == 0
       <==> forall e :: e in edges && e.target == node ==> e.source in done
  {
    if edges != [] {
      PendingZero(Front(edges), done, node);
      assert edges == Front(edges) + [Last(edges)];
    }
  }

  lemma {:induction false} ChildrenKnown(nodeIds: set<string>, edges: seq<Edge>, u: string)
    requires AllKnown(nodeIds, edges)
    ensures forall v :: v in ChildrenOf(edges, u) ==> v in nodeIds
  {
    if edges != [] {
      assert Last(edges) in edges;
      assert forall e :: e in Front(edges) ==> e in edges;
      ChildrenKnown(nodeIds, Front(edges), u);
    }
  }

  /** `_detect_cycle`: the edge loop, the initial worklist and the pop loop. The three
      verdicts are exactly: an edge names an unknown node (the first such edge), the graph
      has a cycle, or the pop order is a topological order. */
  method DetectCycle(nodeIds: set<string>, edges: seq<Edge>)
    returns (verdict: Verdict, ghost order: seq<string>)
    ensures verdict.UnknownNode? <==> !AllKnown(nodeIds, edges)
    ensures verdict.UnknownNode? ==> FirstUnknown(nodeIds, edges, verdict.edge)
    ensures verdict.Cyclic? <==> AllKnown(nodeIds, edges) && HasCycle(edges)
    ensures verdict.Valid? ==> TopologicalOrder(order, nodeIds, edges)
  {
    var unknown, indegree, adjacency := BuildGraph(nodeIds, edges);
    if unknown.Some? {
      return UnknownNode(unknown.value), [];
    }
    var visited;
    visited, order := PopAll(nodeIds, edges, indegree, adjacency);
    if visited != |nodeIds| {
      return Cyclic, order;
    }
    forall walk ensures !IsCycle(edges, walk) {
      OrderExcludesCycle(order, nodeIds, edges, walk);
    }
    return Valid, order;
  }

  ghost predicate FirstUnknown(nodeIds: set<string>, edges: seq<Edge>, e: Edge) {
    exists i :: 0 <= i < |edges| && edges[i] == e && !Known(nodeIds, e) && AllKnown(nodeIds, edges[..i])
  }

  /** In-degrees and adjacency lists of the edges counted so far. */
  ghost predicate Tallied(nodeIds: set<string>, edges: seq<Edge>, indegree: map<string, int>,
                          adjacency: map<string, seq<string>>) {
    && indegree.Keys == nodeIds && adjacency.Keys == nodeIds
    && forall v :: v in nodeIds ==> indegree[v] == Pending(edges, {}, v) && adjacency[v] == ChildrenOf(edges, v)
  }

  lemma TallyOne(edges: seq<Edge>, edge: Edge, v: string)
    ensures Pending(edges + [edge], {}, v) == Pending(edges, {}, v) + if edge.target == v then 1 else 0
    ensures ChildrenOf(edges + [edge], v) == ChildrenOf(edges, v) + if edge.source == v then [edge.target] else []
  {
    assert Front(edges + [edge]) == edges;
  }

  lemma TallyEdge(nodeIds: set<string>, edges: seq<Edge>, edge: Edge, indegree: map<string, int>,
                  adjacency: map<string, seq<string>>)
    requires Tallied(nodeIds, edges, indegree, adjacency) && Known(nodeIds, edge)
    ensures Tallied(nodeIds, edges + [edge], indegree[edge.target := indegree[edge.target] + 1],
                    adjacency[edge.source := adjacency[edge.source] + [edge.target]])
  {
    forall v | v in nodeIds {
      TallyOne(edges, edge, v);
    }
  }

  method BuildGraph(nodeIds: set<string>, edges: seq<Edge>)
    returns (unknown: Option<Edge>, indegree: map<string, int>, adjacency: map<string, seq<string>>)
    ensures unknown.None? <==> AllKnown(nodeIds, edges)
    ensures unknown.Some? ==> FirstUnknown(nodeIds, edges, unknown.value)
    ensures unknown.None? ==> indegree.Keys == nodeIds && adjacency.Keys == nodeIds
    ensures unknown.None? ==> forall v :: v in nodeIds ==> indegree[v] == Pending(edges, {}, v)
    ensures unknown.None? ==> forall v :: v in nodeIds ==> adjacency[v] == ChildrenOf(edges, v)
  {
    indegree := map n | n in nodeIds :: 0;
    adjacency := map n | n in nodeIds :: [];
    for i := 0 to |edges|
      invariant AllKnown(nodeIds, edges[..i])
      invariant Tallied(nodeIds, edges[..i], indegree, adjacency)
    {
      var edge := edges[i];
      if edge.source !in nodeIds || edge.target !in nodeIds {
        assert edge in edges;
        return Some(edge), indegree, adjacency;
      }
      TallyEdge(nodeIds, edges[..i], edge, indegree, adjacency);
      assert edges[..i + 1] == edges[..i] + [edge];
      adjacency := adjacency[edge.source := adjacency[edge.source] + [edge.target]];
      indegree := indegree[edge.target := indegree[edge.target] + 1];
    }
    assert edges[..|edges|] == edges;
    return None, indegree, adjacency;
  }

  /** The pop loop: `visited` falls short of the node count exactly on a cycle. */
  method PopAll(nodeIds: set<string>, edges: seq<Edge>, degrees: map<string, int>,
                adjacency: map<string, seq<string>>)
    returns (visited: nat, ghost order: seq<string>)
    requires AllKnown(nodeIds, edges)
    requires degrees.Keys == nodeIds && adjacency.Keys == nodeIds
    requires forall v :: v in nodeIds ==> degrees[v] == Pending(edges, {}, v)
    requires forall v :: v in nodeIds ==> adjacency[v] == ChildrenOf(edges, v)
    ensures visited == |nodeIds| ==> TopologicalOrder(order, nodeIds, edges)
    ensures visited != |nodeIds| ==> HasCycle(edges)
  {
    order := [];
    var indegree := degrees;
    var queue := ZeroDegreeNodes(nodeIds, indegree);
    visited := 0;
    assert order + queue == queue && Elements(order) == {};
    while queue != []
      invariant visited == |order|
      invariant WorklistInvariant(nodeIds, edges, order, queue, indegree)
      decreases |nodeIds| - visited
    {
      visited := visited + 1;
      order, queue, indegree := Visit(nodeIds, edges, adjacency, order, queue, indegree);
    }
    assert order + queue == order;
    VisitedBound(nodeIds, edges, order, queue, indegree);
    if visited != |nodeIds| {
      StuckNodesHaveCycle(nodeIds, edges, order, indegree);
    }
  }

  /** One turn of the pop loop: take the last worklist entry and release its children. */
  method Visit(nodeIds: set<string>, edges: seq<Edge>, adjacency: map<string, seq<string>>,
               ghost order: seq<string>, queue: seq<string>, indegree: map<string, int>)
    returns (ghost order': seq<string>, queue': seq<string>, indegree': map<string, int>)
    requires WorklistInvariant(nodeIds, edges, order, queue, indegree) && queue != []
    requires adjacency.Keys == nodeIds
    requires forall v :: v in nodeIds ==> adjacency[v] == ChildrenOf(edges, v)
    ensures WorklistInvariant(nodeIds, edges, order', queue', indegree')
    ensures order' == order + [Last(queue)] && |order'| <= |nodeIds|
  {
    var current := Last(queue);
    PopKeepsInvariant(nodeIds, edges, order, queue, indegree);
    ChildrenKnown(nodeIds, edges, current);
    queue', indegree' := ReleaseChildren(adjacency[current], Front(queue), indegree);
    order' := order + [current];
    forall v ensures v in queue' <==>
        v in nodeIds && v !in order' && (indegree[v] == 0 || indegree'[v] == 0) {
      assert v in order' + Front(queue) <==> v in order' || v in Front(queue);
    }
    ReleaseKeepsInvariant(nodeIds, edges, order, current, indegree, queue', indegree');
    VisitedBound(nodeIds, edges, order', queue', indegree');
  }

  lemma VisitedBound(nodeIds: set<string>, edges: seq<Edge>, order: seq<string>,
                     queue: seq<string>, indegree: map<string, int>)
    requires WorklistInvariant(nodeIds, edges, order, queue, indegree)
    ensures |order| <= |nodeIds|
    ensures Distinct(order) && Elements(order) <= nodeIds
    ensures |order| == |nodeIds| <==> Elements(order) == nodeIds
  {
    forall i, j | 0 <= i < j < |order| ensures order[i] != order[j] {
      assert order[i] == (order + queue)[i] && order[j] == (order + queue)[j];
    }
    forall v | v in Elements(order) ensures v in nodeIds {
      assert v in order + queue;
    }
    DistinctCardinality(order);
    SubsetCardinality(Elements(order), nodeIds);
  }

  method ZeroDegreeNodes(nodeIds: set<string>, indegree: map<string, int>) returns (queue: seq<string>)
    requires indegree.Keys == nodeIds
    ensures Distinct(queue)
    ensures forall v :: v in queue <==> v in nodeIds && indegree[v] == 0
  {
    queue := [];
    var rest := nodeIds;
    while rest != {}
      invariant rest <= nodeIds
      invariant Distinct(queue)
      invariant forall v :: v in queue <==> v in nodeIds - rest && indegree[v] == 0
    {
      var n :| n in rest;
      rest := rest - {n};
      if indegree[n] == 0 {
        queue := queue + [n];
      }
    }
  }

  /** The inner loop: each child loses one in-degree per parallel edge and joins the
      worklist at the moment its count reaches zero. */
  method ReleaseChildren(children: seq<string>, queue: seq<string>, indegree: map<string, int>)
    returns (queue': seq<string>, indegree': map<string, int>)
    requires forall v :: v in children ==> v in indegree
    requires forall v :: v in indegree ==> indegree[v] >= multiset(children)[v]
    requires Distinct(queue)
    requires forall v :: v in queue ==> v in indegree && indegree[v] == 0
    ensures indegree'.Keys == indegree.Keys
    ensures forall v :: v in indegree ==> indegree'[v] == indegree[v] - multiset(children)[v]
    ensures Distinct(queue')
    ensures forall v :: v in queue' <==>
              v in queue || (v in indegree && indegree[v] > 0 && indegree'[v] == 0)
  {
    queue', indegree' := queue, indegree;
    for i := 0 to |children|
      invariant Released(indegree, queue, children[..i], indegree', queue')
    {
      var child := children[i];
      assert children[..i + 1] == children[..i] + [child];
      assert children == children[..i + 1] + children[i + 1..];
      assert multiset(children)[child] >= multiset(children[..i])[child] + 1;
      ReleaseOne(indegree, queue, children[..i], child, indegree', queue');
      indegree' := indegree'[child := indegree'[child] - 1];
      if indegree'[child] == 0 {
        queue' := queue' + [child];
      }
    }
    assert children[..|children|] == children;
  }

  /** What releasing the children `done` makes of the in-degrees and the worklist. */
  ghost predicate Released(indegree: map<string, int>, queue: seq<string>, done: seq<string>,
                           indegree': map<string, int>, queue': seq<string>) {
    && indegree'.Keys == indegree.Keys
    && (forall v :: v in indegree ==> indegree'[v] == indegree[v] - multiset(done)[v])
    && Distinct(queue')
    && forall v :: v in queue' <==> v in queue || (v in indegree && indegree[v] > 0 && indegree'[v] == 0)
  }

  lemma ReleaseOne(indegree: map<string, int>, queue: seq<string>, done: seq<string>, child: string,
                   indegree': map<string, int>, queue': seq<string>)
    requires Released(indegree, queue, done, indegree', queue')
    requires child in indegree && indegree[child] > multiset(done)[child]
    requires forall v :: v in queue ==> v in indegree && indegree[v] == 0
    ensures Released(indegree, queue, done + [child], indegree'[child := indegree'[child] - 1],
                     if indegree'[child] == 1 then queue' + [child] else queue')
  {
    assert multiset(done + [child]) == multiset(done) + multiset{child};
    if indegree'[child] == 1 {
      DistinctSnoc(queue', child);
    }
  }

  ghost predicate WorklistInvariant(nodeIds: set<string>, edges: seq<Edge>, order: seq<string>,
                                    queue: seq<string>, indegree: map<string, int>) {
    && AllKnown(nodeIds, edges)
    && indegree.Keys == nodeIds
    && Distinct(order + queue)
    && (forall v :: v in nodeIds ==> indegree[v] == Pending(edges, Elements(order), v))
    && (forall v :: v in order + queue <==> v in nodeIds && indegree[v] == 0)
    && SourcesFirst(order, edges)
  }

  lemma PopKeepsInvariant(nodeIds: set<string>, edges: seq<Edge>, order: seq<string>,
                          queue: seq<string>, indegree: map<string, int>)
    requires WorklistInvariant(nodeIds, edges, order, queue, indegree)
    requires queue != []
    ensures Last(queue) in nodeIds && Last(queue) !in order
    ensures Distinct(Front(queue)) && Distinct(order + [Last(queue)])
    ensures forall v :: v in order + [Last(queue)] + Front(queue) <==> v in nodeIds && indegree[v] == 0
    ensures forall v :: v in Front(queue) ==> v !in order + [Last(queue)]
    ensures forall v :: v in nodeIds ==> indegree[v] >= multiset(ChildrenOf(edges, Last(queue)))[v]
    ensures SourcesFirst(order + [Last(queue)], edges)
  {
    var current := Last(queue);
    MoveLast(order, queue);
    assert current in order + queue;
    forall v | v in nodeIds ensures indegree[v] >= multiset(ChildrenOf(edges, current))[v] {
      PendingWhenDone(edges, Elements(order), current, v);
    }
    ReadyNodeKeepsSourcesFirst(edges, order, current);
  }

  lemma DistinctParts(a: seq<string>, b: seq<string>)
    requires Distinct(a + b)
    ensures Distinct(a) && Distinct(b) && forall v :: v in b ==> v !in a
  {
    var all, n := a + b, |a|;
    assert forall i :: 0 <= i < |a| ==> a[i] == all[i];
    assert forall i :: 0 <= i < |b| ==> b[i] == all[n + i];
  }

  lemma DistinctSnoc(s: seq<string>, x: string)
    requires Distinct(s) && x !in s
    ensures Distinct(s + [x])
  {
  }

  lemma MoveLast(order: seq<string>, queue: seq<string>)
    requires Distinct(order + queue) && queue != []
    ensures Last(queue) !in order && Last(queue) in order + queue
    ensures Distinct(Front(queue)) && Distinct(order + [Last(queue)])
    ensures forall v :: v in Front(queue) ==> v !in order + [Last(queue)]
    ensures forall v :: v in order + [Last(queue)] + Front(queue) <==> v in order + queue
  {
    assert queue == Front(queue) + [Last(queue)];
    DistinctParts(order, queue);
    DistinctParts(Front(queue), [Last(queue)]);
    DistinctSnoc(order, Last(queue));
  }

  lemma ReadyNodeKeepsSourcesFirst(edges: seq<Edge>, order: seq<string>, current: string)
    requires SourcesFirst(order, edges) && Pending(edges, Elements(order), current) == 0
    ensures SourcesFirst(order + [current], edges)
  {
    PendingZero(edges, Elements(order), current);
    var order' := order + [current];
    forall j, e | 0 <= j < |order'| && e in edges && e.target == order'[j]
      ensures e.source in order'[..j]
    {
      assert order'[..j] == order[..j];
    }
  }

  lemma ReleaseKeepsInvariant(nodeIds: set<string>, edges: seq<Edge>, order: seq<string>, current: string,
                              before: map<string, int>, queue: seq<string>, indegree: map<string, int>)
    requires AllKnown(nodeIds, edges)
    requires before.Keys == nodeIds == indegree.Keys
    requires current in nodeIds && before[current] == 0 && current !in order
    requires Distinct(order + [current]) && Distinct(queue)
    requires forall v :: v in nodeIds ==> before[v] == Pending(edges, Elements(order), v)
    requires forall v :: v in nodeIds ==> indegree[v] == before[v] - multiset(ChildrenOf(edges, current))[v]
    requires forall v :: v in order ==> v in nodeIds && before[v] == 0
    requires forall v :: v in queue <==>
               v in nodeIds && v !in order + [current] && (before[v] == 0 || indegree[v] == 0)
    requires SourcesFirst(order + [current], edges)
    ensures WorklistInvariant(nodeIds, edges, order + [current], queue, indegree)
  {
    var order' := order + [current];
    assert Elements(order') == Elements(order) + {current};
    forall v | v in nodeIds ensures indegree[v] == Pending(edges, Elements(order'), v) {
      PendingWhenDone(edges, Elements(order), current, v);
    }
    forall v ensures v in order' + queue <==> v in nodeIds && indegree[v] == 0 {
      assert v in order' + queue <==> v in order' || v in queue;
    }
    forall i, j | 0 <= i < |order'| && 0 <= j < |queue| ensures order'[i] != queue[j] {
      assert queue[j] in queue && order'[i] in order';
    }
    assert Distinct(order' + queue);
  }

  /** When the worklist runs dry early, every node left has a predecessor that is left. */
  lemma StuckNodesHaveCycle(nodeIds: set<string>, edges: seq<Edge>, order: seq<string>, indegree: map<string, int>)
    requires WorklistInvariant(nodeIds, edges, order, [], indegree)
    requires Elements(order) < nodeIds
    ensures HasCycle(edges)
  {
    var stuck := nodeIds - Elements(order);
    forall v | v in stuck ensures HasPredecessorIn(stuck, edges, v) {
      assert v !in order + [];
      PendingZero(edges, Elements(order), v);
      var e :| e in edges && e.target == v && e.source !in order;
      assert Edge(e.source, v) in edges && e.source in stuck;
    }
    if stuck == {} {
      forall v | v in nodeIds ensures v in Elements(order) {
        assert v !in stuck;
      }
      assert false;
    }
    var start :| start in stuck;
    var walk := BackwardWalk(stuck, edges, [start]);
    assert IsCycle(edges, walk);
  }

  ghost predicate HasPredecessorIn(stuck: set<string>, edges: seq<Edge>, v: string) {
    exists u :: u in stuck && Edge(u, v) in edges
  }

  /** Walking backwards inside a finite set must revisit a node. */
  lemma {:induction false} BackwardWalk(stuck: set<string>, edges: seq<Edge>, path: seq<string>)
    returns (walk: seq<string>)
    requires forall v {:trigger HasPredecessorIn(stuck, edges, v)} :: v in stuck ==> HasPredecessorIn(stuck, edges, v)
    requires path != [] && Distinct(path) && Elements(path) <= stuck && IsWalk(edges, path)
    ensures IsCycle(edges, walk)
    decreases |stuck| - |path|
  {
    DistinctCardinality(path);
    SubsetCardinality(Elements(path), stuck);
    assert path[0] in stuck && HasPredecessorIn(stuck, edges, path[0]);
    var u :| u in stuck && Edge(u, path[0]) in edges;
    var longer := [u] + path;
    WalkGrows(edges, u, path);
    if u in path {
      walk := CloseWalk(edges, u, path);
    } else {
      DistinctCardinality(longer);
      assert Elements(longer) <= stuck;
      SubsetCardinality(Elements(longer), stuck);
      walk := BackwardWalk(stuck, edges, longer);
    }
  }

  lemma WalkGrows(edges: seq<Edge>, u: string, path: seq<string>)
    requires path != [] && IsWalk(edges, path) && Edge(u, path[0]) in edges
    ensures IsWalk(edges, [u] + path)
  {
    var longer := [u] + path;
    forall i | 0 <= i < |longer| - 1 ensures Edge(longer[i], longer[i + 1]) in edges {
      if i > 0 {
        assert longer[i] == path[i - 1] && longer[i + 1] == path[i - 1 + 1];
      }
    }
  }

  lemma CloseWalk(edges: seq<Edge>, u: string, path: seq<string>) returns (walk: seq<string>)
    requires IsWalk(edges, [u] + path) && u in path
    ensures IsCycle(edges, walk)
  {
    var longer := [u] + path;
    var k :| 0 <= k < |path| && path[k] == u;
    walk := longer[..k + 2];
    assert Last(walk) == longer[k + 1] == u;
    forall i | 0 <= i < |walk| - 1 ensures Edge(walk[i], walk[i + 1]) in edges {
      assert walk[i] == longer[i] && walk[i + 1] == longer[i + 1];
    }
  }

  ghost function Position(order: seq<string>, x: string): (i: nat)
    requires x in order
    ensures i < |order| && order[i] == x
  {
    var i :| 0 <= i < |order| && order[i] == x; i
  }

  lemma {:induction false} WalkAdvances(order: seq<string>, edges: seq<Edge>, walk: seq<string>)
    requires Distinct(order) && SourcesFirst(order, edges) && IsWalk(edges, walk) && walk != []
    requires forall x :: x in walk ==> x in order
    ensures Position(order, Last(walk)) >= Position(order, walk[0]) + |walk| - 1
  {
    if |walk| > 1 {
      var shorter := Front(walk);
      assert IsWalk(edges, shorter);
      WalkAdvances(order, edges, shorter);
      assert Edge(Last(shorter), Last(walk)) in edges;
      assert Last(shorter) in order[..Position(order, Last(walk))];
    }
  }

  lemma OrderExcludesCycle(order: seq<string>, nodeIds: set<string>, edges: seq<Edge>, walk: seq<string>)
    requires TopologicalOrder(order, nodeIds, edges) && AllKnown(nodeIds, edges)
    ensures !IsCycle(edges, walk)
  {
    if !IsCycle(edges, walk) {
      return;
    }
    forall x | x in walk ensures x in order {
      var i :| 0 <= i < |walk| && walk[i] == x;
      var j := if i == 0 then 0 else i - 1;
      assert Edge(walk[j], walk[j + 1]) in edges;
      assert x in Elements(order);
    }
    WalkAdvances(order, edges, walk);
  }
}
