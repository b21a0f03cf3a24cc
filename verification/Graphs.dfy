/**
 Workflow graphs: nodes, guarded edges with traversal caps, and the validation that
 every graph passes before it can be run.

 A node id is text; the ids the runtime and its controllers treat specially have
 constructors of their own. The key of an edge is the triple its text is rendered from.
 */
module Graphs {
  import opened Values
  import opened Conditions
  import opened Wrappers

  datatype NodeId =
    | Abort | Apply | CollectContext | Diagnose | Finish | Implement
    | Intake | Plan | PlanCheck | Repair | Review | Tests
    | Named(name: string)

  datatype NodeKind = Router | Llm | Tool | Verifier | Final

  datatype NodeSpec = NodeSpec(id: NodeId, kind: NodeKind, config: Fields, cacheable: bool, sideEffect: bool)

  /** `tag` is the label of the edge, or the text of its condition when it has no label. */
  datatype EdgeSpec = EdgeSpec(
    source: NodeId, target: NodeId, when: Condition, priority: int, maxTraversals: int, tag: string)
  {
    function Key(): EdgeKey {
      EdgeKey(source, target, tag)
    }
  }

  datatype EdgeKey = EdgeKey(source: NodeId, target: NodeId, tag: string)

  datatype GraphSpec = GraphSpec(
    name: string, version: string, start: NodeId, terminals: set<NodeId>,
    nodes: map<NodeId, NodeSpec>, edges: seq<EdgeSpec>)

  // ----- Validity, stated by paths -----

  predicate HasEdge(g: GraphSpec, a: NodeId, b: NodeId) {
    exists e | e in g.edges :: e.source == a && e.target == b
  }

  /** The nodes of `path` are joined by edges one after the other. */
  ghost predicate IsPath(g: GraphSpec, path: seq<NodeId>) {
    path != [] && forall i, j | 0 <= i < j < |path| && j == i + 1 :: HasEdge(g, path[i], path[j])
  }

  ghost predicate Reaches(g: GraphSpec, a: NodeId, b: NodeId) {
    exists path: seq<NodeId> :: IsPath(g, path) && path[0] == a && path[|path| - 1] == b
  }

  ghost predicate ReachesTerminal(g: GraphSpec, a: NodeId) {
    exists t | t in g.terminals :: Reaches(g, a, t)
  }

  predicate DistinctKeys(edges: seq<EdgeSpec>) {
    forall i, j | 0 <= i < j < |edges| :: edges[i].Key() != edges[j].Key()
  }

  lemma SameKeySameEdge(edges: seq<EdgeSpec>, e: EdgeSpec, f: EdgeSpec)
    requires DistinctKeys(edges) && e in edges && f in edges
    ensures e.Key() == f.Key() ==> e == f
  {
    var i :| 0 <= i < |edges| && edges[i] == e;
    var j :| 0 <= j < |edges| && edges[j] == f;
    assert i < j ==> edges[i].Key() != edges[j].Key();
    assert j < i ==> edges[j].Key() != edges[i].Key();
  }

  /** The edge a dictionary of edges by their keys holds: the last one with the key. */
  function EdgeBy(edges: seq<EdgeSpec>, key: EdgeKey): Option<EdgeSpec> {
    if edges == [] then None
    else
      var last := edges[|edges| - 1];
      if last.Key() == key then Some(last) else EdgeBy(edges[..|edges| - 1], key)
  }

  lemma {:induction false} EdgeByMeans(edges: seq<EdgeSpec>, key: EdgeKey)
    ensures EdgeBy(edges, key).Some? <==> exists e | e in edges :: e.Key() == key
    ensures match EdgeBy(edges, key)
            case Some(e) => exists i :: 0 <= i < |edges| && edges[i] == e && e.Key() == key
            case None => forall i | 0 <= i < |edges| :: edges[i].Key() != key
    decreases |edges|
  {
    if edges != [] {
      EdgeByMeans(edges[..|edges| - 1], key);
      assert edges == edges[..|edges| - 1] + [edges[|edges| - 1]];
    }
  }

  /** The checks the model layer makes on one node or one edge. */
  predicate WellFormedNode(key: NodeId, node: NodeSpec) {
    node.id == key && !(node.sideEffect && node.cacheable)
  }

  predicate WellFormedEdge(g: GraphSpec, e: EdgeSpec) {
    e.source in g.nodes && e.target in g.nodes && e.source !in g.terminals && e.maxTraversals >= 1
  }

  predicate WellFormedNodes(g: GraphSpec) {
    && g.start in g.nodes
    && g.terminals <= g.nodes.Keys
    && forall n | n in g.nodes :: WellFormedNode(n, g.nodes[n])
  }

  predicate WellFormedEdges(g: GraphSpec) {
    (forall i | 0 <= i < |g.edges| :: WellFormedEdge(g, g.edges[i])) && DistinctKeys(g.edges)
  }

  predicate WellFormed(g: GraphSpec) {
    && WellFormedNodes(g)
    && WellFormedEdges(g)
  }

  predicate HasSuccessor(g: GraphSpec, n: NodeId) {
    exists m | m in g.nodes :: HasEdge(g, n, m)
  }

  /** A node lies on a path from the start and on a path to a terminal. */
  ghost predicate Useful(g: GraphSpec, n: NodeId) {
    && (n in g.terminals || HasSuccessor(g, n))
    && Reaches(g, g.start, n)
    && ReachesTerminal(g, n)
  }

  ghost predicate ValidGraph(g: GraphSpec) {
    WellFormed(g) && forall n {:trigger Useful(g, n)} | n in g.nodes :: Useful(g, n)
  }

  // ----- Outgoing edges, in priority order -----

  function EdgesFrom(edges: seq<EdgeSpec>, node: NodeId): seq<EdgeSpec> {
    if edges == [] then []
    else (if edges[0].source == node then [edges[0]] else []) + EdgesFrom(edges[1..], node)
  }

  /** A stable descending insertion: `e` goes before the first edge of no higher priority. */
  function InsertByPriority(e: EdgeSpec, sorted: seq<EdgeSpec>): seq<EdgeSpec> {
    if sorted == [] || sorted[0].priority <= e.priority then [e] + sorted
    else [sorted[0]] + InsertByPriority(e, sorted[1..])
  }

  function SortByPriority(edges: seq<EdgeSpec>): seq<EdgeSpec> {
    if edges == [] then [] else InsertByPriority(edges[0], SortByPriority(edges[1..]))
  }

  /** `GraphSpec.outgoing`: the edges leaving a node, highest priority first. */
  function Outgoing(g: GraphSpec, node: NodeId): seq<EdgeSpec> {
    SortByPriority(EdgesFrom(g.edges, node))
  }

  predicate ByPriority(edges: seq<EdgeSpec>) {
    forall i, j | 0 <= i < j < |edges| :: edges[i].priority >= edges[j].priority
  }

  /** The edges of one priority level, in order. */
  function AtLevel(edges: seq<EdgeSpec>, priority: int): seq<EdgeSpec> {
    if edges == [] then []
    else (if edges[0].priority == priority then [edges[0]] else []) + AtLevel(edges[1..], priority)
  }

  lemma {:induction false} InsertMembers(e: EdgeSpec, sorted: seq<EdgeSpec>)
    ensures multiset(InsertByPriority(e, sorted)) == multiset{e} + multiset(sorted)
    decreases |sorted|
  {
    if sorted != [] && sorted[0].priority > e.priority {
      InsertMembers(e, sorted[1..]);
      assert sorted == [sorted[0]] + sorted[1..];
    }
  }

  lemma {:induction false} InsertSorted(e: EdgeSpec, sorted: seq<EdgeSpec>)
    requires ByPriority(sorted)
    ensures ByPriority(InsertByPriority(e, sorted))
    decreases |sorted|
  {
    if sorted != [] && sorted[0].priority > e.priority {
      var rest := InsertByPriority(e, sorted[1..]);
      InsertSorted(e, sorted[1..]);
      InsertMembers(e, sorted[1..]);
      forall i | 0 <= i < |rest|
        ensures rest[i].priority <= sorted[0].priority
      {
        assert rest[i] in multiset(rest);
        assert rest[i] == e || rest[i] in sorted[1..];
      }
    }
  }

  lemma {:induction false} InsertLevel(e: EdgeSpec, sorted: seq<EdgeSpec>, priority: int)
    ensures AtLevel(InsertByPriority(e, sorted), priority)
         == (if e.priority == priority then [e] else []) + AtLevel(sorted, priority)
    decreases |sorted|
  {
    if sorted == [] || sorted[0].priority <= e.priority {
      LevelOfMore(e, sorted, priority);
    } else {
      InsertLevel(e, sorted[1..], priority);
      LevelOfMore(sorted[0], InsertByPriority(e, sorted[1..]), priority);
    }
  }

  lemma LevelOfMore(e: EdgeSpec, edges: seq<EdgeSpec>, priority: int)
    ensures AtLevel([e] + edges, priority) == (if e.priority == priority then [e] else []) + AtLevel(edges, priority)
  {
    assert ([e] + edges)[1..] == edges;
  }

  lemma {:induction false} SortKeeps(edges: seq<EdgeSpec>, priority: int)
    ensures ByPriority(SortByPriority(edges))
    ensures multiset(SortByPriority(edges)) == multiset(edges)
    ensures AtLevel(SortByPriority(edges), priority) == AtLevel(edges, priority)
    decreases |edges|
  {
    if edges != [] {
      SortKeeps(edges[1..], priority);
      var sorted := SortByPriority(edges[1..]);
      InsertMembers(edges[0], sorted);
      InsertSorted(edges[0], sorted);
      InsertLevel(edges[0], sorted, priority);
      assert edges == [edges[0]] + edges[1..];
    }
  }

  lemma {:induction false} EdgesFromMembers(edges: seq<EdgeSpec>, node: NodeId)
    ensures forall e :: e in EdgesFrom(edges, node) <==> e in edges && e.source == node
    decreases |edges|
  {
    if edges != [] {
      EdgesFromMembers(edges[1..], node);
      assert edges == [edges[0]] + edges[1..];
    }
  }

  /**
   The outgoing edges of a node are exactly the graph's edges with that source, in
   descending priority, and edges of one priority keep the order they have in the graph.
   */
  lemma OutgoingIsStableSort(g: GraphSpec, node: NodeId, priority: int)
    ensures forall e :: e in Outgoing(g, node) <==> e in g.edges && e.source == node
    ensures multiset(Outgoing(g, node)) == multiset(EdgesFrom(g.edges, node))
    ensures ByPriority(Outgoing(g, node))
    ensures AtLevel(Outgoing(g, node), priority) == AtLevel(EdgesFrom(g.edges, node), priority)
  {
    EdgesFromMembers(g.edges, node);
    SortKeeps(EdgesFrom(g.edges, node), priority);
    forall e
      ensures e in Outgoing(g, node) <==> e in EdgesFrom(g.edges, node)
    {
      assert e in multiset(Outgoing(g, node)) <==> e in multiset(EdgesFrom(g.edges, node));
    }
  }

  // ----- Worklists -----

  type Links = map<NodeId, seq<NodeId>>

  /** `b` is a successor of `a` in the link table. */
  predicate Linked(links: Links, a: NodeId, b: NodeId) {
    a in links && b in links[a]
  }

  ghost predicate IsTrail(links: Links, trail: seq<NodeId>) {
    trail != [] && forall i, j | 0 <= i < j < |trail| && j == i + 1 :: Linked(links, trail[i], trail[j])
  }

  /** Some trail leads from a seed to `n`. */
  ghost predicate Found(links: Links, seeds: set<NodeId>, n: NodeId) {
    exists trail: seq<NodeId> :: IsTrail(links, trail) && trail[0] in seeds && trail[|trail| - 1] == n
  }

  ghost predicate Closes(links: Links, origin: set<NodeId>, seen: set<NodeId>) {
    forall n :: n in seen <==> Found(links, origin, n)
  }

  lemma FoundExtends(links: Links, seeds: set<NodeId>, a: NodeId, b: NodeId)
    requires Found(links, seeds, a) && Linked(links, a, b)
    ensures Found(links, seeds, b)
  {
    var trail :| IsTrail(links, trail) && trail[0] in seeds && trail[|trail| - 1] == a;
    var longer := trail + [b];
    assert IsTrail(links, longer) && longer[|longer| - 1] == b;
  }

  /** A set that holds the seeds and is closed under the links holds everything found. */
  lemma {:induction false} ClosedHoldsFound(links: Links, closed: set<NodeId>, trail: seq<NodeId>)
    requires forall a, b :: a in closed && Linked(links, a, b) ==> b in closed
    requires IsTrail(links, trail) && trail[0] in closed
    ensures trail[|trail| - 1] in closed
    decreases |trail|
  {
    if |trail| > 1 {
      var shorter := trail[..|trail| - 1];
      assert IsTrail(links, shorter);
      ClosedHoldsFound(links, closed, shorter);
      assert Linked(links, trail[|trail| - 2], trail[|trail| - 1]);
    }
  }

  predicate LinksWithin(links: Links, universe: set<NodeId>) {
    forall a | a in links :: forall i | 0 <= i < |links[a]| :: links[a][i] in universe
  }

  /** The inner loop of the worklist: unseen targets are recorded and queued. */
  method Visit(targets: seq<NodeId>, seen: set<NodeId>, frontier: seq<NodeId>)
    returns (wider: set<NodeId>, queue: seq<NodeId>)
    ensures forall n :: n in wider <==> n in seen || n in targets
    ensures forall n :: n in queue <==> n in frontier || (n in targets && n !in seen)
    ensures wider == seen ==> queue == frontier
  {
    wider, queue := seen, frontier;
    for i := 0 to |targets|
      invariant forall n :: n in wider <==> n in seen || n in targets[..i]
      invariant forall n :: n in queue <==> n in frontier || (n in targets[..i] && n !in seen)
      invariant wider == seen ==> queue == frontier
    {
      assert targets[..i + 1] == targets[..i] + [targets[i]];
      if targets[i] !in wider {
        wider := wider + {targets[i]};
        queue := queue + [targets[i]];
      }
    }
    assert targets[..|targets|] == targets;
  }

  ghost predicate WorklistInvariant(links: Links, origin: set<NodeId>, seen: set<NodeId>, frontier: seq<NodeId>) {
    && origin <= seen
    && (forall n :: n in frontier ==> n in seen)
    && (forall n :: n in seen ==> Found(links, origin, n))
    && (forall a, b :: a in seen && a !in frontier && Linked(links, a, b) ==> b in seen)
  }

  lemma VisitKeeps(links: Links, origin: set<NodeId>, seen: set<NodeId>, frontier: seq<NodeId>,
                   wider: set<NodeId>, queue: seq<NodeId>)
    requires frontier != [] && frontier[|frontier| - 1] in links
    requires WorklistInvariant(links, origin, seen, frontier)
    requires var targets := links[frontier[|frontier| - 1]];
             && (forall n :: n in wider <==> n in seen || n in targets)
             && forall n :: n in queue <==> n in frontier[..|frontier| - 1] || (n in targets && n !in seen)
    ensures WorklistInvariant(links, origin, wider, queue)
  {
    var current := frontier[|frontier| - 1];
    var popped := frontier[..|frontier| - 1];
    assert frontier == popped + [current];
    forall n | n in wider ensures Found(links, origin, n) {
      if n !in seen {
        assert Linked(links, current, n);
        FoundExtends(links, origin, current, n);
      }
    }
  }

  lemma VisitAdvances(universe: set<NodeId>, targets: seq<NodeId>, seen: set<NodeId>, frontier: seq<NodeId>,
                      wider: set<NodeId>, queue: seq<NodeId>)
    requires frontier != [] && seen <= universe
    requires forall i | 0 <= i < |targets| :: targets[i] in universe
    requires forall n :: n in wider <==> n in seen || n in targets
    requires wider == seen ==> queue == frontier[..|frontier| - 1]
    ensures wider <= universe
    ensures universe - wider < universe - seen || (universe - wider == universe - seen && |queue| < |frontier|)
  {
    if wider != seen {
      var n :| n in wider && n !in seen;
      assert n in universe - seen && n !in universe - wider;
    }
  }

  lemma SeedsFound(links: Links, origin: set<NodeId>)
    ensures forall n :: n in origin ==> Found(links, origin, n)
  {
    forall n | n in origin ensures Found(links, origin, n) {
      assert IsTrail(links, [n]);
    }
  }

  lemma WorklistDone(links: Links, origin: set<NodeId>, seen: set<NodeId>)
    requires WorklistInvariant(links, origin, seen, [])
    ensures Closes(links, origin, seen)
  {
    forall n | Found(links, origin, n) ensures n in seen {
      var trail :| IsTrail(links, trail) && trail[0] in origin && trail[|trail| - 1] == n;
      ClosedHoldsFound(links, seen, trail);
    }
  }

  /** The worklist loop of the validator: everything the links lead to from the seeds. */
  method Closure(links: Links, seeds: seq<NodeId>, universe: set<NodeId>) returns (seen: set<NodeId>)
    requires forall s :: s in seeds ==> s in universe
    requires universe <= links.Keys
    requires LinksWithin(links, universe)
    ensures Closes(links, (set s | s in seeds), seen)
  {
    ghost var origin := set s | s in seeds;
    seen := set s | s in seeds;
    var frontier := seeds;
    SeedsFound(links, origin);
    while frontier != []
      invariant seen <= universe
      invariant WorklistInvariant(links, origin, seen, frontier)
      decreases universe - seen, |frontier|
    {
      var current := frontier[|frontier| - 1];
      var wider, queue := Visit(links[current], seen, frontier[..|frontier| - 1]);
      VisitKeeps(links, origin, seen, frontier, wider, queue);
      VisitAdvances(universe, links[current], seen, frontier, wider, queue);
      seen, frontier := wider, queue;
    }
    WorklistDone(links, origin, seen);
  }

  // ----- Validation -----

  /** The tables list exactly the first `count` edges, forwards and backwards. */
  ghost predicate Tabulates(g: GraphSpec, count: nat, adjacency: Links, reverse: Links)
    requires count <= |g.edges|
  {
    && adjacency.Keys == reverse.Keys == g.nodes.Keys
    && LinksWithin(adjacency, g.nodes.Keys)
    && LinksWithin(reverse, g.nodes.Keys)
    && (forall a, b :: Linked(adjacency, a, b) <==> Joins(g.edges[..count], a, b))
    && (forall a, b :: Linked(reverse, b, a) <==> Joins(g.edges[..count], a, b))
  }

  predicate Joins(edges: seq<EdgeSpec>, a: NodeId, b: NodeId) {
    exists e | e in edges :: e.source == a && e.target == b
  }

  lemma TabulatesNext(g: GraphSpec, count: nat, adjacency: Links, reverse: Links, e: EdgeSpec)
    requires count < |g.edges| && e == g.edges[count] && e.source in g.nodes && e.target in g.nodes
    requires Tabulates(g, count, adjacency, reverse)
    ensures Tabulates(g, count + 1, adjacency[e.source := adjacency[e.source] + [e.target]],
                      reverse[e.target := reverse[e.target] + [e.source]])
  {
    assert g.edges[..count + 1] == g.edges[..count] + [e];
    forall a, b
      ensures Joins(g.edges[..count + 1], a, b) <==> Joins(g.edges[..count], a, b) || (a == e.source && b == e.target)
    {
      if Joins(g.edges[..count], a, b) {
        var f :| f in g.edges[..count] && f.source == a && f.target == b;
        assert f in g.edges[..count + 1];
      }
      assert e in g.edges[..count + 1];
    }
    var wider := adjacency[e.source := adjacency[e.source] + [e.target]];
    forall a, b
      ensures Linked(wider, a, b) <==> Linked(adjacency, a, b) || (a == e.source && b == e.target)
    {
    }
    var deeper := reverse[e.target := reverse[e.target] + [e.source]];
    forall a, b
      ensures Linked(deeper, b, a) <==> Linked(reverse, b, a) || (a == e.source && b == e.target)
    {
    }
  }

  lemma TrailIsPath(g: GraphSpec, adjacency: Links, reverse: Links, trail: seq<NodeId>)
    requires Tabulates(g, |g.edges|, adjacency, reverse)
    ensures IsTrail(adjacency, trail) <==> IsPath(g, trail)
  {
    assert g.edges[..|g.edges|] == g.edges;
    if IsTrail(adjacency, trail) {
      forall i, j | 0 <= i < j < |trail| && j == i + 1 ensures HasEdge(g, trail[i], trail[j]) {
        assert Linked(adjacency, trail[i], trail[j]);
        assert Joins(g.edges, trail[i], trail[j]);
      }
    }
    if IsPath(g, trail) {
      forall i, j | 0 <= i < j < |trail| && j == i + 1 ensures Linked(adjacency, trail[i], trail[j]) {
        assert HasEdge(g, trail[i], trail[j]);
        assert Joins(g.edges, trail[i], trail[j]);
      }
    }
  }

  /** Trails through the adjacency table are the paths of the graph. */
  lemma TrailsArePaths(g: GraphSpec, adjacency: Links, reverse: Links, n: NodeId)
    requires Tabulates(g, |g.edges|, adjacency, reverse)
    ensures Found(adjacency, {g.start}, n) <==> Reaches(g, g.start, n)
  {
    if Found(adjacency, {g.start}, n) {
      var trail :| IsTrail(adjacency, trail) && trail[0] in {g.start} && trail[|trail| - 1] == n;
      TrailIsPath(g, adjacency, reverse, trail);
    }
    if Reaches(g, g.start, n) {
      var path :| IsPath(g, path) && path[0] == g.start && path[|path| - 1] == n;
      TrailIsPath(g, adjacency, reverse, path);
    }
  }

  function Reversed(path: seq<NodeId>): seq<NodeId> {
    seq(|path|, i requires 0 <= i < |path| => path[|path| - 1 - i])
  }

  lemma ReversedTrail(g: GraphSpec, adjacency: Links, reverse: Links, trail: seq<NodeId>)
    requires Tabulates(g, |g.edges|, adjacency, reverse)
    requires trail != []
    ensures IsTrail(reverse, trail) <==> IsPath(g, Reversed(trail))
  {
    assert g.edges[..|g.edges|] == g.edges;
    var path := Reversed(trail);
    if IsTrail(reverse, trail) {
      forall i, j | 0 <= i < j < |path| && j == i + 1 ensures HasEdge(g, path[i], path[j]) {
        assert Linked(reverse, trail[|trail| - 1 - j], trail[|trail| - 1 - i]);
        assert Joins(g.edges, path[i], path[j]);
      }
    }
    if IsPath(g, path) {
      forall i, j | 0 <= i < j < |trail| && j == i + 1 ensures Linked(reverse, trail[i], trail[j]) {
        assert HasEdge(g, path[|path| - 1 - j], path[|path| - 1 - i]);
        assert Joins(g.edges, trail[j], trail[i]);
      }
    }
  }

  /** Trails through the reverse table are paths to a terminal, read backwards. */
  lemma BackwardTrailsArePaths(g: GraphSpec, adjacency: Links, reverse: Links, n: NodeId)
    requires Tabulates(g, |g.edges|, adjacency, reverse)
    ensures Found(reverse, g.terminals, n) <==> ReachesTerminal(g, n)
  {
    if Found(reverse, g.terminals, n) {
      var trail :| IsTrail(reverse, trail) && trail[0] in g.terminals && trail[|trail| - 1] == n;
      ReversedTrail(g, adjacency, reverse, trail);
      var path := Reversed(trail);
      assert IsPath(g, path) && path[0] == n && path[|path| - 1] == trail[0];
      assert Reaches(g, n, trail[0]);
    }
    if ReachesTerminal(g, n) {
      var t :| t in g.terminals && Reaches(g, n, t);
      var path :| IsPath(g, path) && path[0] == n && path[|path| - 1] == t;
      var trail := Reversed(path);
      assert Reversed(trail) == path;
      ReversedTrail(g, adjacency, reverse, trail);
      assert IsTrail(reverse, trail) && trail[0] == t && trail[|trail| - 1] == n;
    }
  }

  /** The first loop of `validate_graph`: every edge is checked and tabulated, in order. */
  method CheckEdges(g: GraphSpec) returns (ok: bool, adjacency: Links, reverse: Links)
    ensures ok <==> WellFormedEdges(g)
    ensures ok ==> Tabulates(g, |g.edges|, adjacency, reverse)
  {
    var keys: set<EdgeKey> := {};
    adjacency := map n | n in g.nodes :: [];
    reverse := map n | n in g.nodes :: [];
    for i := 0 to |g.edges|
      invariant forall j | 0 <= j < i :: WellFormedEdge(g, g.edges[j])
      invariant DistinctKeys(g.edges[..i])
      invariant forall k :: k in keys <==> exists j | 0 <= j < i :: g.edges[j].Key() == k
      invariant Tabulates(g, i, adjacency, reverse)
    {
      var e := g.edges[i];
      if !WellFormedEdge(g, e) {
        return false, adjacency, reverse;
      }
      if e.Key() in keys {
        var j :| 0 <= j < i && g.edges[j].Key() == e.Key();
        assert !DistinctKeys(g.edges);
        return false, adjacency, reverse;
      }
      assert g.edges[..i + 1] == g.edges[..i] + [e];
      TabulatesNext(g, i, adjacency, reverse, e);
      keys := keys + {e.Key()};
      adjacency := adjacency[e.source := adjacency[e.source] + [e.target]];
      reverse := reverse[e.target := reverse[e.target] + [e.source]];
    }
    assert g.edges[..|g.edges|] == g.edges;
    return true, adjacency, reverse;
  }

  lemma SuccessorTabulated(g: GraphSpec, adjacency: Links, reverse: Links, n: NodeId)
    requires n in g.nodes
    requires Tabulates(g, |g.edges|, adjacency, reverse)
    ensures adjacency[n] != [] <==> HasSuccessor(g, n)
  {
    assert g.edges[..|g.edges|] == g.edges;
    if adjacency[n] != [] {
      var m := adjacency[n][0];
      assert Linked(adjacency, n, m);
      assert HasEdge(g, n, m);
    }
    if m :| m in g.nodes && HasEdge(g, n, m) {
      assert Joins(g.edges, n, m);
      assert Linked(adjacency, n, m);
    }
  }

  /** What the validator reads off its tables about one node. */
  ghost predicate TablesAccept(g: GraphSpec, adjacency: Links, reverse: Links, n: NodeId)
    requires n in adjacency
  {
    && (n in g.terminals || adjacency[n] != [])
    && Found(adjacency, {g.start}, n)
    && Found(reverse, g.terminals, n)
  }

  lemma TablesDecide(g: GraphSpec, adjacency: Links, reverse: Links, n: NodeId)
    requires n in g.nodes
    requires Tabulates(g, |g.edges|, adjacency, reverse)
    ensures TablesAccept(g, adjacency, reverse, n) <==> Useful(g, n)
  {
    SuccessorTabulated(g, adjacency, reverse, n);
    TrailsArePaths(g, adjacency, reverse, n);
    BackwardTrailsArePaths(g, adjacency, reverse, n);
  }

  ghost predicate AllFound(links: Links, seeds: set<NodeId>, universe: set<NodeId>) {
    forall n {:trigger Found(links, seeds, n)} | n in universe :: Found(links, seeds, n)
  }

  predicate NoDeadEnds(g: GraphSpec, adjacency: Links)
    requires adjacency.Keys == g.nodes.Keys
  {
    forall n | n in g.nodes && n !in g.terminals :: adjacency[n] != []
  }

  ghost function AcceptedIn(g: GraphSpec, adjacency: Links, reverse: Links): set<NodeId>
    requires adjacency.Keys == g.nodes.Keys
  {
    set n | n in g.nodes && TablesAccept(g, adjacency, reverse, n)
  }

  ghost function UsefulIn(g: GraphSpec): set<NodeId> {
    set n | n in g.nodes && Useful(g, n)
  }

  lemma AllAccepted(g: GraphSpec, adjacency: Links, reverse: Links)
    requires adjacency.Keys == g.nodes.Keys
    ensures AcceptedIn(g, adjacency, reverse) == g.nodes.Keys
       <==> NoDeadEnds(g, adjacency) && AllFound(adjacency, {g.start}, g.nodes.Keys)
            && AllFound(reverse, g.terminals, g.nodes.Keys)
  {
    if AcceptedIn(g, adjacency, reverse) == g.nodes.Keys {
      forall n | n in g.nodes
        ensures n in g.terminals || adjacency[n] != []
        ensures Found(adjacency, {g.start}, n) && Found(reverse, g.terminals, n)
      {
        assert n in AcceptedIn(g, adjacency, reverse);
      }
    }
  }

  lemma AllUseful(g: GraphSpec)
    ensures ValidGraph(g) <==> WellFormed(g) && UsefulIn(g) == g.nodes.Keys
  {
    if UsefulIn(g) == g.nodes.Keys {
      forall n | n in g.nodes
        ensures Useful(g, n)
      {
        assert n in UsefulIn(g);
      }
    }
  }

  lemma AcceptedAreUseful(g: GraphSpec, adjacency: Links, reverse: Links)
    requires Tabulates(g, |g.edges|, adjacency, reverse)
    ensures AcceptedIn(g, adjacency, reverse) == UsefulIn(g)
  {
    forall n | n in g.nodes
      ensures n in AcceptedIn(g, adjacency, reverse) <==> n in UsefulIn(g)
    {
      TablesDecide(g, adjacency, reverse, n);
    }
  }

  lemma TablesDecideAll(g: GraphSpec, adjacency: Links, reverse: Links)
    requires Tabulates(g, |g.edges|, adjacency, reverse)
    ensures (WellFormed(g) && NoDeadEnds(g, adjacency) && AllFound(adjacency, {g.start}, g.nodes.Keys)
             && AllFound(reverse, g.terminals, g.nodes.Keys))
            <==> ValidGraph(g)
  {
    AcceptedAreUseful(g, adjacency, reverse);
    AllAccepted(g, adjacency, reverse);
    AllUseful(g);
  }

  lemma ClosureDecides(links: Links, origin: set<NodeId>, seen: set<NodeId>, universe: set<NodeId>)
    requires Closes(links, origin, seen)
    ensures universe <= seen <==> AllFound(links, origin, universe)
  {
  }

  /**
   `validate_graph` accepts exactly the valid graphs: the node and edge checks hold, every
   node is reachable from the start and every node can reach a terminal.
   */
  method ValidateGraph(g: GraphSpec) returns (ok: bool)
    ensures ok <==> ValidGraph(g)
  {
    if !WellFormedNodes(g) {
      return false;
    }
    var edgesOk, adjacency, reverse := CheckEdges(g);
    if !edgesOk {
      return false;
    }
    TablesDecideAll(g, adjacency, reverse);
    if !NoDeadEnds(g, adjacency) {
      return false;
    }
    var reachable := Closure(adjacency, [g.start], g.nodes.Keys);
    assert (set s | s in [g.start]) == {g.start};
    ClosureDecides(adjacency, {g.start}, reachable, g.nodes.Keys);
    if !(g.nodes.Keys <= reachable) {
      return false;
    }
    var terminals := Listed(g.terminals);
    var finishing := Closure(reverse, terminals, g.nodes.Keys);
    ClosureDecides(reverse, g.terminals, finishing, g.nodes.Keys);
    return g.nodes.Keys <= finishing;
  }

  method Listed(nodes: set<NodeId>) returns (list: seq<NodeId>)
    ensures nodes == set n | n in list
  {
    list := [];
    var rest := nodes;
    while rest != {}
      invariant rest <= nodes
      invariant nodes - rest == set n | n in list
      decreases rest
    {
      var n :| n in rest;
      assert (set m | m in list + [n]) == (set m | m in list) + {n};
      list := list + [n];
      rest := rest - {n};
    }
  }
}
