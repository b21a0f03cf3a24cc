/**
 Compiled graph tables: the nodes and edges of a graph in the order of their texts, by which
 controllers index their decisions. Compiling forgets the order edges were listed in and
 nothing else.
 */
module GraphTables {
  import opened Graphs
  import opened Mutations
  import opened Conditions
  import opened Wrappers

  /** The order of edge texts, and of node texts: any strict total orders. */
  datatype Texts = Texts(edgeBefore: (EdgeKey, EdgeKey) -> bool, nodeBefore: (NodeId, NodeId) -> bool)

  ghost predicate Strict<T(!new)>(before: (T, T) -> bool) {
    && (forall a :: !before(a, a))
    && (forall a, b, c {:trigger before(a, b), before(b, c)} :: before(a, b) && before(b, c) ==> before(a, c))
  }

  /** Any two of the members, which are then distinct, are in some order. */
  predicate Comparable<T>(xs: seq<T>, before: (T, T) -> bool) {
    forall i, j | 0 <= i < j < |xs| :: before(xs[i], xs[j]) || before(xs[j], xs[i])
  }

  datatype Tables = Tables(
    name: string, version: string, nodeIds: seq<NodeId>, edgeKeys: seq<EdgeKey>,
    sources: seq<nat>, targets: seq<nat>, priorities: seq<int>, maxTraversals: seq<int>, conditions: seq<Condition>,
    allowed: seq<seq<bool>>, terminal: seq<bool>)

  // ----- Sorting -----

  function Insert<T>(x: T, sorted: seq<T>, before: (T, T) -> bool): seq<T> {
    if sorted == [] || before(x, sorted[0]) then [x] + sorted else [sorted[0]] + Insert(x, sorted[1..], before)
  }

  /** `sorted`. */
  function Sort<T>(xs: seq<T>, before: (T, T) -> bool): seq<T> {
    if xs == [] then [] else Insert(xs[0], Sort(xs[1..], before), before)
  }

  ghost predicate Ascending<T>(xs: seq<T>, before: (T, T) -> bool) {
    forall i, j | 0 <= i < j < |xs| :: before(xs[i], xs[j])
  }

  lemma {:induction false} InsertKeeps<T>(x: T, sorted: seq<T>, before: (T, T) -> bool)
    ensures multiset(Insert(x, sorted, before)) == multiset(sorted) + multiset{x}
    decreases |sorted|
  {
    if sorted != [] && !before(x, sorted[0]) {
      InsertKeeps(x, sorted[1..], before);
      assert sorted == [sorted[0]] + sorted[1..];
    }
  }

  lemma {:induction false} SortKeeps<T>(xs: seq<T>, before: (T, T) -> bool)
    ensures multiset(Sort(xs, before)) == multiset(xs)
    decreases |xs|
  {
    if xs != [] {
      SortKeeps(xs[1..], before);
      InsertKeeps(xs[0], Sort(xs[1..], before), before);
      assert xs == [xs[0]] + xs[1..];
    }
  }

  lemma {:induction false} InsertSorts<T(!new)>(x: T, sorted: seq<T>, before: (T, T) -> bool)
    requires Strict(before) && Ascending(sorted, before)
    requires forall y | y in sorted :: before(x, y) || before(y, x)
    ensures Ascending(Insert(x, sorted, before), before)
    decreases |sorted|
  {
    if sorted != [] {
      assert sorted[0] in sorted;
      if before(x, sorted[0]) {
        forall j | 0 <= j < |sorted|
          ensures before(x, sorted[j])
        {
          assert j > 0 ==> before(sorted[0], sorted[j]);
        }
      } else {
        var rest := Insert(x, sorted[1..], before);
        InsertSorts(x, sorted[1..], before);
        InsertKeeps(x, sorted[1..], before);
        forall j | 0 <= j < |rest|
          ensures before(sorted[0], rest[j])
        {
          assert rest[j] in multiset(rest);
          assert rest[j] == x || rest[j] in sorted[1..];
        }
      }
    }
  }

  lemma {:induction false} SortSorts<T(!new)>(xs: seq<T>, before: (T, T) -> bool)
    requires Strict(before) && Comparable(xs, before)
    ensures Ascending(Sort(xs, before), before)
    decreases |xs|
  {
    if xs != [] {
      var rest := xs[1..];
      SortSorts(rest, before);
      SortKeeps(rest, before);
      forall y | y in Sort(rest, before)
        ensures before(xs[0], y) || before(y, xs[0])
      {
        assert y in multiset(rest);
        var i :| 0 <= i < |rest| && rest[i] == y;
        assert xs[i + 1] == y;
      }
      InsertSorts(xs[0], Sort(rest, before), before);
    }
  }

  lemma FirstIsLeast<T(!new)>(a: seq<T>, b: seq<T>, before: (T, T) -> bool)
    requires Strict(before) && Ascending(a, before) && Ascending(b, before) && multiset(a) == multiset(b) && a != []
    ensures |a| == |b| && a[0] == b[0]
  {
    assert |multiset(a)| == |multiset(b)|;
    assert a[0] in multiset(b) && b[0] in multiset(a);
    NoneBeforeFirst(b, a[0], before);
    NoneBeforeFirst(a, b[0], before);
  }

  lemma NoneBeforeFirst<T(!new)>(a: seq<T>, x: T, before: (T, T) -> bool)
    requires Ascending(a, before) && x in a
    ensures x == a[0] || before(a[0], x)
  {
    var i :| 0 <= i < |a| && a[i] == x;
    if i > 0 {
      assert before(a[0], a[i]);
    }
  }

  /** There is only one ascending order of the same members. */
  lemma {:induction false} OneOrder<T(!new)>(a: seq<T>, b: seq<T>, before: (T, T) -> bool)
    requires Strict(before) && Ascending(a, before) && Ascending(b, before) && multiset(a) == multiset(b)
    ensures a == b
    decreases |a|
  {
    if a == [] {
      assert |multiset(b)| == 0;
    } else {
      FirstIsLeast(a, b, before);
      RestIs(a);
      RestIs(b);
      OneOrder(a[1..], b[1..], before);
      assert a == [a[0]] + a[1..] && b == [b[0]] + b[1..];
    }
  }

  lemma RestIs<T>(a: seq<T>)
    requires a != []
    ensures multiset(a[1..]) == multiset(a) - multiset{a[0]}
  {
    assert a == [a[0]] + a[1..];
  }

  /** Sorting forgets in which order the members were listed. */
  lemma SortForgetsOrder<T(!new)>(a: seq<T>, b: seq<T>, before: (T, T) -> bool)
    requires Strict(before) && Comparable(a, before) && Comparable(b, before) && multiset(a) == multiset(b)
    ensures Sort(a, before) == Sort(b, before)
  {
    SortSorts(a, before);
    SortSorts(b, before);
    SortKeeps(a, before);
    SortKeeps(b, before);
    OneOrder(Sort(a, before), Sort(b, before), before);
  }

  // ----- Compiling -----

  function EdgeBefore(texts: Texts): (EdgeSpec, EdgeSpec) -> bool {
    (a: EdgeSpec, b: EdgeSpec) => texts.edgeBefore(a.Key(), b.Key())
  }

  function IndexOf<T(==)>(xs: seq<T>, x: T): (i: nat)
    requires x in xs
    ensures i < |xs| && xs[i] == x
  {
    if xs[0] == x then 0 else 1 + IndexOf(xs[1..], x)
  }

  function Map<T, U>(xs: seq<T>, f: T -> U): (ys: seq<U>)
    ensures |ys| == |xs| && forall i | 0 <= i < |xs| :: ys[i] == f(xs[i])
  {
    if xs == [] then [] else [f(xs[0])] + Map(xs[1..], f)
  }

  /** `node_index`; a node that is not listed has none. */
  function NodeIndex(nodeIds: seq<NodeId>, n: NodeId): nat {
    if n in nodeIds then IndexOf(nodeIds, n) else |nodeIds|
  }

  /** `compile_graph`, given the graph's node ids in some order. */
  function Compile(g: GraphSpec, listed: seq<NodeId>, texts: Texts): Tables {
    var nodeIds := Sort(listed, texts.nodeBefore);
    var edges := Sort(g.edges, EdgeBefore(texts));
    Tables(
      g.name, g.version, nodeIds,
      Map(edges, (e: EdgeSpec) => e.Key()),
      Map(edges, (e: EdgeSpec) => NodeIndex(nodeIds, e.source)),
      Map(edges, (e: EdgeSpec) => NodeIndex(nodeIds, e.target)),
      Map(edges, (e: EdgeSpec) => e.priority),
      Map(edges, (e: EdgeSpec) => e.maxTraversals),
      Map(edges, (e: EdgeSpec) => e.when),
      Map(nodeIds, (n: NodeId) => Map(edges, (e: EdgeSpec) => e.source == n)),
      Map(nodeIds, (n: NodeId) => n in g.terminals))
  }

  /** Edge texts differ where keys differ, and so do node texts. */
  ghost predicate Ordered(texts: Texts) {
    && Strict(texts.edgeBefore) && Strict(texts.nodeBefore)
    && (forall a, b {:trigger texts.edgeBefore(a, b)} :: texts.edgeBefore(a, b) || texts.edgeBefore(b, a) || a == b)
    && (forall a, b {:trigger texts.nodeBefore(a, b)} :: texts.nodeBefore(a, b) || texts.nodeBefore(b, a) || a == b)
  }

  /** The node ids of the graph, each once. */
  predicate Lists(listed: seq<NodeId>, g: GraphSpec) {
    && (forall i, j | 0 <= i < j < |listed| :: listed[i] != listed[j])
    && (forall n | n in listed :: n in g.nodes) && (forall n | n in g.nodes :: n in listed)
  }

  lemma EdgesCompare(edges: seq<EdgeSpec>, texts: Texts)
    requires Ordered(texts) && DistinctKeys(edges)
    ensures Strict(EdgeBefore(texts)) && Comparable(edges, EdgeBefore(texts))
  {
    var before := EdgeBefore(texts);
    forall e
      ensures !before(e, e)
    {
      assert !texts.edgeBefore(e.Key(), e.Key());
    }
    forall a, b, c | before(a, b) && before(b, c)
      ensures before(a, c)
    {
      assert texts.edgeBefore(a.Key(), b.Key()) && texts.edgeBefore(b.Key(), c.Key());
    }
    forall i, j | 0 <= i < j < |edges|
      ensures EdgeBefore(texts)(edges[i], edges[j]) || EdgeBefore(texts)(edges[j], edges[i])
    {
      assert texts.edgeBefore(edges[i].Key(), edges[j].Key()) || texts.edgeBefore(edges[j].Key(), edges[i].Key());
    }
  }

  /**
   Compiling is canonical: listing the nodes or the edges of a graph in another order leaves
   the tables unchanged.
   */
  lemma CompilingForgetsOrder(g: GraphSpec, h: GraphSpec, listed: seq<NodeId>, again: seq<NodeId>, texts: Texts)
    requires Ordered(texts) && h == g.(edges := h.edges) && multiset(h.edges) == multiset(g.edges)
    requires DistinctKeys(g.edges) && DistinctKeys(h.edges)
    requires Lists(listed, g) && Lists(again, h) && multiset(listed) == multiset(again)
    ensures Compile(g, listed, texts) == Compile(h, again, texts)
  {
    EdgesCompare(g.edges, texts);
    EdgesCompare(h.edges, texts);
    SortForgetsOrder(g.edges, h.edges, EdgeBefore(texts));
    NodesCompare(listed, texts);
    NodesCompare(again, texts);
    SortForgetsOrder(listed, again, texts.nodeBefore);
  }

  lemma NodesCompare(listed: seq<NodeId>, texts: Texts)
    requires Ordered(texts) && forall i, j | 0 <= i < j < |listed| :: listed[i] != listed[j]
    ensures Comparable(listed, texts.nodeBefore)
  {
    forall i, j | 0 <= i < j < |listed|
      ensures texts.nodeBefore(listed[i], listed[j]) || texts.nodeBefore(listed[j], listed[i])
    {
      assert listed[i] != listed[j];
    }
  }

  // ----- Decoding -----

  /** The edge that the j-th columns of the tables describe. */
  function EdgeIn(t: Tables, j: nat): Option<EdgeSpec> {
    if j < |t.edgeKeys| && j < |t.sources| && j < |t.targets| && j < |t.priorities| && j < |t.maxTraversals|
       && j < |t.conditions| && t.sources[j] < |t.nodeIds| && t.targets[j] < |t.nodeIds|
    then Some(EdgeSpec(t.nodeIds[t.sources[j]], t.nodeIds[t.targets[j]], t.conditions[j], t.priorities[j],
                       t.maxTraversals[j], t.edgeKeys[j].tag))
    else None
  }

  lemma NodesSorted(g: GraphSpec, listed: seq<NodeId>, texts: Texts)
    requires Lists(listed, g)
    ensures forall n :: n in Sort(listed, texts.nodeBefore) <==> n in g.nodes
  {
    SortKeeps(listed, texts.nodeBefore);
    forall n
      ensures n in Sort(listed, texts.nodeBefore) <==> n in g.nodes
    {
      assert n in multiset(Sort(listed, texts.nodeBefore)) <==> n in multiset(listed);
    }
  }

  lemma EdgesSorted(edges: seq<EdgeSpec>, texts: Texts)
    ensures forall e :: e in Sort(edges, EdgeBefore(texts)) <==> e in edges
    ensures |Sort(edges, EdgeBefore(texts))| == |edges|
  {
    var sorted := Sort(edges, EdgeBefore(texts));
    SortKeeps(edges, EdgeBefore(texts));
    assert |multiset(sorted)| == |multiset(edges)|;
    forall e
      ensures e in sorted <==> e in edges
    {
      assert e in multiset(sorted) <==> e in multiset(edges);
    }
  }

  /** Compiling forgets nothing else: every column decodes to its edge. */
  lemma ColumnDecodes(g: GraphSpec, listed: seq<NodeId>, texts: Texts, j: nat)
    requires WellFormedEdges(g) && Lists(listed, g) && j < |g.edges|
    ensures |Sort(g.edges, EdgeBefore(texts))| == |g.edges|
    ensures EdgeIn(Compile(g, listed, texts), j) == Some(Sort(g.edges, EdgeBefore(texts))[j])
  {
    var sorted := Sort(g.edges, EdgeBefore(texts));
    EdgesSorted(g.edges, texts);
    NodesSorted(g, listed, texts);
    var e := sorted[j];
    assert e in g.edges;
    var i :| 0 <= i < |g.edges| && g.edges[i] == e;
    assert WellFormedEdge(g, g.edges[i]);
  }

  /** Sorting keeps each edge once. */
  lemma SortedKeysDiffer(edges: seq<EdgeSpec>, texts: Texts, j: nat, k: nat)
    requires DistinctKeys(edges)
    requires j < |Sort(edges, EdgeBefore(texts))| && k < |Sort(edges, EdgeBefore(texts))|
    requires Sort(edges, EdgeBefore(texts))[j].Key() == Sort(edges, EdgeBefore(texts))[k].Key()
    ensures j == k
  {
    var sorted := Sort(edges, EdgeBefore(texts));
    SortKeeps(edges, EdgeBefore(texts));
    if j != k {
      assert sorted[j] in multiset(sorted) && sorted[k] in multiset(sorted);
      SameKeySameEdge(edges, sorted[j], sorted[k]);
      TwiceInSequence(sorted, j, k);
      OnceInEdges(edges, sorted[j]);
    }
  }

  lemma TwiceInSequence<T>(xs: seq<T>, j: nat, k: nat)
    requires j < |xs| && k < |xs| && j != k && xs[j] == xs[k]
    ensures multiset(xs)[xs[j]] >= 2
  {
    var a, b := if j < k then j else k, if j < k then k else j;
    assert xs == xs[..a] + [xs[a]] + xs[a + 1..b] + [xs[b]] + xs[b + 1..];
  }

  lemma {:induction false} OnceInEdges(edges: seq<EdgeSpec>, e: EdgeSpec)
    requires DistinctKeys(edges)
    ensures multiset(edges)[e] <= 1
    decreases |edges|
  {
    if edges != [] {
      var rest := edges[1..];
      assert edges == [edges[0]] + rest;
      OnceInEdges(rest, e);
      if e == edges[0] {
        forall i | 0 <= i < |rest|
          ensures rest[i] != e
        {
          assert edges[0].Key() != edges[i + 1].Key();
        }
        assert e !in multiset(rest);
      }
    }
  }

  /** The tables list every node once, and mark exactly the terminals. */
  lemma TerminalColumn(g: GraphSpec, listed: seq<NodeId>, texts: Texts, n: NodeId)
    requires Lists(listed, g)
    ensures var t := Compile(g, listed, texts);
            && |t.terminal| == |t.nodeIds|
            && (n in t.nodeIds <==> n in g.nodes)
            && (forall i | 0 <= i < |t.nodeIds| :: t.terminal[i] == (t.nodeIds[i] in g.terminals))
  {
    NodesSorted(g, listed, texts);
  }

  /** The mask row of a node. */
  function RowOf(t: Tables, n: NodeId): seq<bool> {
    if n in t.nodeIds && IndexOf(t.nodeIds, n) < |t.allowed| then t.allowed[IndexOf(t.nodeIds, n)] else []
  }

  lemma MarkedIsOutgoing(g: GraphSpec, listed: seq<NodeId>, texts: Texts, n: NodeId, j: nat)
    requires WellFormedEdges(g) && Lists(listed, g) && n in g.nodes
    requires j < |RowOf(Compile(g, listed, texts), n)| && RowOf(Compile(g, listed, texts), n)[j]
    ensures EdgeIn(Compile(g, listed, texts), j).Some?
    ensures EdgeIn(Compile(g, listed, texts), j).value in Outgoing(g, n)
  {
    RowMarksSource(g, listed, texts, n);
    EdgesSorted(g.edges, texts);
    ColumnDecodes(g, listed, texts, j);
    OutgoingIsStableSort(g, n, 0);
  }

  lemma OutgoingIsMarked(g: GraphSpec, listed: seq<NodeId>, texts: Texts, n: NodeId, e: EdgeSpec) returns (j: nat)
    requires WellFormedEdges(g) && Lists(listed, g) && n in g.nodes && e in Outgoing(g, n)
    ensures j < |RowOf(Compile(g, listed, texts), n)| && RowOf(Compile(g, listed, texts), n)[j]
    ensures EdgeIn(Compile(g, listed, texts), j) == Some(e)
  {
    var sorted := Sort(g.edges, EdgeBefore(texts));
    RowMarksSource(g, listed, texts, n);
    EdgesSorted(g.edges, texts);
    OutgoingIsStableSort(g, n, 0);
    j :| 0 <= j < |sorted| && sorted[j] == e;
    ColumnDecodes(g, listed, texts, j);
  }

  /**
   A node's mask row decodes to exactly its outgoing edges, with their caps, priorities and
   conditions.
   */
  lemma MaskRowIsOutgoing(g: GraphSpec, listed: seq<NodeId>, texts: Texts, n: NodeId, e: EdgeSpec)
    requires WellFormedEdges(g) && Lists(listed, g) && n in g.nodes
    ensures var t := Compile(g, listed, texts);
            && |RowOf(t, n)| == |t.edgeKeys|
            && (e in Outgoing(g, n) <==> exists j | 0 <= j < |RowOf(t, n)| :: RowOf(t, n)[j] && EdgeIn(t, j) == Some(e))
  {
    var t := Compile(g, listed, texts);
    RowMarksSource(g, listed, texts, n);
    if e in Outgoing(g, n) {
      var j := OutgoingIsMarked(g, listed, texts, n, e);
    }
    if j :| 0 <= j < |RowOf(t, n)| && RowOf(t, n)[j] && EdgeIn(t, j) == Some(e) {
      MarkedIsOutgoing(g, listed, texts, n, j);
    }
  }

  /** A node's row marks the columns of the edges that leave it. */
  lemma RowMarksSource(g: GraphSpec, listed: seq<NodeId>, texts: Texts, n: NodeId)
    requires Lists(listed, g) && n in g.nodes
    ensures var t, sorted := Compile(g, listed, texts), Sort(g.edges, EdgeBefore(texts));
            && |RowOf(t, n)| == |t.edgeKeys| == |sorted|
            && forall j | 0 <= j < |sorted| :: RowOf(t, n)[j] == (sorted[j].source == n)
  {
    NodesSorted(g, listed, texts);
  }

  // ----- The normalised payload -----

  /** What the schema hash is taken over: everything, with nodes and edges in the order of their texts. */
  datatype Payload = Payload(
    name: string, version: string, start: NodeId, terminals: set<NodeId>, nodes: map<NodeId, NodeSpec>,
    edges: seq<EdgeSpec>)

  /** `normalized_graph_payload`; `before` orders edges by their ends, label and condition. */
  function Normalised(g: GraphSpec, before: (EdgeSpec, EdgeSpec) -> bool): Payload {
    Payload(g.name, g.version, g.start, g.terminals, g.nodes, Sort(g.edges, before))
  }

  /** Edges with different keys differ in what the payload orders them by. */
  ghost predicate OrdersEdges(before: (EdgeSpec, EdgeSpec) -> bool) {
    && Strict(before)
    && forall a: EdgeSpec, b: EdgeSpec {:trigger before(a, b)} :: a.Key() != b.Key() ==> before(a, b) || before(b, a)
  }

  /** Two graphs have the same payload if and only if they differ at most in the order their edges are listed in. */
  lemma SamePayloadIff(g: GraphSpec, h: GraphSpec, before: (EdgeSpec, EdgeSpec) -> bool)
    requires OrdersEdges(before) && DistinctKeys(g.edges) && DistinctKeys(h.edges)
    ensures Normalised(g, before) == Normalised(h, before)
       <==> h == g.(edges := h.edges) && multiset(h.edges) == multiset(g.edges)
  {
    SortKeeps(g.edges, before);
    SortKeeps(h.edges, before);
    if multiset(h.edges) == multiset(g.edges) {
      KeysCompare(g.edges, before);
      KeysCompare(h.edges, before);
      SortForgetsOrder(g.edges, h.edges, before);
    }
  }

  lemma SharedEdge(base: GraphSpec, g: GraphSpec, h: GraphSpec, i: nat)
    requires Refines(base, g) && Refines(base, h) && DistinctKeys(base.edges) && i < |base.edges|
    requires g.edges[i] in h.edges
    ensures g.edges[i] == h.edges[i]
  {
    var j :| 0 <= j < |h.edges| && h.edges[j] == g.edges[i];
    assert EdgeRefines(base.edges[i], g.edges[i]) && EdgeRefines(base.edges[j], h.edges[j]);
    OneIndex(base.edges, i, j);
  }

  /**
   Among the graphs that a search can reach from one base, equal payloads mean equal graphs: its cache
   confuses none.
   */
  lemma PayloadTellsRefinements(base: GraphSpec, g: GraphSpec, h: GraphSpec, before: (EdgeSpec, EdgeSpec) -> bool)
    requires OrdersEdges(before) && WellFormed(base) && Refines(base, g) && Refines(base, h)
    ensures Normalised(g, before) == Normalised(h, before) <==> g == h
  {
    RefinementIsWellFormed(base, g);
    RefinementIsWellFormed(base, h);
    SamePayloadIff(g, h, before);
    if multiset(h.edges) == multiset(g.edges) {
      forall i | 0 <= i < |g.edges|
        ensures g.edges[i] == h.edges[i]
      {
        assert g.edges[i] in multiset(h.edges);
        SharedEdge(base, g, h, i);
      }
      assert g.edges == h.edges;
    }
  }

  lemma KeysCompare(edges: seq<EdgeSpec>, before: (EdgeSpec, EdgeSpec) -> bool)
    requires OrdersEdges(before) && DistinctKeys(edges)
    ensures Comparable(edges, before)
  {
    forall i, j | 0 <= i < j < |edges|
      ensures before(edges[i], edges[j]) || before(edges[j], edges[i])
    {
      assert edges[i].Key() != edges[j].Key();
    }
  }

  // ----- What the payload forgets -----

  lemma FirstOfLevel(a: seq<EdgeSpec>, b: seq<EdgeSpec>)
    requires ByPriority(a) && ByPriority(b) && a != [] && SameLevels(a, b)
    ensures b != [] && b[0].priority >= a[0].priority
  {
    assert AtLevel(a, a[0].priority) == AtLevel(b, a[0].priority) != [];
    LevelMember(b, a[0].priority);
  }

  lemma {:induction false} LevelMember(edges: seq<EdgeSpec>, p: int)
    requires AtLevel(edges, p) != []
    ensures exists i :: 0 <= i < |edges| && edges[i].priority == p
    decreases |edges|
  {
    if edges[0].priority != p {
      LevelMember(edges[1..], p);
      var i :| 0 <= i < |edges[1..]| && edges[1..][i].priority == p;
      assert edges[i + 1].priority == p;
    }
  }

  /** The edges of each priority agree, one by one and in order. */
  ghost predicate SameLevels(a: seq<EdgeSpec>, b: seq<EdgeSpec>) {
    forall p :: AtLevel(a, p) == AtLevel(b, p)
  }

  lemma RestLevel(a: seq<EdgeSpec>, p: int)
    requires a != []
    ensures AtLevel(a[1..], p) == if a[0].priority == p then AtLevel(a, p)[1..] else AtLevel(a, p)
    ensures a[0].priority == p ==> AtLevel(a, p) != [] && AtLevel(a, p)[0] == a[0]
  {
  }

  /** Edges in priority order are told by their order within each priority. */
  lemma {:induction false} LevelsTellOrder(a: seq<EdgeSpec>, b: seq<EdgeSpec>)
    requires ByPriority(a) && ByPriority(b) && SameLevels(a, b)
    ensures a == b
    decreases |a|
  {
    if a == [] {
      if b != [] {
        FirstOfLevel(b, a);
      }
    } else {
      FirstOfLevel(a, b);
      FirstOfLevel(b, a);
      RestLevel(a, a[0].priority);
      RestLevel(b, a[0].priority);
      assert AtLevel(a, a[0].priority) == AtLevel(b, a[0].priority);
      forall q
        ensures AtLevel(a[1..], q) == AtLevel(b[1..], q)
      {
        RestLevel(a, q);
        RestLevel(b, q);
        assert AtLevel(a, q) == AtLevel(b, q);
      }
      LevelsTellOrder(a[1..], b[1..]);
      assert a == [a[0]] + a[1..] && b == [b[0]] + b[1..];
    }
  }

  lemma SortKeepsLevels(g: GraphSpec, n: NodeId)
    ensures ByPriority(Outgoing(g, n)) && SameLevels(Outgoing(g, n), EdgesFrom(g.edges, n))
  {
    OutgoingIsStableSort(g, n, 0);
    forall p
      ensures AtLevel(Outgoing(g, n), p) == AtLevel(EdgesFrom(g.edges, n), p)
    {
      OutgoingIsStableSort(g, n, p);
    }
  }

  /** Agreeing by levels can be read in either direction and passed on. */
  lemma LevelsAgree(a: seq<EdgeSpec>, b: seq<EdgeSpec>, c: seq<EdgeSpec>, d: seq<EdgeSpec>)
    requires SameLevels(a, b) && SameLevels(c, d)
    ensures SameLevels(a, c) <==> SameLevels(b, d)
  {
    forall p
      ensures AtLevel(a, p) == AtLevel(c, p) <==> AtLevel(b, p) == AtLevel(d, p)
    {
      assert AtLevel(a, p) == AtLevel(b, p) && AtLevel(c, p) == AtLevel(d, p);
    }
  }

  /**
   The runtime's candidate order is not settled by the payload, and so not by the schema hash:
   two graphs offer a node's edges in the same order if and only if they list those of each
   priority in the same order.
   */
  lemma SameOrderIff(g: GraphSpec, h: GraphSpec, n: NodeId)
    ensures Outgoing(g, n) == Outgoing(h, n) <==> SameLevels(EdgesFrom(g.edges, n), EdgesFrom(h.edges, n))
  {
    SortKeepsLevels(g, n);
    SortKeepsLevels(h, n);
    LevelsAgree(Outgoing(g, n), EdgesFrom(g.edges, n), Outgoing(h, n), EdgesFrom(h.edges, n));
    if SameLevels(Outgoing(g, n), Outgoing(h, n)) {
      LevelsTellOrder(Outgoing(g, n), Outgoing(h, n));
    }
  }

  const ONWARD := EdgeSpec(Intake, Finish, Always, 0, 1, "onward")
  const AWAY := EdgeSpec(Intake, Abort, Always, 0, 1, "away")

  /** A graph with two ways out of its start, listed in this order. */
  function Fork(edges: seq<EdgeSpec>): GraphSpec {
    GraphSpec("fork", "1", Intake, {Finish, Abort},
              map[Intake := NodeSpec(Intake, Router, map[], true, false),
                  Finish := NodeSpec(Finish, Final, map[], true, false),
                  Abort := NodeSpec(Abort, Final, map[], true, false)], edges)
  }

  /** The same graph listed in two orders: one payload, two candidate orders. */
  lemma ForkIsOneOfTwo(before: (EdgeSpec, EdgeSpec) -> bool)
    requires OrdersEdges(before)
    ensures WellFormed(Fork([ONWARD, AWAY])) && WellFormed(Fork([AWAY, ONWARD]))
    ensures Normalised(Fork([ONWARD, AWAY]), before) == Normalised(Fork([AWAY, ONWARD]), before)
    ensures Outgoing(Fork([ONWARD, AWAY]), Intake) == [ONWARD, AWAY]
    ensures Outgoing(Fork([AWAY, ONWARD]), Intake) == [AWAY, ONWARD]
  {
    SamePayloadIff(Fork([ONWARD, AWAY]), Fork([AWAY, ONWARD]), before);
    OutgoingOfTwo(ONWARD, AWAY);
    OutgoingOfTwo(AWAY, ONWARD);
  }

  lemma OutgoingOfTwo(a: EdgeSpec, b: EdgeSpec)
    requires a.source == b.source == Intake && a.priority == b.priority
    ensures Outgoing(Fork([a, b]), Intake) == [a, b]
  {
    assert [a, b][1..] == [b] && [b][1..] == [];
    assert EdgesFrom([], Intake) == [] && EdgesFrom([b], Intake) == [b];
    assert EdgesFrom([a, b], Intake) == [a, b];
    assert SortByPriority([]) == [] && SortByPriority([b]) == [b];
  }
}
