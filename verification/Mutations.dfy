/**
 Graph mutations, the safety envelope they are checked against, and the refinement it
 buys: whatever mutations a search applies, the histories of the mutated graph are exactly
 the histories of the base graph that stay within the mutated traversal caps.
 */
module Mutations {
  import opened Values
  import opened Graphs
  import opened Runs
  import opened Walks
  import opened Wrappers

  datatype Mutation =
    | SetNodeConfig(node: NodeId, name: string, value: Value)
    | SetEdgeLimit(edge: EdgeKey, maxTraversals: int)
    | SetEdgePriority(edge: EdgeKey, priority: int)

  /** The slot a mutation occupies: at most one mutation per slot on a search path. */
  datatype Slot = NodeSlot(node: NodeId, name: string) | LimitSlot(edge: EdgeKey) | PrioritySlot(edge: EdgeKey)

  function SlotOf(m: Mutation): Slot {
    match m
    case SetNodeConfig(node, name, _) => NodeSlot(node, name)
    case SetEdgeLimit(edge, _) => LimitSlot(edge)
    case SetEdgePriority(edge, _) => PrioritySlot(edge)
  }

  datatype MutationError = UnknownTarget | BadLimit

  predicate HasKey(g: GraphSpec, key: EdgeKey) {
    exists i | 0 <= i < |g.edges| :: g.edges[i].Key() == key
  }

  /** What a mutation makes of one edge. */
  function Changed(m: Mutation, e: EdgeSpec): EdgeSpec {
    match m
    case SetNodeConfig(_, _, _) => e
    case SetEdgeLimit(key, limit) => if e.Key() == key then e.(maxTraversals := limit) else e
    case SetEdgePriority(key, priority) => if e.Key() == key then e.(priority := priority) else e
  }

  function ChangeEdges(m: Mutation, edges: seq<EdgeSpec>): (changed: seq<EdgeSpec>)
    ensures |changed| == |edges|
    ensures forall i :: 0 <= i < |edges| ==> changed[i] == Changed(m, edges[i])
  {
    if edges == [] then [] else [Changed(m, edges[0])] + ChangeEdges(m, edges[1..])
  }

  /** `apply` of the three mutation classes. */
  function Mutate(m: Mutation, g: GraphSpec): Result<GraphSpec, MutationError> {
    match m
    case SetNodeConfig(node, name, value) =>
      if node !in g.nodes then Err(UnknownTarget)
      else
        var spec := g.nodes[node];
        Ok(g.(nodes := g.nodes[node := spec.(config := spec.config[name := value])]))
    case SetEdgeLimit(key, limit) =>
      if limit < 1 then Err(BadLimit)
      else if !HasKey(g, key) then Err(UnknownTarget)
      else Ok(g.(edges := ChangeEdges(m, g.edges)))
    case SetEdgePriority(key, priority) =>
      if !HasKey(g, key) then Err(UnknownTarget)
      else Ok(g.(edges := ChangeEdges(m, g.edges)))
  }

  /**
   A mutation sets what it names to its value and leaves everything else alone; it fails for an unknown
   target or a cap below one.
   */
  lemma MutationHasEffect(m: Mutation, g: GraphSpec, h: GraphSpec)
    requires Mutate(m, g) == Ok(h)
    ensures m.SetNodeConfig? ==>
      && m.node in g.nodes && h == g.(nodes := h.nodes) && h.nodes.Keys == g.nodes.Keys
      && h.nodes[m.node] == g.nodes[m.node].(config := h.nodes[m.node].config)
      && m.name in h.nodes[m.node].config && h.nodes[m.node].config[m.name] == m.value
      && (forall name :: name != m.name ==> Get(h.nodes[m.node].config, name) == Get(g.nodes[m.node].config, name))
      && (forall n | n in g.nodes && n != m.node :: h.nodes[n] == g.nodes[n])
    ensures !m.SetNodeConfig? ==>
      && h == g.(edges := h.edges) && |h.edges| == |g.edges| && HasKey(g, m.edge)
      && forall i | 0 <= i < |g.edges| ::
           if g.edges[i].Key() != m.edge then h.edges[i] == g.edges[i]
           else if m.SetEdgeLimit? then m.maxTraversals >= 1
               && h.edges[i] == g.edges[i].(maxTraversals := m.maxTraversals)
           else h.edges[i] == g.edges[i].(priority := m.priority)
  {
  }

  lemma MutationFailsIff(m: Mutation, g: GraphSpec)
    ensures Mutate(m, g).Err? <==>
      match m
      case SetNodeConfig(node, _, _) => node !in g.nodes
      case SetEdgeLimit(key, limit) => limit < 1 || forall e | e in g.edges :: e.Key() != key
      case SetEdgePriority(key, _) => forall e | e in g.edges :: e.Key() != key
  {
    if !m.SetNodeConfig? && HasKey(g, m.edge) {
      var i :| 0 <= i < |g.edges| && g.edges[i].Key() == m.edge;
      assert g.edges[i] in g.edges;
    }
  }

  // ----- The envelope -----

  predicate IsTemperature(value: Value) {
    match value
    case Int(n) => 0 <= n <= 2
    case Float(r) => 0.0 <= r <= 2.0
    case _ => false
  }

  /** A mutation inside the envelope of this graph: what `validate_mutation_envelope` is to accept. */
  predicate InEnvelope(g: GraphSpec, m: Mutation) {
    match m
    case SetNodeConfig(node, name, value) =>
      node in g.nodes && g.nodes[node].kind == Llm && name == "temperature" && IsTemperature(value)
    case SetEdgeLimit(key, limit) =>
      EdgeBy(g.edges, key).Some? && 1 <= limit <= EdgeBy(g.edges, key).value.maxTraversals
    case SetEdgePriority(key, priority) => HasKey(g, key) && -1000 <= priority <= 1000
  }

  /** The dictionary of the edges by their keys. */
  method Indexed(edges: seq<EdgeSpec>) returns (byKey: map<EdgeKey, EdgeSpec>)
    ensures forall key :: EdgeBy(edges, key) == if key in byKey then Some(byKey[key]) else None
  {
    byKey := map[];
    for i := 0 to |edges|
      invariant forall key :: EdgeBy(edges[..i], key) == if key in byKey then Some(byKey[key]) else None
    {
      assert edges[..i + 1][..i] == edges[..i];
      byKey := byKey[edges[i].Key() := edges[i]];
    }
    assert edges[..|edges|] == edges;
  }

  /** The checks of one mutation, in order. */
  method CheckMutation(g: GraphSpec, byKey: map<EdgeKey, EdgeSpec>, m: Mutation) returns (ok: bool)
    requires forall key :: EdgeBy(g.edges, key) == if key in byKey then Some(byKey[key]) else None
    ensures ok <==> InEnvelope(g, m)
  {
    match m
    case SetNodeConfig(id, name, value) =>
      if id !in g.nodes {
        return false;
      }
      var node := g.nodes[id];
      if node.kind != Llm || name != "temperature" {
        return false;
      }
      if value.Bool? || (!value.Int? && !value.Float?) {
        return false;
      }
      var number := if value.Int? then value.n as real else value.r;
      return 0.0 <= number <= 2.0;
    case SetEdgeLimit(key, limit) =>
      if key !in byKey {
        return false;
      }
      return 1 <= limit <= byKey[key].maxTraversals;
    case SetEdgePriority(key, priority) =>
      EdgeByMeans(g.edges, key);
      if key !in byKey {
        return false;
      }
      return -1000 <= priority <= 1000;
  }

  /** The checking loop: the first mutation that a check refuses refuses them all. */
  method ValidateEnvelope(g: GraphSpec, mutations: seq<Mutation>) returns (ok: bool)
    ensures ok <==> forall m :: m in mutations ==> InEnvelope(g, m)
  {
    var byKey := Indexed(g.edges);
    for i := 0 to |mutations|
      invariant forall m :: m in mutations[..i] ==> InEnvelope(g, m)
    {
      assert mutations[..i + 1] == mutations[..i] + [mutations[i]];
      ok := CheckMutation(g, byKey, mutations[i]);
      if !ok {
        return;
      }
    }
    assert mutations[..|mutations|] == mutations;
    return true;
  }

  // ----- Refinement -----

  predicate EdgeRefines(base: EdgeSpec, e: EdgeSpec) {
    e.Key() == base.Key() && e.when == base.when && 1 <= e.maxTraversals <= base.maxTraversals
  }

  predicate NodeRefines(base: NodeSpec, n: NodeSpec) {
    n == base.(config := n.config)
  }

  /** The graph differs from the base in node configuration, edge priorities and lowered caps only. */
  predicate Refines(base: GraphSpec, g: GraphSpec) {
    && g == base.(nodes := g.nodes, edges := g.edges)
    && g.nodes.Keys == base.nodes.Keys
    && (forall n | n in base.nodes :: NodeRefines(base.nodes[n], g.nodes[n]))
    && |g.edges| == |base.edges|
    && (forall i | 0 <= i < |base.edges| :: EdgeRefines(base.edges[i], g.edges[i]))
  }

  lemma RefinesSelf(g: GraphSpec)
    requires WellFormed(g)
    ensures Refines(g, g)
  {
    forall i | 0 <= i < |g.edges| ensures EdgeRefines(g.edges[i], g.edges[i]) {
      assert WellFormedEdge(g, g.edges[i]);
    }
  }

  lemma LimitRefines(base: GraphSpec, g: GraphSpec, key: EdgeKey, limit: int)
    requires WellFormed(base) && Refines(base, g) && InEnvelope(base, SetEdgeLimit(key, limit))
    ensures Mutate(SetEdgeLimit(key, limit), g).Ok? && Refines(base, Mutate(SetEdgeLimit(key, limit), g).value)
  {
    EdgeByMeans(base.edges, key);
    var i :| 0 <= i < |base.edges| && base.edges[i].Key() == key && 1 <= limit <= base.edges[i].maxTraversals;
    assert EdgeRefines(base.edges[i], g.edges[i]);
    var next := Mutate(SetEdgeLimit(key, limit), g).value;
    forall j | 0 <= j < |base.edges| ensures EdgeRefines(base.edges[j], next.edges[j]) {
      assert EdgeRefines(base.edges[j], g.edges[j]);
      assert i < j ==> base.edges[i].Key() != base.edges[j].Key();
      assert j < i ==> base.edges[j].Key() != base.edges[i].Key();
    }
  }

  lemma PriorityRefines(base: GraphSpec, g: GraphSpec, key: EdgeKey, priority: int)
    requires Refines(base, g) && HasKey(base, key)
    ensures Mutate(SetEdgePriority(key, priority), g).Ok?
            && Refines(base, Mutate(SetEdgePriority(key, priority), g).value)
  {
    var i :| 0 <= i < |base.edges| && base.edges[i].Key() == key;
    assert EdgeRefines(base.edges[i], g.edges[i]);
    var next := Mutate(SetEdgePriority(key, priority), g).value;
    forall j | 0 <= j < |base.edges| ensures EdgeRefines(base.edges[j], next.edges[j]) {
      assert EdgeRefines(base.edges[j], g.edges[j]);
    }
  }

  /** A mutation inside the base's envelope applies to every refinement of the base, and gives another. */
  lemma MutationRefines(base: GraphSpec, g: GraphSpec, m: Mutation)
    requires WellFormed(base) && Refines(base, g) && InEnvelope(base, m)
    ensures Mutate(m, g).Ok? && Refines(base, Mutate(m, g).value)
  {
    match m
    case SetNodeConfig(node, name, value) =>
    case SetEdgeLimit(key, limit) => LimitRefines(base, g, key, limit);
    case SetEdgePriority(key, priority) => PriorityRefines(base, g, key, priority);
  }

  /** A refinement of a valid graph is valid: the search's revalidation of a candidate never fails. */
  lemma RefinementIsValid(base: GraphSpec, g: GraphSpec)
    requires ValidGraph(base) && Refines(base, g)
    ensures ValidGraph(g)
  {
    RefinementIsWellFormed(base, g);
    forall n | n in g.nodes
      ensures Useful(g, n)
    {
      assert Useful(base, n);
      RefinementIsUseful(base, g, n);
    }
  }

  lemma RefinementIsWellFormed(base: GraphSpec, g: GraphSpec)
    requires WellFormed(base) && Refines(base, g)
    ensures WellFormed(g)
  {
    forall i | 0 <= i < |g.edges|
      ensures WellFormedEdge(g, g.edges[i])
    {
      assert EdgeRefines(base.edges[i], g.edges[i]) && WellFormedEdge(base, base.edges[i]);
    }
    forall i, j | 0 <= i < j < |g.edges|
      ensures g.edges[i].Key() != g.edges[j].Key()
    {
      assert EdgeRefines(base.edges[i], g.edges[i]) && EdgeRefines(base.edges[j], g.edges[j]);
      assert base.edges[i].Key() != base.edges[j].Key();
    }
    forall n | n in g.nodes
      ensures WellFormedNode(n, g.nodes[n])
    {
      assert NodeRefines(base.nodes[n], g.nodes[n]) && WellFormedNode(n, base.nodes[n]);
    }
  }

  lemma SameLinks(base: GraphSpec, g: GraphSpec, a: NodeId, b: NodeId)
    requires Refines(base, g) && HasEdge(base, a, b)
    ensures HasEdge(g, a, b)
  {
    var e :| e in base.edges && e.source == a && e.target == b;
    var i :| 0 <= i < |base.edges| && base.edges[i] == e;
    assert EdgeRefines(base.edges[i], g.edges[i]);
    assert g.edges[i] in g.edges;
  }

  lemma SamePaths(base: GraphSpec, g: GraphSpec, a: NodeId, b: NodeId)
    requires Refines(base, g) && Reaches(base, a, b)
    ensures Reaches(g, a, b)
  {
    var path :| IsPath(base, path) && path[0] == a && path[|path| - 1] == b;
    forall i, j | 0 <= i < j < |path| && j == i + 1
      ensures HasEdge(g, path[i], path[j])
    {
      SameLinks(base, g, path[i], path[j]);
    }
    assert IsPath(g, path);
  }

  lemma RefinementIsUseful(base: GraphSpec, g: GraphSpec, n: NodeId)
    requires Refines(base, g) && Useful(base, n)
    ensures Useful(g, n)
  {
    SamePaths(base, g, base.start, n);
    var t :| t in base.terminals && Reaches(base, n, t);
    SamePaths(base, g, n, t);
    if n !in base.terminals {
      var m :| m in base.nodes && HasEdge(base, n, m);
      SameLinks(base, g, n, m);
    }
  }

  // ----- Histories of a refinement -----

  /** The runtime accepts a choice exactly when it names an available edge out of the node. */
  predicate AcceptsAt(g: GraphSpec, s: Snapshot, node: NodeId, key: EdgeKey, i: int)
    requires 0 <= i < |g.edges|
  {
    g.edges[i].Key() == key && g.edges[i].source == node && Available(s, g.edges[i])
  }

  lemma OfferedMeans(g: GraphSpec, s: Snapshot, node: NodeId, choice: EdgeSpec)
    ensures Offered(Candidates(g, s, node), choice)
       <==> exists i | 0 <= i < |g.edges| :: AcceptsAt(g, s, node, choice.Key(), i)
  {
    CandidatesAreAvailable(g, s, node);
    if Offered(Candidates(g, s, node), choice) {
      var c :| c in Candidates(g, s, node) && c.Key() == choice.Key();
      var i :| 0 <= i < |g.edges| && g.edges[i] == c;
      assert AcceptsAt(g, s, node, choice.Key(), i);
    }
    if i :| 0 <= i < |g.edges| && AcceptsAt(g, s, node, choice.Key(), i) {
      assert g.edges[i] in Candidates(g, s, node);
    }
  }

  /** The graph has the edge and its cap leaves room for one more use. */
  predicate HasRoom(g: GraphSpec, counts: map<EdgeKey, nat>, key: EdgeKey) {
    exists i | 0 <= i < |g.edges| :: g.edges[i].Key() == key && Count(counts, key) < g.edges[i].maxTraversals
  }

  lemma OneIndex(edges: seq<EdgeSpec>, i: nat, j: nat)
    requires DistinctKeys(edges) && i < |edges| && j < |edges| && edges[i].Key() == edges[j].Key()
    ensures i == j
  {
  }

  lemma AcceptedInBase(base: GraphSpec, g: GraphSpec, s: Snapshot, node: NodeId, key: EdgeKey, i: nat)
    requires Refines(base, g) && i < |g.edges| && AcceptsAt(g, s, node, key, i)
    ensures AcceptsAt(base, s, node, key, i) && HasRoom(g, s.edgeCounts, key)
  {
    assert EdgeRefines(base.edges[i], g.edges[i]);
  }

  lemma AcceptedInRefinement(base: GraphSpec, g: GraphSpec, s: Snapshot, node: NodeId, key: EdgeKey, i: nat)
    requires WellFormed(base) && Refines(base, g) && i < |g.edges|
    requires AcceptsAt(base, s, node, key, i) && HasRoom(g, s.edgeCounts, key)
    ensures AcceptsAt(g, s, node, key, i)
  {
    var j :| 0 <= j < |g.edges| && g.edges[j].Key() == key && Count(s.edgeCounts, key) < g.edges[j].maxTraversals;
    assert EdgeRefines(base.edges[i], g.edges[i]) && EdgeRefines(base.edges[j], g.edges[j]);
    OneIndex(base.edges, i, j);
  }

  /** A refinement offers exactly the base's edges that its own caps leave room for. */
  lemma RefinedOffer(base: GraphSpec, g: GraphSpec, s: Snapshot, node: NodeId, choice: EdgeSpec)
    requires WellFormed(base) && Refines(base, g)
    ensures Offered(Candidates(g, s, node), choice)
       <==> Offered(Candidates(base, s, node), choice) && HasRoom(g, s.edgeCounts, choice.Key())
  {
    OfferedMeans(g, s, node, choice);
    OfferedMeans(base, s, node, choice);
    if i :| 0 <= i < |g.edges| && AcceptsAt(g, s, node, choice.Key(), i) {
      AcceptedInBase(base, g, s, node, choice.Key(), i);
    } else if i :| 0 <= i < |base.edges| && AcceptsAt(base, s, node, choice.Key(), i) {
      if HasRoom(g, s.edgeCounts, choice.Key()) {
        AcceptedInRefinement(base, g, s, node, choice.Key(), i);
      }
    }
  }

  lemma StepDecides(g: GraphSpec, s: Snapshot, input: StepInput)
    requires s.status == Running && s.currentNode in g.nodes
    requires BudgetViolations(s, g.nodes[s.currentNode].kind) == []
    ensures var recorded := Recorded(s, s.currentNode, g.nodes[s.currentNode].kind, input);
            Step(g, s, input).Ok? <==>
              s.currentNode in g.terminals || Offered(Candidates(g, recorded, s.currentNode), input.choice)
  {
  }

  /** A step of the refinement is a step of the base that its own caps leave room for. */
  lemma RefinedStep(base: GraphSpec, g: GraphSpec, s: Snapshot, input: StepInput)
    requires WellFormed(base) && Refines(base, g)
    ensures Step(g, s, input).Ok? <==>
      Step(base, s, input).Ok? && (s.currentNode in base.terminals || HasRoom(g, s.edgeCounts, input.choice.Key()))
    ensures Step(g, s, input).Ok? ==> Step(g, s, input) == Step(base, s, input)
  {
    if s.status == Running && s.currentNode in base.nodes {
      assert NodeRefines(base.nodes[s.currentNode], g.nodes[s.currentNode]);
      var kind := base.nodes[s.currentNode].kind;
      if BudgetViolations(s, kind) == [] {
        StepDecides(base, s, input);
        StepDecides(g, s, input);
        RefinedOffer(base, g, Recorded(s, s.currentNode, kind, input), s.currentNode, input.choice);
      }
    }
  }

  /** Every edge was used within the caps of the graph. */
  predicate WithinCaps(g: GraphSpec, counts: map<EdgeKey, nat>) {
    forall i | 0 <= i < |g.edges| :: Count(counts, g.edges[i].Key()) <= g.edges[i].maxTraversals
  }

  lemma RoomForOneMore(g: GraphSpec, counts: map<EdgeKey, nat>, key: EdgeKey)
    requires DistinctKeys(g.edges) && HasKey(g, key) && WithinCaps(g, counts)
    ensures HasRoom(g, counts, key) <==> WithinCaps(g, Bump(counts, key))
  {
    var i :| 0 <= i < |g.edges| && g.edges[i].Key() == key;
    if HasRoom(g, counts, key) {
      var j :| 0 <= j < |g.edges| && g.edges[j].Key() == key && Count(counts, key) < g.edges[j].maxTraversals;
      forall k | 0 <= k < |g.edges|
        ensures Count(Bump(counts, key), g.edges[k].Key()) <= g.edges[k].maxTraversals
      {
        if g.edges[k].Key() == key {
          OneIndex(g.edges, j, k);
        }
      }
    } else {
      assert Count(Bump(counts, key), g.edges[i].Key()) > g.edges[i].maxTraversals;
    }
  }

  lemma CapsOnlyFill(g: GraphSpec, counts: map<EdgeKey, nat>, key: EdgeKey)
    requires WithinCaps(g, Bump(counts, key))
    ensures WithinCaps(g, counts)
  {
    forall k | 0 <= k < |g.edges|
      ensures Count(counts, g.edges[k].Key()) <= g.edges[k].maxTraversals
    {
      assert Count(Bump(counts, key), g.edges[k].Key()) <= g.edges[k].maxTraversals;
    }
  }

  lemma StepKeepsRefinedCaps(base: GraphSpec, g: GraphSpec, s: Snapshot, input: StepInput, t: Snapshot)
    requires WellFormed(base) && Refines(base, g) && Step(base, s, input) == Ok(t)
    ensures WithinCaps(g, t.edgeCounts) <==>
      WithinCaps(g, s.edgeCounts) && (s.currentNode in base.terminals || HasRoom(g, s.edgeCounts, input.choice.Key()))
  {
    var e := StepShape(base, s, input, t);
    if s.currentNode !in base.terminals {
      RefinementIsWellFormed(base, g);
      var i :| 0 <= i < |base.edges| && base.edges[i] == e;
      assert EdgeRefines(base.edges[i], g.edges[i]);
      if WithinCaps(g, s.edgeCounts) {
        RoomForOneMore(g, s.edgeCounts, e.Key());
      } else if WithinCaps(g, t.edgeCounts) {
        CapsOnlyFill(g, s.edgeCounts, e.Key());
      }
    }
  }

  /**
   The histories of a refined graph are exactly the histories of the base graph that use
   every edge within the refined caps, and they lead to the same states. So everything
   proved of all histories of the base holds of every refinement; that a step can be taken
   carries over exactly while the lowered caps leave room.
   */
  lemma {:induction false} HistoriesOfRefinement(base: GraphSpec, g: GraphSpec, s: Snapshot, log: seq<StepInput>,
                                                 t: Snapshot)
    requires WellFormed(base) && Refines(base, g) && Fresh(base, s)
    ensures Replay(g, s, log) == Ok(t) <==> Replay(base, s, log) == Ok(t) && WithinCaps(g, t.edgeCounts)
    decreases |log|
  {
    if log == [] {
      forall i | 0 <= i < |g.edges|
        ensures Count(s.edgeCounts, g.edges[i].Key()) <= g.edges[i].maxTraversals
      {
        assert EdgeRefines(base.edges[i], g.edges[i]);
      }
    } else {
      var shorter, input := log[..|log| - 1], log[|log| - 1];
      if Replay(g, s, shorter).Ok? {
        var before := Replay(g, s, shorter).value;
        HistoriesOfRefinement(base, g, s, shorter, before);
        RefinedStep(base, g, before, input);
        if Step(base, before, input).Ok? {
          StepKeepsRefinedCaps(base, g, before, input, Step(base, before, input).value);
        }
      } else if Replay(base, s, shorter).Ok? {
        var before := Replay(base, s, shorter).value;
        HistoriesOfRefinement(base, g, s, shorter, before);
        if Step(base, before, input).Ok? {
          StepKeepsRefinedCaps(base, g, before, input, Step(base, before, input).value);
        }
      }
    }
  }

  // ----- Histories under changing refinements -----

  /** A run whose i-th step is taken under the i-th graph, as when it is taken up again under another one. */
  function ReplayUnder(graphs: seq<GraphSpec>, s: Snapshot, log: seq<StepInput>): Result<Snapshot, RunError>
    requires |graphs| == |log|
  {
    if log == [] then Ok(s)
    else
      match ReplayUnder(graphs[..|log| - 1], s, log[..|log| - 1])
      case Err(error) => Err(error)
      case Ok(before) => Step(graphs[|log| - 1], before, log[|log| - 1])
  }

  /** The cap of the graph at hand leaves room for the step, unless it is one at a terminal. */
  predicate RoomFor(base: GraphSpec, g: GraphSpec, reached: Result<Snapshot, RunError>, input: StepInput) {
    match reached
    case Ok(s) => s.currentNode in base.terminals || HasRoom(g, s.edgeCounts, input.choice.Key())
    case Err(_) => false
  }

  predicate RoomAllAlong(base: GraphSpec, graphs: seq<GraphSpec>, s: Snapshot, log: seq<StepInput>)
    requires |graphs| == |log|
  {
    log == [] ||
    var last := |log| - 1;
    && RoomAllAlong(base, graphs[..last], s, log[..last])
    && RoomFor(base, graphs[last], Replay(base, s, log[..last]), log[last])
  }

  /**
   A run may be taken up again and again, each time under another refinement of one base: its
   histories are exactly those of the base in which every step has room under the graph it is
   taken in.
   */
  lemma {:induction false} HistoriesOfRefinements(base: GraphSpec, graphs: seq<GraphSpec>, s: Snapshot,
                                                  log: seq<StepInput>, t: Snapshot)
    requires WellFormed(base) && |graphs| == |log| && forall g | g in graphs :: Refines(base, g)
    ensures ReplayUnder(graphs, s, log) == Ok(t)
       <==> Replay(base, s, log) == Ok(t) && RoomAllAlong(base, graphs, s, log)
    decreases |log|
  {
    if log != [] {
      var last := |log| - 1;
      assert graphs[last] in graphs;
      var under, over := ReplayUnder(graphs[..last], s, log[..last]), Replay(base, s, log[..last]);
      if under.Ok? {
        HistoriesOfRefinements(base, graphs[..last], s, log[..last], under.value);
        RefinedStep(base, graphs[last], under.value, log[last]);
      } else if over.Ok? {
        HistoriesOfRefinements(base, graphs[..last], s, log[..last], over.value);
      }
    }
  }

  // ----- Paths of mutations -----

  function MutateAll(g: GraphSpec, path: seq<Mutation>): Result<GraphSpec, MutationError> {
    if path == [] then Ok(g)
    else
      match MutateAll(g, path[..|path| - 1])
      case Err(error) => Err(error)
      case Ok(before) => Mutate(path[|path| - 1], before)
  }

  lemma MutateOneMore(g: GraphSpec, path: seq<Mutation>, m: Mutation)
    ensures MutateAll(g, path + [m]) ==
            match MutateAll(g, path)
            case Err(error) => Err(error)
            case Ok(before) => Mutate(m, before)
  {
    assert (path + [m])[..|path|] == path;
  }

  predicate DistinctSlots(path: seq<Mutation>) {
    forall i, j | 0 <= i < j < |path| :: SlotOf(path[i]) != SlotOf(path[j])
  }

  /** Whatever a path of enveloped mutations does, the result refines the base. */
  lemma {:induction false} PathRefines(base: GraphSpec, path: seq<Mutation>)
    requires WellFormed(base) && forall m :: m in path ==> InEnvelope(base, m)
    ensures MutateAll(base, path).Ok? && Refines(base, MutateAll(base, path).value)
    decreases |path|
  {
    if path == [] {
      RefinesSelf(base);
    } else {
      PathRefines(base, path[..|path| - 1]);
      MutationRefines(base, MutateAll(base, path[..|path| - 1]).value, path[|path| - 1]);
    }
  }

  // ----- Mutations of different slots commute -----

  lemma MutateKeepsKeys(m: Mutation, g: GraphSpec)
    requires Mutate(m, g).Ok?
    ensures var h := Mutate(m, g).value;
            && |h.edges| == |g.edges|
            && (forall i | 0 <= i < |g.edges| :: h.edges[i].Key() == g.edges[i].Key())
            && h.nodes.Keys == g.nodes.Keys
            && (forall key :: HasKey(h, key) <==> HasKey(g, key))
  {
    var h := Mutate(m, g).value;
    forall key
      ensures HasKey(h, key) <==> HasKey(g, key)
    {
      if HasKey(g, key) {
        var i :| 0 <= i < |g.edges| && g.edges[i].Key() == key;
        assert h.edges[i].Key() == key;
      }
      if HasKey(h, key) {
        var i :| 0 <= i < |h.edges| && h.edges[i].Key() == key;
        assert g.edges[i].Key() == key;
      }
    }
  }

  function Chain(m: Mutation, n: Mutation, g: GraphSpec): Result<GraphSpec, MutationError> {
    match Mutate(m, g)
    case Err(error) => Err(error)
    case Ok(h) => Mutate(n, h)
  }

  lemma ConfigsCommute(g: GraphSpec, m: Mutation, n: Mutation)
    requires m.SetNodeConfig? && n.SetNodeConfig? && SlotOf(m) != SlotOf(n) && Chain(m, n, g).Ok?
    ensures Chain(n, m, g) == Chain(m, n, g)
  {
    var a, b := Chain(m, n, g).value, Chain(n, m, g).value;
    if m.node == n.node {
      var config := g.nodes[m.node].config;
      assert config[m.name := m.value][n.name := n.value] == config[n.name := n.value][m.name := m.value];
    }
    assert a.nodes == b.nodes;
  }

  lemma ChangesCommute(m: Mutation, n: Mutation, e: EdgeSpec)
    requires SlotOf(m) != SlotOf(n)
    ensures Changed(n, Changed(m, e)) == Changed(m, Changed(n, e))
  {
  }

  lemma EdgesCommute(g: GraphSpec, m: Mutation, n: Mutation)
    requires !m.SetNodeConfig? && !n.SetNodeConfig? && SlotOf(m) != SlotOf(n) && Chain(m, n, g).Ok?
    ensures Chain(n, m, g) == Chain(m, n, g)
  {
    MutateKeepsKeys(m, g);
    assert Mutate(n, g).Ok?;
    MutateKeepsKeys(n, g);
    var a, b := ChangeEdges(n, ChangeEdges(m, g.edges)), ChangeEdges(m, ChangeEdges(n, g.edges));
    forall i | 0 <= i < |a|
      ensures a[i] == b[i]
    {
      ChangesCommute(m, n, g.edges[i]);
    }
    assert a == b;
  }

  /** Two mutations of different slots give the same graph in either order. */
  lemma MutationsCommute(m: Mutation, n: Mutation, g: GraphSpec)
    requires SlotOf(m) != SlotOf(n) && Chain(m, n, g).Ok?
    ensures Chain(n, m, g) == Chain(m, n, g)
  {
    if m.SetNodeConfig? && n.SetNodeConfig? {
      ConfigsCommute(g, m, n);
    } else if !m.SetNodeConfig? && !n.SetNodeConfig? {
      EdgesCommute(g, m, n);
    } else {
      MutateKeepsKeys(m, g);
    }
  }

  lemma SwapLastTwo(g: GraphSpec, path: seq<Mutation>, m: Mutation, n: Mutation)
    requires SlotOf(m) != SlotOf(n) && MutateAll(g, path + [m] + [n]).Ok?
    ensures MutateAll(g, path + [n] + [m]) == MutateAll(g, path + [m] + [n])
  {
    MutateOneMore(g, path + [m], n);
    MutateOneMore(g, path, m);
    MutateOneMore(g, path + [n], m);
    MutateOneMore(g, path, n);
    MutationsCommute(m, n, MutateAll(g, path).value);
  }

  /** A mutation can be moved to the end of its path when its slot is used nowhere after it. */
  lemma {:induction false} MoveToEnd(g: GraphSpec, before: seq<Mutation>, m: Mutation, after: seq<Mutation>)
    requires MutateAll(g, before + [m] + after).Ok?
    requires forall n :: n in after ==> SlotOf(n) != SlotOf(m)
    ensures MutateAll(g, before + after + [m]) == MutateAll(g, before + [m] + after)
    decreases |after|
  {
    if after == [] {
      assert before + [m] + after == before + after + [m];
    } else {
      var shorter, n := after[..|after| - 1], after[|after| - 1];
      Regroup(before, [m], shorter, n, after);
      PrefixMutates(g, before + [m] + shorter, n, before + [m] + after);
      MoveToEnd(g, before, m, shorter);
      MovedPast(g, before + shorter, m, n);
    }
  }

  lemma Regroup(a: seq<Mutation>, b: seq<Mutation>, c: seq<Mutation>, n: Mutation, d: seq<Mutation>)
    requires d != [] && c == d[..|d| - 1] && n == d[|d| - 1]
    ensures a + b + d == a + b + c + [n] && a + d == a + c + [n]
  {
    assert d == c + [n];
  }

  /** A mutation that was moved to the end of a path moves past one more. */
  lemma MovedPast(g: GraphSpec, path: seq<Mutation>, m: Mutation, n: Mutation)
    requires SlotOf(m) != SlotOf(n) && MutateAll(g, path + [m]).Ok? && Mutate(n, MutateAll(g, path + [m]).value).Ok?
    ensures MutateAll(g, path + [n] + [m]) == Mutate(n, MutateAll(g, path + [m]).value)
  {
    MutateOneMore(g, path + [m], n);
    SwapLastTwo(g, path, m, n);
  }

  lemma PrefixMutates(g: GraphSpec, path: seq<Mutation>, n: Mutation, longer: seq<Mutation>)
    requires longer == path + [n] && MutateAll(g, longer).Ok?
    ensures MutateAll(g, path).Ok? && MutateAll(g, longer) == Mutate(n, MutateAll(g, path).value)
  {
    MutateOneMore(g, path, n);
  }
}
