/**
 What every run of every valid graph keeps, whatever its operators return and its
 controller chooses: the completed nodes form a walk along the graph's edges, the
 counters are exact, traversal caps and budgets hold, and the run ends.
 */
module Walks {
  import opened Values
  import opened Graphs
  import opened Runs
  import opened Wrappers

  /** A state no step has touched yet. */
  predicate Fresh(g: GraphSpec, s: Snapshot) {
    && s.status == Running && s.currentNode == g.start
    && s.attempts == map[] && s.edgeCounts == map[] && s.completedNodes == []
    && s.stepCount == 0 && s.metrics == NO_METRICS && s.noProgressCount == 0
  }

  lemma NewRunsAreFresh(g: GraphSpec, task: string, budget: Budget, runId: string, initialData: Fields)
    ensures Fresh(g, NewRun(g, task, budget, runId, initialData))
  {
  }

  // ----- Sums over the edges of a graph -----

  /** Which edges a sum ranges over: all, those into a node or those out of a node. */
  datatype Side = Any | Into(n: NodeId) | OutOf(n: NodeId)
  {
    predicate Holds(e: EdgeSpec) {
      match this
      case Any => true
      case Into(n) => e.target == n
      case OutOf(n) => e.source == n
    }
  }

  function Uses(edges: seq<EdgeSpec>, counts: map<EdgeKey, nat>, side: Side): nat {
    if edges == [] then 0
    else (if side.Holds(edges[0]) then Count(counts, edges[0].Key()) else 0) + Uses(edges[1..], counts, side)
  }

  function CapTotal(edges: seq<EdgeSpec>): int {
    if edges == [] then 0 else edges[0].maxTraversals + CapTotal(edges[1..])
  }

  lemma {:induction false} UsesOfNothing(edges: seq<EdgeSpec>, side: Side)
    ensures Uses(edges, map[], side) == 0
    decreases |edges|
  {
    if edges != [] {
      UsesOfNothing(edges[1..], side);
    }
  }

  lemma {:induction false} UsesElsewhere(edges: seq<EdgeSpec>, counts: map<EdgeKey, nat>, key: EdgeKey, side: Side)
    requires forall i :: 0 <= i < |edges| ==> edges[i].Key() != key
    ensures Uses(edges, Bump(counts, key), side) == Uses(edges, counts, side)
    decreases |edges|
  {
    if edges != [] {
      UsesElsewhere(edges[1..], counts, key, side);
    }
  }

  /** Counting one more use of an edge adds one to each sum the edge belongs to. */
  lemma {:induction false} UsesBump(edges: seq<EdgeSpec>, counts: map<EdgeKey, nat>, e: EdgeSpec, side: Side)
    requires DistinctKeys(edges) && e in edges
    ensures Uses(edges, Bump(counts, e.Key()), side)
         == Uses(edges, counts, side) + (if side.Holds(e) then 1 else 0)
    decreases |edges|
  {
    if edges[0] == e {
      UsesElsewhere(edges[1..], counts, e.Key(), side);
    } else {
      assert edges[0].Key() != e.Key() by {
        var i :| 0 <= i < |edges| && edges[i] == e;
        assert 0 < i;
      }
      assert e in edges[1..];
      UsesBump(edges[1..], counts, e, side);
    }
  }

  lemma {:induction false} UsesWithinCaps(edges: seq<EdgeSpec>, counts: map<EdgeKey, nat>)
    requires forall e :: e in edges ==> Count(counts, e.Key()) <= e.maxTraversals
    ensures Uses(edges, counts, Any) <= CapTotal(edges)
    decreases |edges|
  {
    if edges != [] {
      UsesWithinCaps(edges[1..], counts);
    }
  }

  // ----- The shape of one step -----

  /** The choice follows an edge of the graph that was not exhausted. */
  predicate Follows(g: GraphSpec, s: Snapshot, choice: EdgeSpec, e: EdgeSpec) {
    && e in g.edges && e.Key() == choice.Key() && e.source == s.currentNode
    && Count(s.edgeCounts, e.Key()) < e.maxTraversals
  }

  /** What a committed step does to the counters and the position, and by which edge. */
  lemma StepShape(g: GraphSpec, s: Snapshot, input: StepInput, t: Snapshot) returns (e: EdgeSpec)
    requires Step(g, s, input) == Ok(t)
    ensures s.status == Running && s.currentNode in g.nodes && t.header == s.header
    ensures BudgetViolations(s, g.nodes[s.currentNode].kind) == []
    ensures t.completedNodes == s.completedNodes + [s.currentNode]
    ensures t.stepCount == s.stepCount + 1
    ensures t.attempts == Bump(s.attempts, s.currentNode)
    ensures t.data == MergeFields(s.data, input.result.delta)
    ensures s.currentNode in g.terminals ==>
      && t.status == (if s.currentNode == Abort then Failed else Completed)
      && t.currentNode == s.currentNode && t.edgeCounts == s.edgeCounts
      && t.output == input.result.output && t.error == (if s.currentNode == Abort then Some(AbortReached) else s.error)
    ensures s.currentNode !in g.terminals ==>
      && t.status == Running
      && Follows(g, s, input.choice, e)
      && e in Candidates(g, Recorded(s, s.currentNode, g.nodes[s.currentNode].kind, input), s.currentNode)
      && t.edgeCounts == Bump(s.edgeCounts, e.Key()) && t.currentNode == e.target
  {
    e := input.choice;
    if s.currentNode !in g.terminals {
      var recorded := Recorded(s, s.currentNode, g.nodes[s.currentNode].kind, input);
      CandidatesAreAvailable(g, recorded, s.currentNode);
      e :| e in Candidates(g, recorded, s.currentNode) && e.Key() == input.choice.Key();
    }
  }

  // ----- The walk invariant -----

  /** How many of the logged steps moved along an edge: all but a step at a terminal. */
  function Moves(log: seq<StepInput>, s: Snapshot): int {
    if s.status == Running then |log| else |log| - 1
  }

  function Traversals(log: seq<StepInput>, key: EdgeKey): nat {
    if log == [] then 0
    else Traversals(log[..|log| - 1], key) + (if log[|log| - 1].choice.Key() == key then 1 else 0)
  }

  /** The node after the i-th completed one. */
  function After(s: Snapshot, i: nat): NodeId {
    if i + 1 < |s.completedNodes| then s.completedNodes[i + 1] else s.currentNode
  }

  predicate IsStride(g: GraphSpec, choice: EdgeSpec, a: NodeId, b: NodeId) {
    a !in g.terminals && exists e | e in g.edges :: e.Key() == choice.Key() && e.source == a && e.target == b
  }

  /** The completed nodes are a walk from the start along the chosen edges. */
  ghost predicate IsWalk(g: GraphSpec, log: seq<StepInput>, s: Snapshot) {
    && |log| == s.stepCount == |s.completedNodes|
    && (s.status != Running ==> log != [])
    && s.currentNode in g.nodes
    && (if log == [] then s.currentNode == g.start else s.completedNodes[0] == g.start)
    && (forall i :: 0 <= i < Moves(log, s) ==> IsStride(g, log[i].choice, s.completedNodes[i], After(s, i)))
    && (s.status != Running ==>
          && s.completedNodes[|log| - 1] == s.currentNode && s.currentNode in g.terminals
          && s.status == if s.currentNode == Abort then Failed else Completed)
  }

  /** An edge was used as often as the log chose it, within its cap; only edges of the graph were used. */
  ghost predicate EdgeCountsExact(g: GraphSpec, moves: seq<StepInput>, counts: map<EdgeKey, nat>) {
    && (forall key :: Count(counts, key) == Traversals(moves, key))
    && (forall key :: key in counts ==> exists e | e in g.edges :: e.Key() == key)
    && (forall e :: e in g.edges ==> Count(counts, e.Key()) <= e.maxTraversals)
  }

  predicate AttemptsExactAt(s: Snapshot, n: NodeId) {
    Count(s.attempts, n) == multiset(s.completedNodes)[n]
  }

  /**
   Flow conservation at a node: it has run as often as it was entered, but for a visit that
   is pending, and unless it is a terminal it was left as often as it ran.
   */
  predicate FlowAt(g: GraphSpec, s: Snapshot, n: NodeId) {
    && Uses(g.edges, s.edgeCounts, Into(n)) + (if n == g.start then 1 else 0)
       == Count(s.attempts, n) + (if s.status == Running && n == s.currentNode then 1 else 0)
    && (n !in g.terminals ==> Uses(g.edges, s.edgeCounts, OutOf(n)) == Count(s.attempts, n))
  }

  ghost predicate Conserved(g: GraphSpec, s: Snapshot) {
    && (forall n :: FlowAt(g, s, n))
    && Uses(g.edges, s.edgeCounts, Any) == s.stepCount - (if s.status == Running then 0 else 1)
  }

  ghost predicate Walked(g: GraphSpec, log: seq<StepInput>, s: Snapshot) {
    && IsWalk(g, log, s)
    && EdgeCountsExact(g, log[..Moves(log, s)], s.edgeCounts)
    && AttemptsExact(s)
    && Conserved(g, s)
  }

  ghost predicate AttemptsExact(s: Snapshot) {
    forall n :: AttemptsExactAt(s, n)
  }

  lemma StepKeepsWalk(g: GraphSpec, log: seq<StepInput>, s: Snapshot, input: StepInput, t: Snapshot)
    requires WellFormed(g) && IsWalk(g, log, s) && Step(g, s, input) == Ok(t)
    ensures IsWalk(g, log + [input], t)
  {
    var e := StepShape(g, s, input, t);
    forall i | 0 <= i < Moves(log + [input], t)
      ensures IsStride(g, (log + [input])[i].choice, t.completedNodes[i], After(t, i))
    {
      if i < |log| {
        assert IsStride(g, log[i].choice, s.completedNodes[i], After(s, i));
      }
    }
  }

  lemma MoveKeepsEdgeCounts(g: GraphSpec, log: seq<StepInput>, s: Snapshot, input: StepInput, e: EdgeSpec)
    requires WellFormed(g) && EdgeCountsExact(g, log, s.edgeCounts)
    requires Follows(g, s, input.choice, e)
    ensures EdgeCountsExact(g, log + [input], Bump(s.edgeCounts, e.Key()))
  {
    var counts := Bump(s.edgeCounts, e.Key());
    forall key
      ensures Count(counts, key) == Traversals(log + [input], key)
    {
      assert (log + [input])[..|log|] == log;
    }
    forall f | f in g.edges
      ensures Count(counts, f.Key()) <= f.maxTraversals
    {
      SameKeySameEdge(g.edges, e, f);
    }
  }

  lemma MoveKeepsFlow(g: GraphSpec, s: Snapshot, e: EdgeSpec, t: Snapshot, n: NodeId)
    requires WellFormed(g) && FlowAt(g, s, n) && e in g.edges && e.source == s.currentNode
    requires s.status == t.status == Running && s.currentNode !in g.terminals
    requires t.attempts == Bump(s.attempts, s.currentNode)
    requires t.edgeCounts == Bump(s.edgeCounts, e.Key()) && t.currentNode == e.target
    ensures FlowAt(g, t, n)
  {
    UsesBump(g.edges, s.edgeCounts, e, Into(n));
    UsesBump(g.edges, s.edgeCounts, e, OutOf(n));
  }

  lemma StepKeepsFlow(g: GraphSpec, s: Snapshot, input: StepInput, t: Snapshot)
    requires WellFormed(g) && Conserved(g, s) && Step(g, s, input) == Ok(t)
    ensures Conserved(g, t)
  {
    var e := StepShape(g, s, input, t);
    forall n
      ensures FlowAt(g, t, n)
    {
      assert FlowAt(g, s, n);
      if s.currentNode !in g.terminals {
        MoveKeepsFlow(g, s, e, t, n);
      }
    }
    if s.currentNode !in g.terminals {
      UsesBump(g.edges, s.edgeCounts, e, Any);
    }
  }

  lemma StepKeepsAttempts(g: GraphSpec, s: Snapshot, input: StepInput, t: Snapshot, n: NodeId)
    requires AttemptsExactAt(s, n) && Step(g, s, input) == Ok(t)
    ensures AttemptsExactAt(t, n)
  {
    var _ := StepShape(g, s, input, t);
  }

  lemma StepKeepsEdgeCounts(g: GraphSpec, log: seq<StepInput>, s: Snapshot, input: StepInput, t: Snapshot)
    requires WellFormed(g) && Step(g, s, input) == Ok(t)
    requires EdgeCountsExact(g, log, s.edgeCounts)
    ensures EdgeCountsExact(g, (log + [input])[..Moves(log + [input], t)], t.edgeCounts)
  {
    var e := StepShape(g, s, input, t);
    var longer := log + [input];
    if s.currentNode in g.terminals {
      assert Moves(longer, t) == |log| && longer[..|log|] == log;
    } else {
      assert Moves(longer, t) == |log| + 1 && longer[..|log| + 1] == longer;
      MoveKeepsEdgeCounts(g, log, s, input, e);
    }
  }

  lemma StepKeepsWalked(g: GraphSpec, log: seq<StepInput>, s: Snapshot, input: StepInput, t: Snapshot)
    requires WellFormed(g) && Walked(g, log, s) && Step(g, s, input) == Ok(t)
    ensures Walked(g, log + [input], t)
  {
    StepKeepsWalk(g, log, s, input, t);
    AllMoved(g, log, s, input, t);
    StepKeepsEdgeCounts(g, log, s, input, t);
    StepKeepsFlow(g, s, input, t);
    StepKeepsAllAttempts(g, s, input, t);
  }

  /** Before a step every logged one was a move. */
  lemma AllMoved(g: GraphSpec, log: seq<StepInput>, s: Snapshot, input: StepInput, t: Snapshot)
    requires Step(g, s, input) == Ok(t)
    ensures log[..Moves(log, s)] == log
  {
  }

  lemma StepKeepsAllAttempts(g: GraphSpec, s: Snapshot, input: StepInput, t: Snapshot)
    requires AttemptsExact(s) && Step(g, s, input) == Ok(t)
    ensures AttemptsExact(t)
  {
    forall n
      ensures AttemptsExactAt(t, n)
    {
      StepKeepsAttempts(g, s, input, t, n);
    }
  }

  lemma FreshIsWalked(g: GraphSpec, s: Snapshot)
    requires WellFormed(g) && Fresh(g, s)
    ensures Walked(g, [], s)
  {
    UsesOfNothing(g.edges, Any);
    forall n
      ensures FlowAt(g, s, n)
    {
      UsesOfNothing(g.edges, Into(n));
      UsesOfNothing(g.edges, OutOf(n));
    }
  }

  /** The walk invariant holds after every run, whatever operators and controllers did. */
  lemma {:induction false} EveryRunIsAWalk(g: GraphSpec, s: Snapshot, log: seq<StepInput>, t: Snapshot)
    requires WellFormed(g) && Fresh(g, s) && Replay(g, s, log) == Ok(t)
    ensures Walked(g, log, t)
    decreases |log|
  {
    if log == [] {
      FreshIsWalked(g, s);
    } else {
      var shorter, input, before := ReplayLast(g, s, log, t);
      EveryRunIsAWalk(g, s, shorter, before);
      StepKeepsWalked(g, shorter, before, input, t);
    }
  }

  /** No run takes more steps than one plus the sum of the traversal caps. */
  lemma EveryRunEnds(g: GraphSpec, s: Snapshot, log: seq<StepInput>, t: Snapshot)
    requires WellFormed(g) && Fresh(g, s) && Replay(g, s, log) == Ok(t)
    ensures |log| <= CapTotal(g.edges) + if t.status == Running then 0 else 1
  {
    EveryRunIsAWalk(g, s, log, t);
    UsesWithinCaps(g.edges, t.edgeCounts);
  }

  /** Each step of a running walk uses up one traversal of the remaining caps. */
  function Remaining(g: GraphSpec, s: Snapshot): int {
    CapTotal(g.edges) - Uses(g.edges, s.edgeCounts, Any) + if s.status == Running then 1 else 0
  }

  lemma StepsUseUpCaps(g: GraphSpec, log: seq<StepInput>, s: Snapshot, input: StepInput, t: Snapshot)
    requires WellFormed(g) && Walked(g, log, s) && Step(g, s, input) == Ok(t)
    ensures Walked(g, log + [input], t)
    ensures 0 <= Remaining(g, t) == Remaining(g, s) - 1
  {
    StepKeepsWalked(g, log, s, input, t);
    UsesWithinCaps(g.edges, t.edgeCounts);
    var _ := StepShape(g, s, input, t);
  }

  // ----- Budgets -----

  predicate WithinBudget(s: Snapshot) {
    && s.stepCount <= s.header.budget.maxSteps
    && s.metrics.llmCalls <= s.header.budget.maxLlmCalls
    && s.metrics.toolCalls <= s.header.budget.maxToolCalls
  }

  /** Step, model-call and tool-call budgets are never exceeded, not even by one step. */
  lemma {:induction false} BudgetsHold(g: GraphSpec, s: Snapshot, log: seq<StepInput>, t: Snapshot)
    requires Fresh(g, s) && Replay(g, s, log) == Ok(t)
    ensures WithinBudget(t) && t.header == s.header
    decreases |log|
  {
    if log != [] {
      var shorter, input, before := ReplayLast(g, s, log, t);
      BudgetsHold(g, s, shorter, before);
      var _ := StepShape(g, before, input, t);
    }
  }

  /** A committed step started with every budget it is checked against unspent. */
  lemma StepHadBudget(g: GraphSpec, s: Snapshot, input: StepInput, t: Snapshot)
    requires Step(g, s, input) == Ok(t)
    ensures s.currentNode in g.nodes && forall v :: !Over(s, g.nodes[s.currentNode].kind, v)
  {
    var _ := StepShape(g, s, input, t);
    ViolationsMean(s, g.nodes[s.currentNode].kind);
  }

  function TokensOf(input: StepInput): int {
    input.result.promptTokens + input.result.completionTokens + input.policyTokens
  }

  function SecondsOf(input: StepInput): real {
    NonNegative(input.seconds) + NonNegative(input.policySeconds)
  }

  function Called(b: bool): nat {
    if b then 1 else 0
  }

  /** What a step charges, to each counter. */
  lemma StepCharges(g: GraphSpec, s: Snapshot, input: StepInput, t: Snapshot)
    requires Step(g, s, input) == Ok(t)
    ensures s.currentNode in g.nodes && t.header == s.header
    ensures var kind, m, n := g.nodes[s.currentNode].kind, s.metrics, t.metrics;
            && n.llmCalls == m.llmCalls + Called(!input.cached && kind == Llm)
            && n.toolCalls == m.toolCalls + Called(!input.cached && kind in {Tool, Verifier})
            && n.cachedSteps == m.cachedSteps + Called(input.cached)
            && n.policyCalls == m.policyCalls + input.policyCalls
            && n.promptTokens == m.promptTokens + input.result.promptTokens
            && n.completionTokens == m.completionTokens + input.result.completionTokens
            && n.policyPromptTokens == m.policyPromptTokens + input.policyTokens
            && n.elapsedSeconds == m.elapsedSeconds + SecondsOf(input)
            && n.TotalTokens() == m.TotalTokens() + TokensOf(input)
  {
  }

  function TokensIn(log: seq<StepInput>): int {
    if log == [] then 0 else TokensIn(log[..|log| - 1]) + TokensOf(log[|log| - 1])
  }

  function SecondsIn(log: seq<StepInput>): real {
    if log == [] then 0.0 else SecondsIn(log[..|log| - 1]) + SecondsOf(log[|log| - 1])
  }

  /** A run has spent what its steps charged, from any of them on. */
  lemma {:induction false} SpendingAddsUp(g: GraphSpec, s: Snapshot, log: seq<StepInput>, i: nat, u: Snapshot,
                                          t: Snapshot)
    requires i <= |log| && Replay(g, s, log[..i]) == Ok(u) && Replay(g, s, log) == Ok(t)
    ensures t.header == u.header
    ensures t.metrics.TotalTokens() == u.metrics.TotalTokens() + TokensIn(log[i..])
    ensures t.metrics.elapsedSeconds == u.metrics.elapsedSeconds + SecondsIn(log[i..])
    decreases |log|
  {
    if i == |log| {
      assert log[..i] == log && log[i..] == [];
    } else {
      var shorter, input, before := ReplayLast(g, s, log, t);
      CutOfCut(log, i);
      SpendingAddsUp(g, s, shorter, i, u, before);
      StepCharges(g, before, input, t);
      SumsOfOneMore(log, i);
    }
  }

  lemma SumsOfOneMore(log: seq<StepInput>, i: nat)
    requires i < |log|
    ensures TokensIn(log[i..]) == TokensIn(log[..|log| - 1][i..]) + TokensOf(log[|log| - 1])
    ensures SecondsIn(log[i..]) == SecondsIn(log[..|log| - 1][i..]) + SecondsOf(log[|log| - 1])
  {
    assert log[i..][..|log[i..]| - 1] == log[..|log| - 1][i..];
  }

  /**
   Tokens are checked before model nodes and time before every node, so a run exceeds its token
   budget by no more than what its steps charged from its last model node on, and its time budget
   by no more than its last step took.
   */
  lemma OvershootsByLastStep(g: GraphSpec, s: Snapshot, log: seq<StepInput>, i: nat, u: Snapshot, t: Snapshot)
    requires i < |log| && Replay(g, s, log[..i]) == Ok(u) && Replay(g, s, log) == Ok(t)
    ensures u.currentNode in g.nodes
    ensures g.nodes[u.currentNode].kind == Llm ==>
              t.metrics.TotalTokens() < t.header.budget.maxTokens + TokensIn(log[i..])
    ensures t.metrics.elapsedSeconds < t.header.budget.maxSeconds + SecondsIn(log[i..])
    ensures i == |log| - 1 ==> TokensIn(log[i..]) == TokensOf(log[i]) && SecondsIn(log[i..]) == SecondsOf(log[i])
  {
    SpendingAddsUp(g, s, log, i, u, t);
    var next := StepAt(g, s, log, i, u);
    HadTokensAndTime(g, u, log[i], next);
    if i == |log| - 1 {
      LastCharge(log);
    }
  }

  lemma HadTokensAndTime(g: GraphSpec, s: Snapshot, input: StepInput, t: Snapshot)
    requires Step(g, s, input) == Ok(t)
    ensures s.currentNode in g.nodes
    ensures g.nodes[s.currentNode].kind == Llm ==> s.metrics.TotalTokens() < s.header.budget.maxTokens
    ensures s.metrics.elapsedSeconds < s.header.budget.maxSeconds
  {
    StepHadBudget(g, s, input, t);
    assert !Over(s, g.nodes[s.currentNode].kind, Tokens) && !Over(s, g.nodes[s.currentNode].kind, Seconds);
  }

  lemma LastCharge(log: seq<StepInput>)
    requires log != []
    ensures TokensIn(log[|log| - 1..]) == TokensOf(log[|log| - 1])
    ensures SecondsIn(log[|log| - 1..]) == SecondsOf(log[|log| - 1])
  {
    assert log[|log| - 1..][..0] == [];
  }

  /** No run goes on once it has repeated its progress key as often as is allowed. */
  lemma RunsWithoutProgressEnd(g: GraphSpec, s: Snapshot, log: seq<StepInput>, t: Snapshot)
    requires log != [] && Replay(g, s, log) == Ok(t)
    ensures t.noProgressCount <= t.header.budget.maxNoProgressSteps
  {
    var shorter, input, before := ReplayLast(g, s, log, t);
    StepHadBudget(g, before, input, t);
    assert !Over(before, g.nodes[before.currentNode].kind, NoProgress);
    StepRepeats(g, before, input, t);
  }

  lemma StepRepeats(g: GraphSpec, s: Snapshot, input: StepInput, t: Snapshot)
    requires Step(g, s, input) == Ok(t)
    ensures t.noProgressCount <= s.noProgressCount + 1 && t.header == s.header
  {
  }
}
