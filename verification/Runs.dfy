/**
 One run of a graph: its checkpointed state, the candidate edges of a transition, and
 the step that records a node result and moves on.

 A `Snapshot` is a run state as the store serialises it. Wall-clock stamps are left out.
 Operators and controllers are adversaries: a `StepInput` holds whatever they produced.
 Artifacts may share sub-objects with earlier results, so a step may leave any artifacts
 at all behind.
 */
module Runs {
  import opened Values
  import opened Conditions
  import opened Graphs
  import opened Wrappers

  datatype Status = Running | Completed | Failed

  datatype Metrics = Metrics(
    llmCalls: nat, toolCalls: nat, policyCalls: nat, promptTokens: int, completionTokens: int,
    policyPromptTokens: nat, cachedSteps: nat, elapsedSeconds: real)
  {
    function TotalTokens(): int {
      promptTokens + completionTokens + policyPromptTokens
    }
  }

  const NO_METRICS := Metrics(0, 0, 0, 0, 0, 0, 0, 0.0)

  datatype Budget = Budget(
    maxSteps: nat, maxLlmCalls: nat, maxToolCalls: nat, maxTokens: nat, maxSeconds: real, maxNoProgressSteps: nat)

  const DEFAULT_BUDGET := Budget(24, 12, 24, 64000, 900.0, 2)

  datatype Violation = Steps | LlmCalls | ToolCalls | Tokens | Seconds | NoProgress

  datatype RunError =
    | NoValidEdge
    | MaskedEdge
    | AbortReached
    | BudgetExceeded(violations: seq<Violation>)
    | NotRunning

  /** What a node operator returns. An empty progress key means none. */
  datatype NodeResult = NodeResult(
    delta: Fields, output: Value, progressKey: string, promptTokens: int, completionTokens: int)

  /** A progress key: the operator's own, or the hash of everything visible. */
  datatype ProgressKey =
    | Given(key: string)
    | Hashed(data: Fields, artifacts: Fields, output: Value)

  /** What never changes during a run. */
  datatype Header = Header(runId: string, graphName: string, graphVersion: string, task: string, budget: Budget)

  datatype Snapshot = Snapshot(
    header: Header,
    currentNode: NodeId, status: Status,
    data: Fields, artifacts: Fields,
    attempts: map<NodeId, nat>, edgeCounts: map<EdgeKey, nat>, completedNodes: seq<NodeId>,
    metrics: Metrics,
    stepCount: nat, noProgressCount: nat, lastProgressKey: Option<ProgressKey>,
    output: Value, error: Option<RunError>)

  /** Everything one step takes from outside: operator, clock, policy and controller. */
  datatype StepInput = StepInput(
    result: NodeResult, artifacts: Fields, cached: bool, seconds: real,
    policySeconds: real, policyCalls: nat, policyTokens: nat, choice: EdgeSpec)

  function Count<K(==)>(counts: map<K, nat>, key: K): nat {
    if key in counts then counts[key] else 0
  }

  function Bump<K(==)>(counts: map<K, nat>, key: K): map<K, nat> {
    counts[key := Count(counts, key) + 1]
  }

  // ----- What edge conditions see -----

  function NodeText(n: NodeId): string {
    match n
    case Abort => "abort"
    case Apply => "apply"
    case CollectContext => "context"
    case Diagnose => "diagnose"
    case Finish => "finish"
    case Implement => "implement"
    case Intake => "intake"
    case Plan => "plan"
    case PlanCheck => "plan_check"
    case Repair => "repair"
    case Review => "review"
    case Tests => "tests"
    case Named(name) => name
  }

  function StatusText(status: Status): string {
    match status
    case Running => "running"
    case Completed => "completed"
    case Failed => "failed"
  }

  /** The node a text names. */
  function NodeOf(text: string): NodeId {
    match text
    case "abort" => Abort
    case "apply" => Apply
    case "context" => CollectContext
    case "diagnose" => Diagnose
    case "finish" => Finish
    case "implement" => Implement
    case "intake" => Intake
    case "plan" => Plan
    case "plan_check" => PlanCheck
    case "repair" => Repair
    case "review" => Review
    case "tests" => Tests
    case _ => Named(text)
  }

  function AttemptsValue(attempts: map<NodeId, nat>): Value {
    var texts := set n | n in attempts :: NodeText(n);
    Dict(map text | text in texts :: Int(Count(attempts, NodeOf(text))))
  }

  function MetricsValue(m: Metrics): Value {
    Dict(map[
      "llm_calls" := Int(m.llmCalls), "tool_calls" := Int(m.toolCalls), "policy_calls" := Int(m.policyCalls),
      "prompt_tokens" := Int(m.promptTokens), "completion_tokens" := Int(m.completionTokens),
      "policy_prompt_tokens" := Int(m.policyPromptTokens), "cached_steps" := Int(m.cachedSteps),
      "elapsed_seconds" := Float(m.elapsedSeconds)])
  }

  function ConditionContext(s: Snapshot): Context {
    map[
      "data" := Dict(s.data), "artifacts" := Dict(s.artifacts), "attempts" := AttemptsValue(s.attempts),
      "metrics" := MetricsValue(s.metrics), "step_count" := Int(s.stepCount),
      "status" := Str(StatusText(s.status)), "True" := Bool(true), "False" := Bool(false), "None" := Nil]
  }

  // ----- Candidate edges -----

  /** An edge a controller may be offered: not exhausted, and its condition holds. */
  predicate Available(s: Snapshot, e: EdgeSpec) {
    Count(s.edgeCounts, e.Key()) < e.maxTraversals && Matches(e.when, ConditionContext(s))
  }

  function AvailableAmong(s: Snapshot, edges: seq<EdgeSpec>): seq<EdgeSpec> {
    if edges == [] then []
    else (if Available(s, edges[0]) then [edges[0]] else []) + AvailableAmong(s, edges[1..])
  }

  /** `valid_outgoing_edges`; an empty list stands for the error it raises. */
  function Candidates(g: GraphSpec, s: Snapshot, node: NodeId): seq<EdgeSpec> {
    AvailableAmong(s, Outgoing(g, node))
  }

  lemma {:induction false} AvailableAmongMembers(s: Snapshot, edges: seq<EdgeSpec>)
    ensures forall e :: e in AvailableAmong(s, edges) <==> e in edges && Available(s, e)
    decreases |edges|
  {
    if edges != [] {
      AvailableAmongMembers(s, edges[1..]);
      assert edges == [edges[0]] + edges[1..];
    }
  }

  /** The candidates are exactly the graph's edges out of the node that are available. */
  lemma CandidatesAreAvailable(g: GraphSpec, s: Snapshot, node: NodeId)
    ensures forall e :: e in Candidates(g, s, node) <==> e in g.edges && e.source == node && Available(s, e)
  {
    OutgoingIsStableSort(g, node, 0);
    AvailableAmongMembers(s, Outgoing(g, node));
  }

  lemma AvailableAmongPrefix(s: Snapshot, edges: seq<EdgeSpec>, i: nat)
    requires i < |edges|
    ensures AvailableAmong(s, edges[i..])
         == (if Available(s, edges[i]) then [edges[i]] else []) + AvailableAmong(s, edges[i + 1..])
  {
    assert edges[i..][1..] == edges[i + 1..];
  }

  /** The loop of `valid_outgoing_edges`. */
  method ValidOutgoingEdges(g: GraphSpec, s: Snapshot, node: NodeId) returns (candidates: seq<EdgeSpec>)
    ensures candidates == Candidates(g, s, node)
  {
    var outgoing := Outgoing(g, node);
    candidates := [];
    assert outgoing[0..] == outgoing;
    for i := 0 to |outgoing|
      invariant candidates + AvailableAmong(s, outgoing[i..]) == AvailableAmong(s, outgoing)
    {
      AvailableAmongPrefix(s, outgoing, i);
      if Available(s, outgoing[i]) {
        candidates := candidates + [outgoing[i]];
      }
    }
    assert outgoing[|outgoing|..] == [];
  }

  // ----- Budgets -----

  function When(violated: bool, violation: Violation): seq<Violation> {
    if violated then [violation] else []
  }

  /** `budget_violations` before a node of kind `kind` runs. */
  function BudgetViolations(s: Snapshot, kind: NodeKind): seq<Violation> {
    When(s.stepCount >= s.header.budget.maxSteps, Steps)
    + When(kind == Llm && s.metrics.llmCalls >= s.header.budget.maxLlmCalls, LlmCalls)
    + When(kind in {Tool, Verifier} && s.metrics.toolCalls >= s.header.budget.maxToolCalls, ToolCalls)
    + When(kind == Llm && s.metrics.TotalTokens() >= s.header.budget.maxTokens, Tokens)
    + When(s.metrics.elapsedSeconds >= s.header.budget.maxSeconds, Seconds)
    + When(s.noProgressCount >= s.header.budget.maxNoProgressSteps, NoProgress)
  }

  /**
   The budget is spent that a node of this kind is checked against; calls and tokens only by the nodes
   that cost them.
   */
  predicate Over(s: Snapshot, kind: NodeKind, v: Violation) {
    var b := s.header.budget;
    match v
    case Steps => s.stepCount >= b.maxSteps
    case LlmCalls => kind == Llm && s.metrics.llmCalls >= b.maxLlmCalls
    case ToolCalls => kind in {Tool, Verifier} && s.metrics.toolCalls >= b.maxToolCalls
    case Tokens => kind == Llm && s.metrics.TotalTokens() >= b.maxTokens
    case Seconds => s.metrics.elapsedSeconds >= b.maxSeconds
    case NoProgress => s.noProgressCount >= b.maxNoProgressSteps
  }

  /** The violations name exactly the budgets that are spent. */
  lemma ViolationsMean(s: Snapshot, kind: NodeKind)
    ensures forall v :: v in BudgetViolations(s, kind) <==> Over(s, kind, v)
    ensures BudgetViolations(s, kind) == [] <==> forall v :: !Over(s, kind, v)
  {
    forall v
      ensures v in BudgetViolations(s, kind) <==> Over(s, kind, v)
    {
      match v
      case Steps =>
      case LlmCalls =>
      case ToolCalls =>
      case Tokens =>
      case Seconds =>
      case NoProgress =>
    }
    if BudgetViolations(s, kind) != [] {
      assert BudgetViolations(s, kind)[0] in BudgetViolations(s, kind);
    }
  }

  // ----- One step -----

  function NonNegative(x: real): real {
    if x < 0.0 then 0.0 else x
  }

  function Charged(m: Metrics, kind: NodeKind, input: StepInput): Metrics {
    m.(cachedSteps := m.cachedSteps + (if input.cached then 1 else 0),
       llmCalls := m.llmCalls + (if !input.cached && kind == Llm then 1 else 0),
       toolCalls := m.toolCalls + (if !input.cached && kind in {Tool, Verifier} then 1 else 0),
       promptTokens := m.promptTokens + input.result.promptTokens,
       completionTokens := m.completionTokens + input.result.completionTokens,
       elapsedSeconds := m.elapsedSeconds + NonNegative(input.seconds))
  }

  function ProgressOf(data: Fields, artifacts: Fields, result: NodeResult): ProgressKey {
    if result.progressKey != "" then Given(result.progressKey) else Hashed(data, artifacts, result.output)
  }

  function RecordedHistory(s: Snapshot, data: Fields, artifacts: Fields, node: NodeId): Snapshot {
    s.(data := data, artifacts := artifacts, attempts := Bump(s.attempts, node),
       completedNodes := s.completedNodes + [node], stepCount := s.stepCount + 1)
  }

  function RecordedCost(s: Snapshot, kind: NodeKind, input: StepInput): Snapshot {
    s.(metrics := Charged(s.metrics, kind, input))
  }

  function RecordedProgress(s: Snapshot, result: NodeResult): Snapshot {
    var progress := ProgressOf(s.data, s.artifacts, result);
    s.(noProgressCount := if s.lastProgressKey == Some(progress) then s.noProgressCount + 1 else 0,
       lastProgressKey := Some(progress))
  }

  /** The first half of `apply_node_result`: the result is recorded against the node. */
  function Recorded(s: Snapshot, node: NodeId, kind: NodeKind, input: StepInput): Snapshot {
    var merged := MergeFields(s.data, input.result.delta);
    RecordedProgress(RecordedCost(RecordedHistory(s, merged, input.artifacts, node), kind, input), input.result)
  }

  function Finished(s: Snapshot, node: NodeId, output: Value): Snapshot {
    s.(output := output,
       status := if node != Abort then Completed else Failed,
       error := if node != Abort then s.error else Some(AbortReached))
  }

  function Moved(s: Snapshot, e: EdgeSpec): Snapshot {
    s.(edgeCounts := Bump(s.edgeCounts, e.Key()), currentNode := e.target)
  }

  predicate Offered(candidates: seq<EdgeSpec>, choice: EdgeSpec) {
    exists c | c in candidates :: c.Key() == choice.Key()
  }

  /** The second half: finish at a terminal, else follow the controller's choice if it was offered. */
  function Advanced(g: GraphSpec, s: Snapshot, node: NodeId, input: StepInput): Result<Snapshot, RunError> {
    if node in g.terminals then Ok(Finished(s, node, input.result.output))
    else
      var candidates := Candidates(g, s, node);
      if candidates == [] then Err(NoValidEdge)
      else if !Offered(candidates, input.choice) then Err(MaskedEdge)
      else Ok(Moved(s, input.choice))
  }

  /** The policy work of the step is charged after the transition. */
  function PolicyCharged(s: Snapshot, input: StepInput): Snapshot {
    s.(metrics := s.metrics.(
      elapsedSeconds := s.metrics.elapsedSeconds + NonNegative(input.policySeconds),
      policyCalls := s.metrics.policyCalls + input.policyCalls,
      policyPromptTokens := s.metrics.policyPromptTokens + input.policyTokens))
  }

  /**
   One turn of the run loop: the budget is checked, the result of the current node is
   applied and the step is charged. An error means nothing is committed.
   */
  function Step(g: GraphSpec, s: Snapshot, input: StepInput): Result<Snapshot, RunError> {
    if s.status != Running || s.currentNode !in g.nodes then Err(NotRunning)
    else
      var kind := g.nodes[s.currentNode].kind;
      var violations := BudgetViolations(s, kind);
      if violations != [] then Err(BudgetExceeded(violations))
      else
        match Advanced(g, Recorded(s, s.currentNode, kind, input), s.currentNode, input)
        case Err(error) => Err(error)
        case Ok(next) => Ok(PolicyCharged(next, input))
  }

  /** A run that spent its budget before the next step is stored as failed. */
  function OverBudget(s: Snapshot, violations: seq<Violation>): Snapshot {
    s.(status := Failed, error := Some(BudgetExceeded(violations)))
  }

  /** The state a log of committed steps leads to. */
  function Replay(g: GraphSpec, s: Snapshot, log: seq<StepInput>): Result<Snapshot, RunError> {
    if log == [] then Ok(s)
    else
      match Replay(g, s, log[..|log| - 1])
      case Err(error) => Err(error)
      case Ok(before) => Step(g, before, log[|log| - 1])
  }

  lemma ReplayExtends(g: GraphSpec, s: Snapshot, log: seq<StepInput>, input: StepInput)
    ensures Replay(g, s, log + [input]) ==
            match Replay(g, s, log)
            case Err(error) => Err(error)
            case Ok(before) => Step(g, before, input)
  {
    assert (log + [input])[..|log|] == log;
  }

  /** A replayed log ends with a step from the state its other steps lead to. */
  lemma ReplayLast(g: GraphSpec, s: Snapshot, log: seq<StepInput>, t: Snapshot)
    returns (shorter: seq<StepInput>, input: StepInput, before: Snapshot)
    requires log != [] && Replay(g, s, log) == Ok(t)
    ensures shorter == log[..|log| - 1] && log == shorter + [input]
    ensures Replay(g, s, shorter) == Ok(before) && Step(g, before, input) == Ok(t)
  {
    shorter, input := log[..|log| - 1], log[|log| - 1];
    assert log == shorter + [input];
    ReplayExtends(g, s, shorter, input);
    before := Replay(g, s, shorter).value;
  }

  lemma CutOfCut(log: seq<StepInput>, i: nat)
    requires i < |log|
    ensures log[..|log| - 1][..i] == log[..i]
  {
  }

  /** A log that can be replayed can be replayed as far as any of its steps. */
  lemma {:induction false} ReplayPrefix(g: GraphSpec, s: Snapshot, log: seq<StepInput>, i: nat)
    requires Replay(g, s, log).Ok? && i <= |log|
    ensures Replay(g, s, log[..i]).Ok?
    decreases |log|
  {
    if i == |log| {
      assert log[..i] == log;
    } else {
      var shorter := log[..|log| - 1];
      ReplayPrefix(g, s, shorter, i);
      assert shorter[..i] == log[..i];
    }
  }

  // ----- New runs -----

  const INITIAL_COUNTERS: Fields := map["repair_count" := Int(0), "plan_revision_count" := Int(0)]

  /** The step that a replayed log takes at one of its places. */
  lemma StepAt(g: GraphSpec, s: Snapshot, log: seq<StepInput>, i: nat, u: Snapshot) returns (next: Snapshot)
    requires i < |log| && Replay(g, s, log).Ok? && Replay(g, s, log[..i]) == Ok(u)
    ensures Step(g, u, log[i]) == Ok(next) && Replay(g, s, log[..i + 1]) == Ok(next)
  {
    ReplayPrefix(g, s, log, i + 1);
    next := Replay(g, s, log[..i + 1]).value;
    var shorter, input, before := ReplayLast(g, s, log[..i + 1], next);
    assert shorter == log[..i];
  }

  /** `RunState.new`: caller data may override the counters. */
  function NewRun(g: GraphSpec, task: string, budget: Budget, runId: string, initialData: Fields): Snapshot {
    Snapshot(Header(runId, g.name, g.version, task, budget), g.start, Running, INITIAL_COUNTERS + initialData,
             map[], map[], map[], [], NO_METRICS, 0, 0, None, Nil, None)
  }

  // ----- The state object the runtime updates in place -----

  /** A controller: any function of what it is shown. */
  type Selector = (GraphSpec, Snapshot, NodeId, seq<EdgeSpec>) -> EdgeSpec

  /** The edge taken is the one the controller returned. */
  predicate Chooses(g: GraphSpec, recorded: Snapshot, node: NodeId, selector: Selector, edge: EdgeSpec) {
    node !in g.terminals ==> edge == selector(g, recorded, node, Candidates(g, recorded, node))
  }

  /**
   Why a transition is refused: there is no candidate, or there are and the controller returned
   none of them.
   */
  predicate Refuses(g: GraphSpec, recorded: Snapshot, node: NodeId, selector: Selector, error: RunError) {
    var candidates := Candidates(g, recorded, node);
    && node !in g.terminals
    && match error
       case NoValidEdge => candidates == []
       case MaskedEdge => candidates != [] && !Offered(candidates, selector(g, recorded, node, candidates))
       case _ => false
  }

  class RunState {
    var currentNode: NodeId
    var status: Status
    var data: Fields
    var artifacts: Fields
    var attempts: map<NodeId, nat>
    var edgeCounts: map<EdgeKey, nat>
    var completedNodes: seq<NodeId>
    var metrics: Metrics
    var stepCount: nat
    var noProgressCount: nat
    var lastProgressKey: Option<ProgressKey>
    var output: Value
    var error: Option<RunError>
    const header: Header

    /** Loading a checkpoint. */
    constructor (s: Snapshot)
      ensures View() == s
    {
      header := s.header;
      currentNode, status, data, artifacts := s.currentNode, s.status, s.data, s.artifacts;
      attempts, edgeCounts, completedNodes := s.attempts, s.edgeCounts, s.completedNodes;
      metrics, stepCount, noProgressCount := s.metrics, s.stepCount, s.noProgressCount;
      lastProgressKey, output, error := s.lastProgressKey, s.output, s.error;
    }

    /** The checkpoint of this state. */
    function View(): Snapshot
      reads this
    {
      Snapshot(header, currentNode, status, data, artifacts, attempts, edgeCounts, completedNodes, metrics, stepCount,
               noProgressCount, lastProgressKey, output, error)
    }

    method RecordHistory(merged: Fields, artifacts: Fields, node: NodeId)
      modifies this
      ensures View() == RecordedHistory(old(View()), merged, artifacts, node)
    {
      data := merged;
      this.artifacts := artifacts;
      attempts := Bump(attempts, node);
      completedNodes := completedNodes + [node];
      stepCount := stepCount + 1;
    }

    method RecordCost(kind: NodeKind, input: StepInput)
      modifies this
      ensures View() == RecordedCost(old(View()), kind, input)
    {
      if input.cached {
        metrics := metrics.(cachedSteps := metrics.cachedSteps + 1);
      } else if kind == Llm {
        metrics := metrics.(llmCalls := metrics.llmCalls + 1);
      } else if kind in {Tool, Verifier} {
        metrics := metrics.(toolCalls := metrics.toolCalls + 1);
      }
      metrics := metrics.(promptTokens := metrics.promptTokens + input.result.promptTokens,
                          completionTokens := metrics.completionTokens + input.result.completionTokens,
                          elapsedSeconds := metrics.elapsedSeconds + NonNegative(input.seconds));
    }

    method RecordProgress(result: NodeResult)
      modifies this
      ensures View() == RecordedProgress(old(View()), result)
    {
      var progress := ProgressOf(data, artifacts, result);
      if lastProgressKey == Some(progress) {
        noProgressCount := noProgressCount + 1;
      } else {
        noProgressCount := 0;
      }
      lastProgressKey := Some(progress);
    }

    /** The first half of `apply_node_result`: the result is recorded, field by field. */
    method Record(node: NodeId, kind: NodeKind, input: StepInput)
      modifies this
      ensures View() == Recorded(old(View()), node, kind, input)
    {
      var merged := MergeInto(data, input.result.delta);
      RecordHistory(merged, input.artifacts, node);
      RecordCost(kind, input);
      RecordProgress(input.result);
    }

    method Finish(node: NodeId, output: Value)
      modifies this
      ensures View() == Finished(old(View()), node, output)
    {
      this.output := output;
      status := if node != Abort then Completed else Failed;
      if status == Failed {
        error := Some(AbortReached);
      }
    }

    method Move(edge: EdgeSpec)
      modifies this
      ensures View() == Moved(old(View()), edge)
    {
      edgeCounts := Bump(edgeCounts, edge.Key());
      currentNode := edge.target;
    }

    /** What `apply_node_result` made of a recorded state. */
    ghost predicate Concludes(g: GraphSpec, recorded: Snapshot, node: NodeId, input: StepInput, selector: Selector,
                              outcome: Result<EdgeSpec, RunError>)
      reads this
    {
      match outcome
      case Ok(edge) =>
        && Advanced(g, recorded, node, input.(choice := edge)) == Ok(View())
        && Chooses(g, recorded, node, selector, edge)
      case Err(error) => View() == recorded && Refuses(g, recorded, node, selector, error)
    }

    /**
     `apply_node_result`. On an error the result stays recorded in memory, but no edge is
     counted and the run does not move.
     */
    method ApplyNodeResult(g: GraphSpec, node: NodeId, kind: NodeKind, input: StepInput, selector: Selector)
      returns (outcome: Result<EdgeSpec, RunError>)
      modifies this
      ensures Concludes(g, Recorded(old(View()), node, kind, input), node, input, selector, outcome)
    {
      Record(node, kind, input);
      ghost var recorded := View();
      if node in g.terminals {
        Finish(node, input.result.output);
        return Ok(input.choice);
      }
      var candidates := ValidOutgoingEdges(g, View(), node);
      if candidates == [] {
        return Err(NoValidEdge);
      }
      var edge := selector(g, View(), node, candidates);
      if !Offered(candidates, edge) {
        return Err(MaskedEdge);
      }
      Move(edge);
      return Ok(edge);
    }

    /** The policy work of a step is charged after its transition. */
    method ChargePolicy(input: StepInput)
      modifies this
      ensures View() == PolicyCharged(old(View()), input)
    {
      metrics := metrics.(elapsedSeconds := metrics.elapsedSeconds + NonNegative(input.policySeconds),
                          policyCalls := metrics.policyCalls + input.policyCalls,
                          policyPromptTokens := metrics.policyPromptTokens + input.policyTokens);
    }
  }
}
