/**
 What runs of the coding graph cost: upper bounds on steps and calls for every run, why
 their steps always count as progress, and why the default count budgets never stop them.
 */
module CodingCosts {
  import opened Graphs
  import opened Runs
  import opened Walks
  import opened CodingGraph
  import opened Wrappers

  datatype Cost = Cost(steps: int, llmCalls: int, toolCalls: int)

  /** What any run of the family costs at most, and its longest run exactly. */
  function MaxCost(f: Family): Cost {
    Cost(7 + 2 * f.plans + 5 * f.repairs, 2 + f.plans + 3 * f.repairs, 3 + f.plans + 2 * f.repairs)
  }

  function Spent(s: Snapshot): Cost {
    Cost(s.stepCount, s.metrics.llmCalls, s.metrics.toolCalls)
  }

  predicate AtMost(a: Cost, b: Cost) {
    a.steps <= b.steps && a.llmCalls <= b.llmCalls && a.toolCalls <= b.toolCalls
  }

  /** The most a run can have spent before it runs `n`, after `r` repairs and `v` plan revisions. */
  function Bill(f: Family, n: NodeId, r: int, v: int): Cost {
    var q := f.plans;
    match n
    case Intake => Cost(0, 0, 0)
    case CollectContext => Cost(1, 0, 0)
    case Plan => Cost(2 + 2 * v, v, 1 + v)
    case PlanCheck => Cost(3 + 2 * v, v + 1, 1 + v)
    case Implement => Cost(2 + 2 * q, q, 1 + q)
    case Apply => Cost(3 + 2 * q + 5 * r, q + 1 + 3 * r, 1 + q + 2 * r)
    case Tests => Cost(4 + 2 * q + 5 * r, q + 1 + 3 * r, 2 + q + 2 * r)
    case Review => Cost(5 + 2 * q + 5 * r, q + 1 + 3 * r, 3 + q + 2 * r)
    case Diagnose => Cost(6 + 2 * q + 5 * r, q + 2 + 3 * r, 3 + q + 2 * r)
    case Repair => Cost(7 + 2 * q + 5 * r, q + 3 + 3 * r, 3 + q + 2 * r)
    case _ => Cost(6 + 2 * q + 5 * f.repairs, q + 2 + 3 * f.repairs, 3 + q + 2 * f.repairs)
  }

  function BillOf(f: Family, s: Snapshot): Cost {
    Bill(f, s.currentNode, AsInt(ControlOf(s.data).repairs), AsInt(ControlOf(s.data).revisions))
  }

  /** What running a node adds. */
  function Charge(c: Cost, kind: NodeKind): Cost {
    Cost(c.steps + 1, c.llmCalls + One(kind == Llm), c.toolCalls + One(kind in {Tool, Verifier}))
  }

  lemma StepSpends(g: GraphSpec, s: Snapshot, input: StepInput, t: Snapshot)
    requires Step(g, s, input) == Ok(t)
    ensures s.currentNode in g.nodes
    ensures AtMost(Spent(t), Charge(Spent(s), g.nodes[s.currentNode].kind))
    ensures !input.cached ==> Spent(t) == Charge(Spent(s), g.nodes[s.currentNode].kind)
  {
  }

  /** The counters of a coherent state are within the family's bounds. */
  predicate Bounded(f: Family, s: Snapshot) {
    ControlBounded(f, s.currentNode, ControlOf(s.data))
  }

  lemma CoherentIsBounded(f: Family, s: Snapshot)
    requires RepairsCoherent(f, s) && PlansCoherent(f, s)
    ensures Bounded(f, s)
  {
    assert s.currentNode in {Intake, CollectContext, Plan, PlanCheck} ==> s.currentNode in BEFORE_GATES;
  }

  predicate ControlBounded(f: Family, n: NodeId, c: Control) {
    && 0 <= AsInt(c.repairs) <= f.repairs - One(n in {Repair, Diagnose})
    && (n in {Intake, CollectContext, Plan, PlanCheck} ==> 0 <= AsInt(c.revisions) < f.plans)
  }

  lemma BillCoversGate(f: Family, n: NodeId, onward: EdgeSpec, was: Control, c: Control)
    requires n in {Apply, Tests, Review} && Becomes(n, was, c) && ControlBounded(f, n, was)
    requires onward.target == (match n case Apply => Tests case Tests => Review case _ => Finish)
    ensures AtMost(Charge(Bill(f, n, AsInt(was.repairs), AsInt(was.revisions)), KindOf(n)),
                   Bill(f, GateEdge(f, n, onward, c).target, AsInt(c.repairs), AsInt(c.revisions)))
  {
  }

  lemma BillCovers(f: Family, n: NodeId, was: Control, c: Control)
    requires f.Proper() && n in NODE_IDS && n !in {Finish, Abort} && Becomes(n, was, c)
    requires ControlBounded(f, n, was)
    ensures AtMost(Charge(Bill(f, n, AsInt(was.repairs), AsInt(was.revisions)), KindOf(n)),
                   Bill(f, NextEdge(f, n, c).target, AsInt(c.repairs), AsInt(c.revisions)))
  {
    match n
    case Apply => BillCoversGate(f, Apply, f.ApplyTests(), was, c);
    case Tests => BillCoversGate(f, Tests, f.TestsReview(), was, c);
    case Review => BillCoversGate(f, Review, REVIEW_FINISH, was, c);
    case PlanCheck => BillCoversPlanCheck(f, was, c);
    case CollectContext => BillCoversContext(f, was, c);
    case _ =>
  }

  lemma BillCoversPlanCheck(f: Family, was: Control, c: Control)
    requires f.Proper() && Becomes(PlanCheck, was, c) && ControlBounded(f, PlanCheck, was)
    ensures AtMost(Charge(Bill(f, PlanCheck, AsInt(was.repairs), AsInt(was.revisions)), KindOf(PlanCheck)),
                   Bill(f, NextEdge(f, PlanCheck, c).target, AsInt(c.repairs), AsInt(c.revisions)))
  {
  }

  lemma BillCoversContext(f: Family, was: Control, c: Control)
    requires f.Proper() && Becomes(CollectContext, was, c) && ControlBounded(f, CollectContext, was)
    ensures AtMost(Charge(Bill(f, CollectContext, AsInt(was.repairs), AsInt(was.revisions)), KindOf(CollectContext)),
                   Bill(f, NextEdge(f, CollectContext, c).target, AsInt(c.repairs), AsInt(c.revisions)))
  {
  }

  /** Wherever the run goes next, the bill there covers the bill here and the node between. */
  lemma BillCoversStep(f: Family, s: Snapshot, t: Snapshot)
    requires f.Proper() && Advances(f, s, t) && Bounded(f, s)
    ensures AtMost(Charge(BillOf(f, s), KindOf(s.currentNode)), BillOf(f, t))
  {
    BillCovers(f, s.currentNode, ControlOf(s.data), ControlOf(t.data));
  }

  lemma BillAtMost(f: Family, s: Snapshot)
    requires f.Proper() && Bounded(f, s)
    ensures AtMost(Charge(BillOf(f, s), KindOf(s.currentNode)), MaxCost(f))
  {
  }

  /** Before each step an obeying run has spent no more than the bill of where it stands. */
  lemma {:induction false} RunWithinBill(f: Family, s: Snapshot, log: seq<StepInput>, t: Snapshot)
    requires ObeyingRun(f, s, log) == Some(t)
    ensures t.status == Running ==> Bounded(f, t) && t.currentNode in NODE_IDS && AtMost(Spent(t), BillOf(f, t))
    decreases |log|
  {
    if t.status == Running {
      RunIsCoherent(f, s, log, t);
      CoherentIsBounded(f, t);
      if log != [] {
        var shorter, input, before := ObeysLast(f, s, log, t);
        RunWithinBill(f, s, shorter, before);
        StepWithinBill(f, s, shorter, before, input, t);
      }
    }
  }

  lemma StepWithinBill(f: Family, s: Snapshot, log: seq<StepInput>, before: Snapshot, input: StepInput, t: Snapshot)
    requires ObeyingRun(f, s, log) == Some(before)
    requires Obeys(before.currentNode, ControlOf(before.data), DeltaOf(input.result.delta))
    requires Step(f.Graph(), before, input) == Ok(t) && t.status == Running
    requires before.status == Running ==> Bounded(f, before) && AtMost(Spent(before), BillOf(f, before))
    ensures AtMost(Spent(t), BillOf(f, t))
  {
    var _ := StepShape(f.Graph(), before, input, t);
    RunIsCoherent(f, s, log, before);
    StepTakesTheEdge(f, before, input, t);
    StepSpends(f.Graph(), before, input, t);
    BillCoversStep(f, before, t);
  }

  /**
   Every obeying run, finished or not, takes at most 7 + 2Q + 5R steps, 2 + Q + 3R model
   calls and 3 + Q + 2R tool and verifier calls, for R repairs and Q plan attempts.
   */
  lemma RunsCostAtMost(f: Family, s: Snapshot, log: seq<StepInput>, t: Snapshot)
    requires ObeyingRun(f, s, log) == Some(t)
    ensures AtMost(Spent(t), MaxCost(f))
  {
    if t.status == Running {
      RunWithinBill(f, s, log, t);
      BillAtMost(f, t);
    } else {
      var shorter, input, before := ObeysLast(f, s, log, t);
      var _ := StepShape(f.Graph(), before, input, t);
      RunWithinBill(f, s, shorter, before);
      StepSpends(f.Graph(), before, input, t);
      BillAtMost(f, before);
    }
  }

  // ----- Progress keys -----

  /** The texts a node's progress keys start with, up to the first colon. */
  function KeyHeads(n: NodeId): set<string> {
    match n
    case Intake => {"route"}
    case CollectContext => {"context", "workspace-context"}
    case Plan => {"plan"}
    case PlanCheck => {"plan-check"}
    case Implement => {"patch-proposal", "candidate"}
    case Apply => {"apply", "apply-fail", "apply-pass"}
    case Tests => {"tests", "workspace-tests"}
    case Review => {"review"}
    case Diagnose => {"diagnosis"}
    case Repair => {"repair", "repair-proposal"}
    case Finish => {"finish"}
    case Abort => {"abort"}
    case Named(_) => {}
  }

  /** The node whose progress keys start with a text. */
  function HeadNode(head: string): NodeId {
    match head
    case "route" => Intake
    case "context" => CollectContext
    case "workspace-context" => CollectContext
    case "plan" => Plan
    case "plan-check" => PlanCheck
    case "patch-proposal" => Implement
    case "candidate" => Implement
    case "apply" => Apply
    case "apply-fail" => Apply
    case "apply-pass" => Apply
    case "tests" => Tests
    case "workspace-tests" => Tests
    case "review" => Review
    case "diagnosis" => Diagnose
    case "repair" => Repair
    case "repair-proposal" => Repair
    case "finish" => Finish
    case "abort" => Abort
    case _ => Named(head)
  }

  /** The text before the first colon. */
  function Head(key: string): string {
    if key == "" || key[0] == ':' then "" else [key[0]] + Head(key[1..])
  }

  lemma {:induction false} HeadOfConcat(head: string, rest: string)
    requires ':' !in head
    ensures Head(head + ":" + rest) == head
    decreases |head|
  {
    var key := head + ":" + rest;
    if head != "" {
      HeadOfConcat(head[1..], rest);
      assert key[1..] == head[1..] + ":" + rest;
      assert key[0] == head[0];
    }
  }

  predicate LabelledBy(n: NodeId, key: string) {
    exists head | head in KeyHeads(n) :: head + ":" <= key
  }

  lemma HeadsTellNodes(n: NodeId, head: string)
    requires head in KeyHeads(n)
    ensures HeadNode(head) == n && ':' !in head
  {
  }

  /** A progress key tells which node made it. */
  lemma LabelTellsNode(n: NodeId, key: string)
    requires LabelledBy(n, key)
    ensures HeadNode(Head(key)) == n && key != ""
  {
    var head :| head in KeyHeads(n) && head + ":" <= key;
    var rest := key[|head| + 1..];
    assert key == head + ":" + rest;
    HeadsTellNodes(n, head);
    HeadOfConcat(head, rest);
  }

  /** Every step's progress key carries the label of its node. */
  predicate Labelled(log: seq<StepInput>, nodes: seq<NodeId>)
    requires |log| == |nodes|
  {
    forall i | 0 <= i < |log| :: LabelledBy(nodes[i], log[i].result.progressKey)
  }

  /** The last progress key is the last node's, and the run has moved to another node. */
  predicate Progressing(s: Snapshot) {
    && s.noProgressCount == 0
    && (s.completedNodes == [] ==> s.lastProgressKey == None)
    && (s.completedNodes != [] ==>
          && s.lastProgressKey.Some? && s.lastProgressKey.value.Given?
          && LabelledBy(s.completedNodes[|s.completedNodes| - 1], s.lastProgressKey.value.key)
          && (s.status == Running ==> s.completedNodes[|s.completedNodes| - 1] != s.currentNode))
  }

  lemma StepProgresses(g: GraphSpec, s: Snapshot, input: StepInput, t: Snapshot)
    requires Progressing(s) && Step(g, s, input) == Ok(t)
    requires LabelledBy(s.currentNode, input.result.progressKey)
    requires t.status == Running ==> t.currentNode != s.currentNode
    ensures Progressing(t)
  {
    LabelTellsNode(s.currentNode, input.result.progressKey);
    if s.completedNodes != [] {
      LabelTellsNode(s.completedNodes[|s.completedNodes| - 1], s.lastProgressKey.value.key);
    }
    var _ := StepShape(g, s, input, t);
    var recorded := Recorded(s, s.currentNode, g.nodes[s.currentNode].kind, input);
    assert recorded.lastProgressKey == Some(Given(input.result.progressKey));
    assert recorded.noProgressCount == 0;
  }

  lemma RunAdvances(f: Family, s: Snapshot, log: seq<StepInput>, before: Snapshot, input: StepInput, t: Snapshot)
    requires ObeyingRun(f, s, log) == Some(before)
    requires Obeys(before.currentNode, ControlOf(before.data), DeltaOf(input.result.delta))
    requires Step(f.Graph(), before, input) == Ok(t) && t.status == Running
    ensures Advances(f, before, t)
  {
    var _ := StepShape(f.Graph(), before, input, t);
    RunIsCoherent(f, s, log, before);
    StepTakesTheEdge(f, before, input, t);
  }

  lemma NoSelfLoop(f: Family, n: NodeId, c: Control)
    requires n in NODE_IDS && n !in {Finish, Abort}
    ensures NextEdge(f, n, c).target != n
  {
  }

  /** With labelled progress keys no step of the coding graph ever counts as no progress. */
  lemma {:induction false} RunsProgress(f: Family, s: Snapshot, log: seq<StepInput>, t: Snapshot)
    requires ObeyingRun(f, s, log) == Some(t)
    requires s.lastProgressKey == None
    requires |log| == |t.completedNodes| && Labelled(log, t.completedNodes)
    ensures Progressing(t)
    decreases |log|
  {
    if log != [] {
      var shorter, input, before := ObeysLast(f, s, log, t);
      var _ := StepShape(f.Graph(), before, input, t);
      forall i | 0 <= i < |shorter|
        ensures LabelledBy(before.completedNodes[i], shorter[i].result.progressKey)
      {
        assert LabelledBy(t.completedNodes[i], log[i].result.progressKey);
      }
      RunsProgress(f, s, shorter, before);
      assert LabelledBy(t.completedNodes[|shorter|], log[|shorter|].result.progressKey);
      if t.status == Running {
        RunAdvances(f, s, shorter, before, input, t);
        NoSelfLoop(f, before.currentNode, ControlOf(t.data));
      }
      StepProgresses(f.Graph(), before, input, t);
    }
  }

  // ----- The default budgets -----

  /** The count budgets are at least the most a run of the family can cost. */
  predicate Affords(b: Budget, f: Family) {
    AtMost(MaxCost(f), Cost(b.maxSteps, b.maxLlmCalls, b.maxToolCalls)) && b.maxNoProgressSteps >= 1
  }

  lemma NextStepAffordable(f: Family, s: Snapshot, log: seq<StepInput>, t: Snapshot)
    requires ObeyingRun(f, s, log) == Some(t)
    requires t.status == Running
    ensures AtMost(Charge(Spent(t), KindOf(t.currentNode)), MaxCost(f)) && t.header == s.header
  {
    RunWithinBill(f, s, log, t);
    BillAtMost(f, t);
    BudgetsHold(f.Graph(), s, log, t);
  }

  lemma AffordableStep(s: Snapshot, kind: NodeKind)
    requires var b := s.header.budget; AtMost(Charge(Spent(s), kind), Cost(b.maxSteps, b.maxLlmCalls, b.maxToolCalls))
    requires s.noProgressCount < s.header.budget.maxNoProgressSteps
    ensures forall v :: v in BudgetViolations(s, kind) ==> v in {Violation.Tokens, Violation.Seconds}
  {
  }

  /** With enough budget only tokens or time can stop an obeying run early. */
  lemma CountBudgetsNeverFire(f: Family, s: Snapshot, log: seq<StepInput>, t: Snapshot)
    requires ObeyingRun(f, s, log) == Some(t)
    requires s.lastProgressKey == None && Affords(s.header.budget, f)
    requires |log| == |t.completedNodes| && Labelled(log, t.completedNodes)
    requires t.status == Running
    ensures forall v :: v in BudgetViolations(t, KindOf(t.currentNode)) ==> v in {Violation.Tokens, Violation.Seconds}
  {
    NextStepAffordable(f, s, log, t);
    RunsProgress(f, s, log, t);
    AffordableStep(t, KindOf(t.currentNode));
  }

  lemma ShippedCost()
    ensures SHIPPED.Proper() && MaxCost(SHIPPED) == Cost(21, 10, 9)
    ensures Affords(DEFAULT_BUDGET, SHIPPED)
  {
  }

  /**
   The shipped graph under the default budget: no obeying run takes more than 21 steps, 10 model
   calls and 9 tool calls, and none that labels its keys is stopped by anything but tokens or time.
   */
  lemma ShippedGraphFitsDefaults(s: Snapshot, log: seq<StepInput>, t: Snapshot)
    requires ObeyingRun(SHIPPED, s, log) == Some(t) && s.header.budget == DEFAULT_BUDGET
    ensures AtMost(Spent(t), Cost(21, 10, 9))
    ensures s.lastProgressKey == None && t.status == Running
            && |log| == |t.completedNodes| && Labelled(log, t.completedNodes) ==>
              forall v :: v in BudgetViolations(t, KindOf(t.currentNode)) ==> v in {Violation.Tokens, Violation.Seconds}
  {
    ShippedCost();
    RunsCostAtMost(SHIPPED, s, log, t);
    if s.lastProgressKey == None && t.status == Running
       && |log| == |t.completedNodes| && Labelled(log, t.completedNodes) {
      CountBudgetsNeverFire(SHIPPED, s, log, t);
    }
  }
}
