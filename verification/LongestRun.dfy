/**
 Runs that fail at one gate as late and as often as the graph lets them. Between them they use
 every edge of the coding graph up to its cap, and the one that fails its reviews costs as
 much as a run can: for every member of the family it completes after exactly the most steps,
 model calls and tool calls.
 */
module LongestRun {
  import opened Values
  import opened Graphs
  import opened Runs
  import opened Walks
  import opened CodingGraph
  import opened CodingCosts
  import opened Wrappers

  // ----- What its operators return -----

  const GATES := {Apply, Tests, Review}

  /** Its tests always report the same worktree. */
  const REPORT := Dict(map["workspace_fingerprint" := Str("empty")])

  /** A gate passes unless it is the failing one and repairs are left. */
  function GateVerdict(f: Family, gate: NodeId, n: NodeId, c: Control): Value {
    if n == gate && AsInt(c.repairs) < f.repairs then FAIL else PASS
  }

  /** Plans fail until the last attempt, the failing gate until the last repair. */
  function FailingDelta(f: Family, gate: NodeId, n: NodeId, c: Control): Fields {
    match n
    case Intake => map["route" := Str("deep"), "verdict" := PENDING]
    case Plan => map["verdict" := PENDING]
    case PlanCheck =>
      if AsInt(c.revisions) + 1 < f.plans
      then map["verdict" := FAIL, "plan_revision_count" := Int(AsInt(c.revisions) + 1)]
      else map["verdict" := PASS]
    case Implement => map["verdict" := PENDING]
    case Apply => map["verdict" := GateVerdict(f, gate, n, c)]
    case Tests => map["verdict" := GateVerdict(f, gate, n, c), "test_report" := REPORT]
    case Review => map["verdict" := GateVerdict(f, gate, n, c)]
    case Repair => map["verdict" := PENDING, "repair_count" := Int(AsInt(c.repairs) + 1)]
    case _ => map[]
  }

  lemma FailingObeys(f: Family, gate: NodeId, n: NodeId, c: Control)
    ensures Obeys(n, c, DeltaOf(FailingDelta(f, gate, n, c)))
  {
  }

  function FailingControl(f: Family, gate: NodeId, n: NodeId, was: Control): Control {
    Updated(was, DeltaOf(FailingDelta(f, gate, n, was)))
  }

  /** The verdict after a node that gives one. */
  function FailingVerdict(f: Family, gate: NodeId, n: NodeId, was: Control): Value {
    if n == PlanCheck then (if AsInt(was.revisions) + 1 < f.plans then FAIL else PASS) else GateVerdict(f, gate, n, was)
  }

  /** What the control data are after a step of the failing run. */
  predicate Turns(f: Family, gate: NodeId, n: NodeId, was: Control, c: Control) {
    && Becomes(n, was, c)
    && (n in {PlanCheck, Apply, Tests, Review} ==> c.verdict == FailingVerdict(f, gate, n, was))
    && (n in {Intake, CollectContext} ==> c.route != FAST_ROUTE)
  }

  lemma GateVerdictIs(f: Family, gate: NodeId, n: NodeId, was: Control)
    requires n in {PlanCheck, Apply, Tests, Review}
    ensures FailingControl(f, gate, n, was).verdict == FailingVerdict(f, gate, n, was)
  {
  }

  lemma RouteIsDeep(f: Family, gate: NodeId, was: Control)
    ensures FailingControl(f, gate, Intake, was).route == Str("deep")
    ensures FailingControl(f, gate, CollectContext, was).route == was.route
  {
  }

  lemma FailingTurns(f: Family, gate: NodeId, n: NodeId, was: Control)
    requires OnTheWay(f, gate, n, was)
    ensures Turns(f, gate, n, was, FailingControl(f, gate, n, was))
  {
    FailingObeys(f, gate, n, was);
    ObeyedUpdate(n, was, DeltaOf(FailingDelta(f, gate, n, was)));
    if n in {PlanCheck, Apply, Tests, Review} {
      GateVerdictIs(f, gate, n, was);
    } else {
      RouteIsDeep(f, gate, was);
      assert FAST_ROUTE.s[0] != Str("deep").s[0];
    }
  }

  // ----- Where it can stand -----

  /** No repairs before the gates, all of them once it is past the failing one. */
  predicate OnTheWay(f: Family, gate: NodeId, n: NodeId, c: Control) {
    && Usable(n, c) && ControlBounded(f, n, c)
    && n in NODE_IDS && n != Abort && gate in GATES
    && (n in {Intake, CollectContext} ==> AsInt(c.revisions) == 0)
    && (n == CollectContext ==> c.route != FAST_ROUTE)
    && (n in BEFORE_GATES ==> AsInt(c.repairs) == 0)
    && (PastGate(gate, n) ==> AsInt(c.repairs) == f.repairs)
  }

  predicate PastGate(gate: NodeId, n: NodeId) {
    n == Finish || (n == Review && gate != Review) || (n == Tests && gate == Apply)
  }

  lemma GateLeadsOn(f: Family, gate: NodeId, n: NodeId, onward: EdgeSpec, was: Control, c: Control)
    requires OnTheWay(f, gate, n, was) && n in GATES && Turns(f, gate, n, was, c)
    requires onward.target == (match n case Apply => Tests case Tests => Review case _ => Finish)
    ensures OnTheWay(f, gate, GateEdge(f, n, onward, c).target, c)
  {
    assert FAIL.s[0] != PASS.s[0];
  }

  /** Each of its results leads on along the way. */
  lemma LeadsOn(f: Family, gate: NodeId, n: NodeId, was: Control, c: Control)
    requires f.Proper() && OnTheWay(f, gate, n, was) && n != Finish && Turns(f, gate, n, was, c)
    ensures OnTheWay(f, gate, NextEdge(f, n, c).target, c)
  {
    assert FAIL.s[0] != PASS.s[0];
    match n
    case Apply => GateLeadsOn(f, gate, Apply, f.ApplyTests(), was, c);
    case Tests => GateLeadsOn(f, gate, Tests, f.TestsReview(), was, c);
    case Review => GateLeadsOn(f, gate, Review, REVIEW_FINISH, was, c);
    case PlanCheck => PlanCheckLeadsOn(f, gate, was, c);
    case _ =>
  }

  lemma PlanCheckLeadsOn(f: Family, gate: NodeId, was: Control, c: Control)
    requires f.Proper() && OnTheWay(f, gate, PlanCheck, was) && Turns(f, gate, PlanCheck, was, c)
    ensures OnTheWay(f, gate, NextEdge(f, PlanCheck, c).target, c)
  {
    assert FAIL.s[0] != PASS.s[0];
  }

  // ----- Which edges it has used -----

  predicate Planned(n: NodeId) {
    n !in {Intake, CollectContext, Plan, PlanCheck}
  }

  predicate PastApply(n: NodeId) {
    n !in BEFORE_GATES && n != Apply
  }

  predicate PastTests(n: NodeId) {
    PastApply(n) && n != Tests
  }

  /** All plan attempts, once it is past them. */
  predicate PlansUsed(f: Family, s: Snapshot) {
    Planned(s.currentNode) ==> C(s, f.RevisePlan()) == f.plans - 1 && C(s, f.PlanPlanCheck()) == f.plans
  }

  /** The gates that do not fail start no repair. */
  predicate OthersPass(f: Family, gate: NodeId, s: Snapshot) {
    forall other | other in GATES && other != gate :: C(s, f.RepairFrom(other)) == 0
  }

  /** Each round passes the gates before the failing one. */
  predicate PassesUsed(f: Family, gate: NodeId, s: Snapshot) {
    var r := AsInt(ControlOf(s.data).repairs);
    && (gate != Apply ==> C(s, f.ApplyTests()) == r + One(PastApply(s.currentNode)))
    && (gate == Review ==> C(s, f.TestsReview()) == r + One(PastTests(s.currentNode)))
  }

  predicate Tallied(f: Family, gate: NodeId, s: Snapshot) {
    PlansUsed(f, s) && OthersPass(f, gate, s) && PassesUsed(f, gate, s)
  }

  /** Its step: along the edge its control data pick. */
  predicate Moves(f: Family, gate: NodeId, s: Snapshot, t: Snapshot) {
    && Advances(f, s, t) && Turns(f, gate, s.currentNode, ControlOf(s.data), ControlOf(t.data))
    && OnTheWay(f, gate, s.currentNode, ControlOf(s.data))
  }

  lemma Counted(s: Snapshot, t: Snapshot, e: EdgeSpec, x: EdgeSpec)
    requires t.edgeCounts == Bump(s.edgeCounts, e.Key())
    ensures C(t, x) == C(s, x) + One(e.Key() == x.Key())
  {
  }

  /** When the step is along one of the edges that have more than one use. */
  lemma PlanEdgeTaken(f: Family, n: NodeId, c: Control)
    requires n in NODE_IDS && n !in {Finish, Abort}
    ensures var key := NextEdge(f, n, c).Key();
            && (key == f.PlanPlanCheck().Key() <==> n == Plan)
            && (key == f.RevisePlan().Key() <==> n == PlanCheck && c.verdict != PASS && AsInt(c.revisions) < f.plans)
  {
  }

  lemma GateEdgeTaken(f: Family, n: NodeId, c: Control, gate: NodeId)
    requires n in NODE_IDS && n !in {Finish, Abort} && gate in GATES
    ensures var key := NextEdge(f, n, c).Key();
            && (key == f.ApplyTests().Key() <==> n == Apply && c.verdict == PASS)
            && (key == f.TestsReview().Key() <==> n == Tests && c.verdict == PASS)
            && (key == f.RepairFrom(gate).Key() <==> n == gate && c.verdict != PASS && AsInt(c.repairs) < f.repairs)
  {
  }

  lemma MoveKeepsPlans(f: Family, gate: NodeId, s: Snapshot, t: Snapshot)
    requires f.Proper() && Moves(f, gate, s, t) && PlansUsed(f, s) && PlansCoherent(f, s)
    ensures PlansUsed(f, t)
  {
    var c := ControlOf(t.data);
    var e := NextEdge(f, s.currentNode, c);
    assert FAIL.s[0] != PASS.s[0];
    Counted(s, t, e, f.RevisePlan());
    Counted(s, t, e, f.PlanPlanCheck());
    PlanEdgeTaken(f, s.currentNode, c);
    PlannedNext(f, s.currentNode, c);
  }

  lemma PlannedNext(f: Family, n: NodeId, c: Control)
    requires n in NODE_IDS && n !in {Finish, Abort}
    ensures Planned(NextEdge(f, n, c).target) && !Planned(n) ==>
              (n == CollectContext && c.route == FAST_ROUTE)
              || (n == PlanCheck && (c.verdict == PASS || AsInt(c.revisions) >= f.plans))
  {
  }

  lemma MoveKeepsOthers(f: Family, gate: NodeId, s: Snapshot, t: Snapshot)
    requires f.Proper() && Moves(f, gate, s, t) && OthersPass(f, gate, s)
    ensures OthersPass(f, gate, t)
  {
    var c := ControlOf(t.data);
    forall other | other in GATES && other != gate
      ensures C(t, f.RepairFrom(other)) == 0
    {
      assert C(s, f.RepairFrom(other)) == 0;
      Counted(s, t, NextEdge(f, s.currentNode, c), f.RepairFrom(other));
      GateEdgeTaken(f, s.currentNode, c, other);
    }
  }

  /** Where a step goes to, as far as the gates are concerned. */
  lemma PastApplyNext(f: Family, n: NodeId, c: Control)
    requires n in NODE_IDS && n !in {Finish, Abort}
    ensures PastApply(NextEdge(f, n, c).target) <==>
              (PastApply(n) && n != Repair) || n == Apply
              || (n == PlanCheck && c.verdict != PASS && AsInt(c.revisions) >= f.plans)
  {
  }

  lemma PastTestsNext(f: Family, n: NodeId, c: Control)
    requires n in NODE_IDS && n !in {Finish, Abort}
    ensures PastTests(NextEdge(f, n, c).target) <==>
              (PastTests(n) && n != Repair) || n == Tests || (n == Apply && c.verdict != PASS)
              || (n == PlanCheck && c.verdict != PASS && AsInt(c.revisions) >= f.plans)
  {
    if n in GATES {
      PastTestsAfterGate(f, n, c);
    } else if n in BEFORE_GATES {
      PastTestsAfterPlans(f, n, c);
    }
  }

  lemma PastTestsAfterPlans(f: Family, n: NodeId, c: Control)
    requires n in BEFORE_GATES
    ensures PastTests(NextEdge(f, n, c).target) <==>
              n == PlanCheck && c.verdict != PASS && AsInt(c.revisions) >= f.plans
  {
    match n
    case Intake =>
    case CollectContext =>
    case Plan =>
    case PlanCheck =>
    case Implement =>
  }

  lemma PastTestsAfterGate(f: Family, n: NodeId, c: Control)
    requires n in GATES
    ensures PastTests(NextEdge(f, n, c).target) <==> n != Apply || c.verdict != PASS
  {
  }

  lemma MoveKeepsPasses(f: Family, gate: NodeId, s: Snapshot, t: Snapshot)
    requires f.Proper() && Moves(f, gate, s, t) && PassesUsed(f, gate, s)
    ensures PassesUsed(f, gate, t)
  {
    var c := ControlOf(t.data);
    var e := NextEdge(f, s.currentNode, c);
    Counted(s, t, e, f.ApplyTests());
    Counted(s, t, e, f.TestsReview());
    GateEdgeTaken(f, s.currentNode, c, gate);
    PastApplyNext(f, s.currentNode, c);
    PastTestsNext(f, s.currentNode, c);
    assert FAIL.s[0] != PASS.s[0];
  }

  // ----- What it costs -----

  lemma GateBills(f: Family, n: NodeId, onward: EdgeSpec, was: Control, c: Control)
    requires OnTheWay(f, Review, n, was) && n in GATES && Turns(f, Review, n, was, c)
    requires onward.target == (match n case Apply => Tests case Tests => Review case _ => Finish)
    ensures Bill(f, GateEdge(f, n, onward, c).target, AsInt(c.repairs), AsInt(c.revisions))
         == Charge(Bill(f, n, AsInt(was.repairs), AsInt(was.revisions)), KindOf(n))
  {
    assert FAIL.s[0] != PASS.s[0];
  }

  /** When the reviews fail, each step costs exactly the difference of the bills. */
  lemma ReviewBills(f: Family, n: NodeId, was: Control, c: Control)
    requires f.Proper() && OnTheWay(f, Review, n, was) && n != Finish && Turns(f, Review, n, was, c)
    ensures Bill(f, NextEdge(f, n, c).target, AsInt(c.repairs), AsInt(c.revisions))
         == Charge(Bill(f, n, AsInt(was.repairs), AsInt(was.revisions)), KindOf(n))
  {
    match n
    case Apply => GateBills(f, Apply, f.ApplyTests(), was, c);
    case Tests => GateBills(f, Tests, f.TestsReview(), was, c);
    case Review => GateBills(f, Review, REVIEW_FINISH, was, c);
    case PlanCheck => PlanCheckBills(f, was, c);
    case _ =>
  }

  lemma PlanCheckBills(f: Family, was: Control, c: Control)
    requires f.Proper() && OnTheWay(f, Review, PlanCheck, was) && Turns(f, Review, PlanCheck, was, c)
    ensures Bill(f, NextEdge(f, PlanCheck, c).target, AsInt(c.repairs), AsInt(c.revisions))
         == Charge(Bill(f, PlanCheck, AsInt(was.repairs), AsInt(was.revisions)), KindOf(PlanCheck))
  {
    assert FAIL.s[0] != PASS.s[0];
  }

  // ----- Its steps -----

  /** The label of a node's progress keys. */
  function LabelOf(n: NodeId): string {
    match n
    case Intake => "route"
    case CollectContext => "context"
    case Plan => "plan"
    case PlanCheck => "plan-check"
    case Implement => "candidate"
    case Apply => "apply-pass"
    case Tests => "tests"
    case Review => "review"
    case Diagnose => "diagnosis"
    case Repair => "repair"
    case Finish => "finish"
    case _ => "abort"
  }

  lemma LabelLabels(n: NodeId)
    requires n in NODE_IDS
    ensures LabelledBy(n, LabelOf(n) + ":")
  {
    assert LabelOf(n) in KeyHeads(n);
  }

  /** Free of charge, with a progress key labelled as its node's are. */
  function FailingInput(f: Family, gate: NodeId, s: Snapshot, choice: EdgeSpec): StepInput {
    StepInput(NodeResult(FailingDelta(f, gate, s.currentNode, ControlOf(s.data)), Nil,
                         LabelOf(s.currentNode) + ":", 0, 0),
              map[], false, 0.0, 0.0, 0, 0, choice)
  }

  /** Room in the budgets for the longest run, when it costs no tokens and no time. */
  predicate Roomy(f: Family, b: Budget) {
    Affords(b, f) && b.maxTokens > 0 && b.maxSeconds > 0.0
  }

  predicate Unspent(s: Snapshot) {
    s.metrics.TotalTokens() == 0 && s.metrics.elapsedSeconds == 0.0 && Progressing(s)
  }

  /** The failing run stands here. */
  predicate Failing(f: Family, gate: NodeId, s: Snapshot) {
    && s.status == Running && Roomy(f, s.header.budget) && Unspent(s)
    && OnTheWay(f, gate, s.currentNode, ControlOf(s.data)) && Tallied(f, gate, s)
    && AtMost(Spent(s), BillOf(f, s)) && (gate == Review ==> Spent(s) == BillOf(f, s))
  }

  lemma FailingAffordable(f: Family, gate: NodeId, s: Snapshot)
    requires f.Proper() && Failing(f, gate, s)
    ensures BudgetViolations(s, KindOf(s.currentNode)) == []
  {
    BillAtMost(f, s);
  }

  /** What a step charges. */
  lemma StepCounts(g: GraphSpec, s: Snapshot, input: StepInput, t: Snapshot)
    requires Step(g, s, input) == Ok(t)
    ensures t.header == s.header && t.stepCount == s.stepCount + 1
    ensures t.metrics.TotalTokens()
            == s.metrics.TotalTokens() + input.result.promptTokens + input.result.completionTokens
                                       + input.policyTokens
    ensures t.metrics.elapsedSeconds
            == s.metrics.elapsedSeconds + NonNegative(input.seconds) + NonNegative(input.policySeconds)
  {
    var _ := StepShape(g, s, input, t);
  }

  lemma StaysUnspent(f: Family, gate: NodeId, s: Snapshot, choice: EdgeSpec, t: Snapshot)
    requires Unspent(s) && s.currentNode in NODE_IDS
    requires Step(f.Graph(), s, FailingInput(f, gate, s, choice)) == Ok(t)
    requires t.status == Running ==> t.currentNode != s.currentNode
    ensures Unspent(t)
  {
    LabelLabels(s.currentNode);
    StepProgresses(f.Graph(), s, FailingInput(f, gate, s, choice), t);
    StepCounts(f.Graph(), s, FailingInput(f, gate, s, choice), t);
  }

  function FailingChoice(f: Family, gate: NodeId, s: Snapshot): EdgeSpec
    requires s.currentNode in NODE_IDS && s.currentNode != Abort
  {
    if s.currentNode == Finish then REVIEW_FINISH
    else NextEdge(f, s.currentNode, FailingControl(f, gate, s.currentNode, ControlOf(s.data)))
  }

  function FailingStep(f: Family, gate: NodeId, s: Snapshot): StepInput
    requires s.currentNode in NODE_IDS && s.currentNode != Abort
  {
    FailingInput(f, gate, s, FailingChoice(f, gate, s))
  }

  lemma FailingData(f: Family, gate: NodeId, s: Snapshot)
    requires OnTheWay(f, gate, s.currentNode, ControlOf(s.data))
    ensures var n, was := s.currentNode, ControlOf(s.data);
            && Obeys(n, was, DeltaOf(FailingDelta(f, gate, n, was)))
            && ControlOf(MergeFields(s.data, FailingDelta(f, gate, n, was))) == FailingControl(f, gate, n, was)
            && Turns(f, gate, n, was, FailingControl(f, gate, n, was))
  {
    var n, was := s.currentNode, ControlOf(s.data);
    FailingObeys(f, gate, n, was);
    ObeyedUpdate(n, was, DeltaOf(FailingDelta(f, gate, n, was)));
    PlainMerge(s.data, FailingDelta(f, gate, n, was));
    FailingTurns(f, gate, n, was);
  }

  /** What the failing run does next is within its contracts and its budget. */
  lemma FailingIsReady(f: Family, gate: NodeId, s: Snapshot)
    requires f.Proper() && Failing(f, gate, s)
    ensures var input := FailingStep(f, gate, s);
            && s.status == Running && s.currentNode in NODE_IDS
            && BudgetViolations(s, KindOf(s.currentNode)) == []
            && Obeys(s.currentNode, ControlOf(s.data), DeltaOf(input.result.delta))
            && (s.currentNode in {Finish, Abort}
                || input.choice == NextEdge(f, s.currentNode, ControlOf(MergeFields(s.data, input.result.delta))))
  {
    FailingData(f, gate, s);
    FailingAffordable(f, gate, s);
  }

  lemma FailingMoves(f: Family, gate: NodeId, s: Snapshot, u: Snapshot)
    requires f.Proper() && Failing(f, gate, s) && s.currentNode != Finish && Coherent(f, s)
    requires Step(f.Graph(), s, FailingStep(f, gate, s)) == Ok(u)
    ensures Moves(f, gate, s, u) && u.currentNode != s.currentNode
  {
    FailingData(f, gate, s);
    StepTakesTheEdge(f, s, FailingStep(f, gate, s), u);
    StepMerges(f.Graph(), s, FailingStep(f, gate, s), u);
    NoSelfLoop(f, s.currentNode, ControlOf(u.data));
  }

  lemma StepMerges(g: GraphSpec, s: Snapshot, input: StepInput, u: Snapshot)
    requires Step(g, s, input) == Ok(u)
    ensures u.data == MergeFields(s.data, input.result.delta)
    ensures s.currentNode !in g.terminals ==> u.status == Running
  {
    var _ := StepShape(g, s, input, u);
  }

  lemma FailingPays(f: Family, gate: NodeId, s: Snapshot, u: Snapshot)
    requires f.Proper() && Moves(f, gate, s, u) && s.currentNode != Finish
    requires AtMost(Spent(s), BillOf(f, s)) && (gate == Review ==> Spent(s) == BillOf(f, s))
    requires Spent(u) == Charge(Spent(s), KindOf(s.currentNode))
    ensures AtMost(Spent(u), BillOf(f, u)) && (gate == Review ==> Spent(u) == BillOf(f, u))
  {
    BillCovers(f, s.currentNode, ControlOf(s.data), ControlOf(u.data));
    if gate == Review {
      ReviewBills(f, s.currentNode, ControlOf(s.data), ControlOf(u.data));
    }
  }

  lemma FailingKeepsOn(f: Family, gate: NodeId, s: Snapshot, u: Snapshot)
    requires f.Proper() && Failing(f, gate, s) && s.currentNode != Finish && Coherent(f, s) && Moves(f, gate, s, u)
    ensures OnTheWay(f, gate, u.currentNode, ControlOf(u.data)) && Tallied(f, gate, u)
  {
    LeadsOn(f, gate, s.currentNode, ControlOf(s.data), ControlOf(u.data));
    MoveKeepsPlans(f, gate, s, u);
    MoveKeepsOthers(f, gate, s, u);
    MoveKeepsPasses(f, gate, s, u);
  }

  lemma FailingKept(f: Family, gate: NodeId, s: Snapshot, u: Snapshot)
    requires f.Proper() && Failing(f, gate, s) && s.currentNode != Finish && Coherent(f, s)
    requires Step(f.Graph(), s, FailingStep(f, gate, s)) == Ok(u)
    ensures Failing(f, gate, u)
  {
    FailingMoves(f, gate, s, u);
    FailingKeepsOn(f, gate, s, u);
    FailingStaysFree(f, gate, s, u);
    FailingPays(f, gate, s, u);
  }

  lemma FailingStaysFree(f: Family, gate: NodeId, s: Snapshot, u: Snapshot)
    requires f.Proper() && Failing(f, gate, s) && s.currentNode != Finish && Moves(f, gate, s, u)
    requires Step(f.Graph(), s, FailingStep(f, gate, s)) == Ok(u) && u.currentNode != s.currentNode
    ensures u.status == Running && u.header == s.header && Unspent(u)
    ensures Spent(u) == Charge(Spent(s), KindOf(s.currentNode))
  {
    var input := FailingStep(f, gate, s);
    StepMerges(f.Graph(), s, input, u);
    StaysUnspent(f, gate, s, FailingChoice(f, gate, s), u);
    StepCounts(f.Graph(), s, input, u);
    StepSpends(f.Graph(), s, input, u);
  }

  // ----- Where it ends -----

  /** It has used these edges as often as their caps allow. */
  predicate Filled(f: Family, gate: NodeId, s: Snapshot) {
    && C(s, f.PlanPlanCheck()) == f.plans && C(s, f.RevisePlan()) == f.plans - 1
    && C(s, f.DiagnoseRepair()) == f.repairs && C(s, f.RepairApply()) == f.repairs
    && C(s, f.RepairFrom(gate)) == f.repairs
    && (gate != Apply ==> C(s, f.ApplyTests()) == f.repairs + 1)
    && (gate == Review ==> C(s, f.TestsReview()) == f.repairs + 1)
  }

  /** It has completed with all that used, and if the reviews failed at the maximal cost. */
  predicate Peaks(f: Family, gate: NodeId, s: Snapshot) {
    s.status == Completed && Filled(f, gate, s) && (gate == Review ==> Spent(s) == MaxCost(f))
  }

  lemma FilledAtFinish(f: Family, gate: NodeId, s: Snapshot)
    requires OnTheWay(f, gate, Finish, ControlOf(s.data)) && Tallied(f, gate, s) && RepairsCoherent(f, s)
             && s.currentNode == Finish
    ensures Filled(f, gate, s)
  {
    AllFrom(f, gate, s);
  }

  /** Every repair came from the failing gate. */
  lemma AllFrom(f: Family, gate: NodeId, s: Snapshot)
    requires gate in GATES && OthersPass(f, gate, s) && RepairsCoherent(f, s) && s.currentNode == Finish
    ensures C(s, f.RepairFrom(gate)) == AsInt(ControlOf(s.data).repairs)
  {
    assert Apply != gate ==> C(s, f.RepairFrom(Apply)) == 0;
    assert Tests != gate ==> C(s, f.RepairFrom(Tests)) == 0;
    assert Review != gate ==> C(s, f.RepairFrom(Review)) == 0;
  }

  lemma FailingFinishes(f: Family, gate: NodeId, s: Snapshot, u: Snapshot)
    requires f.Proper() && Failing(f, gate, s) && Coherent(f, s) && s.currentNode == Finish
    requires Step(f.Graph(), s, FailingStep(f, gate, s)) == Ok(u)
    ensures Peaks(f, gate, u)
  {
    FilledAtFinish(f, gate, s);
    FinishCompletes(f.Graph(), s, FailingStep(f, gate, s), u);
    SameCountsFill(f, gate, s, u);
    StepSpends(f.Graph(), s, FailingStep(f, gate, s), u);
    LastCharge(f, s);
  }

  lemma SameCountsFill(f: Family, gate: NodeId, s: Snapshot, u: Snapshot)
    requires Filled(f, gate, s) && u.edgeCounts == s.edgeCounts
    ensures Filled(f, gate, u)
  {
  }

  lemma LastCharge(f: Family, s: Snapshot)
    requires s.currentNode == Finish
    ensures Charge(BillOf(f, s), Final) == MaxCost(f)
  {
  }

  lemma FinishCompletes(g: GraphSpec, s: Snapshot, input: StepInput, u: Snapshot)
    requires Step(g, s, input) == Ok(u) && s.currentNode == Finish && Finish in g.terminals
    ensures u.status == Completed && u.edgeCounts == s.edgeCounts
  {
    var _ := StepShape(g, s, input, u);
  }

  lemma FailingEnds(f: Family, gate: NodeId, s: Snapshot, u: Snapshot)
    requires f.Proper() && Failing(f, gate, s) && Coherent(f, s)
    requires Step(f.Graph(), s, FailingStep(f, gate, s)) == Ok(u)
    ensures u.stepCount == s.stepCount + 1 && u.completedNodes == s.completedNodes + [s.currentNode]
    ensures if s.currentNode == Finish then Peaks(f, gate, u) else Failing(f, gate, u)
  {
    StepAdds(f.Graph(), s, FailingStep(f, gate, s), u);
    if s.currentNode == Finish {
      FailingFinishes(f, gate, s, u);
    } else {
      FailingKept(f, gate, s, u);
    }
  }

  lemma StepAdds(g: GraphSpec, s: Snapshot, input: StepInput, u: Snapshot)
    requires Step(g, s, input) == Ok(u)
    ensures u.stepCount == s.stepCount + 1 && u.completedNodes == s.completedNodes + [s.currentNode]
  {
    var _ := StepShape(g, s, input, u);
  }

  /** Tests report, nobody else does. */
  predicate ReportsAt(n: NodeId, delta: Fields) {
    if n == Tests then "test_report" in delta && delta["test_report"] == REPORT else "test_report" !in delta
  }

  /** Every result has the label of its node, and a report if it is of tests. */
  predicate Worded(log: seq<StepInput>, nodes: seq<NodeId>) {
    && |log| == |nodes| && Labelled(log, nodes)
    && forall i | 0 <= i < |log| :: ReportsAt(nodes[i], log[i].result.delta)
  }

  lemma FailingTakes(f: Family, gate: NodeId, s: Snapshot, log: seq<StepInput>, t: Snapshot) returns (u: Snapshot)
    requires ObeyingRun(f, s, log) == Some(t) && Failing(f, gate, t)
    ensures Step(f.Graph(), t, FailingStep(f, gate, t)) == Ok(u)
    ensures ObeyingRun(f, s, log + [FailingStep(f, gate, t)]) == Some(u)
  {
    FailingIsReady(f, gate, t);
    u := TakingTheEdge(f, s, log, t, FailingStep(f, gate, t));
  }

  /** From wherever it stands the failing run completes or comes one step further. */
  lemma FailingGoesOn(f: Family, gate: NodeId, s: Snapshot, log: seq<StepInput>, t: Snapshot)
    returns (longer: seq<StepInput>, u: Snapshot)
    requires ObeyingRun(f, s, log) == Some(t) && Failing(f, gate, t)
    requires Worded(log, t.completedNodes)
    ensures ObeyingRun(f, s, longer) == Some(u) && u.stepCount == t.stepCount + 1
    ensures Worded(longer, u.completedNodes)
    ensures if t.currentNode == Finish then Peaks(f, gate, u) else Failing(f, gate, u)
  {
    var input := FailingStep(f, gate, t);
    u := FailingTakes(f, gate, s, log, t);
    longer := log + [input];
    RunIsCoherent(f, s, log, t);
    FailingEnds(f, gate, t, u);
    ReportsOrNot(f, gate, t.currentNode, ControlOf(t.data));
    WordedMore(log, t.completedNodes, input, t.currentNode);
  }

  lemma ReportsOrNot(f: Family, gate: NodeId, n: NodeId, c: Control)
    ensures ReportsAt(n, FailingDelta(f, gate, n, c))
  {
  }

  /** The next result carries the label of its node, and the report if it is of tests. */
  lemma WordedMore(log: seq<StepInput>, nodes: seq<NodeId>, input: StepInput, n: NodeId)
    requires Worded(log, nodes) && n in NODE_IDS && input.result.progressKey == LabelOf(n) + ":"
    requires ReportsAt(n, input.result.delta)
    ensures Worded(log + [input], nodes + [n])
  {
    LabelLabels(n);
    forall i | 0 <= i < |log| + 1
      ensures LabelledBy((nodes + [n])[i], (log + [input])[i].result.progressKey)
      ensures ReportsAt((nodes + [n])[i], (log + [input])[i].result.delta)
    {
      assert i < |log| ==> LabelledBy(nodes[i], log[i].result.progressKey) && ReportsAt(nodes[i], log[i].result.delta);
    }
  }

  /** This run from `s` obeys its operators' contracts, labels its keys, and completes with the gate's edges used up. */
  predicate CompletesUsing(f: Family, gate: NodeId, s: Snapshot, log: seq<StepInput>, t: Snapshot) {
    && ObeyingRun(f, s, log) == Some(t)
    && Worded(log, t.completedNodes)
    && Peaks(f, gate, t)
  }

  ghost predicate SomeRunUses(f: Family, gate: NodeId, s: Snapshot) {
    exists log, t :: CompletesUsing(f, gate, s, log, t)
  }

  lemma {:induction false} FailingCompletes(f: Family, gate: NodeId, s: Snapshot, log: seq<StepInput>, t: Snapshot)
    requires ObeyingRun(f, s, log) == Some(t) && Failing(f, gate, t)
    requires Worded(log, t.completedNodes)
    ensures SomeRunUses(f, gate, s)
    decreases MaxCost(f).steps - t.stepCount
  {
    var longer, u := FailingGoesOn(f, gate, s, log, t);
    if t.currentNode == Finish {
      assert CompletesUsing(f, gate, s, longer, u);
    } else {
      BillAtMost(f, t);
      FailingCompletes(f, gate, s, longer, u);
    }
  }

  lemma InitialControl()
    ensures ControlOf(INITIAL_COUNTERS) == Control(Nil, Nil, Int(0), Int(0))
  {
  }

  lemma StartsOnTheWay(f: Family, gate: NodeId, c: Control)
    requires f.Proper() && gate in GATES && c == Control(Nil, Nil, Int(0), Int(0))
    ensures OnTheWay(f, gate, Intake, c)
  {
  }

  lemma StartsTallied(f: Family, gate: NodeId, s: Snapshot)
    requires s.currentNode == Intake && s.edgeCounts == map[] && AsInt(ControlOf(s.data).repairs) == 0
    ensures Tallied(f, gate, s)
  {
    forall other | other in GATES && other != gate
      ensures C(s, f.RepairFrom(other)) == 0
    {
    }
  }

  lemma StartsUnspent(f: Family, s: Snapshot)
    requires Fresh(f.Graph(), s) && s.lastProgressKey == None
    ensures s.status == Running && s.currentNode == Intake && s.edgeCounts == map[]
    ensures Unspent(s) && Spent(s) == BillOf(f, s)
  {
  }

  lemma FailsFromTheStart(f: Family, gate: NodeId, s: Snapshot)
    requires f.Proper() && gate in GATES && Fresh(f.Graph(), s) && s.lastProgressKey == None
             && Roomy(f, s.header.budget)
    requires ControlOf(s.data) == Control(Nil, Nil, Int(0), Int(0))
    ensures Failing(f, gate, s)
  {
    StartsUnspent(f, s);
    StartsOnTheWay(f, gate, ControlOf(s.data));
    StartsTallied(f, gate, s);
  }

  lemma NewRunIs(g: GraphSpec, task: string, budget: Budget, runId: string, s: Snapshot)
    requires s == NewRun(g, task, budget, runId, map[])
    ensures s.lastProgressKey == None && s.header.budget == budget && Fresh(g, s) && s.completedNodes == []
    ensures s.data == INITIAL_COUNTERS
  {
    assert INITIAL_COUNTERS + map[] == INITIAL_COUNTERS;
  }

  /** For each gate some run uses up the edges that fail and pass it, with any budget that has room. */
  lemma EveryGateCanFail(f: Family, gate: NodeId, task: string, budget: Budget, runId: string)
    requires f.Proper() && gate in GATES && Roomy(f, budget)
    ensures SomeRunUses(f, gate, NewRun(f.Graph(), task, budget, runId, map[]))
  {
    UsesFrom(f, gate, NewRun(f.Graph(), task, budget, runId, map[]), task, budget, runId);
  }

  lemma UsesFrom(f: Family, gate: NodeId, s: Snapshot, task: string, budget: Budget, runId: string)
    requires f.Proper() && gate in GATES && Roomy(f, budget)
    requires s == NewRun(f.Graph(), task, budget, runId, map[])
    ensures SomeRunUses(f, gate, s)
  {
    NewRunIs(f.Graph(), task, budget, runId, s);
    InitialControl();
    FailsFromTheStart(f, gate, s);
    FromFresh(f, gate, s);
  }

  lemma NoSteps(f: Family, s: Snapshot)
    requires f.Proper() && Starts(f.Graph(), s)
    ensures ObeyingRun(f, s, []) == Some(s)
  {
  }

  lemma FromFresh(f: Family, gate: NodeId, s: Snapshot)
    requires f.Proper() && Failing(f, gate, s) && Starts(f.Graph(), s) && s.completedNodes == []
    ensures SomeRunUses(f, gate, s)
  {
    NoSteps(f, s);
    var log := [];
    NoWords(log, s.completedNodes);
    FailingCompletes(f, gate, s, log, s);
  }

  lemma NoWords(log: seq<StepInput>, nodes: seq<NodeId>)
    requires log == [] && nodes == []
    ensures Worded(log, nodes)
  {
  }

  /** The cost bounds are tight: some run of every member of the family reaches all three. */
  lemma BoundsAreReached(f: Family, task: string, budget: Budget, runId: string)
    requires f.Proper() && Roomy(f, budget)
    ensures exists log, t ::
              && ObeyingRun(f, NewRun(f.Graph(), task, budget, runId, map[]), log) == Some(t)
              && |log| == |t.completedNodes| && Labelled(log, t.completedNodes)
              && t.status == Completed && Spent(t) == MaxCost(f)
  {
    EveryGateCanFail(f, Review, task, budget, runId);
    var log, t :| CompletesUsing(f, Review, NewRun(f.Graph(), task, budget, runId, map[]), log, t);
  }
}
