/**
 The shipped coding graph, as a family over the number of local repairs `repairs` and of
 plan attempts `plans` it allows; the shipped graph has two of each.
 */
module CodingGraph {
  import opened Values
  import opened Conditions
  import opened Graphs
  import opened Runs
  import opened Walks
  import opened Wrappers

  // ----- The graph -----

  function Data(key: string): Expr {
    Attribute(Name("data"), key)
  }

  function Text(s: string): Expr {
    Constant(Str(s))
  }

  function VerdictIs(verdict: string): Expr {
    Compare(Data("verdict"), [Eq], [Text(verdict)])
  }

  const PASSED := When(VerdictIs("pass"))

  /** The step failed and the counter compares as given to the bound. */
  function FailedWith(counter: string, op: Comparison, bound: nat): Condition {
    When(And([VerdictIs("fail"), Compare(Data(counter), [op], [Constant(Int(bound))])]))
  }

  const FAST := When(Compare(Data("route"), [Eq], [Text("fast")]))

  const PLANNED := When(Compare(Data("route"), [In], [SetOf([Text("deep"), Text("repair")])]))

  const INTAKE_CONTEXT := EdgeSpec(Intake, CollectContext, Always, 100, 1, "always")
  const CONTEXT_IMPLEMENT := EdgeSpec(CollectContext, Implement, FAST, 100, 1, "fast-path")
  const CONTEXT_PLAN := EdgeSpec(CollectContext, Plan, PLANNED, 90, 1, "planned-path")
  const PLAN_CHECK_IMPLEMENT := EdgeSpec(PlanCheck, Implement, PASSED, 100, 1, "data.verdict == 'pass'")
  const IMPLEMENT_APPLY := EdgeSpec(Implement, Apply, Always, 100, 1, "always")
  const REVIEW_FINISH := EdgeSpec(Review, Finish, PASSED, 100, 1, "data.verdict == 'pass'")

  function RepairLabel(gate: NodeId): string {
    match gate
    case Apply => "apply-repair"
    case Tests => "test-repair"
    case _ => "review-repair"
  }

  /**
   The bounds of a member of the family. The edges whose caps and conditions carry the
   bounds are functions of it; the tag of one without a label stands for its condition text.
   */
  datatype Family = Family(repairs: nat, plans: nat)
  {
    /** At least one repair and one plan revision: every cap is then positive. */
    predicate Proper() {
      repairs >= 1 && plans >= 2
    }

    function PlanPlanCheck(): EdgeSpec {
      EdgeSpec(Plan, PlanCheck, Always, 100, plans, "always")
    }

    function RevisePlan(): EdgeSpec {
      EdgeSpec(PlanCheck, Plan, FailedWith("plan_revision_count", Lt, plans), 90, plans - 1, "revise-plan")
    }

    function AbandonPlan(): EdgeSpec {
      EdgeSpec(PlanCheck, Abort, FailedWith("plan_revision_count", GtE, plans), 80, 1,
               "data.verdict == 'fail' and data.plan_revision_count >= bound")
    }

    function ApplyTests(): EdgeSpec {
      EdgeSpec(Apply, Tests, PASSED, 100, repairs + 1, "data.verdict == 'pass'")
    }

    function TestsReview(): EdgeSpec {
      EdgeSpec(Tests, Review, PASSED, 100, repairs + 1, "data.verdict == 'pass'")
    }

    /** A failing gate starts a repair while repairs are left. */
    function RepairFrom(gate: NodeId): EdgeSpec {
      EdgeSpec(gate, Diagnose, FailedWith("repair_count", Lt, repairs), 90, repairs, RepairLabel(gate))
    }

    function AbortFrom(gate: NodeId): EdgeSpec {
      EdgeSpec(gate, Abort, FailedWith("repair_count", GtE, repairs), 80, 1,
               "data.verdict == 'fail' and data.repair_count >= bound")
    }

    function DiagnoseRepair(): EdgeSpec {
      EdgeSpec(Diagnose, Repair, Always, 100, repairs, "always")
    }

    function RepairApply(): EdgeSpec {
      EdgeSpec(Repair, Apply, Always, 100, repairs, "always")
    }

    /** The edges that leave one node. */
    function From(n: NodeId): seq<EdgeSpec> {
      match n
      case Intake => [INTAKE_CONTEXT]
      case CollectContext => [CONTEXT_IMPLEMENT, CONTEXT_PLAN]
      case Plan => [PlanPlanCheck()]
      case PlanCheck => [PLAN_CHECK_IMPLEMENT, RevisePlan(), AbandonPlan()]
      case Implement => [IMPLEMENT_APPLY]
      case Apply => [ApplyTests(), RepairFrom(Apply), AbortFrom(Apply)]
      case Tests => [TestsReview(), RepairFrom(Tests), AbortFrom(Tests)]
      case Review => [REVIEW_FINISH, RepairFrom(Review), AbortFrom(Review)]
      case Diagnose => [DiagnoseRepair()]
      case Repair => [RepairApply()]
      case _ => []
    }

    function Edges(): seq<EdgeSpec> {
      [INTAKE_CONTEXT, CONTEXT_IMPLEMENT, CONTEXT_PLAN, PlanPlanCheck(),
       PLAN_CHECK_IMPLEMENT, RevisePlan(), AbandonPlan(), IMPLEMENT_APPLY,
       ApplyTests(), RepairFrom(Apply), AbortFrom(Apply),
       TestsReview(), RepairFrom(Tests), AbortFrom(Tests),
       REVIEW_FINISH, RepairFrom(Review), AbortFrom(Review),
       DiagnoseRepair(), RepairApply()]
    }

    function Graph(): GraphSpec {
      GraphSpec("coding-supergraph", "0.3.0", Intake, {Finish, Abort}, NODES, Edges())
    }
  }

  const SHIPPED := Family(2, 2)

  const NODE_IDS: set<NodeId> :=
    {Intake, CollectContext, Plan, PlanCheck, Implement, Apply, Tests, Review, Diagnose, Repair, Finish, Abort}

  function KindOf(n: NodeId): NodeKind {
    match n
    case Intake => Router
    case CollectContext => Tool
    case Plan => Llm
    case PlanCheck => Verifier
    case Implement => Llm
    case Apply => Tool
    case Tests => Verifier
    case Review => Llm
    case Diagnose => Llm
    case Repair => Llm
    case _ => Final
  }

  predicate HasSideEffect(n: NodeId) {
    n in {CollectContext, Apply, Tests}
  }

  const NODES: map<NodeId, NodeSpec> :=
    map n | n in NODE_IDS :: NodeSpec(n, KindOf(n), map[], !HasSideEffect(n), HasSideEffect(n))

  // ----- Its structure -----

  /** Where the edges of a node start in the edge list. */
  function Start(n: NodeId): nat {
    match n
    case Intake => 0
    case CollectContext => 1
    case Plan => 3
    case PlanCheck => 4
    case Implement => 7
    case Apply => 8
    case Tests => 11
    case Review => 14
    case Diagnose => 17
    case Repair => 18
    case _ => 19
  }

  lemma EdgeAt(f: Family, i: nat)
    requires i < |f.Edges()|
    ensures var n := f.Edges()[i].source;
            Start(n) <= i < Start(n) + |f.From(n)| && f.Edges()[i] == f.From(n)[i - Start(n)]
  {
    // A third of the list at a time.
    if i < 8 {
    } else if i < 14 {
    } else {
    }
  }

  lemma EdgesFromOne(f: Family, n: NodeId, i: nat, j: nat)
    requires i < |f.From(n)| && j < |f.From(n)|
    ensures f.From(n)[i].source == n
    ensures i != j ==> f.From(n)[i].target != f.From(n)[j].target
  {
  }

  /** Source and target already tell the edges apart. */
  lemma KeysDistinct(f: Family)
    ensures DistinctKeys(f.Edges())
  {
    var edges := f.Edges();
    forall i, j | 0 <= i < j < |edges|
      ensures edges[i].Key() != edges[j].Key()
    {
      EdgeAt(f, i);
      EdgeAt(f, j);
      if edges[i].source == edges[j].source {
        EdgesFromOne(f, edges[i].source, i - Start(edges[i].source), j - Start(edges[i].source));
      }
    }
  }

  /** The edges of the graph with a given source are the listed ones. */
  lemma EdgesOf(f: Family, e: EdgeSpec)
    ensures e in f.Edges() <==> e in f.From(e.source)
  {
    if e in f.Edges() {
      var i :| 0 <= i < |f.Edges()| && f.Edges()[i] == e;
      EdgeAt(f, i);
    }
    if e in f.From(e.source) {
      var i :| 0 <= i < |f.From(e.source)| && f.From(e.source)[i] == e;
      ListedInOrder(f, e.source, i);
    }
  }

  lemma ListedInOrder(f: Family, n: NodeId, i: nat)
    requires i < |f.From(n)|
    ensures Start(n) + i < |f.Edges()| && f.Edges()[Start(n) + i] == f.From(n)[i]
  {
  }

  lemma GraphIsWellFormed(f: Family)
    requires f.Proper()
    ensures WellFormed(f.Graph())
  {
    KeysDistinct(f);
    var edges := f.Edges();
    forall i | 0 <= i < |edges|
      ensures WellFormedEdge(f.Graph(), edges[i])
    {
      EdgeAt(f, i);
    }
  }

  // ----- What its conditions mean -----

  predicate Public(key: string) {
    key != "" && key[0] != '_'
  }

  lemma ContextData(s: Snapshot)
    ensures Get(ConditionContext(s), "data") == Dict(s.data)
  {
  }

  /** Reading `data.key` in a condition is looking the key up in the data. */
  lemma DataRead(s: Snapshot, key: string)
    requires Public(key)
    ensures Evaluate(Data(key), ConditionContext(s)) == Ok(Get(s.data, key))
  {
    assert !Private(key) by {
      assert "__"[0] == '_';
    }
    ContextData(s);
    assert Evaluate(Name("data"), ConditionContext(s)) == Ok(Dict(s.data));
  }

  /** What else a condition can read of a state. */
  lemma OthersRead(s: Snapshot)
    ensures Evaluate(Name("step_count"), ConditionContext(s)) == Ok(Int(s.stepCount))
    ensures Evaluate(Name("artifacts"), ConditionContext(s)) == Ok(Dict(s.artifacts))
    ensures Evaluate(Name("status"), ConditionContext(s)) == Ok(Str(StatusText(s.status)))
    ensures Evaluate(Name("True"), ConditionContext(s)) == Ok(Bool(true))
    ensures Evaluate(Name("False"), ConditionContext(s)) == Ok(Bool(false))
    ensures Evaluate(Name("None"), ConditionContext(s)) == Ok(Nil)
  {
  }

  /** Reading `attempts.node` is looking up how often the node has run, or the null value. */
  lemma AttemptsRead(s: Snapshot, n: NodeId)
    requires n in NODE_IDS && forall m | m in s.attempts :: !m.Named?
    ensures Evaluate(Attribute(Name("attempts"), NodeText(n)), ConditionContext(s)) ==
              Ok(if n in s.attempts then Int(s.attempts[n]) else Nil)
  {
    assert NodeText(n) != "" && NodeText(n)[0] != '_';
    assert !Private(NodeText(n)) by {
      assert "__"[0] == '_';
    }
    assert Evaluate(Name("attempts"), ConditionContext(s)) == Ok(AttemptsValue(s.attempts));
    AttemptsLookup(s.attempts, n);
  }

  lemma AttemptsLookup(attempts: map<NodeId, nat>, n: NodeId)
    requires n in NODE_IDS && forall m | m in attempts :: !m.Named?
    ensures AttemptsValue(attempts).Dict?
    ensures Get(AttemptsValue(attempts).fields, NodeText(n)) == if n in attempts then Int(attempts[n]) else Nil
  {
    NodeTextNames(n);
    forall m | m in attempts && NodeText(m) == NodeText(n)
      ensures m == n
    {
      NodeTextNames(m);
    }
  }

  lemma NodeTextNames(n: NodeId)
    requires !n.Named?
    ensures NodeOf(NodeText(n)) == n
  {
  }

  lemma TextRead(s: Snapshot, text: string)
    ensures Evaluate(Text(text), ConditionContext(s)) == Ok(Str(text))
  {
  }

  lemma VerdictRead(s: Snapshot, verdict: string)
    ensures Evaluate(VerdictIs(verdict), ConditionContext(s)) == Ok(Bool(Get(s.data, "verdict") == Str(verdict)))
  {
    var context := ConditionContext(s);
    DataRead(s, "verdict");
    TextRead(s, verdict);
    SingleComparison(Data("verdict"), Eq, Text(verdict), context);
    assert SameValue(Get(s.data, "verdict"), Str(verdict)) <==> Get(s.data, "verdict") == Str(verdict);
  }

  lemma PassedMeans(s: Snapshot)
    ensures Matches(PASSED, ConditionContext(s)) <==> Get(s.data, "verdict") == Str("pass")
  {
    VerdictRead(s, "pass");
  }

  /** What a comparison of a number with a bound says; other values do not compare. */
  predicate BoundHolds(op: Comparison, value: Value, bound: nat) {
    match AsNumber(value)
    case Some(x) => if op == Lt then x < bound as real else x >= bound as real
    case None => false
  }

  lemma BoundCompares(op: Comparison, value: Value, bound: nat)
    requires op in {Lt, GtE}
    ensures match Compares(op, value, Int(bound))
            case Some(b) => AsNumber(value).Some? && b == BoundHolds(op, value, bound)
            case None => AsNumber(value).None?
  {
  }

  lemma BothRead(first: Expr, second: Expr, context: Context, b: bool)
    requires Evaluate(first, context) == Ok(Bool(b))
    ensures Evaluate(And([first, second]), context)
            == if !b then Ok(Bool(false)) else EvaluateUntil([second], false, context)
  {
    assert [first, second][1..] == [second];
  }

  lemma OneRead(e: Expr, context: Context)
    ensures EvaluateUntil([e], false, context) ==
      match Evaluate(e, context)
      case Ok(value) => Ok(Bool(Truthy(value)))
      case Err(error) => Err(error)
  {
    assert [e][1..] == [];
  }

  /**
   A bounded failure condition holds when the verdict is a failure and the counter is a number,
   be it boolean or real, that compares as given; with any other counter it does not hold.
   */
  lemma FailedMeans(s: Snapshot, counter: string, op: Comparison, bound: nat)
    requires Public(counter) && op in {Lt, GtE}
    ensures Matches(FailedWith(counter, op, bound), ConditionContext(s))
       <==> Get(s.data, "verdict") == Str("fail") && BoundHolds(op, Get(s.data, counter), bound)
  {
    var context := ConditionContext(s);
    VerdictRead(s, "fail");
    DataRead(s, counter);
    var second := Compare(Data(counter), [op], [Constant(Int(bound))]);
    SingleComparison(Data(counter), op, Constant(Int(bound)), context);
    assert Evaluate(Constant(Int(bound)), context) == Ok(Int(bound));
    BoundCompares(op, Get(s.data, counter), bound);
    BothRead(VerdictIs("fail"), second, context, Get(s.data, "verdict") == Str("fail"));
    OneRead(second, context);
  }

  /** With an integer counter. */
  lemma CounterMeans(s: Snapshot, counter: string, op: Comparison, bound: nat)
    requires Public(counter) && Get(s.data, counter).Int? && op in {Lt, GtE}
    ensures Matches(FailedWith(counter, op, bound), ConditionContext(s))
       <==> Get(s.data, "verdict") == Str("fail")
            && (if op == Lt then Get(s.data, counter).n < bound else Get(s.data, counter).n >= bound)
  {
    FailedMeans(s, counter, op, bound);
  }

  lemma FastMeans(s: Snapshot)
    ensures Matches(FAST, ConditionContext(s)) <==> Get(s.data, "route") == Str("fast")
  {
    DataRead(s, "route");
    TextRead(s, "fast");
    SingleComparison(Data("route"), Eq, Text("fast"), ConditionContext(s));
    assert SameValue(Get(s.data, "route"), Str("fast")) <==> Get(s.data, "route") == Str("fast");
  }

  lemma RouteSetRead(context: Context)
    ensures Evaluate(SetOf([Text("deep"), Text("repair")]), context) == Ok(Set([Str("deep"), Str("repair")]))
  {
    var items := [Text("deep"), Text("repair")];
    assert items[1..] == [Text("repair")] && [Text("repair")][1..] == [];
    assert EvaluateAll([], context) == Ok([]);
    assert EvaluateAll(items[1..], context) == Ok([Str("repair")] + []);
    assert EvaluateAll(items, context) == Ok([Str("deep")] + ([Str("repair")] + []));
    assert [Str("deep")] + ([Str("repair")] + []) == [Str("deep"), Str("repair")];
  }

  /** A value is one of two texts when Python says that it equals one; only hashable values are asked. */
  lemma OneOfTexts(value: Value, a: string, b: string)
    ensures Contains(Set([Str(a), Str(b)]), value) == Some(true) <==> value in {Str(a), Str(b)}
  {
    var values := [Str(a), Str(b)];
    assert Member(value, values) <==> SameValue(value, values[0]) || SameValue(value, values[1]);
  }

  lemma PlannedMeans(s: Snapshot)
    ensures Matches(PLANNED, ConditionContext(s)) <==> Get(s.data, "route") in {Str("deep"), Str("repair")}
  {
    var context := ConditionContext(s);
    DataRead(s, "route");
    RouteSetRead(context);
    SingleComparison(Data("route"), In, SetOf([Text("deep"), Text("repair")]), context);
    OneOfTexts(Get(s.data, "route"), "deep", "repair");
  }

  // ----- What its operators return -----

  const PASS := Str("pass")
  const FAIL := Str("fail")
  const PENDING := Str("pending")
  const FAST_ROUTE := Str("fast")
  const ROUTES := {FAST_ROUTE, Str("deep"), Str("repair")}

  /** The data the edge conditions read. */
  datatype Control = Control(route: Value, verdict: Value, repairs: Value, revisions: Value)

  function ControlOf(data: Fields): Control {
    Control(Get(data, "route"), Get(data, "verdict"), Get(data, "repair_count"), Get(data, "plan_revision_count"))
  }

  /** The part of a delta that touches the control data. */
  datatype ControlDelta = ControlDelta(
    route: Option<Value>, verdict: Option<Value>, repairs: Option<Value>, revisions: Option<Value>)

  function Look(delta: Fields, key: string): Option<Value> {
    if key in delta then Some(delta[key]) else None
  }

  function DeltaOf(delta: Fields): ControlDelta {
    ControlDelta(Look(delta, "route"), Look(delta, "verdict"), Look(delta, "repair_count"),
                 Look(delta, "plan_revision_count"))
  }

  function Or(update: Option<Value>, value: Value): Value {
    match update
    case Some(v) => v
    case None => value
  }

  predicate Plain(update: Option<Value>) {
    update.Some? ==> !update.value.Dict?
  }

  function Updated(c: Control, d: ControlDelta): Control {
    Control(Or(d.route, c.route), Or(d.verdict, c.verdict), Or(d.repairs, c.repairs), Or(d.revisions, c.revisions))
  }

  /** What a merge makes of one value: a dictionary merges into a dictionary, all else is replaced. */
  function Over(update: Option<Value>, value: Value): Value {
    match update
    case Some(v) => if v.Dict? && value.Dict? then Merge(value, v) else v
    case None => value
  }

  /** What any merge does to the control data. */
  lemma MergedControl(data: Fields, delta: Fields)
    ensures var c, d := ControlOf(data), DeltaOf(delta);
            ControlOf(MergeFields(data, delta))
            == Control(Over(d.route, c.route), Over(d.verdict, c.verdict), Over(d.repairs, c.repairs),
                       Over(d.revisions, c.revisions))
  {
    MergedKey(data, delta, "route");
    MergedKey(data, delta, "verdict");
    MergedKey(data, delta, "repair_count");
    MergedKey(data, delta, "plan_revision_count");
  }

  /** A merge replaces control data by what a delta sets them to. */
  lemma PlainMerge(data: Fields, delta: Fields)
    requires var d := DeltaOf(delta); Plain(d.route) && Plain(d.verdict) && Plain(d.repairs) && Plain(d.revisions)
    ensures ControlOf(MergeFields(data, delta)) == Updated(ControlOf(data), DeltaOf(delta))
  {
    MergedControl(data, delta);
  }

  function AsInt(value: Value): int {
    if value.Int? then value.n else 0
  }

  const NO_CONTROL := ControlDelta(None, None, None, None)

  /**
   The control part of a node's result: which of the keys the edge conditions read it sets,
   and to what. Routes and verdicts are otherwise arbitrary.
   */
  predicate Obeys(node: NodeId, c: Control, d: ControlDelta) {
    match node
    case Intake =>
      d.route.Some? && d.route.value in ROUTES && d == NO_CONTROL.(route := d.route, verdict := Some(PENDING))
    case Plan => d == NO_CONTROL.(verdict := Some(PENDING))
    case PlanCheck =>
      || d == NO_CONTROL.(verdict := Some(PASS))
      || d == NO_CONTROL.(verdict := Some(FAIL), revisions := Some(Int(AsInt(c.revisions) + 1)))
    case Implement => d == NO_CONTROL.(verdict := Some(PENDING))
    case Apply => d.verdict in {Some(PASS), Some(FAIL)} && d == NO_CONTROL.(verdict := d.verdict)
    case Tests => d.verdict in {Some(PASS), Some(FAIL)} && d == NO_CONTROL.(verdict := d.verdict)
    case Review => d.verdict in {Some(PASS), Some(FAIL)} && d == NO_CONTROL.(verdict := d.verdict)
    case Repair => d == NO_CONTROL.(verdict := Some(PENDING), repairs := Some(Int(AsInt(c.repairs) + 1)))
    case _ => d == NO_CONTROL
  }

  /** Every logged step obeys its node's contract in the state it started from. */
  predicate ObeysAll(g: GraphSpec, s: Snapshot, log: seq<StepInput>) {
    log == [] ||
    (&& ObeysAll(g, s, log[..|log| - 1])
     && match Replay(g, s, log[..|log| - 1])
        case Ok(before) => Obeys(before.currentNode, ControlOf(before.data), DeltaOf(log[|log| - 1].result.delta))
        case Err(_) => false)
  }

  /** A run starts with both counters at zero. */
  predicate Starts(g: GraphSpec, s: Snapshot) {
    Fresh(g, s) && ControlOf(s.data).repairs == Int(0) && ControlOf(s.data).revisions == Int(0)
  }

  // ----- The control invariant -----

  function C(s: Snapshot, e: EdgeSpec): nat {
    Count(s.edgeCounts, e.Key())
  }

  function One(b: bool): nat {
    if b then 1 else 0
  }

  function ToDiagnose(f: Family, s: Snapshot): nat {
    C(s, f.RepairFrom(Apply)) + C(s, f.RepairFrom(Tests)) + C(s, f.RepairFrom(Review))
  }

  const BEFORE_GATES := {Intake, CollectContext, Plan, PlanCheck, Implement}

  /** The repair counter in the data counts the traversals of the repair cycle. */
  predicate RepairsCoherent(f: Family, s: Snapshot) {
    var n := s.currentNode;
    var r := AsInt(ControlOf(s.data).repairs);
    && ControlOf(s.data).repairs == Int(r)
    && r == C(s, f.RepairApply())
    && C(s, f.DiagnoseRepair()) == r + One(n == Repair)
    && ToDiagnose(f, s) == r + One(n in {Repair, Diagnose})
    && r + One(n in {Repair, Diagnose}) <= f.repairs
  }

  /** Each gate has been passed at most once per repair round. */
  predicate ApplyCoherent(f: Family, s: Snapshot) {
    C(s, f.ApplyTests()) <= AsInt(ControlOf(s.data).repairs)
                            + One(s.currentNode !in BEFORE_GATES && s.currentNode != Apply)
  }

  predicate TestsCoherent(f: Family, s: Snapshot) {
    C(s, f.TestsReview()) <= AsInt(ControlOf(s.data).repairs)
                             + One(s.currentNode !in BEFORE_GATES && s.currentNode !in {Apply, Tests})
  }

  predicate GatesCoherent(f: Family, s: Snapshot) {
    ApplyCoherent(f, s) && TestsCoherent(f, s)
  }

  /** The edges into a terminal are unused until a terminal is entered. */
  predicate ExitsCoherent(f: Family, s: Snapshot) {
    var n := s.currentNode;
    && (n != Finish ==> C(s, REVIEW_FINISH) == 0)
    && (n != Abort ==> C(s, f.AbortFrom(Apply)) == C(s, f.AbortFrom(Tests)) == C(s, f.AbortFrom(Review)) == 0)
  }

  /** The plan counter in the data counts the traversals of the plan cycle. */
  predicate PlansCoherent(f: Family, s: Snapshot) {
    var n := s.currentNode;
    var v := AsInt(ControlOf(s.data).revisions);
    && ControlOf(s.data).revisions == Int(v)
    && (n in BEFORE_GATES && n != Implement ==>
          && v < f.plans
          && C(s, f.RevisePlan()) == v
          && C(s, PLAN_CHECK_IMPLEMENT) == C(s, f.AbandonPlan()) == 0
          && C(s, f.PlanPlanCheck()) == v + One(n == PlanCheck))
  }

  predicate RouteCoherent(s: Snapshot) {
    var n := s.currentNode;
    && (n == Intake ==> C(s, INTAKE_CONTEXT) == 0)
    && (n in {Intake, CollectContext} ==> C(s, CONTEXT_IMPLEMENT) == C(s, CONTEXT_PLAN) == 0)
    && (n == CollectContext ==> ControlOf(s.data).route in ROUTES)
    && (n in BEFORE_GATES ==> C(s, IMPLEMENT_APPLY) == 0)
  }

  /** The control data agrees with the traversal counts, wherever the run stands. */
  predicate Coherent(f: Family, s: Snapshot) {
    && s.currentNode in NODE_IDS
    && RepairsCoherent(f, s) && GatesCoherent(f, s) && ExitsCoherent(f, s)
    && PlansCoherent(f, s) && RouteCoherent(s)
  }

  lemma StartIsCoherent(f: Family, s: Snapshot)
    requires f.Proper() && Starts(f.Graph(), s)
    ensures Coherent(f, s)
  {
  }

  // ----- The one edge a step can take -----

  function GateEdge(f: Family, gate: NodeId, onward: EdgeSpec, c: Control): EdgeSpec {
    if c.verdict == PASS then onward
    else if AsInt(c.repairs) < f.repairs then f.RepairFrom(gate) else f.AbortFrom(gate)
  }

  /** The edge the control data picks at a node. */
  function NextEdge(f: Family, n: NodeId, c: Control): EdgeSpec
    requires n in NODE_IDS && n !in {Finish, Abort}
  {
    match n
    case Intake => INTAKE_CONTEXT
    case CollectContext => if c.route == FAST_ROUTE then CONTEXT_IMPLEMENT else CONTEXT_PLAN
    case Plan => f.PlanPlanCheck()
    case PlanCheck =>
      if c.verdict == PASS then PLAN_CHECK_IMPLEMENT
      else if AsInt(c.revisions) < f.plans then f.RevisePlan() else f.AbandonPlan()
    case Implement => IMPLEMENT_APPLY
    case Apply => GateEdge(f, Apply, f.ApplyTests(), c)
    case Tests => GateEdge(f, Tests, f.TestsReview(), c)
    case Review => GateEdge(f, Review, REVIEW_FINISH, c)
    case Diagnose => f.DiagnoseRepair()
    case Repair => f.RepairApply()
  }

  /** What an obeying result makes of the control data. */
  predicate Becomes(n: NodeId, was: Control, c: Control) {
    && (n in {PlanCheck, Apply, Tests, Review} ==> c.verdict == PASS || c.verdict == FAIL)
    && c.repairs == Int(AsInt(was.repairs) + One(n == Repair))
    && c.revisions == Int(AsInt(was.revisions) + One(n == PlanCheck && c.verdict != PASS))
    && (n in {Intake, CollectContext} ==> c.route in ROUTES)
  }

  predicate Usable(n: NodeId, c: Control) {
    c.repairs.Int? && c.revisions.Int? && (n == CollectContext ==> c.route in ROUTES)
  }

  lemma ObeyedUpdate(n: NodeId, was: Control, d: ControlDelta)
    requires Usable(n, was) && Obeys(n, was, d)
    ensures Becomes(n, was, Updated(was, d))
    ensures Plain(d.route) && Plain(d.verdict) && Plain(d.repairs) && Plain(d.revisions)
  {
    assert FAIL.s[0] != PASS.s[0];
  }

  lemma ObeyedControl(f: Family, s: Snapshot, delta: Fields)
    requires Coherent(f, s) && Obeys(s.currentNode, ControlOf(s.data), DeltaOf(delta))
    ensures Becomes(s.currentNode, ControlOf(s.data), ControlOf(MergeFields(s.data, delta)))
    ensures ControlOf(MergeFields(s.data, delta)) == Updated(ControlOf(s.data), DeltaOf(delta))
  {
    assert Usable(s.currentNode, ControlOf(s.data));
    ObeyedUpdate(s.currentNode, ControlOf(s.data), DeltaOf(delta));
    PlainMerge(s.data, delta);
  }

  /** At a gate the verdict and the repair counter enable one edge. */
  lemma GateMatches(f: Family, t: Snapshot, gate: NodeId, onward: EdgeSpec, e: EdgeSpec)
    requires onward.when == PASSED && onward.target !in {Diagnose, Abort}
    requires e in [onward, f.RepairFrom(gate), f.AbortFrom(gate)]
    requires var c := ControlOf(t.data); c.repairs.Int? && (c.verdict == PASS || c.verdict == FAIL)
    ensures Matches(e.when, ConditionContext(t)) <==> e == GateEdge(f, gate, onward, ControlOf(t.data))
  {
    assert FAIL.s[0] != PASS.s[0];
    PassedMeans(t);
    CounterMeans(t, "repair_count", Lt, f.repairs);
    CounterMeans(t, "repair_count", GtE, f.repairs);
  }

  lemma PlanCheckMatches(f: Family, t: Snapshot, e: EdgeSpec)
    requires e in [PLAN_CHECK_IMPLEMENT, f.RevisePlan(), f.AbandonPlan()]
    requires var c := ControlOf(t.data); c.revisions.Int? && (c.verdict == PASS || c.verdict == FAIL)
    ensures Matches(e.when, ConditionContext(t)) <==> e == NextEdge(f, PlanCheck, ControlOf(t.data))
  {
    assert FAIL.s[0] != PASS.s[0];
    PassedMeans(t);
    CounterMeans(t, "plan_revision_count", Lt, f.plans);
    CounterMeans(t, "plan_revision_count", GtE, f.plans);
  }

  lemma ContextMatches(f: Family, t: Snapshot, e: EdgeSpec)
    requires e in f.From(CollectContext)
    requires ControlOf(t.data).route in ROUTES
    ensures Matches(e.when, ConditionContext(t)) <==> e == NextEdge(f, CollectContext, ControlOf(t.data))
  {
    FastMeans(t);
    PlannedMeans(t);
    assert FAST_ROUTE.s[0] != Str("deep").s[0] && FAST_ROUTE.s[0] != Str("repair").s[0];
  }

  /** The conditions out of a node select exactly one edge: the one the control data picks. */
  lemma MatchesOnly(f: Family, n: NodeId, was: Control, t: Snapshot, e: EdgeSpec)
    requires n in NODE_IDS && n !in {Finish, Abort} && e in f.From(n)
    requires Becomes(n, was, ControlOf(t.data))
    ensures Matches(e.when, ConditionContext(t)) <==> e == NextEdge(f, n, ControlOf(t.data))
  {
    match n
    case CollectContext => ContextMatches(f, t, e);
    case PlanCheck => PlanCheckMatches(f, t, e);
    case Apply => GateMatches(f, t, Apply, f.ApplyTests(), e);
    case Tests => GateMatches(f, t, Tests, f.TestsReview(), e);
    case Review => GateMatches(f, t, Review, REVIEW_FINISH, e);
    case _ => SoleMatches(f, n, t, e);
  }

  lemma SoleMatches(f: Family, n: NodeId, t: Snapshot, e: EdgeSpec)
    requires n in {Intake, Plan, Implement, Diagnose, Repair} && e in f.From(n)
    ensures Matches(e.when, ConditionContext(t)) && e == NextEdge(f, n, ControlOf(t.data))
  {
  }

  lemma NextIsListed(f: Family, n: NodeId, c: Control)
    requires n in NODE_IDS && n !in {Finish, Abort}
    ensures NextEdge(f, n, c) in f.From(n)
  {
    match n
    case Apply => assert f.From(Apply) == [f.ApplyTests(), f.RepairFrom(Apply), f.AbortFrom(Apply)];
    case Tests => assert f.From(Tests) == [f.TestsReview(), f.RepairFrom(Tests), f.AbortFrom(Tests)];
    case Review => assert f.From(Review) == [REVIEW_FINISH, f.RepairFrom(Review), f.AbortFrom(Review)];
    case _ =>
  }

  predicate Open(s: Snapshot, e: EdgeSpec) {
    C(s, e) < e.maxTraversals
  }

  lemma PlanEdgesOpen(f: Family, s: Snapshot, c: Control)
    requires f.Proper() && PlansCoherent(f, s) && RouteCoherent(s)
    requires Becomes(s.currentNode, ControlOf(s.data), c)
    ensures s.currentNode in BEFORE_GATES && s.currentNode != Implement ==> Open(s, NextEdge(f, s.currentNode, c))
  {
  }

  lemma GateEdgesOpen(f: Family, s: Snapshot, c: Control)
    requires f.Proper() && RepairsCoherent(f, s) && GatesCoherent(f, s) && ExitsCoherent(f, s)
    requires Becomes(s.currentNode, ControlOf(s.data), c)
    ensures s.currentNode in {Apply, Tests, Review} ==> Open(s, NextEdge(f, s.currentNode, c))
  {
    match s.currentNode
    case Apply => assert Open(s, f.RepairFrom(Apply)) || AsInt(c.repairs) >= f.repairs;
    case Tests => assert Open(s, f.RepairFrom(Tests)) || AsInt(c.repairs) >= f.repairs;
    case Review => assert Open(s, f.RepairFrom(Review)) || AsInt(c.repairs) >= f.repairs;
    case _ =>
  }

  lemma CycleEdgesOpen(f: Family, s: Snapshot, c: Control)
    requires f.Proper() && RepairsCoherent(f, s) && RouteCoherent(s)
    ensures s.currentNode in {Implement, Diagnose, Repair} ==> Open(s, NextEdge(f, s.currentNode, c))
  {
  }

  /** The edge the control data picks is not exhausted. */
  lemma NextIsOpen(f: Family, s: Snapshot, c: Control)
    requires f.Proper() && Coherent(f, s) && s.currentNode !in {Finish, Abort}
    requires Becomes(s.currentNode, ControlOf(s.data), c)
    ensures Open(s, NextEdge(f, s.currentNode, c))
  {
    GateEdgesOpen(f, s, c);
    CycleEdgesOpen(f, s, c);
    PlanEdgesOpen(f, s, c);
  }

  /** No dead end and no choice: after any obeying result there is exactly one candidate edge. */
  lemma OneCandidate(f: Family, s: Snapshot, input: StepInput, t: Snapshot)
    requires f.Proper() && Coherent(f, s) && s.currentNode !in {Finish, Abort}
    requires Obeys(s.currentNode, ControlOf(s.data), DeltaOf(input.result.delta))
    requires t == Recorded(s, s.currentNode, KindOf(s.currentNode), input)
    ensures Becomes(s.currentNode, ControlOf(s.data), ControlOf(t.data))
    ensures forall e :: e in Candidates(f.Graph(), t, s.currentNode)
                   <==> e == NextEdge(f, s.currentNode, ControlOf(t.data))
  {
    var n := s.currentNode;
    ObeyedControl(f, s, input.result.delta);
    var next := NextEdge(f, n, ControlOf(t.data));
    NextIsOpen(f, s, ControlOf(t.data));
    NextIsListed(f, n, ControlOf(t.data));
    CandidatesAreAvailable(f.Graph(), t, n);
    forall e
      ensures e in Candidates(f.Graph(), t, n) <==> e == next
    {
      EdgesOf(f, e);
      EdgesOf(f, next);
      if e in f.From(n) {
        MatchesOnly(f, n, ControlOf(s.data), t, e);
      }
      if e == next {
        EdgesFromSource(f, n, e);
      }
    }
  }

  lemma EdgesFromSource(f: Family, n: NodeId, e: EdgeSpec)
    requires e in f.From(n)
    ensures e.source == n
  {
    var i :| 0 <= i < |f.From(n)| && f.From(n)[i] == e;
    EdgesFromOne(f, n, i, i);
  }

  // ----- The control invariant is kept -----

  /** `t` follows `s` along the edge its control data picks. */
  predicate Advances(f: Family, s: Snapshot, t: Snapshot) {
    && s.currentNode in NODE_IDS && s.currentNode !in {Finish, Abort}
    && Becomes(s.currentNode, ControlOf(s.data), ControlOf(t.data))
    && var e := NextEdge(f, s.currentNode, ControlOf(t.data));
       t.edgeCounts == Bump(s.edgeCounts, e.Key()) && t.currentNode == e.target
  }

  /** A gate that fails into a repair opens one more round. */
  lemma FailingKeepsRepairs(f: Family, s: Snapshot, t: Snapshot)
    requires RepairsCoherent(f, s) && s.currentNode in {Apply, Tests, Review} && t.currentNode == Diagnose
    requires ControlOf(t.data).repairs == ControlOf(s.data).repairs && AsInt(ControlOf(s.data).repairs) < f.repairs
    requires t.edgeCounts == Bump(s.edgeCounts, f.RepairFrom(s.currentNode).Key())
    ensures RepairsCoherent(f, t)
  {
  }

  /** The edges that the repair counter is about. */
  function CycleKeys(f: Family): set<EdgeKey> {
    {f.RepairApply().Key(), f.DiagnoseRepair().Key(),
     f.RepairFrom(Apply).Key(), f.RepairFrom(Tests).Key(), f.RepairFrom(Review).Key()}
  }

  lemma LeavingKeepsRepairs(f: Family, s: Snapshot, t: Snapshot, key: EdgeKey)
    requires RepairsCoherent(f, s) && s.currentNode !in {Diagnose, Repair} && t.currentNode !in {Diagnose, Repair}
    requires ControlOf(t.data).repairs == ControlOf(s.data).repairs
    requires t.edgeCounts == Bump(s.edgeCounts, key) && key !in CycleKeys(f)
    ensures RepairsCoherent(f, t)
  {
    assert C(t, f.RepairApply()) == C(s, f.RepairApply()) && C(t, f.DiagnoseRepair()) == C(s, f.DiagnoseRepair());
    assert ToDiagnose(f, t) == ToDiagnose(f, s);
  }

  lemma GateKeepsRepairs(f: Family, s: Snapshot, t: Snapshot)
    requires f.Proper() && RepairsCoherent(f, s) && Advances(f, s, t) && s.currentNode in {Apply, Tests, Review}
    ensures RepairsCoherent(f, t)
  {
    var c := ControlOf(t.data);
    if c.verdict != PASS && AsInt(c.repairs) < f.repairs {
      FailingKeepsRepairs(f, s, t);
    } else {
      LeavingKeepsRepairs(f, s, t, NextEdge(f, s.currentNode, c).Key());
    }
  }

  lemma AdvanceKeepsRepairs(f: Family, s: Snapshot, t: Snapshot)
    requires f.Proper() && RepairsCoherent(f, s) && Advances(f, s, t)
    ensures RepairsCoherent(f, t)
  {
    match s.currentNode
    case Apply => GateKeepsRepairs(f, s, t);
    case Tests => GateKeepsRepairs(f, s, t);
    case Review => GateKeepsRepairs(f, s, t);
    case Diagnose => CycleKeepsRepairs(f, s, t);
    case Repair => CycleKeepsRepairs(f, s, t);
    case _ => PlanningKeepsRepairs(f, s, t);
  }

  lemma CycleKeepsRepairs(f: Family, s: Snapshot, t: Snapshot)
    requires f.Proper() && RepairsCoherent(f, s) && Advances(f, s, t) && s.currentNode in {Diagnose, Repair}
    ensures RepairsCoherent(f, t)
  {
  }

  /** Before the gates no edge of the cycle is taken. */
  lemma PlanningKeepsRepairs(f: Family, s: Snapshot, t: Snapshot)
    requires f.Proper() && RepairsCoherent(f, s) && Advances(f, s, t) && s.currentNode in BEFORE_GATES
    ensures RepairsCoherent(f, t)
  {
    var e := NextEdge(f, s.currentNode, ControlOf(t.data));
    PlanningEdges(f, s.currentNode, ControlOf(t.data));
    LeavingKeepsRepairs(f, s, t, e.Key());
  }

  lemma PlanningEdges(f: Family, n: NodeId, c: Control)
    requires n in BEFORE_GATES
    ensures NextEdge(f, n, c).Key() !in CycleKeys(f) && NextEdge(f, n, c).target !in {Diagnose, Repair}
  {
  }

  lemma AdvanceKeepsApply(f: Family, s: Snapshot, t: Snapshot)
    requires f.Proper() && RepairsCoherent(f, s) && ApplyCoherent(f, s) && Advances(f, s, t)
    ensures ApplyCoherent(f, t)
  {
    if s.currentNode in BEFORE_GATES {
      PlanningKeepsApply(f, s, t);
    }
  }

  lemma PlanningKeepsApply(f: Family, s: Snapshot, t: Snapshot)
    requires RepairsCoherent(f, s) && ApplyCoherent(f, s) && Advances(f, s, t) && s.currentNode in BEFORE_GATES
    ensures ApplyCoherent(f, t)
  {
  }

  lemma AdvanceKeepsTests(f: Family, s: Snapshot, t: Snapshot)
    requires f.Proper() && RepairsCoherent(f, s) && TestsCoherent(f, s) && Advances(f, s, t)
    ensures TestsCoherent(f, t)
  {
    if s.currentNode in BEFORE_GATES {
      PlanningKeepsTests(f, s, t);
    }
  }

  lemma PlanningKeepsTests(f: Family, s: Snapshot, t: Snapshot)
    requires RepairsCoherent(f, s) && TestsCoherent(f, s) && Advances(f, s, t) && s.currentNode in BEFORE_GATES
    ensures TestsCoherent(f, t)
  {
  }

  lemma AdvanceKeepsExits(f: Family, s: Snapshot, t: Snapshot)
    requires f.Proper() && ExitsCoherent(f, s) && Advances(f, s, t)
    ensures ExitsCoherent(f, t)
  {
  }

  lemma AdvanceKeepsPlans(f: Family, s: Snapshot, t: Snapshot)
    requires f.Proper() && PlansCoherent(f, s) && Advances(f, s, t)
    ensures PlansCoherent(f, t)
  {
    match s.currentNode
    case Intake =>
    case CollectContext =>
    case Plan =>
    case PlanCheck => PlanCheckKeepsPlans(f, s, t);
    case _ => LaterKeepsPlans(f, s, t);
  }

  lemma PlanCheckKeepsPlans(f: Family, s: Snapshot, t: Snapshot)
    requires f.Proper() && PlansCoherent(f, s) && Advances(f, s, t) && s.currentNode == PlanCheck
    ensures PlansCoherent(f, t)
  {
  }

  lemma LaterKeepsPlans(f: Family, s: Snapshot, t: Snapshot)
    requires PlansCoherent(f, s) && Advances(f, s, t) && s.currentNode !in {Intake, CollectContext, Plan, PlanCheck}
    ensures PlansCoherent(f, t)
  {
    NeverBackToPlans(f, s.currentNode, ControlOf(t.data));
  }

  lemma IntakeKeepsRoute(f: Family, s: Snapshot, t: Snapshot)
    requires f.Proper() && RouteCoherent(s) && Advances(f, s, t) && s.currentNode in {Intake, CollectContext}
    ensures RouteCoherent(t)
  {
  }

  lemma PlanningKeepsRoute(f: Family, s: Snapshot, t: Snapshot)
    requires f.Proper() && RouteCoherent(s) && Advances(f, s, t) && s.currentNode in {Plan, PlanCheck}
    ensures RouteCoherent(t)
  {
  }

  lemma LaterKeepsRoute(f: Family, s: Snapshot, t: Snapshot)
    requires f.Proper() && Advances(f, s, t) && s.currentNode !in {Intake, CollectContext, Plan, PlanCheck}
    ensures RouteCoherent(t)
  {
    NeverBackToPlans(f, s.currentNode, ControlOf(t.data));
  }

  lemma NeverBackToPlans(f: Family, n: NodeId, c: Control)
    requires n in NODE_IDS && n !in {Finish, Abort, Intake, CollectContext, Plan, PlanCheck}
    ensures NextEdge(f, n, c).target !in BEFORE_GATES
  {
  }

  lemma AdvanceKeepsRoute(f: Family, s: Snapshot, t: Snapshot)
    requires f.Proper() && RouteCoherent(s) && Advances(f, s, t)
    ensures RouteCoherent(t)
  {
    if s.currentNode in {Intake, CollectContext} {
      IntakeKeepsRoute(f, s, t);
    } else if s.currentNode in {Plan, PlanCheck} {
      PlanningKeepsRoute(f, s, t);
    } else {
      LaterKeepsRoute(f, s, t);
    }
  }

  lemma AdvanceKeepsCoherent(f: Family, s: Snapshot, t: Snapshot)
    requires f.Proper() && Coherent(f, s) && Advances(f, s, t)
    ensures Coherent(f, t)
  {
    AdvanceKeepsRepairs(f, s, t);
    AdvanceKeepsApply(f, s, t);
    AdvanceKeepsTests(f, s, t);
    AdvanceKeepsExits(f, s, t);
    AdvanceKeepsPlans(f, s, t);
    AdvanceKeepsRoute(f, s, t);
  }

  /** A committed step of the coding graph took the only edge there was. */
  lemma StepTakesTheEdge(f: Family, s: Snapshot, input: StepInput, t: Snapshot)
    requires f.Proper() && Coherent(f, s) && s.currentNode !in {Finish, Abort}
    requires Obeys(s.currentNode, ControlOf(s.data), DeltaOf(input.result.delta))
    requires Step(f.Graph(), s, input) == Ok(t)
    ensures Advances(f, s, t)
    ensures input.choice.Key() == NextEdge(f, s.currentNode, ControlOf(t.data)).Key()
  {
    var e := StepShape(f.Graph(), s, input, t);
    OneCandidate(f, s, input, Recorded(s, s.currentNode, KindOf(s.currentNode), input));
  }

  // ----- Whole runs -----

  /**
   Where a run of the family stands after a log: a run that starts with its counters at
   zero and whose operators obey their contracts. No such run has any other log.
   */
  function ObeyingRun(f: Family, s: Snapshot, log: seq<StepInput>): Option<Snapshot> {
    if f.Proper() && Starts(f.Graph(), s) && ObeysAll(f.Graph(), s, log) && Replay(f.Graph(), s, log).Ok?
    then Some(Replay(f.Graph(), s, log).value)
    else None
  }

  /** An obeying run ends with an obeying step from where its other steps lead. */
  lemma ObeysLast(f: Family, s: Snapshot, log: seq<StepInput>, t: Snapshot)
    returns (shorter: seq<StepInput>, input: StepInput, before: Snapshot)
    requires log != [] && ObeyingRun(f, s, log) == Some(t)
    ensures log == shorter + [input] && shorter == log[..|log| - 1]
    ensures ObeyingRun(f, s, shorter) == Some(before) && Step(f.Graph(), before, input) == Ok(t)
    ensures Obeys(before.currentNode, ControlOf(before.data), DeltaOf(input.result.delta))
  {
    shorter, input, before := ReplayLast(f.Graph(), s, log, t);
  }

  /** Wherever an obeying run of the family stands, its control data and traversal counts agree. */
  lemma {:induction false} RunIsCoherent(f: Family, s: Snapshot, log: seq<StepInput>, t: Snapshot)
    requires ObeyingRun(f, s, log) == Some(t)
    ensures t.status == Running ==> Coherent(f, t)
    decreases |log|
  {
    if log == [] {
      StartIsCoherent(f, s);
    } else if t.status == Running {
      var shorter, input, before := ObeysLast(f, s, log, t);
      RunIsCoherent(f, s, shorter, before);
      var _ := StepShape(f.Graph(), before, input, t);
      StepTakesTheEdge(f, before, input, t);
      AdvanceKeepsCoherent(f, before, t);
    }
  }

  lemma RunOneCandidate(f: Family, s: Snapshot, log: seq<StepInput>, t: Snapshot, input: StepInput)
    requires ObeyingRun(f, s, log) == Some(t)
    requires t.status == Running
    requires Obeys(t.currentNode, ControlOf(t.data), DeltaOf(input.result.delta))
    ensures t.currentNode in NODE_IDS
    ensures t.currentNode !in {Finish, Abort} ==>
      forall e :: e in Candidates(f.Graph(), Recorded(t, t.currentNode, KindOf(t.currentNode), input), t.currentNode)
             <==> e == NextEdge(f, t.currentNode, ControlOf(MergeFields(t.data, input.result.delta)))
  {
    RunIsCoherent(f, s, log, t);
    if t.currentNode !in {Finish, Abort} {
      OneCandidate(f, t, input, Recorded(t, t.currentNode, KindOf(t.currentNode), input));
    }
  }

  /** With a single candidate the runtime accepts that edge and masks every other. */
  lemma SingleCandidate(g: GraphSpec, s: Snapshot, input: StepInput, e: EdgeSpec)
    requires s.status == Running && s.currentNode in g.nodes && s.currentNode !in g.terminals
    requires BudgetViolations(s, g.nodes[s.currentNode].kind) == []
    requires forall c :: c in Candidates(g, Recorded(s, s.currentNode, g.nodes[s.currentNode].kind, input),
                                         s.currentNode)
                    <==> c == e
    ensures if input.choice.Key() == e.Key() then Step(g, s, input).Ok? else Step(g, s, input) == Err(MaskedEdge)
  {
    var candidates := Candidates(g, Recorded(s, s.currentNode, g.nodes[s.currentNode].kind, input), s.currentNode);
    assert e in candidates;
  }

  /**
   No dead end and no real choice. Within its budget an obeying run can always take its
   next step, and the controller decides nothing: one edge is accepted, every other is
   refused as masked.
   */
  lemma NeverStuck(f: Family, s: Snapshot, log: seq<StepInput>, t: Snapshot, input: StepInput)
    requires ObeyingRun(f, s, log) == Some(t)
    requires t.status == Running && BudgetViolations(t, KindOf(t.currentNode)) == []
    requires Obeys(t.currentNode, ControlOf(t.data), DeltaOf(input.result.delta))
    ensures t.currentNode in NODE_IDS
    ensures t.currentNode in {Finish, Abort} ==> Step(f.Graph(), t, input).Ok?
    ensures t.currentNode !in {Finish, Abort} ==>
      var e := NextEdge(f, t.currentNode, ControlOf(MergeFields(t.data, input.result.delta)));
      if input.choice.Key() == e.Key() then Step(f.Graph(), t, input).Ok?
      else Step(f.Graph(), t, input) == Err(MaskedEdge)
  {
    RunOneCandidate(f, s, log, t, input);
    if t.currentNode !in {Finish, Abort} {
      SingleCandidate(f.Graph(), t, input,
                      NextEdge(f, t.currentNode, ControlOf(MergeFields(t.data, input.result.delta))));
    }
  }

  /** A run whose controller returns the one edge there is goes on. */
  lemma TakingTheEdge(f: Family, s: Snapshot, log: seq<StepInput>, t: Snapshot, input: StepInput)
    returns (u: Snapshot)
    requires ObeyingRun(f, s, log) == Some(t)
    requires t.status == Running && t.currentNode in NODE_IDS && BudgetViolations(t, KindOf(t.currentNode)) == []
    requires Obeys(t.currentNode, ControlOf(t.data), DeltaOf(input.result.delta))
    requires t.currentNode in {Finish, Abort}
             || input.choice == NextEdge(f, t.currentNode, ControlOf(MergeFields(t.data, input.result.delta)))
    ensures Step(f.Graph(), t, input) == Ok(u)
    ensures ObeyingRun(f, s, log + [input]) == Some(u)
  {
    NeverStuck(f, s, log, t, input);
    u := Step(f.Graph(), t, input).value;
    ObeysMore(f, s, log, t, input, u);
  }

  lemma ObeysMore(f: Family, s: Snapshot, log: seq<StepInput>, t: Snapshot, input: StepInput, u: Snapshot)
    requires ObeyingRun(f, s, log) == Some(t) && Step(f.Graph(), t, input) == Ok(u)
    requires Obeys(t.currentNode, ControlOf(t.data), DeltaOf(input.result.delta))
    ensures ObeyingRun(f, s, log + [input]) == Some(u)
  {
    ReplayExtends(f.Graph(), s, log, input);
    ObeyOneMore(f.Graph(), s, log, input);
  }

  lemma ObeyOneMore(g: GraphSpec, s: Snapshot, log: seq<StepInput>, input: StepInput)
    ensures ObeysAll(g, s, log + [input]) <==>
      ObeysAll(g, s, log) &&
      match Replay(g, s, log)
      case Ok(before) => Obeys(before.currentNode, ControlOf(before.data), DeltaOf(input.result.delta))
      case Err(_) => false
  {
    assert (log + [input])[..|log|] == log;
  }

  /** Two inputs agree on all but what the controller chose. */
  predicate SameResult(a: StepInput, b: StepInput) {
    a == b.(choice := a.choice)
  }

  lemma SameKeySameMove(g: GraphSpec, s: Snapshot, node: NodeId, a: StepInput, b: StepInput)
    requires SameResult(a, b) && (node !in g.terminals ==> a.choice.Key() == b.choice.Key())
    ensures Advanced(g, s, node, a) == Advanced(g, s, node, b)
  {
    assert node !in g.terminals ==> Moved(s, a.choice) == Moved(s, b.choice);
  }

  /** The controller affects a step only through the key it returns. */
  lemma SameKeySameStep(g: GraphSpec, s: Snapshot, a: StepInput, b: StepInput, t: Snapshot, u: Snapshot)
    requires SameResult(a, b)
    requires Step(g, s, a) == Ok(t) && Step(g, s, b) == Ok(u)
    requires s.currentNode !in g.terminals ==> a.choice.Key() == b.choice.Key()
    ensures t == u
  {
    StepIs(g, s, a, t);
    StepIs(g, s, b, u);
    var kind := g.nodes[s.currentNode].kind;
    SameRecord(s, s.currentNode, kind, a, b);
    SameKeySameMove(g, Recorded(s, s.currentNode, kind, a), s.currentNode, a, b);
  }

  lemma StepIs(g: GraphSpec, s: Snapshot, input: StepInput, t: Snapshot)
    requires Step(g, s, input) == Ok(t)
    ensures s.currentNode in g.nodes
    ensures var moved := Advanced(g, Recorded(s, s.currentNode, g.nodes[s.currentNode].kind, input), s.currentNode,
                                  input);
            moved.Ok? && t == PolicyCharged(moved.value, input)
  {
  }

  lemma SameRecord(s: Snapshot, node: NodeId, kind: NodeKind, a: StepInput, b: StepInput)
    requires SameResult(a, b)
    ensures Recorded(s, node, kind, a) == Recorded(s, node, kind, b)
  {
  }

  /** One step of a run under two controllers. */
  lemma SameKeys(f: Family, s: Snapshot, log: seq<StepInput>, before: Snapshot, a: StepInput, b: StepInput,
                 t: Snapshot, u: Snapshot)
    requires ObeyingRun(f, s, log) == Some(before)
    requires before.status == Running && before.currentNode !in {Finish, Abort}
    requires SameResult(a, b) && Obeys(before.currentNode, ControlOf(before.data), DeltaOf(a.result.delta))
    requires Step(f.Graph(), before, a) == Ok(t) && Step(f.Graph(), before, b) == Ok(u)
    ensures a.choice.Key() == b.choice.Key()
  {
    RunIsCoherent(f, s, log, before);
    StepTakesTheEdge(f, before, a, t);
    StepTakesTheEdge(f, before, b, u);
    var _ := StepShape(f.Graph(), before, a, t);
    var _ := StepShape(f.Graph(), before, b, u);
  }

  lemma SameStep(f: Family, s: Snapshot, log: seq<StepInput>, before: Snapshot, a: StepInput, b: StepInput,
                 t: Snapshot, u: Snapshot)
    requires ObeyingRun(f, s, log) == Some(before)
    requires SameResult(a, b) && Obeys(before.currentNode, ControlOf(before.data), DeltaOf(a.result.delta))
    requires Step(f.Graph(), before, a) == Ok(t) && Step(f.Graph(), before, b) == Ok(u)
    ensures t == u && before.status == Running
    ensures t.status == Running ==> a.choice.Key() == b.choice.Key()
  {
    var _ := StepShape(f.Graph(), before, a, t);
    if before.currentNode !in {Finish, Abort} {
      SameKeys(f, s, log, before, a, b, t, u);
    }
    SameKeySameStep(f.Graph(), before, a, b, t, u);
  }

  predicate SameResults(p: seq<StepInput>, q: seq<StepInput>) {
    |p| == |q| && forall i :: 0 <= i < |p| ==> SameResult(p[i], q[i])
  }

  lemma SameResultsLast(p: seq<StepInput>, q: seq<StepInput>, p': seq<StepInput>, q': seq<StepInput>, a: StepInput,
                        b: StepInput)
    requires SameResults(p, q) && p == p' + [a] && q == q' + [b]
    ensures SameResults(p', q') && SameResult(a, b)
  {
    forall i | 0 <= i < |p'|
      ensures SameResult(p'[i], q'[i])
    {
      assert SameResult(p[i], q[i]);
    }
    assert SameResult(p[|p'|], q[|p'|]);
  }

  /**
   Two runs with the same operator results end in the same state, completed nodes, edge
   counts and data alike, whatever their controllers are.
   */
  lemma {:induction false} ControllersDecideNothing(f: Family, s: Snapshot, p: seq<StepInput>, q: seq<StepInput>,
                                                    t: Snapshot, u: Snapshot)
    requires ObeyingRun(f, s, p) == Some(t) && Replay(f.Graph(), s, q) == Ok(u)
    requires SameResults(p, q)
    ensures t == u
    decreases |p|
  {
    if p != [] {
      var p', a, before := ObeysLast(f, s, p, t);
      var q', b, before' := ReplayLast(f.Graph(), s, q, u);
      SameResultsLast(p, q, p', q', a, b);
      ControllersDecideNothing(f, s, p', q', before, before');
      SameStep(f, s, p', before, a, b, t, u);
    }
  }
}
