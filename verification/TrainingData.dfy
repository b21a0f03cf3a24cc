/**
 Exporting policy training records from logged decisions, and the checks they are read back
 under. With hidden-state capture off, everything the learned controller logs can be read.
 */
module TrainingData {
  import opened Graphs
  import opened Runs
  import opened Walks
  import opened GraphTables
  import opened Decisions
  import opened Controllers
  import opened Wrappers

  /** The features a decision was logged with, and the graph schema they were computed for. */
  datatype Features = Features(values: seq<real>, schema: string)

  datatype RouteLog = RouteLog(route: Route, features: Features)
  datatype StopLog = StopLog(action: StopAction, allowed: seq<StopAction>, features: Features)
  datatype EdgeLog = EdgeLog(key: EdgeKey, allowed: seq<EdgeKey>, features: Features)

  /** A completed node with the decisions logged with it. */
  datatype NodeLog = NodeLog(node: NodeId, router: Option<RouteLog>, stop: Option<StopLog>, edge: Option<EdgeLog>)

  /** A run as the exporter finds it: its status, what it spent of each budget, and its node events. */
  datatype RunLog = RunLog(
    runId: string, graphName: string, graphVersion: string, status: Status,
    tokens: real, maxTokens: real, seconds: real, maxSeconds: real, toolCalls: real, maxToolCalls: real,
    nodes: seq<NodeLog>)

  datatype DecisionType = RouteDecision | TransitionDecision

  datatype Record = Record(
    runId: string, node: NodeId, decision: DecisionType, features: seq<real>,
    routeLabel: int, edgeLabel: int, stopLabel: int, edgeMask: seq<bool>, stopMask: seq<bool>,
    reward: real, cost: seq<real>)

  /** The compiled tables with what else identifies the inputs of a policy. */
  datatype Schema = Schema(tables: Tables, hash: string, inputSize: nat)

  /** `_ratio`. */
  function Ratio(value: real, maximum: real): (ratio: real)
    ensures 0.0 <= ratio <= 1.0
    ensures maximum > 0.0 && 0.0 <= value <= maximum ==> ratio * maximum == value
    ensures maximum > 0.0 && value >= maximum ==> ratio == 1.0
    ensures maximum <= 0.0 || value <= 0.0 ==> ratio == 0.0
  {
    if maximum <= 0.0 then 0.0
    else if value / maximum < 0.0 then 0.0
    else if value / maximum > 1.0 then 1.0
    else value / maximum
  }

  // ----- Exporting -----

  /** `_features_from_decision`. */
  function Usable(f: Features, schema: Schema): Option<seq<real>> {
    if f.schema == schema.hash && |f.values| == schema.inputSize then Some(f.values) else None
  }

  function Marks<T(==)>(all: seq<T>, some: seq<T>): (marks: seq<bool>)
    ensures |marks| == |all| && forall i | 0 <= i < |all| :: marks[i] <==> all[i] in some
  {
    if all == [] then [] else [all[0] in some] + Marks(all[1..], some)
  }

  function Blank(n: nat): (marks: seq<bool>)
    ensures |marks| == n && forall i | 0 <= i < n :: !marks[i]
  {
    if n == 0 then [] else Blank(n - 1) + [false]
  }

  function Reward(run: RunLog): real {
    if run.status == Completed then 1.0 else 0.0
  }

  function Costs(run: RunLog): seq<real> {
    [Ratio(run.tokens, run.maxTokens), Ratio(run.seconds, run.maxSeconds), Ratio(run.toolCalls, run.maxToolCalls)]
  }

  function RouteRecord(schema: Schema, run: RunLog, node: NodeId, log: RouteLog): Option<Record> {
    match Usable(log.features, schema)
    case None => None
    case Some(features) =>
      Some(Record(run.runId, node, RouteDecision, features, RouteIndex(log.route), -1, -1,
                  Blank(|schema.tables.edgeKeys|), Blank(|STOP_ACTIONS|), Reward(run), Costs(run)))
  }

  function TransitionRecord(schema: Schema, run: RunLog, node: NodeId, stop: StopLog, edge: EdgeLog): Option<Record> {
    var features :=
      if Usable(edge.features, schema).Some? then Usable(edge.features, schema) else Usable(stop.features, schema);
    if features.None? || edge.key !in schema.tables.edgeKeys then None
    else
      Some(Record(run.runId, node, TransitionDecision, features.value, -1,
                  IndexOf(schema.tables.edgeKeys, edge.key), ActionIndex(stop.action),
                  Marks(schema.tables.edgeKeys, edge.allowed), Marks(STOP_ACTIONS, stop.allowed),
                  Reward(run), Costs(run)))
  }

  function Listed(record: Option<Record>): seq<Record> {
    match record
    case Some(r) => [r]
    case None => []
  }

  /** The records of one completed node: its route first, then its transition. */
  function NodeRecords(schema: Schema, run: RunLog, log: NodeLog): seq<Record> {
    (match log.router
     case Some(router) => Listed(RouteRecord(schema, run, log.node, router))
     case None => []) +
    (if log.stop.Some? && log.edge.Some?
     then Listed(TransitionRecord(schema, run, log.node, log.stop.value, log.edge.value))
     else [])
  }

  function RunRecords(schema: Schema, run: RunLog, nodes: seq<NodeLog>): seq<Record> {
    if nodes == [] then []
    else RunRecords(schema, run, nodes[..|nodes| - 1]) + NodeRecords(schema, run, nodes[|nodes| - 1])
  }

  predicate Exported(schema: Schema, run: RunLog, successOnly: bool) {
    && run.graphName == schema.tables.name && run.graphVersion == schema.tables.version
    && (successOnly ==> run.status == Completed)
  }

  function AllRecords(schema: Schema, runs: seq<RunLog>, successOnly: bool): seq<Record> {
    if runs == [] then []
    else
      var last := runs[|runs| - 1];
      AllRecords(schema, runs[..|runs| - 1], successOnly)
      + if Exported(schema, last, successOnly) then RunRecords(schema, last, last.nodes) else []
  }

  /** `export_mlx_policy_training_data`, with no hidden states: the nested loops over runs and events. */
  method Export(schema: Schema, runs: seq<RunLog>, successOnly: bool) returns (records: seq<Record>)
    ensures records == AllRecords(schema, runs, successOnly)
  {
    records := [];
    for i := 0 to |runs|
      invariant records == AllRecords(schema, runs[..i], successOnly)
    {
      var run := runs[i];
      assert runs[..i + 1][..i] == runs[..i];
      if Exported(schema, run, successOnly) {
        ghost var before := records;
        for j := 0 to |run.nodes|
          invariant records == before + RunRecords(schema, run, run.nodes[..j])
        {
          assert run.nodes[..j + 1][..j] == run.nodes[..j];
          records := records + NodeRecords(schema, run, run.nodes[j]);
        }
        assert run.nodes[..|run.nodes|] == run.nodes;
      }
    }
    assert runs[..|runs|] == runs;
  }

  lemma {:induction false} RunRecordsMembers(schema: Schema, run: RunLog, nodes: seq<NodeLog>, r: Record)
    ensures r in RunRecords(schema, run, nodes) <==> exists log | log in nodes :: r in NodeRecords(schema, run, log)
    decreases |nodes|
  {
    if nodes != [] {
      RunRecordsMembers(schema, run, nodes[..|nodes| - 1], r);
      assert nodes == nodes[..|nodes| - 1] + [nodes[|nodes| - 1]];
    }
  }

  /** A record of one of the nodes of this run. */
  predicate RecordOf(schema: Schema, run: RunLog, r: Record) {
    exists log | log in run.nodes :: r in NodeRecords(schema, run, log)
  }

  /** Exported are the records of all runs of this graph's name and version, or of those that completed. */
  lemma {:induction false} ExportedRecords(schema: Schema, runs: seq<RunLog>, successOnly: bool, r: Record)
    ensures r in AllRecords(schema, runs, successOnly) <==>
      exists run | run in runs :: Gives(schema, run, successOnly, r)
    decreases |runs|
  {
    if runs != [] {
      var last := runs[|runs| - 1];
      ExportedRecords(schema, runs[..|runs| - 1], successOnly, r);
      LastGives(schema, last, successOnly, r);
      assert runs == runs[..|runs| - 1] + [last];
    }
  }

  /** The run is of this graph's name and version, completed if that is asked, and the record is one of its. */
  predicate Gives(schema: Schema, run: RunLog, successOnly: bool, r: Record) {
    && run.graphName == schema.tables.name && run.graphVersion == schema.tables.version
    && (run.status == Completed || !successOnly) && RecordOf(schema, run, r)
  }

  lemma LastGives(schema: Schema, run: RunLog, successOnly: bool, r: Record)
    ensures Exported(schema, run, successOnly) && r in RunRecords(schema, run, run.nodes)
       <==> Gives(schema, run, successOnly, r)
  {
    RunRecordsMembers(schema, run, run.nodes, r);
  }

  /**
   What a transition record tells of the decisions it was made of: its labels point to the edge and
   the action chosen, its masks mark exactly what was allowed, and features are those of the edge
   decision unless only the stop decision has usable ones.
   */
  lemma TransitionRecordTells(schema: Schema, run: RunLog, node: NodeId, stop: StopLog, edge: EdgeLog)
    ensures TransitionRecord(schema, run, node, stop, edge).Some? <==>
      (Usable(edge.features, schema).Some? || Usable(stop.features, schema).Some?) && edge.key in schema.tables.edgeKeys
    ensures match TransitionRecord(schema, run, node, stop, edge)
            case None => true
            case Some(r) =>
              && r.runId == run.runId && r.node == node && r.decision == TransitionDecision && r.routeLabel == -1
              && 0 <= r.edgeLabel < |schema.tables.edgeKeys| && schema.tables.edgeKeys[r.edgeLabel] == edge.key
              && 0 <= r.stopLabel < |STOP_ACTIONS| && STOP_ACTIONS[r.stopLabel] == stop.action
              && |r.edgeMask| == |schema.tables.edgeKeys| && |r.stopMask| == |STOP_ACTIONS|
              && (forall j | 0 <= j < |r.edgeMask| :: r.edgeMask[j] <==> schema.tables.edgeKeys[j] in edge.allowed)
              && (forall j | 0 <= j < |r.stopMask| :: r.stopMask[j] <==> STOP_ACTIONS[j] in stop.allowed)
              && r.features == (if edge.features.schema == schema.hash && |edge.features.values| == schema.inputSize
                                then edge.features.values else stop.features.values)
              && r.reward == (if run.status == Completed then 1.0 else 0.0) && r.cost == Costs(run)
  {
  }

  lemma RouteRecordTells(schema: Schema, run: RunLog, node: NodeId, log: RouteLog)
    ensures RouteRecord(schema, run, node, log).Some? <==>
      log.features.schema == schema.hash && |log.features.values| == schema.inputSize
    ensures match RouteRecord(schema, run, node, log)
            case None => true
            case Some(r) =>
              && r.runId == run.runId && r.node == node && r.decision == RouteDecision
              && 0 <= r.routeLabel < |ROUTES| && ROUTES[r.routeLabel] == log.route
              && r.edgeLabel == -1 && r.stopLabel == -1 && r.features == log.features.values
              && r.reward == (if run.status == Completed then 1.0 else 0.0) && r.cost == Costs(run)
  {
  }

  // ----- Reading -----

  /** The checks a record is read under, when it carries no hidden features. */
  predicate Readable(schema: Schema, r: Record) {
    && |r.features| == schema.inputSize
    && |r.edgeMask| == |schema.tables.edgeKeys| && |r.stopMask| == |STOP_ACTIONS| && |r.cost| == 3
    && -1 <= r.routeLabel < |ROUTES|
    && -1 <= r.edgeLabel < |schema.tables.edgeKeys|
    && -1 <= r.stopLabel < |STOP_ACTIONS|
    && 0.0 <= r.reward <= 1.0
    && (forall i | 0 <= i < |r.cost| :: 0.0 <= r.cost[i] <= 1.0)
    && r.node in schema.tables.nodeIds
    && match r.decision
       case RouteDecision =>
         && r.routeLabel >= 0 && r.edgeLabel == -1 && r.stopLabel == -1
         && (forall i | 0 <= i < |r.edgeMask| :: !r.edgeMask[i]) && (forall i | 0 <= i < |r.stopMask| :: !r.stopMask[i])
       case TransitionDecision =>
         && r.routeLabel == -1 && r.edgeLabel >= 0 && r.stopLabel >= 0
         && r.edgeMask[r.edgeLabel] && r.stopMask[r.stopLabel]
  }

  method AnyMarked(marks: seq<bool>) returns (any: bool)
    ensures any <==> exists i | 0 <= i < |marks| :: marks[i]
  {
    for i := 0 to |marks|
      invariant forall j | 0 <= j < i :: !marks[j]
    {
      if marks[i] {
        return true;
      }
    }
    return false;
  }

  method AllWithinOne(values: seq<real>) returns (all: bool)
    ensures all <==> forall i | 0 <= i < |values| :: 0.0 <= values[i] <= 1.0
  {
    for i := 0 to |values|
      invariant forall j | 0 <= j < i :: 0.0 <= values[j] <= 1.0
    {
      if values[i] < 0.0 || values[i] > 1.0 {
        return false;
      }
    }
    return true;
  }

  /** The checks of one record, in order. */
  method CheckRecord(schema: Schema, r: Record) returns (ok: bool)
    ensures ok <==> Readable(schema, r)
  {
    if |r.features| != schema.inputSize {
      return false;
    }
    if |r.edgeMask| != |schema.tables.edgeKeys| || |r.stopMask| != |STOP_ACTIONS| || |r.cost| != 3 {
      return false;
    }
    if r.routeLabel < -1 || r.routeLabel >= |ROUTES| {
      return false;
    }
    if r.edgeLabel < -1 || r.edgeLabel >= |schema.tables.edgeKeys| {
      return false;
    }
    if r.stopLabel < -1 || r.stopLabel >= |STOP_ACTIONS| {
      return false;
    }
    if r.reward < 0.0 || r.reward > 1.0 {
      return false;
    }
    var costs := AllWithinOne(r.cost);
    if !costs || r.node !in schema.tables.nodeIds {
      return false;
    }
    match r.decision
    case RouteDecision =>
      if r.routeLabel < 0 || r.edgeLabel != -1 || r.stopLabel != -1 {
        return false;
      }
      var edges := AnyMarked(r.edgeMask);
      var stops := AnyMarked(r.stopMask);
      return !edges && !stops;
    case TransitionDecision =>
      if r.routeLabel != -1 || r.edgeLabel < 0 || r.stopLabel < 0 {
        return false;
      }
      if !r.edgeMask[r.edgeLabel] {
        return false;
      }
      return r.stopMask[r.stopLabel];
  }

  /** Reading fails on the first record that a check refuses, and on an empty file. */
  method Read(schema: Schema, records: seq<Record>) returns (ok: bool)
    ensures ok <==> records != [] && forall r | r in records :: Readable(schema, r)
  {
    for i := 0 to |records|
      invariant forall r | r in records[..i] :: Readable(schema, r)
    {
      assert records[..i + 1] == records[..i] + [records[i]];
      ok := CheckRecord(schema, records[i]);
      if !ok {
        return;
      }
    }
    assert records[..|records|] == records;
    return records != [];
  }

  // ----- Agreement -----

  /** What the runtime logs with a node: the chosen edge and action are among the allowed ones. */
  predicate Consistent(schema: Schema, log: NodeLog) {
    && log.node in schema.tables.nodeIds
    && (log.stop.Some? ==> log.stop.value.action in log.stop.value.allowed)
    && (log.edge.Some? ==> log.edge.value.key in log.edge.value.allowed)
  }

  /** Whatever features were logged here were computed for another graph schema. */
  predicate Foreign(schema: Schema, log: NodeLog) {
    && (log.router.Some? ==> log.router.value.features.schema != schema.hash)
    && (log.stop.Some? ==> log.stop.value.features.schema != schema.hash)
    && (log.edge.Some? ==> log.edge.value.features.schema != schema.hash)
  }

  predicate ConsistentOrForeign(schema: Schema, log: NodeLog) {
    Consistent(schema, log) || Foreign(schema, log)
  }

  /** Nothing is exported of a node that was logged for another schema. */
  lemma ForeignIsDropped(schema: Schema, run: RunLog, log: NodeLog)
    requires Foreign(schema, log)
    ensures NodeRecords(schema, run, log) == []
  {
  }

  lemma NodeRecordsReadable(schema: Schema, run: RunLog, log: NodeLog, r: Record)
    requires ConsistentOrForeign(schema, log) && r in NodeRecords(schema, run, log)
    ensures Readable(schema, r)
  {
    if Foreign(schema, log) {
      ForeignIsDropped(schema, run, log);
    }
    if log.router.Some? {
      RouteRecordTells(schema, run, log.node, log.router.value);
    }
    if log.stop.Some? && log.edge.Some? {
      TransitionRecordTells(schema, run, log.node, log.stop.value, log.edge.value);
    }
  }

  lemma {:induction false} RunRecordsReadable(schema: Schema, run: RunLog, nodes: seq<NodeLog>, r: Record)
    requires (forall log | log in nodes :: ConsistentOrForeign(schema, log)) && r in RunRecords(schema, run, nodes)
    ensures Readable(schema, r)
    decreases |nodes|
  {
    var shorter, last := nodes[..|nodes| - 1], nodes[|nodes| - 1];
    if r in RunRecords(schema, run, shorter) {
      RunRecordsReadable(schema, run, shorter, r);
    } else {
      assert last in nodes;
      NodeRecordsReadable(schema, run, last, r);
    }
  }

  /**
   Every record exported from logs that are consistent, or were made for another schema, passes every
   check of the reader.
   */
  lemma {:induction false} ExportIsReadable(schema: Schema, runs: seq<RunLog>, successOnly: bool, r: Record)
    requires forall run, log | run in runs && Exported(schema, run, successOnly) && log in run.nodes ::
               ConsistentOrForeign(schema, log)
    requires r in AllRecords(schema, runs, successOnly)
    ensures Readable(schema, r)
    decreases |runs|
  {
    var shorter, last := runs[..|runs| - 1], runs[|runs| - 1];
    if r in AllRecords(schema, shorter, successOnly) {
      ExportIsReadable(schema, shorter, successOnly, r);
    } else {
      assert last in runs;
      RunRecordsReadable(schema, last, last.nodes, r);
    }
  }

  function KeysOf(candidates: seq<EdgeSpec>): (keys: seq<EdgeKey>)
    ensures |keys| == |candidates| && forall i | 0 <= i < |keys| :: keys[i] == candidates[i].Key()
  {
    if candidates == [] then [] else [candidates[0].Key()] + KeysOf(candidates[1..])
  }

  /** The allowed actions as a stop decision lists them. */
  function ActionsIn(all: seq<StopAction>, actions: set<StopAction>): (listed: seq<StopAction>)
    ensures forall a :: a in listed <==> a in all && a in actions
  {
    if all == [] then []
    else
      assert all == [all[0]] + all[1..];
      (if all[0] in actions then [all[0]] else []) + ActionsIn(all[1..], actions)
  }

  // ----- Whole runs -----

  /** A policy: any residuals it gives in a state, and the weight they have. */
  datatype Policy = Policy(stop: Snapshot -> Residual, edge: Snapshot -> Residual, scale: real, exp: Exp)

  /** Its residuals are as long as the decisions they are added to. */
  ghost predicate FitsGraph(policy: Policy, g: GraphSpec) {
    && ExpLike(policy.exp)
    && (forall s :: Fits(policy.stop(s), |STOP_ACTIONS|)) && (forall s :: Fits(policy.edge(s), |g.edges|))
  }

  function LearnedStop(policy: Policy, g: GraphSpec, s: Snapshot, node: NodeId): Option<StopAction> {
    SelectStop(s, node, Candidates(g, s, node), policy.stop(s), policy.scale, policy.exp)
  }

  function LearnedEdge(policy: Policy, g: GraphSpec, t: Tables, s: Snapshot, node: NodeId): Option<EdgeSpec> {
    match LearnedStop(policy, g, s, node)
    case None => None
    case Some(action) =>
      if TablesFit(t) && node in t.nodeIds then
        var row := t.allowed[IndexOf(t.nodeIds, node)];
        (match RowDecision(t, s, row, Candidates(g, s, node), PreferredTarget(action), policy.edge(s), policy.scale,
                           policy.exp)
         case Ok(edge) => Some(edge)
         case Err(_) => None)
      else None
  }

  /** The state that the controller decides on: the node's result is recorded, the run has not moved. */
  function DecidedOn(g: GraphSpec, s: Snapshot, input: StepInput): Snapshot {
    if s.currentNode in g.nodes then Recorded(s, s.currentNode, g.nodes[s.currentNode].kind, input) else s
  }

  /**
   What the runtime logs with a step under the learned controller: nothing of a transition at
   a terminal, else the stop and edge decisions and what they were made among. A route decision
   may be logged with any step.
   */
  predicate LogsStep(policy: Policy, g: GraphSpec, t: Tables, s: Snapshot, input: StepInput, log: NodeLog) {
    var r, node := DecidedOn(g, s, input), s.currentNode;
    && log.node == node
    && if node in g.terminals then log.stop == None && log.edge == None
       else
         && log.stop.Some? && log.edge.Some?
         && LearnedStop(policy, g, r, node) == Some(log.stop.value.action)
         && log.stop.value.allowed == ActionsIn(STOP_ACTIONS, AllowedActions(r, node, Candidates(g, r, node)))
         && LearnedEdge(policy, g, t, r, node) == Some(input.choice)
         && log.edge.value.key == input.choice.Key() && log.edge.value.allowed == KeysOf(Candidates(g, r, node))
  }

  predicate LogsStepAt(policy: Policy, g: GraphSpec, t: Tables, created: Snapshot, log: seq<StepInput>,
                       nodes: seq<NodeLog>, i: nat)
    requires i < |log| == |nodes|
  {
    match Replay(g, created, log[..i])
    case Ok(s) => LogsStep(policy, g, t, s, log[i], nodes[i])
    case Err(_) => false
  }

  /** The run log is that of a run of the graph under the learned controller. */
  ghost predicate LogsRun(policy: Policy, g: GraphSpec, t: Tables, run: RunLog) {
    exists created, log: seq<StepInput> :: LogsReplay(policy, g, t, created, log, run)
  }

  predicate LogsReplay(policy: Policy, g: GraphSpec, t: Tables, created: Snapshot, log: seq<StepInput>, run: RunLog) {
    && Replay(g, created, log).Ok? && |run.nodes| == |log|
    && forall i | 0 <= i < |log| :: LogsStepAt(policy, g, t, created, log, run.nodes, i)
  }

  lemma LearnedStopIsAllowed(policy: Policy, g: GraphSpec, s: Snapshot, node: NodeId, action: StopAction)
    requires FitsGraph(policy, g) && LearnedStop(policy, g, s, node) == Some(action)
    ensures action in ActionsIn(STOP_ACTIONS, AllowedActions(s, node, Candidates(g, s, node)))
  {
    StopIsAllowed(s, node, Candidates(g, s, node), policy.stop(s), policy.scale, policy.exp);
    assert STOP_ACTIONS[ActionIndex(action)] in STOP_ACTIONS;
  }

  lemma LearnedEdgeIsAllowed(policy: Policy, g: GraphSpec, listed: seq<NodeId>, texts: Texts, s: Snapshot, node: NodeId,
                             action: StopAction, edge: EdgeSpec)
    requires WellFormedEdges(g) && Lists(listed, g) && FitsGraph(policy, g) && node in g.nodes
             && Candidates(g, s, node) != []
    requires LearnedStop(policy, g, s, node) == Some(action)
    requires LearnedEdge(policy, g, Compile(g, listed, texts), s, node) == Some(edge)
    ensures edge.Key() in KeysOf(Candidates(g, s, node))
  {
    LearnedEdgeIsCandidate(g, listed, texts, s, node, PreferredTarget(action), policy.edge(s), policy.scale,
                           policy.exp);
    var i :| 0 <= i < |Candidates(g, s, node)| && Candidates(g, s, node)[i] == edge;
    assert KeysOf(Candidates(g, s, node))[i] == edge.Key();
  }

  /** A step that moved had a candidate when its controller decided. */
  lemma SomethingOffered(g: GraphSpec, s: Snapshot, input: StepInput, next: Snapshot)
    requires Step(g, s, input) == Ok(next) && s.currentNode !in g.terminals
    ensures s.currentNode in g.nodes && Candidates(g, DecidedOn(g, s, input), s.currentNode) != []
  {
    var _ := StepShape(g, s, input, next);
  }

  lemma StepIsConsistent(policy: Policy, g: GraphSpec, listed: seq<NodeId>, texts: Texts, hash: string, inputSize: nat,
                         s: Snapshot, input: StepInput, log: NodeLog)
    requires WellFormedEdges(g) && Lists(listed, g) && FitsGraph(policy, g) && s.currentNode in g.nodes
    requires s.currentNode !in g.terminals ==> Candidates(g, DecidedOn(g, s, input), s.currentNode) != []
    requires LogsStep(policy, g, Compile(g, listed, texts), s, input, log)
    ensures Consistent(Schema(Compile(g, listed, texts), hash, inputSize), log)
  {
    NodesSorted(g, listed, texts);
    if s.currentNode !in g.terminals {
      var r, node, action := DecidedOn(g, s, input), s.currentNode, log.stop.value.action;
      LearnedStopIsAllowed(policy, g, r, node, action);
      LearnedEdgeIsAllowed(policy, g, listed, texts, r, node, action, input.choice);
    }
  }

  lemma RunIsConsistent(policy: Policy, g: GraphSpec, listed: seq<NodeId>, texts: Texts, hash: string, inputSize: nat,
                        run: RunLog, log: NodeLog)
    requires WellFormedEdges(g) && Lists(listed, g) && FitsGraph(policy, g)
    requires LogsRun(policy, g, Compile(g, listed, texts), run) && log in run.nodes
    ensures Consistent(Schema(Compile(g, listed, texts), hash, inputSize), log)
  {
    var t := Compile(g, listed, texts);
    var created, steps: seq<StepInput> :| LogsReplay(policy, g, t, created, steps, run);
    var i :| 0 <= i < |run.nodes| && run.nodes[i] == log;
    assert LogsStepAt(policy, g, t, created, steps, run.nodes, i);
    DecisionOf(g, created, steps, i);
    StepIsConsistent(policy, g, listed, texts, hash, inputSize, Replay(g, created, steps[..i]).value, steps[i], log);
  }

  lemma DecisionOf(g: GraphSpec, created: Snapshot, log: seq<StepInput>, i: nat)
    requires Replay(g, created, log).Ok? && i < |log|
    ensures Replay(g, created, log[..i]).Ok?
    ensures var s := Replay(g, created, log[..i]).value;
            && s.currentNode in g.nodes
            && (s.currentNode !in g.terminals ==> Candidates(g, DecidedOn(g, s, log[i]), s.currentNode) != [])
  {
    ReplayPrefix(g, created, log, i + 1);
    var next := Replay(g, created, log[..i + 1]).value;
    var shorter, input, before := ReplayLast(g, created, log[..i + 1], next);
    assert shorter == log[..i] && input == log[i];
    if before.currentNode !in g.terminals {
      SomethingOffered(g, before, input, next);
    }
  }

  /** What the store has of an exported run: it was made under some policy that fits, or for another graph schema. */
  ghost predicate LogsGenuine(schema: Schema, g: GraphSpec, run: RunLog) {
    || (exists policy :: FitsGraph(policy, g) && LogsRun(policy, g, schema.tables, run))
    || (forall log | log in run.nodes :: Foreign(schema, log))
  }

  lemma GenuineIsReadable(g: GraphSpec, listed: seq<NodeId>, texts: Texts, hash: string, inputSize: nat, run: RunLog,
                          log: NodeLog)
    requires WellFormedEdges(g) && Lists(listed, g) && log in run.nodes
    requires LogsGenuine(Schema(Compile(g, listed, texts), hash, inputSize), g, run)
    ensures ConsistentOrForeign(Schema(Compile(g, listed, texts), hash, inputSize), log)
  {
    var schema := Schema(Compile(g, listed, texts), hash, inputSize);
    if policy :| FitsGraph(policy, g) && LogsRun(policy, g, schema.tables, run) {
      RunIsConsistent(policy, g, listed, texts, hash, inputSize, run, log);
    }
  }

  /**
   Export and reading agree: every record exported from runs under the learned controller, each
   with its own policy and operators, passes every check of the reader. Runs of other graphs may
   be in the store: they are not exported, and of those with the same name and version, whose
   features are for another schema, no record is.
   */
  lemma RunsExportReadable(g: GraphSpec, listed: seq<NodeId>, texts: Texts, hash: string, inputSize: nat,
                           runs: seq<RunLog>, successOnly: bool, r: Record)
    requires WellFormedEdges(g) && Lists(listed, g)
    requires var schema := Schema(Compile(g, listed, texts), hash, inputSize);
             && (forall run | run in runs && Exported(schema, run, successOnly) :: LogsGenuine(schema, g, run))
             && r in AllRecords(schema, runs, successOnly)
    ensures Readable(Schema(Compile(g, listed, texts), hash, inputSize), r)
  {
    var schema := Schema(Compile(g, listed, texts), hash, inputSize);
    forall run, log | run in runs && Exported(schema, run, successOnly) && log in run.nodes
      ensures ConsistentOrForeign(schema, log)
    {
      GenuineIsReadable(g, listed, texts, hash, inputSize, run, log);
    }
    ExportIsReadable(schema, runs, successOnly, r);
  }
}
