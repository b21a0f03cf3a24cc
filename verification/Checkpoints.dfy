/**
 What the store holds of a run at any moment: the state its committed steps lead to, an
 event for each of them, and results that no later step can be answered from. Folding the
 logged events over the created state gives the stored state back.
 */
module Checkpoints {
  import opened Values
  import opened Graphs
  import opened Runs
  import opened Walks
  import opened Keys
  import opened RunStore
  import opened Conditions
  import opened Wrappers

  /** The key of the step a state is about to take. */
  function KeyOf(s: Snapshot): StepKey {
    StepKey(s.header.runId,
            StepInputs(s.currentNode, s.header.task, s.data, s.artifacts, Count(s.attempts, s.currentNode),
                       s.header.graphVersion))
  }

  /** Two steps share a key exactly when they are of one run and agree in all that an operator can depend on. */
  lemma SameKeyIff(s: Snapshot, t: Snapshot)
    ensures KeyOf(s) == KeyOf(t) <==>
      && s.header.runId == t.header.runId && s.currentNode == t.currentNode && s.header.task == t.header.task
      && s.data == t.data && s.artifacts == t.artifacts && s.header.graphVersion == t.header.graphVersion
      && Count(s.attempts, s.currentNode) == Count(t.attempts, t.currentNode)
  {
  }

  /** What the log keeps of a step from `s` to `t`. */
  function EntryOf(g: GraphSpec, s: Snapshot, input: StepInput, t: Snapshot): Entry {
    var terminal := s.currentNode in g.terminals;
    Entry(s.currentNode, input.result, input.cached, if terminal then None else Some(t.currentNode), t.status,
          if terminal then None else Some(input.choice.Key()))
  }

  // ----- The life of a run -----

  /** How a run that is over ended: stopped by its budget or not, with its last event written or not. */
  datatype Ending = Open | Closed | Spent

  /** One run: how it was created and the steps it has committed. */
  datatype Chronicle = Chronicle(graph: GraphSpec, created: Snapshot, log: seq<StepInput>, ending: Ending)
  {
    function Reached(): Result<Snapshot, RunError> {
      Replay(graph, created, log)
    }
  }

  function Violations(g: GraphSpec, s: Snapshot): seq<Violation> {
    if s.currentNode in g.nodes then BudgetViolations(s, g.nodes[s.currentNode].kind) else []
  }

  /** The state the store has. */
  function Latest(c: Chronicle, reached: Snapshot): Snapshot {
    if c.ending == Spent then OverBudget(reached, Violations(c.graph, reached)) else reached
  }

  /** The events of the committed steps, after the one that the run was started with. */
  function StepEvents(g: GraphSpec, created: Snapshot, log: seq<StepInput>): seq<Event> {
    if log == [] then [RunStarted(created.currentNode, created.header.graphName, created.header.graphVersion)]
    else
      var shorter, input := log[..|log| - 1], log[|log| - 1];
      StepEvents(g, created, shorter) +
      match Replay(g, created, shorter)
      case Ok(s) =>
        (match Step(g, s, input)
         case Ok(t) => [NodeCompleted(EntryOf(g, s, input, t))]
         case Err(_) => [])
      case Err(_) => []
  }

  function EventsOf(rows: seq<Row>): seq<Event> {
    if rows == [] then [] else EventsOf(rows[..|rows| - 1]) + [rows[|rows| - 1].event]
  }

  function LastEvents(c: Chronicle, latest: Snapshot): seq<Event> {
    if c.ending == Open then [] else [RunEnded(latest.currentNode, latest.status, latest.error)]
  }

  function AllEvents(c: Chronicle): seq<Event>
    requires c.Reached().Ok?
  {
    StepEvents(c.graph, c.created, c.log) + LastEvents(c, Latest(c, c.Reached().value))
  }

  /** The stored results of a run belong to steps it has taken. */
  predicate ResultsPast(results: map<StepKey, NodeResult>, s: Snapshot) {
    forall key | key in results && key.runId == s.header.runId ::
      key.inputs.attempt < Count(s.attempts, key.inputs.node)
  }

  /** The chronicle is one that can happen. */
  predicate Possible(c: Chronicle) {
    && WellFormed(c.graph) && Fresh(c.graph, c.created)
    && c.Reached().Ok?
    && (c.ending == Spent ==> c.Reached().value.status == Running && Violations(c.graph, c.Reached().value) != [])
    && (c.ending == Closed ==> c.Reached().value.status != Running)
  }

  /** The row and the events of one run. */
  ghost predicate Shows(t: Tables, runId: string, s: Snapshot, events: seq<Event>) {
    Valid(t) && runId in t.runs && t.runs[runId] == s && EventsOf(RowsOf(t.events, runId)) == events
  }

  /** The store holds exactly this chronicle of the run. */
  ghost predicate Kept(t: Tables, c: Chronicle) {
    && Possible(c)
    && Shows(t, c.created.header.runId, Latest(c, c.Reached().value), AllEvents(c))
    && ResultsPast(t.results, c.Reached().value)
  }

  lemma EventsOfMore(rows: seq<Row>, row: Row)
    ensures EventsOf(rows + [row]) == EventsOf(rows) + [row.event]
  {
    assert (rows + [row])[..|rows|] == rows;
  }

  lemma LoggedShows(t: Tables, s: Snapshot, events: seq<Event>, next: Snapshot, event: Event)
    requires Shows(t, s.header.runId, s, events) && next.header == s.header
    ensures Shows(Logged(t, next, event), s.header.runId, next, events + [event])
    ensures Logged(t, next, event).results == t.results
  {
    var rows := RowsOf(t.events, s.header.runId);
    LoggedKeepsValid(t, next, event);
    EventsOfMore(rows, Row(s.header.runId, |rows|, event));
  }

  // ----- What every transaction keeps -----

  predicate NoResults(t: Tables, runId: string) {
    forall key | key in t.results :: key.runId != runId
  }

  lemma CreatedIsKept(t: Tables, g: GraphSpec, s: Snapshot)
    requires Valid(t) && WellFormed(g) && Fresh(g, s) && s.header.runId !in t.runs && NoResults(t, s.header.runId)
    ensures Created(t, s).Some? && Kept(Created(t, s).value, Chronicle(g, s, [], Open))
  {
    CreatedKeepsValid(t, s);
    assert ValidFor(t, s.header.runId);
    var next := Created(t, s).value;
    var row := Row(s.header.runId, 0, RunStarted(s.currentNode, s.header.graphName, s.header.graphVersion));
    RowsOfMore(t.events, row, s.header.runId);
    assert RowsOf(t.events, s.header.runId) == [];
    EventsOfMore([], row);
  }

  /** The header, and with it the run's identity, never changes. */
  lemma {:induction false} SameHeader(g: GraphSpec, s: Snapshot, log: seq<StepInput>, t: Snapshot)
    requires Replay(g, s, log) == Ok(t)
    ensures t.header == s.header
    decreases |log|
  {
    if log != [] {
      var shorter, input, before := ReplayLast(g, s, log, t);
      SameHeader(g, s, shorter, before);
      var _ := StepShape(g, before, input, t);
    }
  }

  lemma StepEventsMore(g: GraphSpec, created: Snapshot, log: seq<StepInput>, s: Snapshot, input: StepInput, t: Snapshot)
    requires Replay(g, created, log) == Ok(s) && Step(g, s, input) == Ok(t)
    ensures Replay(g, created, log + [input]) == Ok(t)
    ensures StepEvents(g, created, log + [input])
         == StepEvents(g, created, log) + [NodeCompleted(EntryOf(g, s, input, t))]
  {
    ReplayExtends(g, created, log, input);
    assert (log + [input])[..|log|] == log;
  }

  lemma ResultsStayPast(results: map<StepKey, NodeResult>, g: GraphSpec, s: Snapshot, input: StepInput, t: Snapshot)
    requires ResultsPast(results, s) && Step(g, s, input) == Ok(t)
    ensures ResultsPast(results, t) && ResultsPast(results[KeyOf(s) := input.result], t)
  {
    var _ := StepShape(g, s, input, t);
  }

  lemma OpenEvents(c: Chronicle)
    requires c.ending == Open && c.Reached().Ok?
    ensures AllEvents(c) == StepEvents(c.graph, c.created, c.log)
  {
  }

  lemma ChronicleMore(c: Chronicle, s: Snapshot, input: StepInput, next: Snapshot)
    requires Possible(c) && c.ending == Open && c.Reached() == Ok(s) && Step(c.graph, s, input) == Ok(next)
    ensures var d := c.(log := c.log + [input]);
            && Possible(d) && d.Reached() == Ok(next) && Latest(d, next) == next
            && AllEvents(d) == AllEvents(c) + [NodeCompleted(EntryOf(c.graph, s, input, next))]
  {
    StepEventsMore(c.graph, c.created, c.log, s, input, next);
    OpenEvents(c);
    OpenEvents(c.(log := c.log + [input]));
  }

  /** Committing a step extends the chronicle by it. */
  lemma CommittedIsKept(t: Tables, c: Chronicle, s: Snapshot, input: StepInput, next: Snapshot)
    requires Kept(t, c) && c.ending == Open && c.Reached() == Ok(s) && Step(c.graph, s, input) == Ok(next)
    ensures Kept(Committed(t, next, KeyOf(s), EntryOf(c.graph, s, input, next)), c.(log := c.log + [input]))
  {
    var entry := EntryOf(c.graph, s, input, next);
    var noted := if entry.cached then t else t.(results := t.results[KeyOf(s) := entry.result]);
    SameHeader(c.graph, c.created, c.log, s);
    StepKeepsHeader(c.graph, s, input, next);
    ChronicleMore(c, s, input, next);
    ResultsStayPast(t.results, c.graph, s, input, next);
    ResultsDoNotNumber(t, noted);
    LoggedShows(noted, s, AllEvents(c), next, NodeCompleted(entry));
  }

  lemma StepKeepsHeader(g: GraphSpec, s: Snapshot, input: StepInput, t: Snapshot)
    requires Step(g, s, input) == Ok(t)
    ensures t.header == s.header
  {
    var _ := StepShape(g, s, input, t);
  }

  /** Saving the terminal event, after the last step or for a spent budget, closes the chronicle. */
  lemma EndedIsKept(t: Tables, c: Chronicle, s: Snapshot, ending: Ending)
    requires Kept(t, c) && c.ending == Open && c.Reached() == Ok(s) && ending != Open && Possible(c.(ending := ending))
    ensures Kept(Ended(t, Latest(c.(ending := ending), s)), c.(ending := ending))
  {
    var latest, events := Latest(c.(ending := ending), s), StepEvents(c.graph, c.created, c.log);
    SameHeader(c.graph, c.created, c.log, s);
    assert AllEvents(c) == events;
    LoggedShows(t, s, events, latest, RunEnded(latest.currentNode, latest.status, latest.error));
  }

  /** No step is ever answered from the stored results: its attempt number is new. */
  lemma NeverCached(t: Tables, c: Chronicle)
    requires Kept(t, c)
    ensures KeyOf(c.Reached().value) !in t.results
  {
    SameHeader(c.graph, c.created, c.log, c.Reached().value);
  }

  lemma StepAttempts(g: GraphSpec, s: Snapshot, input: StepInput, t: Snapshot, n: NodeId)
    requires Step(g, s, input) == Ok(t)
    ensures Count(s.attempts, n) <= Count(t.attempts, n)
  {
    var _ := StepShape(g, s, input, t);
  }

  /** Attempts only grow along a run. */
  lemma {:induction false} AttemptsGrow(g: GraphSpec, s: Snapshot, log: seq<StepInput>, i: nat, n: NodeId)
    requires Replay(g, s, log).Ok? && i <= |log|
    ensures Replay(g, s, log[..i]).Ok?
    ensures Count(Replay(g, s, log[..i]).value.attempts, n) <= Count(Replay(g, s, log).value.attempts, n)
    decreases |log|
  {
    if i < |log| {
      var shorter, input, before := ReplayLast(g, s, log, Replay(g, s, log).value);
      AttemptsGrow(g, s, shorter, i, n);
      assert shorter[..i] == log[..i];
      StepAttempts(g, before, input, Replay(g, s, log).value, n);
    } else {
      assert log[..i] == log;
    }
  }

  /** Two different steps of a run never have the same key. */
  lemma StepsHaveTheirOwnKeys(g: GraphSpec, s: Snapshot, log: seq<StepInput>, i: nat)
    requires i < |log| && Replay(g, s, log).Ok?
    ensures Replay(g, s, log[..i]).Ok? && KeyOf(Replay(g, s, log[..i]).value) != KeyOf(Replay(g, s, log).value)
  {
    var t := Replay(g, s, log[..i + 1]);
    AttemptsGrow(g, s, log, i + 1, s.currentNode);
    var shorter, input, before := ReplayLast(g, s, log[..i + 1], t.value);
    assert shorter == log[..i];
    AttemptsGrow(g, s, log, i + 1, before.currentNode);
    var _ := StepShape(g, before, input, t.value);
  }

  /** A run whose steps were all answered by their operators has counted no cached step. */
  lemma {:induction false} NoCachedSteps(g: GraphSpec, s: Snapshot, log: seq<StepInput>, t: Snapshot)
    requires Fresh(g, s) && Replay(g, s, log) == Ok(t) && forall i | 0 <= i < |log| :: !log[i].cached
    ensures t.metrics.cachedSteps == 0
    decreases |log|
  {
    if log != [] {
      var shorter, input, before := ReplayLast(g, s, log, t);
      NoCachedSteps(g, s, shorter, before);
      OperatedStep(g, before, input, t);
    }
  }

  lemma OperatedStep(g: GraphSpec, s: Snapshot, input: StepInput, t: Snapshot)
    requires Step(g, s, input) == Ok(t) && !input.cached
    ensures t.metrics.cachedSteps == s.metrics.cachedSteps
  {
  }

  // ----- The log tells the state -----

  /** Where a run stands and what it has done. */
  datatype Place = Place(
    currentNode: NodeId, status: Status, data: Fields, attempts: map<NodeId, nat>, edgeCounts: map<EdgeKey, nat>,
    completedNodes: seq<NodeId>, stepCount: nat)

  datatype Progress = Progress(noProgressCount: nat, lastProgressKey: Option<ProgressKey>)

  /** The part of a state that the log determines. */
  datatype Position = Position(place: Place, progress: Progress)

  function PositionOf(s: Snapshot): Position {
    Position(Place(s.currentNode, s.status, s.data, s.attempts, s.edgeCounts, s.completedNodes, s.stepCount),
             Progress(s.noProgressCount, s.lastProgressKey))
  }

  /** A logged event moves the position on, by nothing but what it says. */
  function Follow(p: Position, event: Event): Position {
    match event
    case RunStarted(_, _, _) => p
    case RunEnded(_, status, _) => p.(place := p.place.(status := status))
    case NodeCompleted(e) => Position(FollowPlace(p.place, e), FollowProgress(p.progress, e))
  }

  function FollowPlace(p: Place, e: Entry): Place {
    Place(
      if e.nextNode.Some? then e.nextNode.value else p.currentNode,
      e.status,
      MergeFields(p.data, e.result.delta),
      Bump(p.attempts, e.node),
      if e.edge.Some? then Bump(p.edgeCounts, e.edge.value) else p.edgeCounts,
      p.completedNodes + [e.node],
      p.stepCount + 1)
  }

  function FollowProgress(p: Progress, e: Entry): Progress {
    var key := Some(Given(e.result.progressKey));
    Progress(if p.lastProgressKey == key then p.noProgressCount + 1 else 0, key)
  }

  function FollowAll(p: Position, events: seq<Event>): Position {
    if events == [] then p else Follow(FollowAll(p, events[..|events| - 1]), events[|events| - 1])
  }

  lemma FollowMore(p: Position, events: seq<Event>, event: Event)
    ensures FollowAll(p, events + [event]) == Follow(FollowAll(p, events), event)
  {
    assert (events + [event])[..|events|] == events;
  }

  /** The last committed result names its progress key; for one that does not the state holds a hash. */
  predicate LastKeyed(log: seq<StepInput>) {
    log == [] || log[|log| - 1].result.progressKey != ""
  }

  /** The log has led to this state: in every part but the progress, and in that too if and only if `keyed`. */
  predicate Tells(p: Position, s: Snapshot, keyed: bool) {
    p.place == PositionOf(s).place && (p.progress == PositionOf(s).progress <==> keyed)
  }

  /** Where the progress is not told, the log has no key and the state has a hash. */
  predicate Follows(p: Position, s: Snapshot, keyed: bool) {
    && Tells(p, s, keyed)
    && (!keyed ==>
          && p.progress.lastProgressKey == Some(Given(""))
          && s.lastProgressKey.Some? && s.lastProgressKey.value.Hashed?)
  }

  lemma StepFollows(g: GraphSpec, s: Snapshot, input: StepInput, t: Snapshot, p: Position, keyed: bool)
    requires Step(g, s, input) == Ok(t) && Follows(p, s, keyed)
    ensures Follows(Follow(p, NodeCompleted(EntryOf(g, s, input, t))), t, input.result.progressKey != "")
  {
    var _ := StepShape(g, s, input, t);
  }

  lemma {:induction false} EventsTellPosition(g: GraphSpec, created: Snapshot, log: seq<StepInput>, t: Snapshot)
    requires Replay(g, created, log) == Ok(t)
    ensures Follows(FollowAll(PositionOf(created), StepEvents(g, created, log)), t, LastKeyed(log))
    decreases |log|
  {
    var start := PositionOf(created);
    if log == [] {
      FollowMore(start, [], StepEvents(g, created, [])[0]);
    } else {
      var shorter, input, before := ReplayLast(g, created, log, t);
      var events := StepEvents(g, created, shorter);
      EventsTellPosition(g, created, shorter, before);
      StepFollows(g, before, input, t, FollowAll(start, events), LastKeyed(shorter));
      StepEventsMore(g, created, shorter, before, input, t);
      FollowMore(start, events, NodeCompleted(EntryOf(g, before, input, t)));
    }
  }

  lemma AllEventsTell(c: Chronicle)
    requires Possible(c)
    ensures Tells(FollowAll(PositionOf(c.created), AllEvents(c)), Latest(c, c.Reached().value), LastKeyed(c.log))
  {
    var reached := c.Reached().value;
    EventsTellPosition(c.graph, c.created, c.log, reached);
    var events := StepEvents(c.graph, c.created, c.log);
    if c.ending == Open {
      assert AllEvents(c) == events;
    } else {
      var latest := Latest(c, reached);
      var last := RunEnded(latest.currentNode, latest.status, latest.error);
      assert AllEvents(c) == events + [last];
      FollowMore(PositionOf(c.created), events, last);
      EndTells(c, reached, FollowAll(PositionOf(c.created), events), last);
    }
  }

  /** The terminal event tells the status, and nothing else has changed. */
  lemma EndTells(c: Chronicle, reached: Snapshot, p: Position, last: Event)
    requires Tells(p, reached, LastKeyed(c.log))
    requires var s := Latest(c, reached); last == RunEnded(s.currentNode, s.status, s.error)
    ensures Tells(Follow(p, last), Latest(c, reached), LastKeyed(c.log))
  {
  }

  /**
   Log equals checkpoint: the events of a run are numbered from zero without gaps, and folding
   them over the created state gives the stored data, edge counts, attempts, completed nodes
   and position; and it gives the progress counters as well if and only if no step was taken
   or the last result has a progress key, whatever the results before it have.
   */
  lemma LogEqualsCheckpoint(t: Tables, c: Chronicle)
    requires Kept(t, c)
    ensures var id := c.created.header.runId;
            && Numbered(RowsOf(t.events, id))
            && id in t.runs
            && Tells(FollowAll(PositionOf(c.created), EventsOf(RowsOf(t.events, id))), t.runs[id], LastKeyed(c.log))
  {
    assert ValidFor(t, c.created.header.runId);
    AllEventsTell(c);
  }

  /**
   After a result without a progress key no other fold of these events could do better: steps
   that differ only in the artifacts they leave, which these events do not hold, log the same
   and leave different progress behind.
   */
  lemma UnkeyedStepsLookAlike(g: GraphSpec, s: Snapshot, input: StepInput, artifacts: Fields, t: Snapshot, u: Snapshot)
    requires input.result.progressKey == "" && artifacts != input.artifacts
    requires Step(g, s, input) == Ok(t) && Step(g, s, input.(artifacts := artifacts)) == Ok(u)
    ensures EntryOf(g, s, input, t) == EntryOf(g, s, input.(artifacts := artifacts), u)
    ensures PositionOf(t).place == PositionOf(u).place && PositionOf(t).progress != PositionOf(u).progress
  {
    StepFollows(g, s, input, t, PositionOf(s), true);
    StepFollows(g, s, input.(artifacts := artifacts), u, PositionOf(s), true);
    KeyAfter(g, s, input, t);
    KeyAfter(g, s, input.(artifacts := artifacts), u);
    SameEntry(g, s, input, artifacts, t, u);
  }

  lemma KeyAfter(g: GraphSpec, s: Snapshot, input: StepInput, t: Snapshot)
    requires Step(g, s, input) == Ok(t)
    ensures t.lastProgressKey
            == Some(ProgressOf(MergeFields(s.data, input.result.delta), input.artifacts, input.result))
  {
  }

  lemma SameEntry(g: GraphSpec, s: Snapshot, input: StepInput, artifacts: Fields, t: Snapshot, u: Snapshot)
    requires Step(g, s, input) == Ok(t) && Step(g, s, input.(artifacts := artifacts)) == Ok(u)
    ensures EntryOf(g, s, input, t) == EntryOf(g, s, input.(artifacts := artifacts), u)
  {
    var _ := StepShape(g, s, input, t);
    var _ := StepShape(g, s, input.(artifacts := artifacts), u);
  }

  /** A graph of one node. */
  const ONE_NODE := GraphSpec("one", "1", Finish, {Finish}, map[Finish := NodeSpec(Finish, Final, map[], true, false)],
                              [])

  const NO_EDGE := EdgeSpec(Finish, Finish, Always, 0, 1, "none")

  /** A step that returns nothing but its progress key. */
  function Plainly(progressKey: string): StepInput {
    StepInput(NodeResult(map[], Nil, progressKey, 0, 0), map[], false, 0.0, 0.0, 0, 0, NO_EDGE)
  }

  function OneStepRun(progressKey: string): Chronicle {
    Chronicle(ONE_NODE, NewRun(ONE_NODE, "task", DEFAULT_BUDGET, "run", map[]), [Plainly(progressKey)], Closed)
  }

  /** A run of one step without a progress key, whose progress its log does not tell. */
  lemma UnkeyedRunIsNotTold()
    ensures var c := OneStepRun("");
            && Possible(c)
            && FollowAll(PositionOf(c.created), AllEvents(c)).progress != PositionOf(c.Reached().value).progress
  {
    var c := OneStepRun("");
    OneStepIsPossible(c);
    AllEventsTell(c);
  }

  lemma OneStepIsPossible(c: Chronicle)
    requires c == OneStepRun("")
    ensures Possible(c)
  {
    OneNodeIsWellFormed();
    NewRunsAreFresh(ONE_NODE, "task", DEFAULT_BUDGET, "run", map[]);
    OneStepCompletes(ONE_NODE, c.created, Plainly(""));
  }

  lemma OneNodeIsWellFormed()
    ensures WellFormed(ONE_NODE) && ONE_NODE.start == Finish && Finish in ONE_NODE.terminals
  {
  }

  lemma OneStepCompletes(g: GraphSpec, s: Snapshot, input: StepInput)
    requires WellFormed(g) && Fresh(g, s) && g.start == Finish && Finish in g.terminals
             && s.header.budget == DEFAULT_BUDGET
    ensures Replay(g, s, [input]).Ok? && Replay(g, s, [input]).value.status == Completed
  {
    NothingIsSpent(s);
    NothingIsViolated(s, g.nodes[Finish].kind);
    FinishSteps(g, s, input);
    OneStep(g, s, input);
  }

  /** Something is left of each budget. */
  predicate Leaves(b: Budget, s: Snapshot) {
    && s.stepCount < b.maxSteps && s.metrics.llmCalls < b.maxLlmCalls && s.metrics.toolCalls < b.maxToolCalls
    && s.metrics.TotalTokens() < b.maxTokens && s.metrics.elapsedSeconds < b.maxSeconds
    && s.noProgressCount < b.maxNoProgressSteps
  }

  lemma NothingIsViolated(s: Snapshot, kind: NodeKind)
    requires Leaves(s.header.budget, s)
    ensures BudgetViolations(s, kind) == []
  {
  }

  lemma NothingIsSpent(s: Snapshot)
    requires s.metrics == NO_METRICS && s.stepCount == 0 && s.noProgressCount == 0
             && s.header.budget == DEFAULT_BUDGET
    ensures Leaves(s.header.budget, s)
  {
  }

  lemma FinishSteps(g: GraphSpec, s: Snapshot, input: StepInput)
    requires s.status == Running && s.currentNode == Finish && Finish in g.nodes && Finish in g.terminals
    requires BudgetViolations(s, g.nodes[Finish].kind) == []
    ensures Step(g, s, input).Ok? && Step(g, s, input).value.status == Completed
  {
  }

  lemma OneStep(g: GraphSpec, s: Snapshot, input: StepInput)
    ensures Replay(g, s, [input]) == Step(g, s, input)
  {
    ReplayExtends(g, s, [], input);
    assert [] + [input] == [input];
  }
}
