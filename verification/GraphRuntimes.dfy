/**
 The run loop over the store: load or create the run, then check the budget, run the
 operator, apply its result in place and commit, until the run ends or is told to stop.
 Whatever the operators return and the controller chooses, the store keeps the chronicle.
 */
module GraphRuntimes {
  import opened Values
  import opened Graphs
  import opened Runs
  import opened Walks
  import opened RunStore
  import opened Checkpoints
  import opened Mutations
  import opened Conditions
  import opened Wrappers

  datatype RuntimeError =
    TaskRequired | BadMetadata | WrongGraph | WrongProvider | WrongController | Stopped(error: RunError)

  /** Operators and clock: what the k-th operator call of this process gives in a state. */
  type Operators = (Snapshot, nat) -> StepInput

  lemma {:induction false} StaysInGraph(g: GraphSpec, s: Snapshot, log: seq<StepInput>, t: Snapshot)
    requires WellFormed(g) && Fresh(g, s) && Replay(g, s, log) == Ok(t)
    ensures t.currentNode in g.nodes
    decreases |log|
  {
    if log != [] {
      var shorter, input, before := ReplayLast(g, s, log, t);
      StaysInGraph(g, s, shorter, before);
      var e := StepShape(g, before, input, t);
      if before.currentNode !in g.terminals {
        var i :| 0 <= i < |g.edges| && g.edges[i] == e;
        assert WellFormedEdge(g, g.edges[i]);
      }
    }
  }

  lemma CapsRemain(c: Chronicle, s: Snapshot)
    requires Possible(c) && c.Reached() == Ok(s)
    ensures 0 <= Remaining(c.graph, s)
  {
    EveryRunIsAWalk(c.graph, c.created, c.log, s);
    UsesWithinCaps(c.graph.edges, s.edgeCounts);
  }

  lemma TurnsUseUpCaps(c: Chronicle, s: Snapshot, input: StepInput, t: Snapshot)
    requires Possible(c) && c.Reached() == Ok(s) && Step(c.graph, s, input) == Ok(t)
    ensures 0 <= Remaining(c.graph, t) < Remaining(c.graph, s)
  {
    EveryRunIsAWalk(c.graph, c.created, c.log, s);
    StepsUseUpCaps(c.graph, c.log, s, input, t);
  }

  lemma OneMore(c: Chronicle, input: StepInput)
    ensures var d := c.(log := c.log + [input]);
            Continues(c, d) && (AllOperated(c.log) && !input.cached ==> AllOperated(d.log))
  {
    var d := c.(log := c.log + [input]);
    assert d.log[..|d.log| - 1] == c.log;
  }

  /** The store keeps an open chronicle that has come to this state, of a graph that the one at hand refines. */
  ghost predicate At(t: Tables, c: Chronicle, g: GraphSpec, s: Snapshot) {
    Kept(t, c) && c.ending == Open && Refines(c.graph, g) && c.Reached() == Ok(s)
  }

  /** A recorded result and the transition after it are a step, with the chosen edge as its choice. */
  lemma StepMoves(g: GraphSpec, s: Snapshot, produced: StepInput, choice: EdgeSpec, moved: Snapshot)
    requires s.status == Running && s.currentNode in g.nodes
    requires BudgetViolations(s, g.nodes[s.currentNode].kind) == []
    requires Advanced(g, Recorded(s, s.currentNode, g.nodes[s.currentNode].kind, produced), s.currentNode,
                      produced.(choice := choice)) == Ok(moved)
    ensures Step(g, s, produced.(choice := choice)) == Ok(PolicyCharged(moved, produced.(choice := choice)))
  {
    ChoiceIsNotRecorded(s, s.currentNode, g.nodes[s.currentNode].kind, produced, choice);
  }

  lemma ChoiceIsNotRecorded(s: Snapshot, node: NodeId, kind: NodeKind, input: StepInput, choice: EdgeSpec)
    ensures Recorded(s, node, kind, input.(choice := choice)) == Recorded(s, node, kind, input)
  {
  }

  /** What a refinement does is what its base does. */
  lemma DoneInBase(base: GraphSpec, g: GraphSpec, s: Snapshot, input: StepInput, t: Snapshot)
    requires WellFormed(base) && Refines(base, g) && Step(g, s, input) == Ok(t)
    ensures Step(base, s, input) == Ok(t) && EntryOf(base, s, input, t) == EntryOf(g, s, input, t)
  {
    RefinedStep(base, g, s, input);
  }

  lemma OnGraph(t: Tables, c: Chronicle, g: GraphSpec, s: Snapshot)
    requires At(t, c, g, s)
    ensures s.currentNode in g.nodes && Violations(c.graph, s) == Violations(g, s)
    ensures Violations(g, s) == BudgetViolations(s, g.nodes[s.currentNode].kind)
  {
    StaysInGraph(c.graph, c.created, c.log, s);
    SameViolations(c.graph, g, s);
  }

  lemma StepUsesUpCaps(t: Tables, c: Chronicle, g: GraphSpec, s: Snapshot, input: StepInput, next: Snapshot)
    requires At(t, c, g, s) && Step(g, s, input) == Ok(next)
    ensures 0 <= Remaining(c.graph, next) < Remaining(c.graph, s)
  {
    DoneInBase(c.graph, g, s, input, next);
    TurnsUseUpCaps(c, s, input, next);
  }

  lemma SameViolations(base: GraphSpec, g: GraphSpec, s: Snapshot)
    requires Refines(base, g)
    ensures Violations(base, s) == Violations(g, s)
  {
    if s.currentNode in base.nodes {
      assert NodeRefines(base.nodes[s.currentNode], g.nodes[s.currentNode]);
    }
  }

  /** The chronicle was carried on by these steps, and ended in this way. */
  predicate Continues(c: Chronicle, d: Chronicle) {
    d == c.(log := d.log, ending := d.ending) && Extends(d.log, c.log)
  }

  /** The longer log is the shorter one and then more. */
  predicate Extends(longer: seq<StepInput>, shorter: seq<StepInput>) {
    longer == shorter || (longer != [] && Extends(longer[..|longer| - 1], shorter))
  }

  lemma {:induction false} ExtendsMeans(longer: seq<StepInput>, shorter: seq<StepInput>)
    ensures Extends(longer, shorter) <==> shorter <= longer
    decreases |longer|
  {
    if longer != [] {
      ExtendsMeans(longer[..|longer| - 1], shorter);
    }
  }

  lemma {:induction false} ExtendsOn(a: seq<StepInput>, b: seq<StepInput>, c: seq<StepInput>)
    requires Extends(a, b) && Extends(b, c)
    ensures Extends(a, c)
    decreases |a|
  {
    if a != b {
      ExtendsOn(a[..|a| - 1], b, c);
    }
  }

  /** Every step was answered by its operator, none from the store. */
  predicate AllOperated(log: seq<StepInput>) {
    log != [] ==> AllOperated(log[..|log| - 1]) && !log[|log| - 1].cached
  }

  /** The transactions of one step: its commit, and the terminal event when the run is over. */
  function Stored(g: GraphSpec, before: Tables, s: Snapshot, input: StepInput, t: Snapshot): Tables {
    var committed := Committed(before, t, KeyOf(s), EntryOf(g, s, input, t));
    if t.status == Running then committed else Ended(committed, t)
  }

  /** The last step of the chronicle was answered by its operator, led here, and is what was stored. */
  predicate StoredLast(before: Tables, s: Snapshot, after: Tables, d: Chronicle, t: Snapshot) {
    && d.log != [] && !d.log[|d.log| - 1].cached
    && Step(d.graph, s, d.log[|d.log| - 1]) == Ok(t)
    && after == Stored(d.graph, before, s, d.log[|d.log| - 1], t)
  }

  lemma SpentIsKept(t: Tables, c: Chronicle, g: GraphSpec, s: Snapshot)
    requires At(t, c, g, s) && s.status == Running && Violations(g, s) != []
    ensures Kept(Ended(t, OverBudget(s, Violations(g, s))), c.(ending := Spent))
  {
    SameViolations(c.graph, g, s);
    SameHeader(c.graph, c.created, c.log, s);
    EndedIsKept(t, c, s, Spent);
  }

  /** What drives a run: its graph, its controller and its operators. */
  datatype Drivers = Drivers(graph: GraphSpec, selector: Selector, operators: Operators)
  {
    /** What the k-th operator call returns, answered by the operator. */
    function Produced(s: Snapshot, k: nat): StepInput {
      operators(s, k).(cached := false)
    }

    /** The state that the controller is shown, once this is recorded. */
    function Shown(s: Snapshot, input: StepInput): Snapshot
      requires s.currentNode in graph.nodes
    {
      Recorded(s, s.currentNode, graph.nodes[s.currentNode].kind, input)
    }

    /** A step made of what the operator returned, along the edge that the controller chose. */
    predicate Make(s: Snapshot, k: nat, input: StepInput) {
      && s.currentNode in graph.nodes && input == Produced(s, k).(choice := input.choice)
      && Chooses(graph, Shown(s, Produced(s, k)), s.currentNode, selector, input.choice)
    }

    /** It is so made at some operator call. */
    ghost predicate Makes(s: Snapshot, input: StepInput) {
      exists k :: Make(s, k, input)
    }

    /** Within its budget the run is refused its transition: nothing is offered, or not what the controller chose. */
    predicate AreRefused(s: Snapshot, k: nat, error: RunError) {
      && s.status == Running && s.currentNode in graph.nodes && Violations(graph, s) == []
      && Refuses(graph, Shown(s, Produced(s, k)), s.currentNode, selector, error)
    }
  }

  /** The last step of this log was made by these drivers. */
  ghost predicate MadeLast(x: Drivers, g: GraphSpec, created: Snapshot, log: seq<StepInput>)
    requires log != []
  {
    match Replay(g, created, log[..|log| - 1])
    case Ok(s) => x.Makes(s, log[|log| - 1])
    case Err(_) => false
  }

  /** The steps from the n-th on were made by these drivers. */
  ghost predicate MadeFrom(x: Drivers, g: GraphSpec, created: Snapshot, log: seq<StepInput>, n: nat) {
    n < |log| ==> MadeFrom(x, g, created, log[..|log| - 1], n) && MadeLast(x, g, created, log)
  }

  /** These drivers were refused the transition after the chronicle. */
  ghost predicate RefusedAfter(x: Drivers, d: Chronicle, error: RunError) {
    d.Reached().Ok? && exists k :: x.AreRefused(d.Reached().value, k, error)
  }

  lemma MadeMore(x: Drivers, d: Chronicle, n: nat, e: Chronicle, s: Snapshot, k: nat)
    requires MadeFrom(x, d.graph, d.created, d.log, n) && e.graph == d.graph && e.created == d.created
    requires d.Reached() == Ok(s) && e.log != [] && e.log[..|e.log| - 1] == d.log && x.Make(s, k, e.log[|e.log| - 1])
    ensures MadeFrom(x, e.graph, e.created, e.log, n)
  {
  }

  /** There is no failure if no budget is spent, and else one that names exactly those that are. */
  predicate SpendsExactly(s: Snapshot, kind: NodeKind, failure: Option<RunError>) {
    match failure
    case None => forall v :: !Over(s, kind, v)
    case Some(BudgetExceeded(violations)) => violations != [] && forall v :: v in violations <==> Over(s, kind, v)
    case Some(_) => false
  }

  /** What one turn of the loop comes to, with the k-th operator call. */
  ghost predicate Turned(x: Drivers, k: nat, before: Tables, c: Chronicle, s: Snapshot, after: Tables, d: Chronicle,
                         t: Snapshot, failure: Option<RunError>)
  {
    match failure
    case None =>
      && Kept(after, d) && Continues(c, d) && d.Reached() == Ok(t) && StoredLast(before, s, after, d, t)
      && d.log[..|d.log| - 1] == c.log && x.Make(s, k, d.log[|d.log| - 1])
      && (AllOperated(c.log) ==> AllOperated(d.log))
      && d.ending == (if t.status == Running then Open else Closed)
      && 0 <= Remaining(c.graph, t) < Remaining(c.graph, s)
    case Some(BudgetExceeded(_)) =>
      && Kept(after, d) && d == c.(ending := Spent)
      && Violations(c.graph, s) != [] && after == Ended(before, OverBudget(s, Violations(c.graph, s)))
    case Some(error) => x.AreRefused(s, k, error) && after == before && d == c
  }

  lemma StepsAreCounted(c: Chronicle, s: Snapshot)
    requires Possible(c) && c.Reached() == Ok(s)
    ensures s.stepCount == |c.log|
  {
    CountsSteps(c.graph, c.created, c.log, s);
  }

  lemma {:induction false} CountsSteps(g: GraphSpec, s: Snapshot, log: seq<StepInput>, t: Snapshot)
    requires Replay(g, s, log) == Ok(t)
    ensures t.stepCount == s.stepCount + |log|
    decreases |log|
  {
    if log != [] {
      var shorter, input, before := ReplayLast(g, s, log, t);
      CountsSteps(g, s, shorter, before);
      var _ := StepShape(g, before, input, t);
    }
  }

  /** A turn takes one step, or none when it stops the run. */
  lemma TurnCounts(x: Drivers, k: nat, before: Tables, c: Chronicle, s: Snapshot, after: Tables, d: Chronicle,
                   t: Snapshot,
                   failure: Option<RunError>)
    requires Turned(x, k, before, c, s, after, d, t, failure)
    ensures |d.log| == |c.log| + if failure.None? then 1 else 0
    ensures failure.None? ==> t.stepCount == s.stepCount + 1
  {
    if failure.None? {
      assert |d.log[..|d.log| - 1]| == |c.log|;
      var _ := StepShape(d.graph, s, d.log[|d.log| - 1], t);
    }
  }

  lemma TurnSpends(x: Drivers, k: nat, before: Tables, c: Chronicle, s: Snapshot, after: Tables, d: Chronicle,
                   t: Snapshot)
    requires Kept(after, d) && d == c.(ending := Spent) && Violations(c.graph, s) == Violations(x.graph, s) != []
    requires after == Ended(before, OverBudget(s, Violations(x.graph, s)))
    ensures Turned(x, k, before, c, s, after, d, t, Some(BudgetExceeded(Violations(x.graph, s))))
  {
  }

  lemma TurnIsRefused(x: Drivers, k: nat, before: Tables, c: Chronicle, s: Snapshot, t: Snapshot, error: RunError)
    requires x.AreRefused(s, k, error)
    ensures Turned(x, k, before, c, s, before, c, t, Some(error))
  {
  }

  lemma TurnSteps(x: Drivers, k: nat, before: Tables, c: Chronicle, s: Snapshot, after: Tables, d: Chronicle,
                  t: Snapshot,
                  input: StepInput)
    requires Kept(after, d) && Continues(c, d) && d.Reached() == Ok(t) && StoredLast(before, s, after, d, t)
    requires d.log == c.log + [input] && x.Make(s, k, input) && (AllOperated(c.log) ==> AllOperated(d.log))
    requires d.ending == (if t.status == Running then Open else Closed)
    requires 0 <= Remaining(c.graph, t) < Remaining(c.graph, s)
    ensures Turned(x, k, before, c, s, after, d, t, None)
  {
  }

  class GraphRuntime {
    const graph: GraphSpec
    const store: SqliteRunStore
    const provider: string
    const controller: string
    const selector: Selector

    constructor (graph: GraphSpec, store: SqliteRunStore, provider: string, controller: string, selector: Selector)
      ensures this.graph == graph && this.store == store && this.provider == provider
      ensures this.controller == controller && this.selector == selector
    {
      this.graph, this.store, this.provider := graph, store, provider;
      this.controller, this.selector := controller, selector;
    }

    /** `_check_budget`: a spent budget is stored as a failure. */
    method CheckBudget(state: RunState, ghost c: Chronicle)
      returns (failure: Option<RunError>, ghost d: Chronicle)
      requires At(store.Now(), c, graph, state.View()) && state.status == Running
      modifies state, store
      ensures failure.None? ==>
                && store.Now() == old(store.Now()) && d == c && state.View() == old(state.View())
                && Violations(graph, state.View()) == []
      ensures state.currentNode in graph.nodes
              && SpendsExactly(old(state.View()), graph.nodes[state.currentNode].kind, failure)
      ensures failure.Some? ==>
                && Violations(graph, old(state.View())) != []
                && failure == Some(BudgetExceeded(Violations(graph, old(state.View()))))
                && Kept(store.Now(), d) && d == c.(ending := Spent)
                && store.Now() == Ended(old(store.Now()),
                                        OverBudget(old(state.View()), Violations(graph, old(state.View()))))
    {
      OnGraph(store.Now(), c, graph, state.View());
      ViolationsMean(state.View(), graph.nodes[state.currentNode].kind);
      var violations := Violations(graph, state.View());
      if violations == [] {
        return None, c;
      }
      ghost var s := state.View();
      SpentIsKept(store.Now(), c, graph, s);
      state.status := Failed;
      state.error := Some(BudgetExceeded(violations));
      store.SaveTerminalEvent(state.View());
      return Some(BudgetExceeded(violations)), c.(ending := Spent);
    }
  
    /** The result of the current node, from the store or from its operator. */
    method Produce(s: Snapshot, cacheable: bool, operators: Operators, k: nat, ghost c: Chronicle)
      returns (input: StepInput)
      requires At(store.Now(), c, graph, s)
      ensures input == operators(s, k).(cached := false)
    {
      var cached := None;
      if cacheable {
        cached := store.GetStepResult(KeyOf(s));
      }
      input := operators(s, k).(cached := cached.Some?);
      if cached.Some? {
        input := input.(result := cached.value);
      }
      NeverCached(store.Now(), c);
    }

    /** Applying the result, and charging the policy work, is a step of the run. */
    method Perform(state: RunState, kind: NodeKind, produced: StepInput) returns (outcome: Result<StepInput, RunError>)
      requires state.status == Running && state.currentNode in graph.nodes
      requires kind == graph.nodes[state.currentNode].kind && BudgetViolations(state.View(), kind) == []
      modifies state
      ensures outcome.Ok? ==>
                && outcome.value == produced.(choice := outcome.value.choice)
                && Step(graph, old(state.View()), outcome.value) == Ok(state.View())
      ensures var s := old(state.View());
              var recorded := Recorded(s, s.currentNode, kind, produced);
              match outcome
              case Ok(input) => Chooses(graph, recorded, s.currentNode, selector, input.choice)
              case Err(error) => Refuses(graph, recorded, s.currentNode, selector, error)
    {
      ghost var s := state.View();
      var applied := state.ApplyNodeResult(graph, state.currentNode, kind, produced, selector);
      if applied.Err? {
        return Err(applied.error);
      }
      StepMoves(graph, s, produced, applied.value, state.View());
      state.ChargePolicy(produced.(choice := applied.value));
      return Ok(produced.(choice := applied.value));
    }

    /** The step is committed, and the run closed when it is over. */
    method Checkpoint(s: Snapshot, state: RunState, input: StepInput, ghost c: Chronicle)
      returns (ghost d: Chronicle)
      requires At(store.Now(), c, graph, s) && Step(graph, s, input) == Ok(state.View()) && !input.cached
      modifies store
      ensures Kept(store.Now(), d) && Continues(c, d) && d.Reached() == Ok(state.View())
      ensures AllOperated(c.log) ==> AllOperated(d.log)
      ensures StoredLast(old(store.Now()), s, store.Now(), d, state.View()) && d.log == c.log + [input]
      ensures d.ending == if state.status == Running then Open else Closed
    {
      var t := state.View();
      DoneInBase(c.graph, graph, s, input, t);
      CommittedIsKept(store.Now(), c, s, input, t);
      ChronicleMore(c, s, input, t);
      d := c.(log := c.log + [input]);
      OneMore(c, input);
      SameHeader(c.graph, c.created, d.log, t);
      store.CommitStep(t, KeyOf(s), EntryOf(graph, s, input, t));
      if state.status != Running {
        EndedIsKept(store.Now(), d, t, Closed);
        d := d.(ending := Closed);
        store.SaveTerminalEvent(t);
      }
    }

    /** One turn of the loop. */
    method Turn(state: RunState, operators: Operators, k: nat, ghost c: Chronicle)
      returns (failure: Option<RunError>, ghost d: Chronicle)
      requires At(store.Now(), c, graph, state.View()) && state.status == Running
      modifies state, store
      ensures Turned(Drivers(graph, selector, operators), k, old(store.Now()), c, old(state.View()), store.Now(), d,
                     state.View(), failure)
    {
      var s := state.View();
      OnGraph(store.Now(), c, graph, s);
      var node := graph.nodes[state.currentNode];
      ghost var x, before := Drivers(graph, selector, operators), store.Now();
      failure, d := CheckBudget(state, c);
      if failure.Some? {
        TurnSpends(x, k, before, c, s, store.Now(), d, state.View());
        return;
      }
      var produced := Produce(s, node.cacheable, operators, k, c);
      var outcome := Perform(state, node.kind, produced);
      if outcome.Err? {
        TurnIsRefused(x, k, before, c, s, state.View(), outcome.error);
        return Some(outcome.error), c;
      }
      StepUsesUpCaps(store.Now(), c, graph, s, outcome.value, state.View());
      d := Checkpoint(s, state, outcome.value, c);
      TurnSteps(x, k, before, c, s, store.Now(), d, state.View(), outcome.value);
    }
  
    /** The loop: turn after turn until the run is over, has failed or is told to stop. */
    method Drive(state: RunState, operators: Operators, stopAfter: Option<nat>, ghost c: Chronicle)
      returns (failure: Option<RunError>, ghost d: Chronicle)
      requires At(store.Now(), c, graph, state.View()) && state.status == Running
      modifies state, store
      ensures Driven(Drivers(graph, selector, operators), c, d, store.Now(), failure)
      ensures failure.None? ==> d.ending != Spent && d.Reached() == Ok(state.View())
      ensures failure.None? && d.ending == Open ==> state.status == Running
      ensures failure.None? && state.status == Running ==> stopAfter.Some? && state.stepCount >= stopAfter.value
      ensures stopAfter.Some? ==> |d.log| <= |c.log| || |d.log| <= stopAfter.value
    {
      failure, d := None, c;
      CapsRemain(c, state.View());
      StepsAreCounted(c, state.View());
      var k := 0;
      while state.status == Running
        invariant failure == None && Driven(Drivers(graph, selector, operators), c, d, store.Now(), None)
        invariant d.ending != Spent && d.Reached() == Ok(state.View())
        invariant d.ending == if state.status == Running then Open else Closed
        invariant 0 <= Remaining(c.graph, state.View()) && state.stepCount == |d.log|
        invariant stopAfter.Some? ==> |d.log| <= |c.log| || |d.log| <= stopAfter.value
        decreases Remaining(c.graph, state.View())
      {
        if stopAfter.Some? && state.stepCount >= stopAfter.value {
          return;
        }
        ghost var before, s, sofar := store.Now(), state.View(), d;
        failure, d := Turn(state, operators, k, d);
        TurnDrives(Drivers(graph, selector, operators), k, c, sofar, before, s, store.Now(), d, state.View(), failure);
        if failure.Some? {
          return;
        }
        k := k + 1;
      }
    }

    /** The start of `_run_locked`: the run is created, or taken up where the store left it. */
    method Enter(task: Option<string>, runId: string, budget: Budget, initialData: Fields, ghost base: GraphSpec,
                 ghost was: Option<Chronicle>)
      returns (entered: Result<Snapshot, RuntimeError>, ghost c: Option<Chronicle>)
      requires WellFormed(base) && Refines(base, graph) && Knows(store.Now(), runId, base, was)
      modifies store
      ensures was == None ==> CreatedAs(graph, provider, controller, task, budget, initialData, entered)
      ensures was.Some? ==>
                && runId in old(store.runs)
                && TakenUpAs(graph, provider, controller, old(store.runs)[runId], entered)
      ensures entered.Err? ==> c == was && store.Now() == old(store.Now()) && !entered.error.Stopped?
      ensures entered.Ok? ==>
                && c.Some? && c.value.created.header.runId == runId && c.value.graph == base
                && c == (if was.Some? then was else Some(Chronicle(base, entered.value, [], Open)))
                && Kept(store.Now(), c.value) && Latest(c.value, c.value.Reached().value) == entered.value
    {
      var loaded := store.LoadRun(runId);
      if loaded.Some? {
        var objection := ResumeObjection(loaded.value, graph, provider, controller);
        ObjectionMeans(loaded.value, graph, provider, controller);
        if objection.Some? {
          return Err(objection.value), was;
        }
        SameHeader(was.value.graph, was.value.created, was.value.log, was.value.Reached().value);
        return Ok(loaded.value), was;
      }
      entered, c := Create(task, runId, budget, initialData, base);
    }

    /** A new run, stamped with the identities of provider and controller. */
    method Create(task: Option<string>, runId: string, budget: Budget, initialData: Fields, ghost base: GraphSpec)
      returns (entered: Result<Snapshot, RuntimeError>, ghost c: Option<Chronicle>)
      requires WellFormed(base) && Refines(base, graph) && Knows(store.Now(), runId, base, None)
      modifies store
      ensures CreatedAs(graph, provider, controller, task, budget, initialData, entered)
      ensures entered.Err? ==> c == None && store.Now() == old(store.Now())
      ensures entered.Ok? ==>
                && entered.value.header.runId == runId && c == Some(Chronicle(base, entered.value, [], Open))
                && Kept(store.Now(), c.value) && c.value.Reached() == Ok(entered.value)
    {
      if task.None? {
        return Err(TaskRequired), None;
      }
      var data := WithIdentity(INITIAL_COUNTERS + initialData, provider, controller);
      if data.None? {
        return Err(BadMetadata), None;
      }
      var s := NewRun(graph, task.value, budget, runId, data.value);
      StampedIs(s, graph, task.value, budget, runId, initialData, provider, controller);
      NewRunsAreFresh(base, task.value, budget, runId, data.value);
      CreatedIsKept(store.Now(), base, s);
      var _ := store.CreateRun(s);
      return Ok(s), Some(Chronicle(base, s, [], Open));
    }

    /**
     `_run_locked`. A run that is over is handed back as it is stored; any other is driven on,
     whatever process it was left by, and whatever refinement of the same base it was run under
     before: the chronicle is one of the base.
     */
    method RunLocked(task: Option<string>, runId: string, budget: Budget, initialData: Fields, stopAfter: Option<nat>,
                     operators: Operators, ghost base: GraphSpec, ghost was: Option<Chronicle>)
      returns (outcome: Result<Snapshot, RuntimeError>, ghost now: Option<Chronicle>)
      requires WellFormed(base) && Refines(base, graph) && Knows(store.Now(), runId, base, was)
      modifies store
      ensures Ran(Drivers(graph, selector, operators), base, store.Now(), runId, was, now, outcome)
      ensures outcome.Err? && !outcome.error.Stopped? ==> store.Now() == old(store.Now())
      ensures was == None ==>
                (outcome.Err? && !outcome.error.Stopped? <==> task.None? || !NamesObject(initialData))
      ensures stopAfter.Some? && now.Some? ==>
                |now.value.log| <= (if was.Some? then |was.value.log| else 0) || |now.value.log| <= stopAfter.value
      ensures was.Some? ==>
                && runId in old(store.runs)
                && (outcome.Err? && !outcome.error.Stopped?
                    <==> !Admits(old(store.runs)[runId], graph, provider, controller))
      ensures outcome.Ok? && outcome.value.status == Running ==>
                stopAfter.Some? && outcome.value.stepCount >= stopAfter.value
    {
      var entered, c := Enter(task, runId, budget, initialData, base, was);
      now := c;
      if entered.Err? {
        return Err(entered.error), was;
      }
      if entered.value.status != Running {
        return Ok(entered.value), c;
      }
      outcome, now := TakeOn(entered.value, stopAfter, operators, base, was, c.value);
    }

    /** A running state is driven on. */
    method TakeOn(taken: Snapshot, stopAfter: Option<nat>, operators: Operators, ghost base: GraphSpec,
                  ghost was: Option<Chronicle>, ghost c: Chronicle)
      returns (outcome: Result<Snapshot, RuntimeError>, ghost now: Option<Chronicle>)
      requires At(store.Now(), c, graph, taken) && taken.status == Running
      requires if was.Some? then was.value == c else c.log == [] && c.graph == base
      modifies store
      ensures Ran(Drivers(graph, selector, operators), base, store.Now(), c.created.header.runId, was, now, outcome)
      ensures outcome.Err? ==> outcome.error.Stopped?
      ensures outcome.Ok? && outcome.value.status == Running ==>
                stopAfter.Some? && outcome.value.stepCount >= stopAfter.value
      ensures now.Some? && (stopAfter.Some? ==> |now.value.log| <= |c.log| || |now.value.log| <= stopAfter.value)
    {
      ghost var runId := c.created.header.runId;
      var state := new RunState(taken);
      var failure, d := Drive(state, operators, stopAfter, c);
      DrivenIsRan(Drivers(graph, selector, operators), base, store.Now(), runId, was, c, d, failure, state.View());
      if failure.Some? {
        return Err(Stopped(failure.value)), Some(d);
      }
      return Ok(state.View()), Some(d);
    }
  }

  /** An identity recorded with a run, or the null value. */
  function IdentityIn(data: Fields, name: string): Value {
    match Get(data, "_runtime")
    case Dict(meta) => Get(meta, name)
    case _ => Nil
  }

  /** The recorded identity is absent, empty or the one at hand. */
  predicate FitsIdentity(data: Fields, name: string, identity: string) {
    var recorded := IdentityIn(data, name);
    Truthy(recorded) ==> recorded == Str(identity)
  }

  predicate SameGraph(s: Snapshot, g: GraphSpec) {
    s.header.graphName == g.name && s.header.graphVersion == g.version
  }

  /** A stored run may be taken up by a runtime with this graph and these identities. */
  predicate Admits(s: Snapshot, g: GraphSpec, provider: string, controller: string) {
    SameGraph(s, g) && FitsIdentity(s.data, "provider", provider) && FitsIdentity(s.data, "controller", controller)
  }

  /** The caller's runtime metadata, if any, is an object. */
  predicate NamesObject(initialData: Fields) {
    "_runtime" in initialData ==> initialData["_runtime"].Dict?
  }

  /** A new run: the caller's data over the two counters, and beside the identities nothing else. */
  predicate Stamped(s: Snapshot, g: GraphSpec, task: string, budget: Budget, initialData: Fields) {
    && SameGraph(s, g) && s.header.task == task && s.header.budget == budget && Fresh(g, s)
    && s.data.Keys == initialData.Keys + {"repair_count", "plan_revision_count", "_runtime"}
    && (forall key | key in initialData && key != "_runtime" :: s.data[key] == initialData[key])
    && ("repair_count" !in initialData ==> s.data["repair_count"] == Int(0))
    && ("plan_revision_count" !in initialData ==> s.data["plan_revision_count"] == Int(0))
  }

  /** What becomes of a call for a run that is not stored. */
  predicate CreatedAs(g: GraphSpec, provider: string, controller: string, task: Option<string>, budget: Budget,
                      initialData: Fields, entered: Result<Snapshot, RuntimeError>)
  {
    match entered
    case Ok(s) =>
      && task.Some? && NamesObject(initialData) && Stamped(s, g, task.value, budget, initialData)
      && IdentityIn(s.data, "provider") == Str(provider) && IdentityIn(s.data, "controller") == Str(controller)
    case Err(TaskRequired) => task.None?
    case Err(error) => error == BadMetadata && task.Some? && !NamesObject(initialData)
  }

  /** What becomes of a call for a stored run: it is taken up if it admits the runtime, or the first misfit is named. */
  predicate TakenUpAs(g: GraphSpec, provider: string, controller: string, s: Snapshot,
                      entered: Result<Snapshot, RuntimeError>)
  {
    match entered
    case Ok(taken) => taken == s && Admits(s, g, provider, controller)
    case Err(WrongGraph) => !SameGraph(s, g)
    case Err(WrongProvider) => SameGraph(s, g) && !FitsIdentity(s.data, "provider", provider)
    case Err(error) =>
      && error == WrongController && SameGraph(s, g)
      && FitsIdentity(s.data, "provider", provider) && !FitsIdentity(s.data, "controller", controller)
  }

  lemma ObjectionMeans(s: Snapshot, g: GraphSpec, provider: string, controller: string)
    ensures TakenUpAs(g, provider, controller, s,
                      match ResumeObjection(s, g, provider, controller)
                      case Some(error) => Err(error)
                      case None => Ok(s))
  {
  }

  lemma StampedIs(s: Snapshot, g: GraphSpec, task: string, budget: Budget, runId: string, initialData: Fields,
                  provider: string, controller: string)
    requires NamesObject(initialData)
    requires var data := WithIdentity(INITIAL_COUNTERS + initialData, provider, controller);
             data.Some? && s == NewRun(g, task, budget, runId, data.value)
    ensures Stamped(s, g, task, budget, initialData)
    ensures IdentityIn(s.data, "provider") == Str(provider) && IdentityIn(s.data, "controller") == Str(controller)
  {
  }

  lemma {:induction false} IdentityStays(g: GraphSpec, s: Snapshot, log: seq<StepInput>, t: Snapshot)
    requires Replay(g, s, log) == Ok(t) && forall i | 0 <= i < |log| :: "_runtime" !in log[i].result.delta
    ensures Get(t.data, "_runtime") == Get(s.data, "_runtime") && t.header == s.header
    decreases |log|
  {
    if log != [] {
      var shorter, input, before := ReplayLast(g, s, log, t);
      IdentityStays(g, s, shorter, before);
      assert input == log[|shorter|];
      var _ := StepShape(g, before, input, t);
      MergedKey(before.data, input.result.delta, "_runtime");
    }
  }

  /**
   A run that was stamped with identities, and whose results leave them alone, is taken up at any
   later time by exactly the runtimes with its graph's name and version and with each identity
   that is not empty.
   */
  lemma ResumedByItsOwn(c: Chronicle, g: GraphSpec, provider: string, controller: string, h: GraphSpec,
                        provider': string, controller': string)
    requires Possible(c) && SameGraph(c.created, g)
    requires IdentityIn(c.created.data, "provider") == Str(provider)
    requires IdentityIn(c.created.data, "controller") == Str(controller)
    requires forall i | 0 <= i < |c.log| :: "_runtime" !in c.log[i].result.delta
    ensures Admits(Latest(c, c.Reached().value), h, provider', controller') <==>
      && h.name == g.name && h.version == g.version
      && (provider == "" || provider' == provider) && (controller == "" || controller' == controller)
  {
    var t := c.Reached().value;
    IdentityStays(c.graph, c.created, c.log, t);
    LatestKeeps(c, t);
    AdmitsMeans(Latest(c, t), h, provider', controller', provider, controller);
  }

  lemma LatestKeeps(c: Chronicle, t: Snapshot)
    ensures Latest(c, t).data == t.data && Latest(c, t).header == t.header
  {
  }

  lemma AdmitsMeans(s: Snapshot, h: GraphSpec, provider': string, controller': string, provider: string,
                    controller: string)
    requires IdentityIn(s.data, "provider") == Str(provider) && IdentityIn(s.data, "controller") == Str(controller)
    ensures Admits(s, h, provider', controller') <==>
      && SameGraph(s, h)
      && (provider == "" || provider' == provider) && (controller == "" || controller' == controller)
  {
  }

  /** The data of a new run with the runtime's identities in it; none if the metadata is no object. */
  function WithIdentity(data: Fields, provider: string, controller: string): Option<Fields> {
    var meta := if "_runtime" in data then data["_runtime"] else Dict(map[]);
    if !meta.Dict? then None
    else Some(data["_runtime" := Dict(meta.fields["provider" := Str(provider)]["controller" := Str(controller)])])
  }

  /** An identity recorded with the run that is not the one at hand. */
  predicate Differs(meta: Value, name: string, identity: string) {
    meta.Dict? && Truthy(Get(meta.fields, name)) && Get(meta.fields, name) != Str(identity)
  }

  /** `_validate_resume`. */
  function ResumeObjection(s: Snapshot, g: GraphSpec, provider: string, controller: string): Option<RuntimeError> {
    if s.header.graphName != g.name || s.header.graphVersion != g.version then Some(WrongGraph)
    else if Differs(Get(s.data, "_runtime"), "provider", provider) then Some(WrongProvider)
    else if Differs(Get(s.data, "_runtime"), "controller", controller) then Some(WrongController)
    else None
  }

  /** What is known of a run before it is run again: nothing is stored, or a chronicle is kept. */
  ghost predicate Knows(t: Tables, runId: string, g: GraphSpec, c: Option<Chronicle>) {
    match c
    case None => Valid(t) && runId !in t.runs && NoResults(t, runId)
    case Some(c) =>
      && Kept(t, c) && c.created.header.runId == runId
      && (c.created.header.graphName == g.name && c.created.header.graphVersion == g.version ==> c.graph == g)
  }

  /** The outcome of a call for a run under these drivers, and the chronicle it leaves. */
  ghost predicate Ran(x: Drivers, base: GraphSpec, t: Tables, runId: string, was: Option<Chronicle>,
                      now: Option<Chronicle>, outcome: Result<Snapshot, RuntimeError>)
  {
    match now
    case None => was == None && outcome.Err? && outcome.error in {TaskRequired, BadMetadata}
    case Some(d) =>
      && Kept(t, d) && d.created.header.runId == runId && Follows(x, base, was, d)
      && match outcome
         case Ok(s) => s == Latest(d, d.Reached().value) && (s.status == Running || d.ending != Open || now == was)
         case Err(Stopped(BudgetExceeded(_))) => d.ending == Spent
         case Err(Stopped(error)) => d.ending == Open && RefusedAfter(x, d, error)
         case Err(_) => now == was
  }

  /** The chronicle goes on from the one before, or begins; its new steps were all made by these drivers. */
  ghost predicate Follows(x: Drivers, base: GraphSpec, was: Option<Chronicle>, d: Chronicle) {
    match was
    case None => d.graph == base && MadeFrom(x, d.graph, d.created, d.log, 0) && AllOperated(d.log)
    case Some(c) =>
      && Continues(c, d) && c.log <= d.log && MadeFrom(x, d.graph, d.created, d.log, |c.log|)
      && (AllOperated(c.log) ==> AllOperated(d.log))
  }

  lemma DrivenIsRan(x: Drivers, base: GraphSpec, t: Tables, runId: string, was: Option<Chronicle>, c: Chronicle,
                    d: Chronicle, failure: Option<RunError>, s: Snapshot)
    requires c.created.header.runId == runId
    requires if was.Some? then was.value == c else c.log == [] && c.graph == base
    requires Driven(x, c, d, t, failure)
    requires failure.None? ==> d.ending != Spent && d.Reached() == Ok(s) && (d.ending == Open ==> s.status == Running)
    ensures Ran(x, base, t, runId, was, Some(d), if failure.Some? then Err(Stopped(failure.value)) else Ok(s))
  {
    ExtendsMeans(d.log, c.log);
  }

  /** What running the loop comes to: the chronicle goes on, and ends as the outcome says. */
  ghost predicate Driven(x: Drivers, c: Chronicle, d: Chronicle, after: Tables, failure: Option<RunError>) {
    && Kept(after, d) && Continues(c, d) && MadeFrom(x, d.graph, d.created, d.log, |c.log|)
       && (AllOperated(c.log) ==> AllOperated(d.log))
    && match failure
       case None => true
       case Some(BudgetExceeded(_)) => d.ending == Spent
       case Some(error) => d.ending == Open && RefusedAfter(x, d, error)
  }

  lemma TurnDrives(x: Drivers, k: nat, c: Chronicle, d: Chronicle, before: Tables, s: Snapshot, after: Tables,
                   e: Chronicle, t: Snapshot, failure: Option<RunError>)
    requires Driven(x, c, d, before, None) && d.ending == Open && d.Reached() == Ok(s)
    requires Turned(x, k, before, d, s, after, e, t, failure)
    ensures Driven(x, c, e, after, failure)
    ensures |e.log| == |d.log| + if failure.None? then 1 else 0
    ensures failure.None? ==> t.stepCount == s.stepCount + 1
  {
    TurnCounts(x, k, before, d, s, after, e, t, failure);
    ExtendsOn(e.log, d.log, c.log);
    match failure
    case None => MadeMore(x, d, |c.log|, e, s, k);
    case Some(BudgetExceeded(_)) =>
    case Some(error) => RefusedThen(x, d, s, k, error);
  }

  lemma RefusedThen(x: Drivers, d: Chronicle, s: Snapshot, k: nat, error: RunError)
    requires d.Reached() == Ok(s) && x.AreRefused(s, k, error)
    ensures RefusedAfter(x, d, error)
  {
  }
}
