/**
 The runtime over the coding graph: with operators that keep to their contracts and a
 controller that returns what it is offered, no call ends in an edge error.
 */
module RuntimeProgress {
  import opened Graphs
  import opened Runs
  import opened CodingGraph
  import opened Mutations
  import opened RunStore
  import opened Checkpoints
  import opened GraphRuntimes
  import opened TunedGraphs
  import opened Wrappers

  /** Whatever state it is in and whichever call it is, an operator keeps to its node's contract. */
  ghost predicate OperatorsObey(operators: Operators) {
    forall s: Snapshot, k: nat :: Obeys(s.currentNode, ControlOf(s.data), DeltaOf(operators(s, k).result.delta))
  }

  /** Wherever something is offered the controller returns an offered edge. */
  ghost predicate ReturnsOffered(selector: Selector) {
    forall g: GraphSpec, s: Snapshot, n: NodeId, candidates: seq<EdgeSpec> | candidates != [] ::
      Offered(candidates, selector(g, s, n, candidates))
  }

  lemma MadeObeys(x: Drivers, g: GraphSpec, created: Snapshot, log: seq<StepInput>, s: Snapshot)
    requires log != [] && Replay(g, created, log[..|log| - 1]) == Ok(s)
    requires OperatorsObey(x.operators) && MadeLast(x, g, created, log)
    ensures Obeys(s.currentNode, ControlOf(s.data), DeltaOf(log[|log| - 1].result.delta))
  {
    var k :| x.Make(s, k, log[|log| - 1]);
    assert log[|log| - 1].result == x.operators(s, k).result;
  }

  /** The steps made by obeying operators obey. */
  lemma {:induction false} MadeStepsObey(f: Family, x: Drivers, created: Snapshot, log: seq<StepInput>, n: nat)
    requires Replay(f.Graph(), created, log).Ok? && OperatorsObey(x.operators)
    requires n <= |log| && ObeysAll(f.Graph(), created, log[..n]) && MadeFrom(x, f.Graph(), created, log, n)
    ensures ObeysAll(f.Graph(), created, log)
    decreases |log|
  {
    if n == |log| {
      assert log[..n] == log;
    } else {
      var shorter, input, s := ReplayLast(f.Graph(), created, log, Replay(f.Graph(), created, log).value);
      CutOfCut(log, n);
      MadeStepsObey(f, x, created, shorter, n);
      MadeObeys(x, f.Graph(), created, log, s);
      ObeysLonger(f.Graph(), created, log, s);
    }
  }

  lemma ObeysLonger(g: GraphSpec, s: Snapshot, log: seq<StepInput>, before: Snapshot)
    requires log != [] && ObeysAll(g, s, log[..|log| - 1]) && Replay(g, s, log[..|log| - 1]) == Ok(before)
    requires Obeys(before.currentNode, ControlOf(before.data), DeltaOf(log[|log| - 1].result.delta))
    ensures ObeysAll(g, s, log)
  {
  }

  /** Where a step with some choice is accepted, a controller that returns an offered edge is not refused. */
  lemma AcceptedSomeWay(x: Drivers, s: Snapshot, k: nat, choice: EdgeSpec, error: RunError)
    requires ReturnsOffered(x.selector) && Step(x.graph, s, x.Produced(s, k).(choice := choice)).Ok?
    ensures !x.AreRefused(s, k, error)
  {
    if x.AreRefused(s, k, error) {
      ChoiceIsNotRecorded(s, s.currentNode, x.graph.nodes[s.currentNode].kind, x.Produced(s, k), choice);
      StepDecides(x.graph, s, x.Produced(s, k).(choice := choice));
    }
  }

  lemma NotRefusedAfter(f: Family, x: Drivers, d: Chronicle, error: RunError)
    requires f.Proper() && Refines(f.Graph(), x.graph) && CapsKept(f.Graph(), x.graph)
    requires OperatorsObey(x.operators) && ReturnsOffered(x.selector)
    requires d.graph == f.Graph() && d.Reached().Ok? && ObeyingRun(f, d.created, d.log) == Some(d.Reached().value)
    ensures !RefusedAfter(x, d, error)
  {
    var s := d.Reached().value;
    if k :| x.AreRefused(s, k, error) {
      var input := x.Produced(s, k);
      SameViolations(f.Graph(), x.graph, s);
      RunIsCoherent(f, d.created, d.log, s);
      var choice := CodingRunCanGoOn(f, d.created, d.log, s, input);
      GraphIsWellFormed(f);
      KeptCapsStep(f.Graph(), x.graph, s, input.(choice := choice));
      AcceptedSomeWay(x, s, k, choice, error);
    }
  }

  /**
   A call of the runtime for a run of the coding graph, or of a refinement of it that keeps the
   caps, with operators that keep to their contracts and a controller that returns what it was
   offered: if it is stopped once the run is under way, a budget was spent. It is never refused
   an edge, and never out of edges.
   */
  lemma RunsMeetNoEdgeError(f: Family, x: Drivers, t: Tables, runId: string, was: Option<Chronicle>, d: Chronicle,
                            outcome: Result<Snapshot, RuntimeError>)
    requires f.Proper() && Refines(f.Graph(), x.graph) && CapsKept(f.Graph(), x.graph)
    requires OperatorsObey(x.operators) && ReturnsOffered(x.selector)
    requires Ran(x, f.Graph(), t, runId, was, Some(d), outcome) && d.graph == f.Graph() && Starts(f.Graph(), d.created)
    requires was.Some? ==> ObeysAll(f.Graph(), d.created, was.value.log)
    ensures outcome.Err? && outcome.error.Stopped? ==> outcome.error.error.BudgetExceeded? && d.ending == Spent
  {
    if outcome.Err? && outcome.error.Stopped? && !outcome.error.error.BudgetExceeded? {
      var n := StoppedByEdge(x, f.Graph(), t, runId, was, d, outcome.error.error);
      MadeStepsObey(f, x, d.created, d.log, n);
      NotRefusedAfter(f, x, d, outcome.error.error);
    }
  }

  /** What an edge error tells: the steps since the call began, and the refusal after them. */
  lemma StoppedByEdge(x: Drivers, base: GraphSpec, t: Tables, runId: string, was: Option<Chronicle>, d: Chronicle,
                      error: RunError)
    returns (n: nat)
    requires Ran(x, base, t, runId, was, Some(d), Err(Stopped(error))) && !error.BudgetExceeded?
    ensures n <= |d.log| && MadeFrom(x, d.graph, d.created, d.log, n) && RefusedAfter(x, d, error) && d.Reached().Ok?
    ensures if was.Some? then d.log[..n] == was.value.log else n == 0
  {
    n := if was.Some? then |was.value.log| else 0;
  }
}
