/**
 What graph search can and cannot do to the coding graph: every run of a tuned graph is a
 run of the coding graph itself, so it passes the same gates at no greater cost; but its runs
 can always go on if and only if the search has lowered no cap at all.
 */
module TunedGraphs {
  import opened Values
  import opened Graphs
  import opened Runs
  import opened CodingGraph
  import opened CodingRuns
  import opened CodingCosts
  import opened LongestRun
  import opened Mutations
  import opened Wrappers

  /** Where an obeying run of a tuned coding graph leads. */
  function TunedRun(f: Family, g: GraphSpec, s: Snapshot, log: seq<StepInput>): Option<Snapshot>
  {
    if f.Proper() && Refines(f.Graph(), g) && Starts(g, s) && ObeysAll(g, s, log) && Replay(g, s, log).Ok?
    then Some(Replay(g, s, log).value)
    else None
  }

  lemma TunedStart(f: Family, g: GraphSpec, s: Snapshot)
    requires f.Proper() && Refines(f.Graph(), g) && Starts(g, s)
    ensures Starts(f.Graph(), s) && WellFormed(f.Graph())
  {
    GraphIsWellFormed(f);
  }

  lemma TunedReplay(f: Family, g: GraphSpec, s: Snapshot, log: seq<StepInput>)
    requires f.Proper() && Refines(f.Graph(), g) && Starts(g, s) && Replay(g, s, log).Ok?
    ensures Replay(f.Graph(), s, log) == Replay(g, s, log)
    ensures WithinCaps(g, Replay(g, s, log).value.edgeCounts)
  {
    TunedStart(f, g, s);
    HistoriesOfRefinement(f.Graph(), g, s, log, Replay(g, s, log).value);
  }

  lemma {:induction false} TunedObeys(f: Family, g: GraphSpec, s: Snapshot, log: seq<StepInput>)
    requires f.Proper() && Refines(f.Graph(), g) && Starts(g, s) && ObeysAll(g, s, log)
    ensures ObeysAll(f.Graph(), s, log)
    decreases |log|
  {
    if log != [] {
      TunedObeys(f, g, s, log[..|log| - 1]);
      TunedReplay(f, g, s, log[..|log| - 1]);
    }
  }

  /** A run of a tuned graph is a run of the coding graph, to the same state. */
  lemma TunedRunIsCodingRun(f: Family, g: GraphSpec, s: Snapshot, log: seq<StepInput>, t: Snapshot)
    requires TunedRun(f, g, s, log) == Some(t)
    ensures ObeyingRun(f, s, log) == Some(t)
    ensures WellFormed(f.Graph()) && Refines(f.Graph(), g)
  {
    TunedObeys(f, g, s, log);
    TunedReplay(f, g, s, log);
    TunedStart(f, g, s);
  }

  /** Tuning keeps gate safety and the cost bounds. */
  lemma TunedRunsAreSafe(f: Family, g: GraphSpec, s: Snapshot, log: seq<StepInput>, t: Snapshot)
    requires TunedRun(f, g, s, log) == Some(t)
    ensures AtMost(Spent(t), MaxCost(f))
    ensures t.status == Completed ==>
      && |log| == |t.completedNodes| >= 4
      && PassedAt(log, t.completedNodes, |log| - 4, Apply)
      && PassedAt(log, t.completedNodes, |log| - 3, Tests)
      && PassedAt(log, t.completedNodes, |log| - 2, Review)
      && t.completedNodes[|log| - 1] == Finish
  {
    TunedRunIsCodingRun(f, g, s, log, t);
    RunsCostAtMost(f, s, log, t);
    if t.status == Completed {
      CompletedRunsPassedEveryGate(f, s, log, t);
    }
  }

  /** The key of the one edge the coding graph takes after this step, if it goes on. */
  function NextKey(f: Family, s: Snapshot, input: StepInput): Option<EdgeKey> {
    if s.currentNode in NODE_IDS && s.currentNode !in {Finish, Abort}
    then Some(NextEdge(f, s.currentNode, ControlOf(MergeFields(s.data, input.result.delta))).Key())
    else None
  }

  lemma CodingRunGoesOn(f: Family, s: Snapshot, log: seq<StepInput>, t: Snapshot, input: StepInput)
    requires ObeyingRun(f, s, log) == Some(t)
    requires t.status == Running && BudgetViolations(t, KindOf(t.currentNode)) == []
    requires Obeys(t.currentNode, ControlOf(t.data), DeltaOf(input.result.delta))
    ensures t.currentNode in f.Graph().terminals <==> NextKey(f, t, input) == None
    ensures Step(f.Graph(), t, input).Ok? <==> NextKey(f, t, input) in {None, Some(input.choice.Key())}
  {
    NeverStuck(f, s, log, t, input);
  }

  /**
   A tuned run can take its next step exactly when the tuned cap of the one edge the coding
   graph would take leaves room; otherwise every choice is refused and the run has come to a
   dead end.
   */
  lemma TunedRunGoesOnWhileRoom(f: Family, g: GraphSpec, s: Snapshot, log: seq<StepInput>, t: Snapshot,
                                input: StepInput)
    requires TunedRun(f, g, s, log) == Some(t)
    requires t.status == Running && BudgetViolations(t, KindOf(t.currentNode)) == []
    requires Obeys(t.currentNode, ControlOf(t.data), DeltaOf(input.result.delta))
    ensures Step(g, t, input).Ok? <==>
      match NextKey(f, t, input)
      case None => true
      case Some(key) => input.choice.Key() == key && HasRoom(g, t.edgeCounts, key)
  {
    TunedRunIsCodingRun(f, g, s, log, t);
    CodingRunGoesOn(f, s, log, t, input);
    RefinementGoesOn(f.Graph(), g, t, input, NextKey(f, t, input));
  }

  lemma RefinementGoesOn(base: GraphSpec, g: GraphSpec, t: Snapshot, input: StepInput, next: Option<EdgeKey>)
    requires WellFormed(base) && Refines(base, g)
    requires t.currentNode in base.terminals <==> next == None
    requires Step(base, t, input).Ok? <==> next in {None, Some(input.choice.Key())}
    ensures Step(g, t, input).Ok? <==>
      match next
      case None => true
      case Some(key) => input.choice.Key() == key && HasRoom(g, t.edgeCounts, key)
  {
    RefinedStep(base, g, t, input);
  }

  // ----- Lowered caps create dead ends -----

  /** Some choice of the controller is accepted after this result. */
  ghost predicate CanGoOn(g: GraphSpec, t: Snapshot, input: StepInput) {
    exists choice :: Step(g, t, input.(choice := choice)).Ok?
  }

  /** An obeying run of the tuned graph is here, with budget left, and this is what its node returns. */
  predicate Meets(f: Family, g: GraphSpec, s: Snapshot, log: seq<StepInput>, t: Snapshot, input: StepInput) {
    && TunedRun(f, g, s, log) == Some(t)
    && t.status == Running && BudgetViolations(t, KindOf(t.currentNode)) == []
    && Obeys(t.currentNode, ControlOf(t.data), DeltaOf(input.result.delta))
  }

  /** Within its budget an obeying run of the tuned graph can always take its next step. */
  ghost predicate NeverStops(f: Family, g: GraphSpec, s: Snapshot) {
    forall log, t, input | Meets(f, g, s, log, t, input) :: CanGoOn(g, t, input)
  }

  /** The search has lowered no cap. */
  predicate CapsKept(base: GraphSpec, g: GraphSpec) {
    && |g.edges| == |base.edges|
    && forall i | 0 <= i < |g.edges| :: g.edges[i].maxTraversals == base.edges[i].maxTraversals
  }

  /**
   Progress survives tuning if and only if no cap is lowered: not one of the caps of the
   coding graph, wherever it is, can be lowered without some run coming to a dead end.
   */
  lemma TunedRunsNeverStopIff(f: Family, g: GraphSpec, task: string, budget: Budget, runId: string)
    requires f.Proper() && Refines(f.Graph(), g) && Roomy(f, budget)
    ensures NeverStops(f, g, NewRun(g, task, budget, runId, map[])) <==> CapsKept(f.Graph(), g)
  {
    var s := NewRun(g, task, budget, runId, map[]);
    assert s == NewRun(f.Graph(), task, budget, runId, map[]);
    if CapsKept(f.Graph(), g) {
      KeptCapsNeverStop(f, g, s);
    } else {
      LoweredCapsStopRuns(f, g, task, budget, runId);
      var gate, log, t, k :| CompletingRunStops(f, g, s, gate, log, t, k);
      StopsMeans(f, g, s, log, k);
    }
  }

  // ----- Caps that are kept -----

  lemma KeptCapsHaveRoom(base: GraphSpec, g: GraphSpec, counts: map<EdgeKey, nat>, key: EdgeKey)
    requires Refines(base, g) && CapsKept(base, g) && HasRoom(base, counts, key)
    ensures HasRoom(g, counts, key)
  {
    var i :| 0 <= i < |base.edges| && base.edges[i].Key() == key && Count(counts, key) < base.edges[i].maxTraversals;
    assert EdgeRefines(base.edges[i], g.edges[i]);
    assert g.edges[i].Key() == key && Count(counts, key) < g.edges[i].maxTraversals;
  }

  lemma KeptCapsStep(base: GraphSpec, g: GraphSpec, t: Snapshot, input: StepInput)
    requires WellFormed(base) && Refines(base, g) && CapsKept(base, g) && Step(base, t, input).Ok?
    ensures Step(g, t, input).Ok?
  {
    RefinedStep(base, g, t, input);
    RefinesSelf(base);
    RefinedStep(base, base, t, input);
    if t.currentNode !in base.terminals {
      KeptCapsHaveRoom(base, g, t.edgeCounts, input.choice.Key());
    }
  }

  /** With its caps kept a tuned graph can go on from any start, whatever its other changes are. */
  lemma KeptCapsNeverStop(f: Family, g: GraphSpec, s: Snapshot)
    requires f.Proper() && Refines(f.Graph(), g) && CapsKept(f.Graph(), g)
    ensures NeverStops(f, g, s)
  {
    forall log, t, input | Meets(f, g, s, log, t, input)
      ensures CanGoOn(g, t, input)
    {
      TunedRunIsCodingRun(f, g, s, log, t);
      var choice := CodingRunCanGoOn(f, s, log, t, input);
      KeptCapsStep(f.Graph(), g, t, input.(choice := choice));
    }
  }

  lemma CodingRunCanGoOn(f: Family, s: Snapshot, log: seq<StepInput>, t: Snapshot, input: StepInput)
    returns (choice: EdgeSpec)
    requires ObeyingRun(f, s, log) == Some(t)
    requires t.status == Running && BudgetViolations(t, KindOf(t.currentNode)) == []
    requires Obeys(t.currentNode, ControlOf(t.data), DeltaOf(input.result.delta))
    ensures Step(f.Graph(), t, input.(choice := choice)).Ok?
  {
    RunOneCandidate(f, s, log, t, input);
    choice := if t.currentNode in {Finish, Abort} then REVIEW_FINISH
              else NextEdge(f, t.currentNode, ControlOf(MergeFields(t.data, input.result.delta)));
    NeverStuck(f, s, log, t, input.(choice := choice));
  }

  // ----- Caps that are lowered -----

  /** After this log, with this next result, no choice is accepted in the tuned graph. */
  ghost predicate StopsAfter(f: Family, g: GraphSpec, s: Snapshot, log: seq<StepInput>, input: StepInput) {
    match TunedRun(f, g, s, log)
    case Some(before) => Meets(f, g, s, log, before, input) && !CanGoOn(g, before, input)
    case None => false
  }

  ghost predicate Stops(f: Family, g: GraphSpec, s: Snapshot, log: seq<StepInput>, k: nat) {
    k < |log| && StopsAfter(f, g, s, log[..k], log[k])
  }

  /** A run that the coding graph completes comes to a dead end in the tuned graph. */
  ghost predicate CompletingRunStops(f: Family, g: GraphSpec, s: Snapshot, gate: NodeId, log: seq<StepInput>,
                                     t: Snapshot, k: nat) {
    CompletesUsing(f, gate, s, log, t) && Stops(f, g, s, log, k)
  }

  lemma StopsMeans(f: Family, g: GraphSpec, s: Snapshot, log: seq<StepInput>, k: nat)
    requires Stops(f, g, s, log, k)
    ensures !NeverStops(f, g, s)
  {
    var before := TunedRun(f, g, s, log[..k]).value;
    assert Meets(f, g, s, log[..k], before, log[k]);
  }

  /** A history of the coding graph that is none of the tuned graph comes to a dead end there. */
  lemma {:induction false} FollowsSoFar(f: Family, g: GraphSpec, s: Snapshot, log: seq<StepInput>, t: Snapshot)
    returns (k: nat)
    requires ObeyingRun(f, s, log) == Some(t)
    requires Refines(f.Graph(), g) && Replay(g, s, log).Err?
    ensures Stops(f, g, s, log, k)
    decreases |log|
  {
    var shorter, input, before := ObeysLast(f, s, log, t);
    if Replay(g, s, shorter).Ok? {
      k := |shorter|;
      StopsAtLast(f, g, s, log, shorter, input, before);
    } else {
      k := FollowsSoFar(f, g, s, shorter, before);
      StopsInLonger(f, g, s, log, k);
    }
  }

  lemma StopsInLonger(f: Family, g: GraphSpec, s: Snapshot, log: seq<StepInput>, k: nat)
    requires log != [] && Stops(f, g, s, log[..|log| - 1], k)
    ensures Stops(f, g, s, log, k)
  {
    CutOfCut(log, k);
    SameStop(f, g, s, log[..|log| - 1][..k], log[..|log| - 1][k], log[..k], log[k]);
  }

  lemma SameStop(f: Family, g: GraphSpec, s: Snapshot, a: seq<StepInput>, x: StepInput, b: seq<StepInput>, y: StepInput)
    requires StopsAfter(f, g, s, a, x) && a == b && x == y
    ensures StopsAfter(f, g, s, b, y)
  {
  }

  lemma StopsAtLast(f: Family, g: GraphSpec, s: Snapshot, log: seq<StepInput>, shorter: seq<StepInput>,
                    input: StepInput, before: Snapshot)
    requires log == shorter + [input] && ObeyingRun(f, s, shorter) == Some(before)
    requires Step(f.Graph(), before, input).Ok?
             && Obeys(before.currentNode, ControlOf(before.data), DeltaOf(input.result.delta))
    requires Refines(f.Graph(), g) && Replay(g, s, log).Err? && Replay(g, s, shorter).Ok?
    ensures Stops(f, g, s, log, |log| - 1)
  {
    TunedAgain(f, g, s, shorter, before);
    ReplayExtends(g, s, shorter, input);
    RunOneCandidate(f, s, shorter, before, input);
    StepIsReady(f, before, input);
    assert Meets(f, g, s, shorter, before, input);
    DeadEnd(f, g, s, shorter, before, input);
    assert log[..|log| - 1] == shorter;
  }

  lemma StepIsReady(f: Family, t: Snapshot, input: StepInput)
    requires Step(f.Graph(), t, input).Ok? && t.currentNode in NODE_IDS
    ensures t.status == Running && BudgetViolations(t, KindOf(t.currentNode)) == []
  {
  }

  /** Where the tuned graph refuses the one edge the coding graph takes, it refuses all. */
  lemma DeadEnd(f: Family, g: GraphSpec, s: Snapshot, log: seq<StepInput>, t: Snapshot, input: StepInput)
    requires Meets(f, g, s, log, t, input) && Step(f.Graph(), t, input).Ok? && Step(g, t, input).Err?
    ensures !CanGoOn(g, t, input)
  {
    TunedRunIsCodingRun(f, g, s, log, t);
    CodingRunGoesOn(f, s, log, t, input);
    forall choice
      ensures Step(g, t, input.(choice := choice)).Err?
    {
      RefusedAnyway(f, g, s, log, t, input, choice);
    }
  }

  lemma RefusedAnyway(f: Family, g: GraphSpec, s: Snapshot, log: seq<StepInput>, t: Snapshot, input: StepInput,
                      choice: EdgeSpec)
    requires Meets(f, g, s, log, t, input) && Step(g, t, input).Err?
    requires NextKey(f, t, input) in {None, Some(input.choice.Key())}
    ensures Step(g, t, input.(choice := choice)).Err?
  {
    TunedRunGoesOnWhileRoom(f, g, s, log, t, input);
    TunedRunGoesOnWhileRoom(f, g, s, log, t, input.(choice := choice));
  }

  lemma TunedAgain(f: Family, g: GraphSpec, s: Snapshot, log: seq<StepInput>, t: Snapshot)
    requires ObeyingRun(f, s, log) == Some(t) && Refines(f.Graph(), g) && Replay(g, s, log).Ok?
    ensures TunedRun(f, g, s, log) == Some(t) && Replay(g, s, log) == Ok(t)
  {
    assert Starts(g, s);
    TunedReplay(f, g, s, log);
    ObeysInTuned(f, g, s, log);
  }

  lemma {:induction false} ObeysInTuned(f: Family, g: GraphSpec, s: Snapshot, log: seq<StepInput>)
    requires f.Proper() && Refines(f.Graph(), g) && Starts(g, s) && ObeysAll(f.Graph(), s, log) && Replay(g, s, log).Ok?
    ensures ObeysAll(g, s, log)
    decreases |log|
  {
    if log != [] {
      ObeysInTuned(f, g, s, log[..|log| - 1]);
      TunedReplay(f, g, s, log[..|log| - 1]);
    }
  }

  /** Which gate has to fail for an edge to be used up to its cap. */
  function GateFor(e: EdgeSpec): NodeId {
    if e.target == Diagnose && e.source in GATES then e.source else Review
  }

  /** Every edge that may be used more than once is used up by the run in which its gate fails. */
  lemma UsesUp(f: Family, e: EdgeSpec, t: Snapshot)
    requires e in f.From(e.source) && e.maxTraversals > 1 && Filled(f, GateFor(e), t)
    ensures C(t, e) == e.maxTraversals
  {
    match e.source
    case Apply => UsesUpAtGate(f, Apply, f.ApplyTests(), e, t);
    case Tests => UsesUpAtGate(f, Tests, f.TestsReview(), e, t);
    case Review => UsesUpAtGate(f, Review, REVIEW_FINISH, e, t);
    case _ => UsesUpElsewhere(f, e, t);
  }

  lemma UsesUpAtGate(f: Family, gate: NodeId, onward: EdgeSpec, e: EdgeSpec, t: Snapshot)
    requires gate in GATES
    requires onward == (match gate case Apply => f.ApplyTests() case Tests => f.TestsReview() case _ => REVIEW_FINISH)
    requires e in [onward, f.RepairFrom(gate), f.AbortFrom(gate)] && e.maxTraversals > 1 && Filled(f, GateFor(e), t)
    ensures C(t, e) == e.maxTraversals
  {
  }

  lemma UsesUpElsewhere(f: Family, e: EdgeSpec, t: Snapshot)
    requires e in f.From(e.source) && e.source !in GATES && e.maxTraversals > 1 && Filled(f, GateFor(e), t)
    ensures C(t, e) == e.maxTraversals
  {
  }

  lemma LoweredCapIsExceeded(f: Family, g: GraphSpec, i: nat, t: Snapshot)
    requires Refines(f.Graph(), g) && i < |g.edges| && g.edges[i].maxTraversals != f.Edges()[i].maxTraversals
    requires Filled(f, GateFor(f.Edges()[i]), t)
    ensures !WithinCaps(g, t.edgeCounts)
  {
    var e := f.Edges()[i];
    assert e == f.Graph().edges[i];
    assert EdgeRefines(e, g.edges[i]);
    EdgesOf(f, e);
    UsesUp(f, e, t);
    assert Count(t.edgeCounts, g.edges[i].Key()) > g.edges[i].maxTraversals;
  }

  lemma BeyondCapsStops(f: Family, g: GraphSpec, s: Snapshot, log: seq<StepInput>, t: Snapshot) returns (k: nat)
    requires ObeyingRun(f, s, log) == Some(t) && Refines(f.Graph(), g) && !WithinCaps(g, t.edgeCounts)
    ensures Stops(f, g, s, log, k)
  {
    if Replay(g, s, log).Ok? {
      TunedReplay(f, g, s, log);
      assert false;
    }
    k := FollowsSoFar(f, g, s, log, t);
  }

  /** Whichever cap is lowered, a run that the coding graph completes comes to a dead end in the tuned graph. */
  lemma LoweredCapsStopRuns(f: Family, g: GraphSpec, task: string, budget: Budget, runId: string)
    requires f.Proper() && Refines(f.Graph(), g) && Roomy(f, budget) && !CapsKept(f.Graph(), g)
    ensures exists gate, log, t, k ::
              CompletingRunStops(f, g, NewRun(f.Graph(), task, budget, runId, map[]), gate, log, t, k)
  {
    var s := NewRun(f.Graph(), task, budget, runId, map[]);
    var i :| 0 <= i < |g.edges| && g.edges[i].maxTraversals != f.Graph().edges[i].maxTraversals;
    var gate := GateFor(f.Edges()[i]);
    EveryGateCanFail(f, gate, task, budget, runId);
    var log, t :| CompletesUsing(f, gate, s, log, t);
    LoweredCapIsExceeded(f, g, i, t);
    var k := BeyondCapsStops(f, g, s, log, t);
    assert CompletingRunStops(f, g, s, gate, log, t, k);
  }
}
