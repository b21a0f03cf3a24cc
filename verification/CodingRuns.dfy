/**
 Safety of whole runs of the coding graph: which gates a completed run has passed, each with
 its own verdict and in which order.
 */
module CodingRuns {
  import opened Graphs
  import opened Runs
  import opened Walks
  import opened CodingGraph
  import opened Wrappers

  // ----- Gates -----

  predicate GatePassed(input: StepInput) {
    Look(input.result.delta, "verdict") == Some(PASS)
  }

  /** The steps just before `end` ran exactly these nodes, and each returned its own pass verdict. */
  predicate PassedBefore(log: seq<StepInput>, nodes: seq<NodeId>, end: int, gates: seq<NodeId>) {
    && |gates| <= end <= |log| == |nodes|
    && forall j | 0 <= j < |gates| :: PassedAt(log, nodes, end - |gates| + j, gates[j])
  }

  predicate PassedAt(log: seq<StepInput>, nodes: seq<NodeId>, i: int, gate: NodeId)
    requires |log| == |nodes|
  {
    0 <= i < |log| && nodes[i] == gate && GatePassed(log[i])
  }

  /** The gates a run has just passed, by where it stands. */
  function GatesBehind(n: NodeId): seq<NodeId> {
    match n
    case Tests => [Apply]
    case Review => [Apply, Tests]
    case Finish => [Apply, Tests, Review]
    case _ => []
  }

  /** What was passed stays passed, and a further passed gate extends it. */
  lemma PassingMore(log: seq<StepInput>, nodes: seq<NodeId>, gates: seq<NodeId>, input: StepInput, n: NodeId)
    requires PassedBefore(log, nodes, |log|, gates)
    ensures PassedBefore(log + [input], nodes + [n], |log|, gates)
    ensures GatePassed(input) ==> PassedBefore(log + [input], nodes + [n], |log| + 1, gates + [n])
  {
    forall j | 0 <= j < |gates|
      ensures PassedAt(log + [input], nodes + [n], |log| - |gates| + j, gates[j])
    {
      assert PassedAt(log, nodes, |log| - |gates| + j, gates[j]);
    }
  }

  /** The step into a gated node came from the gate before it, and passed it. */
  lemma EntersThroughGate(f: Family, s: Snapshot, input: StepInput, t: Snapshot)
    requires Advances(f, s, t) && t.currentNode in {Tests, Review, Finish}
    requires Obeys(s.currentNode, ControlOf(s.data), DeltaOf(input.result.delta))
    requires ControlOf(t.data) == Updated(ControlOf(s.data), DeltaOf(input.result.delta))
    ensures GatePassed(input)
    ensures GatesBehind(t.currentNode) == GatesBehind(s.currentNode) + [s.currentNode]
  {
    match s.currentNode
    case Apply =>
    case Tests =>
    case Review =>
    case _ =>
  }

  lemma StepPassesGates(f: Family, s: Snapshot, log: seq<StepInput>, before: Snapshot, input: StepInput, t: Snapshot)
    requires ObeyingRun(f, s, log) == Some(before)
    requires Obeys(before.currentNode, ControlOf(before.data), DeltaOf(input.result.delta))
    requires Step(f.Graph(), before, input) == Ok(t)
    ensures t.status == Running && t.currentNode in {Tests, Review, Finish} ==>
      && GatePassed(input)
      && GatesBehind(t.currentNode) == GatesBehind(before.currentNode) + [before.currentNode]
  {
    var _ := StepShape(f.Graph(), before, input, t);
    RunIsCoherent(f, s, log, before);
    if before.currentNode !in {Finish, Abort} {
      StepTakesTheEdge(f, before, input, t);
      ObeyedControl(f, before, input.result.delta);
      if t.currentNode in {Tests, Review, Finish} {
        EntersThroughGate(f, before, input, t);
      }
    }
  }

  /** What a run has passed on the way to where it stands. */
  predicate GatesKept(log: seq<StepInput>, s: Snapshot) {
    && |log| == |s.completedNodes|
    && (s.status == Running ==> PassedBefore(log, s.completedNodes, |log|, GatesBehind(s.currentNode)))
    && (s.status == Completed ==>
          && PassedBefore(log, s.completedNodes, |log| - 1, [Apply, Tests, Review])
          && s.completedNodes[|log| - 1] == Finish)
  }

  lemma StepKeepsGates(log: seq<StepInput>, s: Snapshot, input: StepInput, t: Snapshot)
    requires GatesKept(log, s) && s.status == Running
    requires t.completedNodes == s.completedNodes + [s.currentNode]
    requires t.status == Running && t.currentNode in {Tests, Review, Finish} ==>
      GatePassed(input) && GatesBehind(t.currentNode) == GatesBehind(s.currentNode) + [s.currentNode]
    requires t.status == Completed ==> s.currentNode == Finish
    ensures GatesKept(log + [input], t)
  {
    PassingMore(log, s.completedNodes, GatesBehind(s.currentNode), input, s.currentNode);
  }

  lemma {:induction false} RunPassesGates(f: Family, s: Snapshot, log: seq<StepInput>, t: Snapshot)
    requires ObeyingRun(f, s, log) == Some(t)
    ensures GatesKept(log, t)
    decreases |log|
  {
    if log != [] {
      var shorter, input, before := ObeysLast(f, s, log, t);
      RunPassesGates(f, s, shorter, before);
      StepPassesGates(f, s, shorter, before, input, t);
      var _ := StepShape(f.Graph(), before, input, t);
      StepKeepsGates(shorter, before, input, t);
    }
  }

  lemma ThreeGates(log: seq<StepInput>, nodes: seq<NodeId>, end: int)
    requires PassedBefore(log, nodes, end, [Apply, Tests, Review])
    ensures 3 <= end <= |log| == |nodes|
    ensures PassedAt(log, nodes, end - 3, Apply)
    ensures PassedAt(log, nodes, end - 2, Tests)
    ensures PassedAt(log, nodes, end - 1, Review)
  {
    var gates := [Apply, Tests, Review];
    assert gates[0] == Apply && gates[1] == Tests && gates[2] == Review;
  }

  /**
   Gate safety: every completed run ends apply, tests, review, finish, each of the three
   gates with its own pass verdict. No patch can come after the tests that passed.
   */
  lemma CompletedRunsPassedEveryGate(f: Family, s: Snapshot, log: seq<StepInput>, t: Snapshot)
    requires ObeyingRun(f, s, log) == Some(t)
    requires t.status == Completed
    ensures |log| == |t.completedNodes| >= 4
    ensures PassedAt(log, t.completedNodes, |log| - 4, Apply)
    ensures PassedAt(log, t.completedNodes, |log| - 3, Tests)
    ensures PassedAt(log, t.completedNodes, |log| - 2, Review)
    ensures t.completedNodes[|log| - 1] == Finish
  {
    RunPassesGates(f, s, log, t);
    ThreeGates(log, t.completedNodes, |log| - 1);
  }
}
