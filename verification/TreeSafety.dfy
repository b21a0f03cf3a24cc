/**
 Which tree a completed coding run exports. The tests, the review and the export each look
 at the worktree through its fingerprint, while others may write it at any time; the
 fingerprint the tests passed on travels to the review through the run's data.
 */
module TreeSafety {
  import opened Values
  import opened Conditions
  import opened Graphs
  import opened Runs
  import opened Walks
  import opened CodingGraph
  import opened CodingRuns
  import opened Ledger
  import opened Durability
  import opened Wrappers

  /** What a node saw of the worktree: when it started looking and when it was done. */
  datatype Sight = Sight(start: Tree, end: Tree)

  type Fingerprint = Tree -> string

  /** Fingerprints tell trees apart, and are never empty. */
  ghost predicate TellsApart(fingerprint: Fingerprint) {
    (forall t, u :: fingerprint(t) == fingerprint(u) ==> t == u) && (forall t :: fingerprint(t) != "")
  }

  /** The fingerprint in the test report of a run's data, or the null value. */
  function TestedIn(data: Fields): Value {
    match Get(data, "test_report")
    case Dict(report) => Get(report, "workspace_fingerprint")
    case _ => Nil
  }

  /**
   What passing says of the worktree, in repository mode. Tests pass only if the tree is the
   same after them, and report its fingerprint; a review passes only if the fingerprint it
   finds reported, if any, is that of the tree it sees.
   */
  predicate Honest(fingerprint: Fingerprint, s: Snapshot, result: NodeResult, sight: Sight) {
    match s.currentNode
    case Tests =>
      Passes(result) ==>
        && sight.start == sight.end
        && "test_report" in result.delta && result.delta["test_report"].Dict?
        && "workspace_fingerprint" in result.delta["test_report"].fields
        && result.delta["test_report"].fields["workspace_fingerprint"] == Str(fingerprint(sight.end))
    case Review =>
      Passes(result) && Truthy(TestedIn(s.data)) ==> TestedIn(s.data) == Str(fingerprint(sight.start))
    case _ => true
  }

  predicate HonestAt(fingerprint: Fingerprint, g: GraphSpec, s: Snapshot, log: seq<StepInput>, sights: seq<Sight>,
                     i: nat)
    requires i < |log| == |sights|
  {
    match Replay(g, s, log[..i])
    case Ok(before) => Honest(fingerprint, before, log[i].result, sights[i])
    case Err(_) => false
  }

  predicate AllHonest(fingerprint: Fingerprint, g: GraphSpec, s: Snapshot, log: seq<StepInput>, sights: seq<Sight>) {
    |sights| == |log| && forall i | 0 <= i < |log| :: HonestAt(fingerprint, g, s, log, sights, i)
  }

  /** The fingerprint that passed tests report is the one the next node finds. */
  lemma ReportIsFound(data: Fields, delta: Fields)
    requires "test_report" in delta && delta["test_report"].Dict?
             && "workspace_fingerprint" in delta["test_report"].fields
    requires !delta["test_report"].fields["workspace_fingerprint"].Dict?
    ensures TestedIn(MergeFields(data, delta)) == delta["test_report"].fields["workspace_fingerprint"]
  {
    MergedKey(data, delta, "test_report");
    if "test_report" in data && data["test_report"].Dict? {
      MergedKey(data["test_report"].fields, delta["test_report"].fields, "workspace_fingerprint");
    }
  }

  lemma {:induction false} CompletesEachStep(g: GraphSpec, s: Snapshot, log: seq<StepInput>, t: Snapshot)
    requires Replay(g, s, log) == Ok(t) && Fresh(g, s)
    ensures |t.completedNodes| == |log|
    decreases |log|
  {
    if log != [] {
      var shorter, input, before := ReplayLast(g, s, log, t);
      StepAppends(g, before, input, t);
      CompletesEachStep(g, s, shorter, before);
    }
  }

  lemma {:induction false} CompletedSoFar(g: GraphSpec, s: Snapshot, log: seq<StepInput>, t: Snapshot, i: nat,
                                          u: Snapshot)
    requires Replay(g, s, log) == Ok(t) && Fresh(g, s) && i <= |log| && Replay(g, s, log[..i]) == Ok(u)
    ensures |t.completedNodes| == |log| && u.completedNodes == t.completedNodes[..i]
    decreases |log|
  {
    CompletesEachStep(g, s, log, t);
    if i == |log| {
      assert log[..i] == log;
    } else {
      var shorter, input, before := ReplayLast(g, s, log, t);
      StepAppends(g, before, input, t);
      CutOfCut(log, i);
      CompletedSoFar(g, s, shorter, before, i, u);
      PrefixOfMore(before.completedNodes, before.currentNode, i);
    }
  }

  lemma PrefixOfMore(nodes: seq<NodeId>, n: NodeId, i: nat)
    requires i <= |nodes|
    ensures (nodes + [n])[..i] == nodes[..i]
  {
  }

  /** A run has been where its log began, with as many of its nodes completed. */
  lemma PrefixReplays(g: GraphSpec, s: Snapshot, log: seq<StepInput>, t: Snapshot, i: nat)
    requires Replay(g, s, log) == Ok(t) && Fresh(g, s) && i <= |log|
    ensures |t.completedNodes| == |log|
    ensures Replay(g, s, log[..i]).Ok? && Replay(g, s, log[..i]).value.completedNodes == t.completedNodes[..i]
  {
    ReplayPrefix(g, s, log, i);
    CompletedSoFar(g, s, log, t, i, Replay(g, s, log[..i]).value);
  }

  /** The states a run was in before and after its i-th step, and the node it ran there. */
  lemma StateAt(g: GraphSpec, s: Snapshot, log: seq<StepInput>, t: Snapshot, i: nat)
    returns (before: Snapshot, after: Snapshot)
    requires Replay(g, s, log) == Ok(t) && Fresh(g, s) && i < |log|
    ensures Replay(g, s, log[..i]) == Ok(before) && Replay(g, s, log[..i + 1]) == Ok(after)
    ensures |t.completedNodes| == |log| && before.currentNode == t.completedNodes[i]
    ensures after.data == MergeFields(before.data, log[i].result.delta)
  {
    ReplayPrefix(g, s, log, i);
    before := Replay(g, s, log[..i]).value;
    after := StepAt(g, s, log, i, before);
    StepAppends(g, before, log[i], after);
    CompletedSoFar(g, s, log, t, i, before);
    CompletedSoFar(g, s, log, t, i + 1, after);
    NodeAtEnd(t.completedNodes, before.completedNodes, before.currentNode, i);
  }

  lemma NodeAtEnd(all: seq<NodeId>, before: seq<NodeId>, n: NodeId, i: nat)
    requires i < |all| && before == all[..i] && before + [n] == all[..i + 1]
    ensures n == all[i]
  {
    assert (before + [n])[i] == n;
  }

  lemma StepAppends(g: GraphSpec, s: Snapshot, input: StepInput, t: Snapshot)
    requires Step(g, s, input) == Ok(t)
    ensures t.completedNodes == s.completedNodes + [s.currentNode]
    ensures t.data == MergeFields(s.data, input.result.delta)
  {
    var _ := StepShape(g, s, input, t);
  }

  /** The last but one of n steps saw the tree that the step before it saw from its start to its end. */
  predicate ReviewedIsTested(sights: seq<Sight>, n: nat) {
    |sights| == n >= 4 && sights[n - 3].start == sights[n - 3].end == sights[n - 2].start
  }

  /**
   Whoever else writes the worktree, and whenever: a completed run's review saw the very tree
   its tests passed on.
   */
  lemma ReviewedTreeIsTestedTree(f: Family, fingerprint: Fingerprint, s: Snapshot, log: seq<StepInput>,
                                 sights: seq<Sight>, t: Snapshot)
    requires ObeyingRun(f, s, log) == Some(t) && t.status == Completed
    requires TellsApart(fingerprint) && AllHonest(fingerprint, f.Graph(), s, log, sights)
    ensures ReviewedIsTested(sights, |log|)
  {
    CompletedRunsPassedEveryGate(f, s, log, t);
    var n := |log|;
    TestsThenReview(fingerprint, f.Graph(), s, log, sights, t, n - 3);
  }

  lemma TestsThenReview(fingerprint: Fingerprint, g: GraphSpec, s: Snapshot, log: seq<StepInput>, sights: seq<Sight>,
                        t: Snapshot, i: nat)
    requires Replay(g, s, log) == Ok(t) && Fresh(g, s) && i + 1 < |log| == |t.completedNodes|
    requires t.completedNodes[i] == Tests && t.completedNodes[i + 1] == Review
    requires GatePassed(log[i]) && GatePassed(log[i + 1])
    requires TellsApart(fingerprint) && AllHonest(fingerprint, g, s, log, sights)
    ensures sights[i].start == sights[i].end == sights[i + 1].start
  {
    var before, between := StateAt(g, s, log, t, i);
    var again, _ := StateAt(g, s, log, t, i + 1);
    assert HonestAt(fingerprint, g, s, log, sights, i) && HonestAt(fingerprint, g, s, log, sights, i + 1);
    TestsReport(fingerprint, before, log[i].result, sights[i], between);
    ReviewSees(fingerprint, between, log[i + 1].result, sights[i + 1], sights[i].end);
  }

  lemma TestsReport(fingerprint: Fingerprint, s: Snapshot, result: NodeResult, sight: Sight, t: Snapshot)
    requires s.currentNode == Tests && Passes(result) && Honest(fingerprint, s, result, sight)
    requires t.data == MergeFields(s.data, result.delta)
    ensures sight.start == sight.end && TestedIn(t.data) == Str(fingerprint(sight.end))
  {
    ReportIsFound(s.data, result.delta);
  }

  lemma ReviewSees(fingerprint: Fingerprint, s: Snapshot, result: NodeResult, sight: Sight, tested: Tree)
    requires s.currentNode == Review && Passes(result) && Honest(fingerprint, s, result, sight)
    requires TellsApart(fingerprint) && TestedIn(s.data) == Str(fingerprint(tested))
    ensures sight.start == tested
  {
    assert fingerprint(tested) != "";
  }

  // ----- When nobody else writes -----

  /**
   The sights of a run are those of the trees at its checkpoints. The tests alone may start
   from another tree: one that an attempt at them left when it died.
   */
  predicate Watches(nodes: seq<NodeId>, sights: seq<Sight>, trees: seq<Tree>) {
    && |sights| == |nodes| && |trees| == |nodes| + 1
    && forall i | 0 <= i < |nodes| ::
         sights[i].end == trees[i + 1] && (nodes[i] != Tests ==> sights[i].start == trees[i])
  }

  /** What the last apply step of a completed run made of the tree it started from. */
  predicate Patched(cfg: Config, s: Snapshot, before: Tree, after: Tree, spoilt: bool) {
    match cfg.ProposalIn(s.data)
    case None => false
    case Some(p) =>
      if p.patch == "" then after == before
      else Forward(cfg.git, p.patch, before) && !spoilt ==> after == cfg.git.apply(p.patch, before)
  }

  /**
   The export, the review and the tests from their start on saw the last tree; and if the tests
   started from the tree at the checkpoint before them, that is the last one.
   */
  predicate SeesLast(sights: seq<Sight>, trees: seq<Tree>, n: nat) {
    && 4 <= n == |sights| && |trees| == n + 1
    && sights[n - 1].start == sights[n - 2].start == sights[n - 3].start == sights[n - 3].end == trees[n]
    && (sights[n - 3].start == trees[n - 3] ==> trees[n] == trees[n - 3])
  }

  /** The fourth step from the end made its tree by the patch it was given. */
  predicate PatchedLast(cfg: Config, s: Snapshot, log: seq<StepInput>, trees: seq<Tree>, spoils: seq<bool>) {
    4 <= |log| == |spoils| && |trees| == |log| + 1 && PatchedAt(cfg, s, log, trees, spoils, |log| - 4)
  }

  predicate PatchedAt(cfg: Config, s: Snapshot, log: seq<StepInput>, trees: seq<Tree>, spoils: seq<bool>, i: nat)
    requires i < |log| == |spoils| && |trees| == |log| + 1
  {
    match Replay(cfg.graph, s, log[..i])
    case Ok(before) => Patched(cfg, before, trees[i], trees[i + 1], spoils[i])
    case Err(_) => false
  }

  /**
   When nobody else writes the worktree, a completed run exports the very tree that its tests
   passed on and its review saw; if the tests started from the tree at the checkpoint before
   them, that is this tree.
   */
  lemma ExportedTreeIsTestedTree(f: Family, fingerprint: Fingerprint, cfg: Config, s: Snapshot, log: seq<StepInput>,
                                 sights: seq<Sight>, t: Snapshot, trees: seq<Tree>, spoils: seq<bool>)
    requires cfg.graph == f.Graph() && ObeyingRun(f, s, log) == Some(t) && t.status == Completed
    requires TellsApart(fingerprint) && AllHonest(fingerprint, f.Graph(), s, log, sights)
    requires Effects(cfg, s, log, trees, spoils) && Watches(t.completedNodes, sights, trees)
    ensures SeesLast(sights, trees, |log|)
  {
    CompletedRunsPassedEveryGate(f, s, log, t);
    ReviewedTreeIsTestedTree(f, fingerprint, s, log, sights, t);
    LastTreesAgree(cfg, s, log, sights, t, trees, spoils);
    SeenLast(sights, trees, |log|);
  }

  /** And the tree at that checkpoint is what the last apply step made by its patch. */
  lemma LastApplyMadeTheTree(f: Family, cfg: Config, s: Snapshot, log: seq<StepInput>, t: Snapshot, trees: seq<Tree>,
                             spoils: seq<bool>)
    requires cfg.graph == f.Graph() && ObeyingRun(f, s, log) == Some(t) && t.status == Completed
    requires Effects(cfg, s, log, trees, spoils)
    ensures PatchedLast(cfg, s, log, trees, spoils)
  {
    CompletedRunsPassedEveryGate(f, s, log, t);
    PassedApplyPatches(cfg, s, log, t, trees, spoils, |log| - 4);
  }

  lemma SeenLast(sights: seq<Sight>, trees: seq<Tree>, n: nat)
    requires ReviewedIsTested(sights, n) && ExportedIsReviewed(sights, trees, n)
    ensures SeesLast(sights, trees, n)
  {
  }

  /** The last two of n steps saw the last tree, and so did the step before them at its end. */
  predicate ExportedIsReviewed(sights: seq<Sight>, trees: seq<Tree>, n: nat) {
    && |sights| == n >= 3 && |trees| == n + 1
    && trees[n] == sights[n - 1].start == sights[n - 2].start == sights[n - 3].end
  }

  lemma LastTreesAgree(cfg: Config, s: Snapshot, log: seq<StepInput>, sights: seq<Sight>, t: Snapshot, trees: seq<Tree>,
                       spoils: seq<bool>)
    requires Replay(cfg.graph, s, log) == Ok(t) && Fresh(cfg.graph, s) && Effects(cfg, s, log, trees, spoils)
    requires 3 <= |log| == |t.completedNodes| && Watches(t.completedNodes, sights, trees)
    requires t.completedNodes[|log| - 1] == Finish && t.completedNodes[|log| - 2] == Review
    ensures ExportedIsReviewed(sights, trees, |log|)
  {
    LastTwoLeaveTree(cfg, s, log, t, trees, spoils);
  }

  lemma PassedApplyPatches(cfg: Config, s: Snapshot, log: seq<StepInput>, t: Snapshot, trees: seq<Tree>,
                           spoils: seq<bool>, i: nat)
    requires Replay(cfg.graph, s, log) == Ok(t) && Fresh(cfg.graph, s) && Effects(cfg, s, log, trees, spoils)
    requires i < |log| == |t.completedNodes| && t.completedNodes[i] == Apply && GatePassed(log[i])
    ensures |trees| == |log| + 1 && |spoils| == |log| && PatchedAt(cfg, s, log, trees, spoils, i)
  {
    var before, _ := StateAt(cfg.graph, s, log, t, i);
    assert EffectAt(cfg, s, log, trees, spoils, i);
  }

  lemma LastTwoLeaveTree(cfg: Config, s: Snapshot, log: seq<StepInput>, t: Snapshot, trees: seq<Tree>,
                         spoils: seq<bool>)
    requires Replay(cfg.graph, s, log) == Ok(t) && Fresh(cfg.graph, s) && Effects(cfg, s, log, trees, spoils)
    requires 2 <= |log| == |t.completedNodes|
    requires t.completedNodes[|log| - 1] == Finish && t.completedNodes[|log| - 2] == Review
    ensures |trees| == |log| + 1 && trees[|log|] == trees[|log| - 1] == trees[|log| - 2]
  {
    LeavesTree(cfg, s, log, t, trees, spoils, |log| - 1);
    LeavesTree(cfg, s, log, t, trees, spoils, |log| - 2);
  }

  lemma LeavesTree(cfg: Config, s: Snapshot, log: seq<StepInput>, t: Snapshot, trees: seq<Tree>, spoils: seq<bool>,
                   i: nat)
    requires Replay(cfg.graph, s, log) == Ok(t) && Fresh(cfg.graph, s) && Effects(cfg, s, log, trees, spoils)
    requires i < |log| == |t.completedNodes| && t.completedNodes[i] !in {Apply, Tests}
    ensures |trees| == |log| + 1 && trees[i + 1] == trees[i]
  {
    var before, _ := StateAt(cfg.graph, s, log, t, i);
    assert EffectAt(cfg, s, log, trees, spoils, i);
  }

  // ----- When others write as well -----

  /** What happens to the worktree, in order: somebody writes it, or a step of the run looks at it. */
  datatype Moment = Write(tree: Tree) | Look(step: nat)

  function LastWrite(moments: seq<Moment>): Option<Tree> {
    if moments == [] then None
    else
      match moments[|moments| - 1]
      case Write(tree) => Some(tree)
      case Look(_) => LastWrite(moments[..|moments| - 1])
  }

  /** The tree after some moments. */
  function TreeAfter(start: Tree, moments: seq<Moment>): Tree {
    match LastWrite(moments)
    case Some(tree) => tree
    case None => start
  }

  /** The i-th step looked at these two moments, and saw what was there. */
  predicate Looks(start: Tree, moments: seq<Moment>, sights: seq<Sight>, i: nat, first: nat, last: nat) {
    && i < |sights| && first <= last < |moments| && moments[first] == Look(i) == moments[last]
    && sights[i] == Sight(TreeAfter(start, moments[..first]), TreeAfter(start, moments[..last]))
  }

  lemma {:induction false} WritesSince(start: Tree, moments: seq<Moment>, a: nat, b: nat)
    requires a <= b <= |moments|
    ensures TreeAfter(start, moments[..b]) == TreeAfter(TreeAfter(start, moments[..a]), moments[a..b])
    ensures LastWrite(moments[a..b]) == None <==> forall k | a <= k < b :: moments[k].Look?
    decreases b
  {
    if a < b {
      WritesSince(start, moments, a, b - 1);
      assert moments[..b][..b - 1] == moments[..b - 1];
      assert moments[a..b][..b - 1 - a] == moments[a..b - 1];
    } else {
      assert moments[a..b] == [];
    }
  }

  /**
   With any writers at any moments, a completed run exports the tree it tested and reviewed if
   and only if nobody wrote between the review's look and the export's, or the last one who did
   wrote that very tree.
   */
  lemma ExportAmongWriters(f: Family, fingerprint: Fingerprint, s: Snapshot, log: seq<StepInput>, sights: seq<Sight>,
                           t: Snapshot, start: Tree, moments: seq<Moment>, r: nat, r': nat, x: nat, x': nat)
    requires ObeyingRun(f, s, log) == Some(t) && t.status == Completed
    requires TellsApart(fingerprint) && AllHonest(fingerprint, f.Graph(), s, log, sights)
    requires |log| >= 4 && Looks(start, moments, sights, |log| - 2, r, r')
             && Looks(start, moments, sights, |log| - 1, x, x')
    requires r <= x
    ensures |sights| == |log|
    ensures var tested, exported := sights[|log| - 3].end, sights[|log| - 1].start;
            exported == tested <==>
              (forall k | r <= k < x :: moments[k].Look?) || LastWrite(moments[r..x]) == Some(tested)
  {
    ReviewedTreeIsTestedTree(f, fingerprint, s, log, sights, t);
    WritesSince(start, moments, r, x);
  }
}
