/**
 What holds of a coding run whatever befalls its processes: the gates, the costs and the
 worktree of a run, told of the store and the disk as any schedule of actions and deaths
 leaves them.
 */
module Outcomes {
  import opened Graphs
  import opened Runs
  import opened CodingGraph
  import opened CodingRuns
  import opened CodingCosts
  import opened Checkpoints
  import opened Durability
  import opened TreeSafety
  import opened Wrappers

  /** The operators of the run, in whatever process they ran, kept to their contracts. */
  predicate Obeying(f: Family, c: Chronicle) {
    f.Proper() && c.graph == f.Graph() && Starts(f.Graph(), c.created) && ObeysAll(f.Graph(), c.created, c.log)
  }

  /** Its steps cost no more than the family allows, and its tests, reviews and patches are those of one tree. */
  ghost predicate WentWell(f: Family, cfg: Config, last: System, c: Chronicle, stored: Snapshot) {
    && AtMost(CodingCosts.Spent(stored), MaxCost(f))
    && (stored.status == Completed ==> PassedLast(c.log, stored.completedNodes) && LeftAsTested(cfg, last, c))
  }

  /** The last steps passed the three gates and finished. */
  predicate PassedLast(log: seq<StepInput>, nodes: seq<NodeId>) {
    && |log| == |nodes| >= 4
    && PassedAt(log, nodes, |log| - 4, Apply)
    && PassedAt(log, nodes, |log| - 3, Tests)
    && PassedAt(log, nodes, |log| - 2, Review)
    && nodes[|log| - 1] == Finish
  }

  /** The last apply step made its tree by its patch, and the worktree is as the tests after it left it. */
  predicate LeftAsTested(cfg: Config, last: System, c: Chronicle) {
    var n := |c.log|;
    && PatchedLast(cfg, c.created, c.log, last.trees, last.spoils)
    && last.files.tree == last.trees[n] == last.trees[n - 1] == last.trees[n - 2]
  }

  lemma StoredIsReached(cfg: Config, w: System, actions: seq<Action>)
    requires WellFormed(cfg.graph) && Initial(cfg, w) && ActAll(cfg, w, actions).chronicle.Some?
    ensures var last := ActAll(cfg, w, actions);
            var c := last.chronicle.value;
            && Durability.Invariant(cfg, last) && c.graph == cfg.graph && c.Reached().Ok?
            && cfg.runId in last.tables.runs
            && last.tables.runs[cfg.runId] == Latest(c, c.Reached().value)
            && Effects(cfg, c.created, c.log, last.trees, last.spoils)
            && (c.Reached().value.status != Running ==>
                  last.files.tree == last.trees[|last.trees| - 1] && c.ending != Ending.Spent)
  {
    Durability.EveryScheduleKeepsInvariant(cfg, w, actions);
  }

  /**
   After any schedule of processes that run, raise and die: if the operators of the run kept to
   their contracts, then what the store has of it is within the cost bounds; and if it is
   completed there, its last steps passed apply, tests and review in order, the last apply step
   made its tree by its patch, and the worktree is still as the tests left it.
   */
  lemma RunsGoWell(f: Family, cfg: Config, w: System, actions: seq<Action>)
    requires WellFormed(cfg.graph) && Initial(cfg, w)
    requires var c := ActAll(cfg, w, actions).chronicle; c.Some? && Obeying(f, c.value)
    ensures var last := ActAll(cfg, w, actions);
            && cfg.runId in last.tables.runs
            && WentWell(f, cfg, last, last.chronicle.value, last.tables.runs[cfg.runId])
  {
    StoredIsReached(cfg, w, actions);
    var last := ActAll(cfg, w, actions);
    var c := last.chronicle.value;
    ReachedWell(f, cfg, last, c, c.Reached().value);
  }

  lemma ReachedWell(f: Family, cfg: Config, last: System, c: Chronicle, t: Snapshot)
    requires Obeying(f, c) && cfg.graph == c.graph && c.Reached() == Ok(t)
    requires Effects(cfg, c.created, c.log, last.trees, last.spoils)
    requires t.status != Running ==> last.files.tree == last.trees[|last.trees| - 1] && c.ending != Ending.Spent
    ensures WentWell(f, cfg, last, c, Latest(c, t))
  {
    RunsCostAtMost(f, c.created, c.log, t);
    SpendingStays(c, t);
    if t.status == Completed {
      CompletedWell(f, cfg, last, c, t);
    }
  }

  lemma CompletedWell(f: Family, cfg: Config, last: System, c: Chronicle, t: Snapshot)
    requires ObeyingRun(f, c.created, c.log) == Some(t) && t.status == Completed && cfg.graph == f.Graph()
    requires Effects(cfg, c.created, c.log, last.trees, last.spoils) && last.files.tree == last.trees[|last.trees| - 1]
    ensures PassedLast(c.log, t.completedNodes) && LeftAsTested(cfg, last, c)
  {
    CompletedRunsPassedEveryGate(f, c.created, c.log, t);
    LastApplyMadeTheTree(f, cfg, c.created, c.log, t, last.trees, last.spoils);
    LastTwoLeaveTree(cfg, c.created, c.log, t, last.trees, last.spoils);
  }

  /** A budget that is spent fails the run, and charges nothing. */
  lemma SpendingStays(c: Chronicle, t: Snapshot)
    ensures CodingCosts.Spent(Latest(c, t)) == CodingCosts.Spent(t)
    ensures Latest(c, t).status == Completed ==> Latest(c, t) == t
  {
  }

  /**
   And if the operators are honest in what they saw of the worktree, that is the very tree that
   the tests started from and passed on, that the review saw and that is exported.
   */
  lemma ExportedIsOnDisk(f: Family, cfg: Config, w: System, actions: seq<Action>, fingerprint: Fingerprint,
                         sights: seq<Sight>)
    requires WellFormed(cfg.graph) && Initial(cfg, w) && TellsApart(fingerprint)
    requires var c := ActAll(cfg, w, actions).chronicle;
             && c.Some? && Obeying(f, c.value) && c.value.Reached().Ok? && c.value.Reached().value.status == Completed
             && AllHonest(fingerprint, f.Graph(), c.value.created, c.value.log, sights)
             && Watches(c.value.Reached().value.completedNodes, sights, ActAll(cfg, w, actions).trees)
    ensures var last := ActAll(cfg, w, actions);
            var n := |last.chronicle.value.log|;
            && SeesLast(sights, last.trees, n)
            && last.files.tree == sights[n - 1].start == sights[n - 2].start == sights[n - 3].end == sights[n - 3].start
  {
    StoredIsReached(cfg, w, actions);
    var last := ActAll(cfg, w, actions);
    var c := last.chronicle.value;
    ExportedTreeIsTestedTree(f, fingerprint, cfg, c.created, c.log, sights, c.Reached().value, last.trees, last.spoils);
  }
}
