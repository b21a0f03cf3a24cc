/**
 The whole durable system: the run loop over the checkpoint store, and the patch ledger
 inside its apply step. Any process can die between any two durable actions, and another
 can take the run up again. What the worktree goes through is told exactly by the log.
 */
module Durability {
  import opened Values
  import opened Conditions
  import opened Graphs
  import opened Runs
  import opened Walks
  import opened Keys
  import opened RunStore
  import opened Checkpoints
  import opened Ledger
  import opened GraphRuntimes
  import opened Wrappers

  /** The patch a run is about to apply. */
  datatype Proposal = Proposal(patch: Patch, noChangesNeeded: bool)

  /** A run in repository mode; `text` stands for making a normalised patch text of a value. */
  datatype Config = Config(
    graph: GraphSpec, runId: string, git: Git, root: string, maxBytes: nat, text: Value -> Patch)
  {
    function ProposalIn(data: Fields): Option<Proposal> {
      match Get(data, "pending_patch")
      case Dict(fields) => Some(Proposal(text(Get(fields, "patch")), Truthy(Get(fields, "no_changes_needed"))))
      case _ => None
    }

    /** The call that the apply step makes in a state. */
    function CallIn(s: Snapshot): Option<Call> {
      match ProposalIn(s.data)
      case Some(p) => Some(Call(KeyOf(s), p.patch, p.noChangesNeeded, root, maxBytes))
      case None => None
    }
  }

  datatype Stage =
    | Turning
    | Working
    | Patching(call: Call, phase: Phase)
    | Returned(result: NodeResult, cached: bool)
    | Stepped(input: StepInput, next: Snapshot)
    | Ending

  datatype Process = Down | Up(state: Snapshot, stage: Stage)

  /**
   The system: two durable stores and at most one process. The rest is history, and no action
   depends on it: the chronicle, the tree at each checkpoint, and for each committed step and
   for the one at hand whether a rollback ran after its key was committed.
   */
  datatype System = System(
    tables: Tables, files: Files, process: Process, chronicle: Option<Chronicle>, trees: seq<Tree>,
    spoils: seq<bool>, spoilt: bool)

  datatype Action =
    | Enter(task: string, budget: Budget, initialData: Fields)
    | Begin
    | Scribble(tree: Tree)
    | Ledger(strike: Strike)
    | Return(result: NodeResult)
    | Transition(input: StepInput)
    | Commit
    | WriteEnd
    | Die

  predicate Passes(result: NodeResult) {
    "verdict" in result.delta && result.delta["verdict"] == Str("pass")
  }

  // ----- The actions -----

  /** A process takes the run up, creating it if need be; a run that is over is only handed back. */
  function DoEnter(cfg: Config, w: System, task: string, budget: Budget, initialData: Fields): System {
    if cfg.runId in w.tables.runs then
      var s := w.tables.runs[cfg.runId];
      if s.status == Running then w.(process := Up(s, Turning)) else w
    else
      var s := NewRun(cfg.graph, task, budget, cfg.runId, initialData);
      match Created(w.tables, s)
      case None => w
      case Some(tables) =>
        System(tables, w.files, Up(s, Turning), Some(Chronicle(cfg.graph, s, [], Open)), [w.files.tree], [], false)
  }

  /** The process is done, and the chronicle of the run ends. */
  function DoEnd(w: System, s: Snapshot, ending: Ending): System {
    w.(tables := Ended(w.tables, s), process := Down,
       chronicle := match w.chronicle
                    case Some(c) => Some(c.(ending := ending))
                    case None => None)
  }

  /** The budget is checked, the store is asked for a result, and the operator is started. */
  function DoBegin(cfg: Config, w: System, s: Snapshot): System {
    if Violations(cfg.graph, s) != [] then DoEnd(w, OverBudget(s, Violations(cfg.graph, s)), Spent)
    else if s.currentNode in cfg.graph.nodes && cfg.graph.nodes[s.currentNode].cacheable
        && KeyOf(s) in w.tables.results then
      w.(process := Up(s, Returned(w.tables.results[KeyOf(s)], true)))
    else if s.currentNode == Apply && cfg.CallIn(s).Some? then
      w.(process := Up(s, Patching(cfg.CallIn(s).value, Starting)))
    else w.(process := Up(s, Working))
  }

  /** The operator returns: apply passes only after its call succeeded, and may still fail then. */
  predicate MayReturn(s: Snapshot, stage: Stage, result: NodeResult) {
    match stage
    case Working => s.currentNode == Apply ==> !Passes(result)
    case Patching(_, Done(outcome)) => outcome.Refused? ==> !Passes(result)
    case _ => false
  }

  function DoCommit(cfg: Config, w: System, s: Snapshot, input: StepInput, next: Snapshot): System {
    System(Committed(w.tables, next, KeyOf(s), EntryOf(cfg.graph, s, input, next)),
           w.files,
           Up(next, if next.status == Running then Turning else Ending),
           if w.chronicle.Some? then Some(w.chronicle.value.(log := w.chronicle.value.log + [input])) else None,
           w.trees + [w.files.tree],
           w.spoils + [w.spoilt],
           false)
  }

  /** An action that is not possible leaves the system as it is. */
  function Act(cfg: Config, w: System, a: Action): System {
    match a
    case Die => w.(process := Down)
    case Enter(task, budget, initialData) =>
      if w.process.Down? then DoEnter(cfg, w, task, budget, initialData) else w
    case _ =>
      match w.process
      case Down => w
      case Up(s, stage) => ActUp(cfg, w, s, stage, a)
  }

  /** What a process in a stage of its loop can do. */
  function ActUp(cfg: Config, w: System, s: Snapshot, stage: Stage, a: Action): System {
    match (stage, a)
    case (Turning, Begin) => DoBegin(cfg, w, s)
    case (Working, Scribble(tree)) => if s.currentNode == Tests then w.(files := w.files.(tree := tree)) else w
    case (Patching(call, phase), Ledger(strike)) =>
      var (files, next) := Advance(cfg.git, call, w.files, phase, strike);
      w.(files := files, process := Up(s, Patching(call, next)),
         spoilt := w.spoilt || SpoilsAt(call.key, w.files, phase, strike))
    case (Working, Return(result)) =>
      if MayReturn(s, stage, result) then w.(process := Up(s, Returned(result, false))) else w
    case (Patching(_, _), Return(result)) =>
      if MayReturn(s, stage, result) then w.(process := Up(s, Returned(result, false))) else w
    case (Returned(result, cached), Transition(input)) =>
      if input.result != result || input.cached != cached then w
      else
        (match Step(cfg.graph, s, input)
         case Ok(next) => w.(process := Up(s, Stepped(input, next)))
         case Err(_) => w.(process := Down))
    case (Stepped(input, next), Commit) => DoCommit(cfg, w, s, input, next)
    case (Ending, WriteEnd) => DoEnd(w, s, Closed)
    case _ => w
  }

  function ActAll(cfg: Config, w: System, actions: seq<Action>): System {
    if actions == [] then w else Act(cfg, ActAll(cfg, w, actions[..|actions| - 1]), actions[|actions| - 1])
  }

  // ----- What a committed step did to the worktree -----

  /**
   A step is told exactly by its result. A passed apply step changed the tree by its patch,
   once, unless a rollback ran after its commit, and then not at all; a failed one did so or
   did nothing; tests may write what they like; nothing else touches the tree. For apply this
   is said of patches that go forward from the tree the step started at, and of the empty
   patch.
   */
  predicate Effect(cfg: Config, s: Snapshot, result: NodeResult, before: Tree, after: Tree, spoilt: bool) {
    if s.currentNode == Tests then true
    else if s.currentNode != Apply then after == before
    else
      match cfg.ProposalIn(s.data)
      case None => after == before && !Passes(result)
      case Some(p) =>
        if p.patch == "" then after == before
        else
          Forward(cfg.git, p.patch, before) ==>
            if Passes(result) then after == (if spoilt then before else cfg.git.apply(p.patch, before))
            else after in {before, cfg.git.apply(p.patch, before)}
  }

  /** The i-th step was answered by its operator and had that effect, from one checkpoint to the next. */
  predicate EffectAt(cfg: Config, created: Snapshot, log: seq<StepInput>, trees: seq<Tree>, spoils: seq<bool>, i: nat)
    requires i < |log| == |spoils| && |trees| == |log| + 1
  {
    !log[i].cached &&
    match Replay(cfg.graph, created, log[..i])
    case Ok(s) => Effect(cfg, s, log[i].result, trees[i], trees[i + 1], spoils[i])
    case Err(_) => false
  }

  predicate Effects(cfg: Config, created: Snapshot, log: seq<StepInput>, trees: seq<Tree>, spoils: seq<bool>) {
    && |trees| == |log| + 1 && |spoils| == |log|
    && forall i | 0 <= i < |log| :: EffectAt(cfg, created, log, trees, spoils, i)
  }

  // ----- The invariant -----

  function KeysIn(files: Files): set<StepKey> {
    files.intents.Keys + files.commits.Keys
  }

  /** Every key of the run in the ledger belongs to an apply step taken, or to the one at hand. */
  predicate LedgerPast(files: Files, s: Snapshot) {
    forall key | key in KeysIn(files) && key.runId == s.header.runId ::
      key == KeyOf(s) || key.inputs.attempt < Count(s.attempts, key.inputs.node)
  }

  /** What the worktree and the ledger show of the step at hand, taken up from the tree `before`. */
  predicate Pending(cfg: Config, s: Snapshot, files: Files, before: Tree, spoilt: bool) {
    if s.currentNode == Tests then KeyOf(s) !in KeysIn(files) && !spoilt
    else if s.currentNode == Apply && cfg.CallIn(s).Some? then
      && Settled(cfg.git, KeyOf(s), before, files, spoilt)
      && (KeyOf(s) in files.intents ==> files.intents[KeyOf(s)].patch == cfg.CallIn(s).value.patch)
    else KeyOf(s) !in KeysIn(files) && files.tree == before && !spoilt
  }

  /** What is known of a result that is not committed yet. */
  predicate Earned(cfg: Config, s: Snapshot, files: Files, result: NodeResult) {
    s.currentNode == Apply && Passes(result) ==>
      && cfg.CallIn(s).Some? && KeyOf(s) in files.commits
      && files.commits[KeyOf(s)].intent.patch == cfg.CallIn(s).value.patch
  }

  predicate StageOk(cfg: Config, s: Snapshot, files: Files, spoilt: bool, stage: Stage) {
    match stage
    case Patching(call, phase) =>
      s.currentNode == Apply && cfg.CallIn(s) == Some(call) && Agrees(cfg.git, KeyOf(s), files, call, phase, spoilt)
    case Returned(result, cached) => !cached && Earned(cfg, s, files, result)
    case Stepped(input, next) =>
      !input.cached && Earned(cfg, s, files, input.result) && Step(cfg.graph, s, input) == Ok(next)
    case Working => s.currentNode == Apply ==> cfg.CallIn(s) == None
    case _ => true
  }

  /** A process holds the stored state: a running one, or at the very end one that is over. */
  predicate ProcessOk(cfg: Config, process: Process, ending: Ending, s: Snapshot, files: Files, spoilt: bool) {
    match process
    case Down => true
    case Up(held, stage) =>
      && held == s && ending == Open
      && (stage.Ending? <==> s.status != Running)
      && StageOk(cfg, s, files, spoilt, stage)
  }

  /** The store keeps the chronicle, and the worktree went through what it tells. */
  ghost predicate Records(cfg: Config, t: Tables, c: Chronicle, trees: seq<Tree>, spoils: seq<bool>) {
    && Kept(t, c) && c.graph == cfg.graph && c.created.header.runId == cfg.runId
    && Effects(cfg, c.created, c.log, trees, spoils)
  }

  /** The ledger and the worktree as the next step will find them. */
  predicate Ready(cfg: Config, s: Snapshot, files: Files, before: Tree, spoilt: bool) {
    && LedgerPast(files, s)
    && if s.status == Running then Pending(cfg, s, files, before, spoilt) else files.tree == before
  }

  ghost predicate Invariant(cfg: Config, w: System) {
    match w.chronicle
    case None =>
      && w.process.Down? && Valid(w.tables) && cfg.runId !in w.tables.runs && NoResults(w.tables, cfg.runId)
      && NoKeys(w.files, cfg.runId)
    case Some(c) =>
      && Records(cfg, w.tables, c, w.trees, w.spoils)
      && Ready(cfg, c.Reached().value, w.files, w.trees[|w.trees| - 1], w.spoilt)
      && ProcessOk(cfg, w.process, c.ending, c.Reached().value, w.files, w.spoilt)
  }

  predicate NoKeys(files: Files, runId: string) {
    forall key | key in KeysIn(files) :: key.runId != runId
  }

  // ----- Every action keeps the invariant -----

  lemma EnterKeeps(cfg: Config, w: System, task: string, budget: Budget, initialData: Fields)
    requires WellFormed(cfg.graph) && Invariant(cfg, w) && w.process.Down?
    ensures Invariant(cfg, DoEnter(cfg, w, task, budget, initialData))
  {
    if w.chronicle == None {
      var s := NewRun(cfg.graph, task, budget, cfg.runId, initialData);
      NewRunsAreFresh(cfg.graph, task, budget, cfg.runId, initialData);
      CreatedIsKept(w.tables, cfg.graph, s);
    } else {
      var c := w.chronicle.value;
      SameHeader(c.graph, c.created, c.log, c.Reached().value);
    }
  }

  /** Where the loop goes on to a node: nothing but the stage changes. */
  lemma BeginKeeps(cfg: Config, w: System, c: Chronicle, s: Snapshot)
    requires Records(cfg, w.tables, c, w.trees, w.spoils) && c.ending == Open && c.Reached() == Ok(s)
             && s.status == Running
    requires w.process == Up(s, Turning) && Violations(cfg.graph, s) == []
    ensures DoBegin(cfg, w, s) == w.(process := DoBegin(cfg, w, s).process)
    ensures ProcessOk(cfg, DoBegin(cfg, w, s).process, Open, s, w.files, w.spoilt)
  {
    NeverCached(w.tables, c);
  }

  /** The terminal event closes the chronicle and touches nothing but the store. */
  lemma EndKeeps(cfg: Config, w: System, c: Chronicle, s: Snapshot, ending: Ending)
    requires w.chronicle == Some(c) && Records(cfg, w.tables, c, w.trees, w.spoils)
    requires c.ending == Open && c.Reached() == Ok(s) && ending != Open && Possible(c.(ending := ending))
    ensures var next := DoEnd(w, Latest(c.(ending := ending), s), ending);
            && next == System(next.tables, w.files, Down, Some(c.(ending := ending)), w.trees, w.spoils, w.spoilt)
            && Records(cfg, next.tables, c.(ending := ending), w.trees, w.spoils)
  {
    EndedIsKept(w.tables, c, s, ending);
  }

  /** A ledger action keeps what is pending, and agrees with where its call has come to. */
  lemma LedgerKeepsReady(cfg: Config, s: Snapshot, files: Files, before: Tree, spoilt: bool, call: Call, phase: Phase,
                         strike: Strike)
    requires Ready(cfg, s, files, before, spoilt) && s.status == Running
    requires StageOk(cfg, s, files, spoilt, Patching(call, phase))
    ensures var (after, next) := Advance(cfg.git, call, files, phase, strike);
            var now := spoilt || SpoilsAt(call.key, files, phase, strike);
            Ready(cfg, s, after, before, now) && StageOk(cfg, s, after, now, Patching(call, next))
  {
    AdvanceKeepsInvariant(cfg.git, KeyOf(s), before, files, call, phase, strike, spoilt);
    AdvanceTouchesOwnKey(cfg.git, call, files, phase, strike);
  }

  lemma AdvanceTouchesOwnKey(git: Git, call: Call, files: Files, phase: Phase, strike: Strike)
    ensures var (after, _) := Advance(git, call, files, phase, strike);
            && KeysIn(after) <= KeysIn(files) + {call.key}
            && (call.key in after.intents
                && (call.key in files.intents ==> files.intents[call.key].patch == call.patch) ==>
                  after.intents[call.key].patch == call.patch)
  {
  }

  lemma ReturnKeeps(cfg: Config, s: Snapshot, files: Files, spoilt: bool, stage: Stage, result: NodeResult)
    requires StageOk(cfg, s, files, spoilt, stage) && MayReturn(s, stage, result)
    ensures StageOk(cfg, s, files, spoilt, Returned(result, false))
  {
  }

  // ----- Committing a step -----

  /** What the pending step has come to is what the log will tell of it. */
  lemma EffectOfStep(cfg: Config, s: Snapshot, files: Files, before: Tree, spoilt: bool, result: NodeResult)
    requires Pending(cfg, s, files, before, spoilt) && Earned(cfg, s, files, result)
    ensures Effect(cfg, s, result, before, files.tree, spoilt)
  {
  }

  /** After a commit the ledger knows nothing of the next step. */
  lemma ReadyAfterStep(cfg: Config, s: Snapshot, files: Files, input: StepInput, next: Snapshot)
    requires LedgerPast(files, s) && Step(cfg.graph, s, input) == Ok(next)
    ensures Ready(cfg, next, files, files.tree, false)
  {
    var _ := StepShape(cfg.graph, s, input, next);
    forall key | key in KeysIn(files) && key.runId == next.header.runId
      ensures key.inputs.attempt < Count(next.attempts, key.inputs.node)
    {
      assert key == KeyOf(s) || key.inputs.attempt < Count(s.attempts, key.inputs.node);
    }
    AllPastIsReady(cfg, next, files);
  }

  lemma AllPastIsReady(cfg: Config, s: Snapshot, files: Files)
    requires forall key | key in KeysIn(files) && key.runId == s.header.runId ::
               key.inputs.attempt < Count(s.attempts, key.inputs.node)
    ensures Ready(cfg, s, files, files.tree, false)
  {
    assert KeyOf(s) !in KeysIn(files);
  }

  lemma EffectsMore(cfg: Config, c: Chronicle, trees: seq<Tree>, spoils: seq<bool>, s: Snapshot, input: StepInput,
                    after: Tree, spoilt: bool)
    requires c.graph == cfg.graph && Effects(cfg, c.created, c.log, trees, spoils) && c.Reached() == Ok(s)
    requires Effect(cfg, s, input.result, trees[|trees| - 1], after, spoilt) && !input.cached
    ensures Effects(cfg, c.created, c.log + [input], trees + [after], spoils + [spoilt])
  {
    var longer, more, all := c.log + [input], trees + [after], spoils + [spoilt];
    forall i | 0 <= i < |longer|
      ensures EffectAt(cfg, c.created, longer, more, all, i)
    {
      assert longer[..i] == c.log[..i];
      assert i < |c.log| ==> EffectAt(cfg, c.created, c.log, trees, spoils, i);
    }
  }

  /** The parts of the invariant make the whole. */
  lemma PartsHold(cfg: Config, w: System, c: Chronicle, s: Snapshot)
    requires w.chronicle == Some(c) && Records(cfg, w.tables, c, w.trees, w.spoils) && c.Reached() == Ok(s)
    requires Ready(cfg, s, w.files, w.trees[|w.trees| - 1], w.spoilt)
    requires ProcessOk(cfg, w.process, c.ending, s, w.files, w.spoilt)
    ensures Invariant(cfg, w)
  {
  }

  lemma CommitRecords(cfg: Config, t: Tables, c: Chronicle, trees: seq<Tree>, spoils: seq<bool>, s: Snapshot,
                      input: StepInput, next: Snapshot, after: Tree, spoilt: bool)
    requires Records(cfg, t, c, trees, spoils) && c.ending == Open && c.Reached() == Ok(s) && s.status == Running
    requires Step(cfg.graph, s, input) == Ok(next) && !input.cached
    requires Effect(cfg, s, input.result, trees[|trees| - 1], after, spoilt)
    ensures var d := c.(log := c.log + [input]);
            && Records(cfg, Committed(t, next, KeyOf(s), EntryOf(cfg.graph, s, input, next)), d, trees + [after],
                       spoils + [spoilt])
            && d.Reached() == Ok(next)
  {
    EffectsMore(cfg, c, trees, spoils, s, input, after, spoilt);
    CommittedIsKept(t, c, s, input, next);
    ChronicleMore(c, s, input, next);
  }

  /** What is known of a step that is about to be committed. */
  lemma SteppedTells(cfg: Config, s: Snapshot, files: Files, before: Tree, spoilt: bool, input: StepInput,
                     next: Snapshot)
    requires Ready(cfg, s, files, before, spoilt) && s.status == Running
    requires StageOk(cfg, s, files, spoilt, Stepped(input, next))
    ensures Step(cfg.graph, s, input) == Ok(next) && !input.cached
    ensures Effect(cfg, s, input.result, before, files.tree, spoilt) && Ready(cfg, next, files, files.tree, false)
  {
    EffectOfStep(cfg, s, files, before, spoilt, input.result);
    ReadyAfterStep(cfg, s, files, input, next);
  }

  lemma CommitIs(cfg: Config, w: System, c: Chronicle, s: Snapshot, input: StepInput, next: Snapshot)
    requires w.chronicle == Some(c)
    ensures DoCommit(cfg, w, s, input, next) ==
      System(Committed(w.tables, next, KeyOf(s), EntryOf(cfg.graph, s, input, next)), w.files,
             Up(next, if next.status == Running then Turning else Ending), Some(c.(log := c.log + [input])),
             w.trees + [w.files.tree], w.spoils + [w.spoilt], false)
  {
  }

  lemma CommitKeeps(cfg: Config, w: System, c: Chronicle, s: Snapshot, input: StepInput, next: Snapshot)
    requires w.chronicle == Some(c) && Records(cfg, w.tables, c, w.trees, w.spoils)
    requires c.ending == Open && c.Reached() == Ok(s)
    requires Ready(cfg, s, w.files, w.trees[|w.trees| - 1], w.spoilt) && s.status == Running
    requires StageOk(cfg, s, w.files, w.spoilt, Stepped(input, next))
    ensures Invariant(cfg, DoCommit(cfg, w, s, input, next))
  {
    SteppedTells(cfg, s, w.files, w.trees[|w.trees| - 1], w.spoilt, input, next);
    CommitRecords(cfg, w.tables, c, w.trees, w.spoils, s, input, next, w.files.tree, w.spoilt);
    CommittedFits(cfg, next, w.files);
    CommitIs(cfg, w, c, s, input, next);
    PartsHold(cfg, DoCommit(cfg, w, s, input, next), c.(log := c.log + [input]), next);
  }

  lemma CommittedFits(cfg: Config, next: Snapshot, files: Files)
    ensures ProcessOk(cfg, Up(next, if next.status == Running then Turning else Ending), Open, next, files, false)
  {
  }

  // ----- All actions -----

  lemma TurningKeeps(cfg: Config, w: System, c: Chronicle, s: Snapshot)
    requires w.chronicle == Some(c) && w.process == Up(s, Turning) && c.Reached() == Ok(s) && Invariant(cfg, w)
    ensures Invariant(cfg, DoBegin(cfg, w, s))
  {
    if Violations(cfg.graph, s) != [] {
      EndKeeps(cfg, w, c, s, Spent);
    } else {
      BeginKeeps(cfg, w, c, s);
    }
  }

  /** The process can be anything that fits the stored state. */
  lemma ProcessMoves(cfg: Config, w: System, c: Chronicle, process: Process)
    requires w.chronicle == Some(c) && Invariant(cfg, w)
    requires ProcessOk(cfg, process, c.ending, c.Reached().value, w.files, w.spoilt)
    ensures Invariant(cfg, w.(process := process))
  {
  }

  lemma StepFits(cfg: Config, s: Snapshot, files: Files, spoilt: bool, ending: Ending, result: NodeResult, cached: bool,
                 input: StepInput, next: Snapshot)
    requires ProcessOk(cfg, Up(s, Returned(result, cached)), ending, s, files, spoilt)
    requires input.result == result && input.cached == cached && Step(cfg.graph, s, input) == Ok(next)
    ensures ProcessOk(cfg, Up(s, Stepped(input, next)), ending, s, files, spoilt)
  {
  }

  lemma TransitionKeeps(cfg: Config, w: System, c: Chronicle, s: Snapshot, result: NodeResult, cached: bool,
                        input: StepInput)
    requires w.chronicle == Some(c) && w.process == Up(s, Returned(result, cached)) && c.Reached() == Ok(s)
             && Invariant(cfg, w)
    ensures Invariant(cfg, ActUp(cfg, w, s, Returned(result, cached), Transition(input)))
  {
    if input.result == result && input.cached == cached {
      match Step(cfg.graph, s, input)
      case Ok(next) =>
        StepFits(cfg, s, w.files, w.spoilt, c.ending, result, cached, input, next);
        ProcessMoves(cfg, w, c, Up(s, Stepped(input, next)));
      case Err(_) => ProcessMoves(cfg, w, c, Down);
    }
  }

  /** The files, the process and the mark of a rollback can be anything that fits the stored state. */
  lemma FilesMove(cfg: Config, w: System, c: Chronicle, files: Files, process: Process, spoilt: bool)
    requires w.chronicle == Some(c) && Invariant(cfg, w)
    requires Ready(cfg, c.Reached().value, files, w.trees[|w.trees| - 1], spoilt)
    requires ProcessOk(cfg, process, c.ending, c.Reached().value, files, spoilt)
    ensures Invariant(cfg, w.(files := files, process := process, spoilt := spoilt))
  {
  }

  /** What an action of a call finds: the step at hand is ready for it. */
  lemma PatchingIsReady(cfg: Config, w: System, c: Chronicle, s: Snapshot, call: Call, phase: Phase)
    requires w.chronicle == Some(c) && w.process == Up(s, Patching(call, phase)) && Invariant(cfg, w)
    ensures c.Reached() == Ok(s) && s.status == Running && c.ending == Open && w.trees != []
    ensures Ready(cfg, s, w.files, w.trees[|w.trees| - 1], w.spoilt)
    ensures StageOk(cfg, s, w.files, w.spoilt, Patching(call, phase))
  {
  }

  lemma PatchingKeeps(cfg: Config, w: System, c: Chronicle, s: Snapshot, call: Call, phase: Phase, strike: Strike)
    requires w.chronicle == Some(c) && w.process == Up(s, Patching(call, phase)) && Invariant(cfg, w)
    ensures Invariant(cfg, ActUp(cfg, w, s, Patching(call, phase), Ledger(strike)))
  {
    PatchingIsReady(cfg, w, c, s, call, phase);
    LedgerKeepsReady(cfg, s, w.files, w.trees[|w.trees| - 1], w.spoilt, call, phase, strike);
    var (files, next) := Advance(cfg.git, call, w.files, phase, strike);
    PatchingIs(cfg, w, s, call, phase, strike, files, next);
    FilesMove(cfg, w, c, files, Up(s, Patching(call, next)), w.spoilt || SpoilsAt(call.key, w.files, phase, strike));
  }

  lemma PatchingIs(cfg: Config, w: System, s: Snapshot, call: Call, phase: Phase, strike: Strike, files: Files,
                   next: Phase)
    requires Advance(cfg.git, call, w.files, phase, strike) == (files, next)
    ensures ActUp(cfg, w, s, Patching(call, phase), Ledger(strike)) ==
      w.(files := files, process := Up(s, Patching(call, next)),
         spoilt := w.spoilt || SpoilsAt(call.key, w.files, phase, strike))
  {
  }

  lemma ReturnFits(cfg: Config, s: Snapshot, files: Files, spoilt: bool, ending: Ending, stage: Stage,
                   result: NodeResult)
    requires ProcessOk(cfg, Up(s, stage), ending, s, files, spoilt) && MayReturn(s, stage, result)
    ensures ProcessOk(cfg, Up(s, Returned(result, false)), ending, s, files, spoilt)
  {
    ReturnKeeps(cfg, s, files, spoilt, stage, result);
  }

  lemma ReturnMoves(cfg: Config, w: System, s: Snapshot, stage: Stage, result: NodeResult)
    requires stage.Working? || stage.Patching?
    ensures ActUp(cfg, w, s, stage, Return(result))
         == if MayReturn(s, stage, result) then w.(process := Up(s, Returned(result, false))) else w
  {
  }

  lemma ReturningKeeps(cfg: Config, w: System, c: Chronicle, s: Snapshot, stage: Stage, result: NodeResult)
    requires w.chronicle == Some(c) && w.process == Up(s, stage) && c.Reached() == Ok(s) && Invariant(cfg, w)
    requires stage.Working? || stage.Patching?
    ensures Invariant(cfg, ActUp(cfg, w, s, stage, Return(result)))
  {
    ReturnMoves(cfg, w, s, stage, result);
    if MayReturn(s, stage, result) {
      ReturnFits(cfg, s, w.files, w.spoilt, c.ending, stage, result);
      ProcessMoves(cfg, w, c, Up(s, Returned(result, false)));
    }
  }

  lemma ScribblingKeeps(cfg: Config, w: System, c: Chronicle, s: Snapshot, tree: Tree)
    requires w.chronicle == Some(c) && w.process == Up(s, Working) && c.Reached() == Ok(s) && Invariant(cfg, w)
    ensures Invariant(cfg, ActUp(cfg, w, s, Working, Scribble(tree)))
  {
  }

  /** What a commit finds. */
  lemma SteppedIsReady(cfg: Config, w: System, c: Chronicle, s: Snapshot, input: StepInput, next: Snapshot)
    requires w.chronicle == Some(c) && w.process == Up(s, Stepped(input, next)) && Invariant(cfg, w)
    ensures Records(cfg, w.tables, c, w.trees, w.spoils) && c.ending == Open && c.Reached() == Ok(s) && w.trees != []
    ensures Ready(cfg, s, w.files, w.trees[|w.trees| - 1], w.spoilt) && s.status == Running
    ensures StageOk(cfg, s, w.files, w.spoilt, Stepped(input, next))
  {
  }

  lemma CommittingKeeps(cfg: Config, w: System, c: Chronicle, s: Snapshot, input: StepInput, next: Snapshot)
    requires w.chronicle == Some(c) && w.process == Up(s, Stepped(input, next)) && Invariant(cfg, w)
    ensures Invariant(cfg, DoCommit(cfg, w, s, input, next))
  {
    SteppedIsReady(cfg, w, c, s, input, next);
    CommitKeeps(cfg, w, c, s, input, next);
  }

  lemma EndingKeeps(cfg: Config, w: System, c: Chronicle, s: Snapshot)
    requires w.chronicle == Some(c) && w.process == Up(s, Ending) && c.Reached() == Ok(s) && Invariant(cfg, w)
    ensures Invariant(cfg, DoEnd(w, s, Closed))
  {
    EndKeeps(cfg, w, c, s, Closed);
  }

  /** The actions that a stage is about. */
  predicate Belongs(stage: Stage, a: Action) {
    match stage
    case Turning => a.Begin?
    case Working => a.Scribble? || a.Return?
    case Patching(_, _) => a.Ledger? || a.Return?
    case Returned(_, _) => a.Transition?
    case Stepped(_, _) => a.Commit?
    case Ending => a.WriteEnd?
  }

  lemma OthersDoNothing(cfg: Config, w: System, s: Snapshot, stage: Stage, a: Action)
    requires !Belongs(stage, a)
    ensures ActUp(cfg, w, s, stage, a) == w
  {
  }

  lemma BelongingKeeps(cfg: Config, w: System, c: Chronicle, s: Snapshot, stage: Stage, a: Action)
    requires w.chronicle == Some(c) && w.process == Up(s, stage) && c.Reached() == Ok(s) && Invariant(cfg, w)
    requires Belongs(stage, a) && !a.Begin? && !a.Scribble? && !a.Ledger?
    ensures Invariant(cfg, ActUp(cfg, w, s, stage, a))
  {
    match a
    case Return(result) => ReturningKeeps(cfg, w, c, s, stage, result);
    case Transition(input) => TransitionKeeps(cfg, w, c, s, stage.result, stage.cached, input);
    case Commit => CommittingKeeps(cfg, w, c, s, stage.input, stage.next);
    case WriteEnd => EndingKeeps(cfg, w, c, s);
  }

  lemma ActUpKeeps(cfg: Config, w: System, c: Chronicle, s: Snapshot, stage: Stage, a: Action)
    requires w.chronicle == Some(c) && w.process == Up(s, stage) && c.Reached() == Ok(s) && Invariant(cfg, w)
    ensures Invariant(cfg, ActUp(cfg, w, s, stage, a))
  {
    if a.Begin? && stage.Turning? {
      TurningKeeps(cfg, w, c, s);
    } else if a.Scribble? && stage.Working? {
      ScribblingKeeps(cfg, w, c, s, a.tree);
    } else if a.Ledger? && stage.Patching? {
      PatchingKeeps(cfg, w, c, s, stage.call, stage.phase, a.strike);
    } else if Belongs(stage, a) {
      BelongingKeeps(cfg, w, c, s, stage, a);
    } else {
      OthersDoNothing(cfg, w, s, stage, a);
    }
  }

  /** Every action of every process keeps the invariant, the death of a process included. */
  lemma ActKeeps(cfg: Config, w: System, a: Action)
    requires WellFormed(cfg.graph) && Invariant(cfg, w)
    ensures Invariant(cfg, Act(cfg, w, a))
  {
    if a.Enter? && w.process.Down? {
      EnterKeeps(cfg, w, a.task, a.budget, a.initialData);
    } else if !a.Die? && !a.Enter? && w.process.Up? {
      ActUpKeeps(cfg, w, w.chronicle.value, w.process.state, w.process.stage, a);
    }
  }

  /** Nothing is known of the run yet, neither in the store nor in the ledger. */
  ghost predicate Initial(cfg: Config, w: System) {
    && w.chronicle == None && w.process == Down && !w.spoilt
    && Valid(w.tables) && cfg.runId !in w.tables.runs && NoResults(w.tables, cfg.runId) && NoKeys(w.files, cfg.runId)
  }

  /** The invariant holds after every schedule of actions and deaths. */
  lemma {:induction false} EveryScheduleKeepsInvariant(cfg: Config, w: System, actions: seq<Action>)
    requires WellFormed(cfg.graph) && Initial(cfg, w)
    ensures Invariant(cfg, ActAll(cfg, w, actions))
    decreases |actions|
  {
    if actions != [] {
      EveryScheduleKeepsInvariant(cfg, w, actions[..|actions| - 1]);
      ActKeeps(cfg, ActAll(cfg, w, actions[..|actions| - 1]), actions[|actions| - 1]);
    }
  }

  /**
   Exactly once. After any schedule of processes that run, raise and die, the i-th committed
   step changed the worktree, from its last checkpoint to its own, by exactly what its result
   tells: a passed apply step by its patch, once, if and only if no rollback ran after its
   commit; a failed one by its patch or not at all; only tests can do anything else. And it
   was answered by its operator, not from the store.
   */
  lemma StepsHappenExactlyOnce(cfg: Config, w: System, actions: seq<Action>, i: nat)
    requires WellFormed(cfg.graph) && Initial(cfg, w)
    requires var c := ActAll(cfg, w, actions).chronicle; c.Some? && i < |c.value.log|
    ensures var last := ActAll(cfg, w, actions);
            var c := last.chronicle.value;
            && |last.trees| == |c.log| + 1 && |last.spoils| == |c.log|
            && !c.log[i].cached
            && Replay(cfg.graph, c.created, c.log[..i]).Ok?
            && Effect(cfg, Replay(cfg.graph, c.created, c.log[..i]).value, c.log[i].result, last.trees[i],
                      last.trees[i + 1], last.spoils[i])
  {
    EveryScheduleKeepsInvariant(cfg, w, actions);
    var last := ActAll(cfg, w, actions);
    assert EffectAt(cfg, last.chronicle.value.created, last.chronicle.value.log, last.trees, last.spoils, i);
  }

  /** The proposal in the data decides the call: none, no call; an empty one is a no-op only if it says so. */
  lemma ProposalDecides(cfg: Config, s: Snapshot, fs: Files)
    requires Ledger.Unused(KeyOf(s), fs)
    ensures cfg.CallIn(s).Some? <==> Get(s.data, "pending_patch").Dict?
    ensures cfg.CallIn(s).Some? ==>
              var fields, call := Get(s.data, "pending_patch").fields, cfg.CallIn(s).value;
              && call.key == KeyOf(s) && call.patch == cfg.text(Get(fields, "patch"))
              && (call.patch == "" ==>
                    && (Truthy(Get(fields, "no_changes_needed")) <==> Succeeds(Whole(cfg.git, call, fs).1, false))
                    && (!Truthy(Get(fields, "no_changes_needed")) ==>
                          Whole(cfg.git, call, fs) == (fs, Done(Refused(EmptyPatch)))))
  {
    if cfg.CallIn(s).Some? {
      FirstNoopIff(cfg.git, cfg.CallIn(s).value, fs);
      RefusedOutrightIff(cfg.git, cfg.CallIn(s).value, fs);
    }
  }

  /** Where the worktree can be while the step at hand is under way. */
  predicate Whereabouts(cfg: Config, s: Snapshot, before: Tree, now: Tree) {
    if s.currentNode == Tests then true
    else if s.currentNode == Apply && cfg.ProposalIn(s.data).Some? && cfg.ProposalIn(s.data).value.patch != "" then
      var patch := cfg.ProposalIn(s.data).value.patch;
      Forward(cfg.git, patch, before) ==> now in {before, cfg.git.apply(patch, before)}
    else now == before
  }

  lemma PendingTells(cfg: Config, s: Snapshot, files: Files, before: Tree, spoilt: bool)
    requires Pending(cfg, s, files, before, spoilt)
    ensures Whereabouts(cfg, s, before, files.tree)
  {
  }

  /**
   Between checkpoints the worktree is where the last one left it, or has the pending patch
   as well, once; unless tests are running. After the last one it is as that left it.
   */
  lemma WorktreeBetweenCheckpoints(cfg: Config, w: System, actions: seq<Action>)
    requires WellFormed(cfg.graph) && Initial(cfg, w)
    ensures var last := ActAll(cfg, w, actions);
            match last.chronicle
            case None => NoKeys(last.files, cfg.runId)
            case Some(c) =>
              && c.Reached().Ok? && last.trees != []
              && if c.Reached().value.status == Running
                 then Whereabouts(cfg, c.Reached().value, last.trees[|last.trees| - 1], last.files.tree)
                 else last.files.tree == last.trees[|last.trees| - 1]
  {
    EveryScheduleKeepsInvariant(cfg, w, actions);
    var last := ActAll(cfg, w, actions);
    if last.chronicle.Some? && last.chronicle.value.Reached().value.status == Running {
      PendingTells(cfg, last.chronicle.value.Reached().value, last.files, last.trees[|last.trees| - 1], last.spoilt);
    }
  }

  /** What the store has after any schedule, and so what a later process finds, is what the log tells. */
  lemma StoreMatchesLog(cfg: Config, w: System, actions: seq<Action>)
    requires WellFormed(cfg.graph) && Initial(cfg, w)
    ensures var last := ActAll(cfg, w, actions);
            match last.chronicle
            case None => cfg.runId !in last.tables.runs
            case Some(c) =>
              var rows := RowsOf(last.tables.events, cfg.runId);
              && Numbered(rows) && cfg.runId in last.tables.runs
              && Tells(FollowAll(PositionOf(c.created), EventsOf(rows)), last.tables.runs[cfg.runId], LastKeyed(c.log))
  {
    EveryScheduleKeepsInvariant(cfg, w, actions);
    var last := ActAll(cfg, w, actions);
    if last.chronicle.Some? {
      LogEqualsCheckpoint(last.tables, last.chronicle.value);
    }
  }

  // ----- The runtime's turns are such actions -----

  /** The actions that end a step with this input. */
  function Ends(input: StepInput, t: Snapshot): seq<Action> {
    [Transition(input), Action.Commit] + if t.status == Running then [] else [WriteEnd]
  }

  lemma ActTwice(cfg: Config, w: System, a: Action, b: Action)
    ensures ActAll(cfg, w, [a, b]) == Act(cfg, Act(cfg, w, a), b)
  {
    assert [a, b][..1] == [a] && [a][..0] == [];
    assert ActAll(cfg, w, []) == w;
    assert ActAll(cfg, w, [a]) == Act(cfg, w, a);
  }

  lemma ActOnce(cfg: Config, w: System, actions: seq<Action>, a: Action)
    ensures ActAll(cfg, w, actions + [a]) == Act(cfg, ActAll(cfg, w, actions), a)
  {
    assert (actions + [a])[..|actions|] == actions;
  }

  lemma TransitionIsActed(cfg: Config, w: System, s: Snapshot, input: StepInput, t: Snapshot)
    requires w.process == Up(s, Returned(input.result, false)) && !input.cached && Step(cfg.graph, s, input) == Ok(t)
    ensures Act(cfg, w, Transition(input)) == w.(process := Up(s, Stepped(input, t)))
  {
  }

  lemma CommitIsActed(cfg: Config, w: System, s: Snapshot, input: StepInput, t: Snapshot)
    requires w.process == Up(s, Stepped(input, t))
    ensures var last := Act(cfg, w, Action.Commit);
            && last.tables == Committed(w.tables, t, KeyOf(s), EntryOf(cfg.graph, s, input, t)) && last.files == w.files
            && last.process == Up(t, if t.status == Running then Turning else Ending)
  {
  }

  lemma EndIsActed(cfg: Config, w: System, t: Snapshot)
    requires w.process == Up(t, Ending)
    ensures var last := Act(cfg, w, WriteEnd);
            last.tables == Ended(w.tables, t) && last.files == w.files && last.process == Down
  {
  }

  lemma StepIsActed(cfg: Config, w: System, s: Snapshot, input: StepInput, t: Snapshot)
    requires w.process == Up(s, Returned(input.result, false)) && !input.cached && Step(cfg.graph, s, input) == Ok(t)
    ensures var last := ActAll(cfg, w, Ends(input, t));
            && last.tables == Stored(cfg.graph, w.tables, s, input, t) && last.files == w.files
            && last.process == if t.status == Running then Up(t, Turning) else Down
  {
    ActTwice(cfg, w, Transition(input), Action.Commit);
    TransitionIsActed(cfg, w, s, input, t);
    CommitIsActed(cfg, Act(cfg, w, Transition(input)), s, input, t);
    if t.status == Running {
      assert Ends(input, t) == [Transition(input), Action.Commit];
    } else {
      ActOnce(cfg, w, [Transition(input), Action.Commit], WriteEnd);
      EndIsActed(cfg, ActAll(cfg, w, [Transition(input), Action.Commit]), t);
    }
  }

  /** What the loop of the runtime does to the store in one turn is what the system does by these actions. */
  lemma TurnIsActed(cfg: Config, w: System, x: Drivers, k: nat, c: Chronicle, s: Snapshot, after: Tables, d: Chronicle,
                    t: Snapshot,
                    failure: Option<RunError>)
    requires Turned(x, k, w.tables, c, s, after, d, t, failure) && c.graph == cfg.graph
    ensures failure.None? ==> d.log != []
    ensures failure.None? && w.process == Up(s, Returned(d.log[|d.log| - 1].result, false)) ==>
              var last := ActAll(cfg, w, Ends(d.log[|d.log| - 1], t));
              && last.tables == after && last.files == w.files
              && last.process == if t.status == Running then Up(t, Turning) else Down
    ensures failure.Some? && failure.value.BudgetExceeded? && w.process == Up(s, Turning) ==>
              var last := Act(cfg, w, Action.Begin);
              last.tables == after && last.files == w.files && last.process == Down
    ensures failure.Some? && !failure.value.BudgetExceeded? ==> after == w.tables
  {
    if failure.None? {
      if w.process == Up(s, Returned(d.log[|d.log| - 1].result, false)) {
        StepIsActed(cfg, w, s, d.log[|d.log| - 1], t);
      }
    } else if failure.value.BudgetExceeded? && w.process == Up(s, Turning) {
      BudgetIsActed(cfg, w, s);
    }
  }

  lemma BudgetIsActed(cfg: Config, w: System, s: Snapshot)
    requires w.process == Up(s, Turning) && Violations(cfg.graph, s) != []
    ensures Act(cfg, w, Action.Begin) == DoEnd(w, OverBudget(s, Violations(cfg.graph, s)), Spent)
  {
  }
}
