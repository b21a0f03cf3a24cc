# Verified model of the graph runtime

This project models a durable runtime that drives coding agents along fixed workflow graphs, and proves what the runtime,
its stores, its controllers and its graph optimiser promise. Check it with `dafny verify dfyconfig.toml`.

A run is a walk over a validated graph. At each step the current node's operator returns a result, the result is merged
into the run's data, the edges whose conditions hold and whose traversal caps are not used up become the candidates, and a
controller picks one of them. Every step is committed to a checkpoint store together with an event, and the one step that
changes the outside world, applying a patch to a worktree, goes through a write-ahead ledger. Operators and controllers
are adversaries in the model: an operator may return anything its code can produce, a controller any edge.

## How it is laid out

- `Values`, `Conditions`, `Graphs`: JSON-like data and their deep merge, edge conditions as expression trees, graphs and
  their validation by worklists.
- `Runs`, `Walks`: one step of a run, as a function and as the in-place methods of the state object; what every run of
  every graph keeps.
- `CodingGraph`, `CodingValid`, `CodingRuns`, `CodingCosts`, `LongestRun`: the coding graph as a family with R repairs and
  Q plan attempts (the shipped graph has 2 and 2): no dead end and no real choice, gate safety, tight cost bounds.
- `Mutations`, `Variants`, `GraphSearch`, `TunedGraphs`, `RuntimeProgress`: graph mutations and their envelope, the tree search over them,
  and what does and does not carry over to the graphs it finds; that the runtime meets no edge error on those that keep
  the caps.
- `Keys`, `RunStore`, `Checkpoints`, `GraphRuntimes`: idempotency keys, the checkpoint store, the chronicle of a run that
  it keeps, and the run loop over it.
- `Ledger`, `Workspaces`, `Durability`: the patch ledger as a machine of durable actions, the method that goes through
  it, and the whole system under process deaths.
- `Lease`, `TreeSafety`, `LateWrites`: the per-run lease; which tree a completed run exports, and a history in which
  another writer's tree is exported.
- `Outcomes`: gates, costs and worktree of a coding run, told of store and disk after any schedule of deaths.
- `GraphTables`, `Decisions`, `Controllers`, `TrainingData`: compiled tables, masked decisions, the controllers, and the
  training records made of their decisions.
- `DiffScanner`: the scan every patch passes before it is applied.

## What is assumed

- Hashes and rendered keys tell apart what they are made of: an idempotency key is modelled as the run and the hashed
  inputs, a fingerprint as the tree, an edge key as source, target and label or condition.
- `git apply` and its reverse are atomic; that the reverse undoes a patch and that a patch does not apply to its own result
  is a condition (`Ledger.Forward`) stated wherever it is needed, and `Ledger.AtMostOnceIff` shows the last to be necessary.
- Nobody but the run, and during tests what the tests run, writes the worktree (`Durability`); `TreeSafety` drops this.
- SQLite transactions and renaming a written file are atomic and durable; file locks behave as on POSIX.
- The initial repair and plan counters are zero, as a new run has them unless its caller overrides them.
- A graph's name and version identify it up to the refinements that the search makes, which keep both: the runtime checks
  nothing else when it takes up a run.
- The exponential is any positive, strictly increasing function of the reals; logits are finite.

## Where the code falls short of what one might expect

Each is a lemma with the exact condition, and a lemma with a history or an input for which it fails.

- `_merge_dict` is not associative (`Values.MergeAssociativeUnlessSevered`, `Values.ResetIsNotAssociative`).
- A patch that applies to its own result can be applied twice (`Ledger.AtMostOnceIff`, `Ledger.AppendingIsAppliedTwice`).
- A call raising after its commit file is in place takes the patch out and leaves the key committed
  (`Workspaces.LateInterruptIff`, `Ledger.CreatedFileIsLost`). `Ledger.AppliedOnce` and `Durability.StepsHappenExactlyOnce`
  take such schedules in: the tree is then the one before, and otherwise the patched one.
- A patch that is already in place is refused at first and claimed by a retry (`Ledger.RetryClaimsIff`,
  `Ledger.CreatedFileIsClaimed`).
- A refused call that was retried can leave its patch in the tree when the checks made before the locks are taken refuse
  the patch on the patched tree, as they refuse one that makes a symbolic link once the link is there
  (`Ledger.RefusedMeansRestoredIff`, `Ledger.LinkIsLeftBehind`).
- Lowering any traversal cap, which the search may do, makes some run end in a dead end; lowering none makes none
  (`TunedGraphs.TunedRunsNeverStopIff`, `TunedGraphs.LoweredCapsStopRuns`).
- The tensor backend's mask fails for logits at or below its floor (`Decisions.FlooringRespectsMaskIff`,
  `Decisions.FloorIsSelected`).
- A failed apply step may still have applied its patch, when something raised outside the guarded part of the call or
  after it (`Workspaces.RefusedLeavesPatchIff`, `Workspaces.RefusedFileIsCreated`).
- The export is of the tree at its own time: another writer after the review changes what is exported
  (`TreeSafety.ExportAmongWriters`, `LateWrites.LateWriteIsExported`).
- The schema hash does not settle in which order edges of equal priority are offered, and so not what the default
  controller chooses among them (`GraphTables.SameOrderIff`, `GraphTables.ForkIsOneOfTwo`).

## Model

| member | source | states |
|---|---|---|
| `Values.MergeInto` | src/graph_model/runtime.py:34-39 | the merge loop leaves exactly the deep merge of the two dictionaries, whatever order its keys come in |
| `Values.MergedKey` | src/graph_model/runtime.py:34-39 | what one key holds after a merge: merged below if both sides hold dictionaries, else the newer value, else the older |
| `Values.MergeIdempotent` | src/graph_model/runtime.py:34-39 | merging the same delta twice changes nothing the first merge did not |
| `Values.CoversMeansReplaces` | src/graph_model/runtime.py:34-39 | a delta that covers the old value replaces it altogether |
| `Values.MergeAssociativeUnlessSevered` | src/graph_model/runtime.py:34-39 | merging two deltas in turn equals merging their merge if and only if the first does not reset to a plain value a place where the others hold dictionaries |
| `Values.ResetIsNotAssociative` | src/graph_model/runtime.py:34-39 | an instance: a dictionary, a reset to the null value, and a dictionary again |
| `Conditions.FootprintDecides` | src/graph_model/conditions.py:12-91 | an expression gives the same outcome, errors included, in any two contexts that agree on the names and keys it reads |
| `Conditions.ComparisonIsConjunction` | src/graph_model/conditions.py:61-90 | a chained comparison means the conjunction of its links |
| `Conditions.UntilMeans` | src/graph_model/conditions.py:42-53 | `and` and `or` end at the first operand that decides, whatever comes after it, fail at an error before one, and give a boolean |
| `Conditions.NotMeans` | src/graph_model/conditions.py:54-60 | `not` is the opposite of its operand's truth and fails exactly if that does |
| `Conditions.NumbersCompare` | src/graph_model/conditions.py:61-90 | every comparison of booleans, integers and reals is that of the numbers |
| `Conditions.OppositesCompare` | src/graph_model/conditions.py:61-90 | `!=` and `not in` are the opposites of `==` and `in`, errors aside |
| `Conditions.PrivateNamesAreHidden` | src/graph_model/conditions.py:12-22 | a name that begins with two underscores reads as the null value |
| `Conditions.IndexMeans` | src/graph_model/conditions.py:12-22 | an index counts from the front or, negative, from the back; outside it reads as the null value |
| `Graphs.OutgoingIsStableSort` | src/graph_model/models.py:121-126 | the outgoing edges are exactly the node's edges, by descending priority, in listing order within one priority |
| `Graphs.Closure` | src/graph_model/models.py:83-119 | the worklist loop terminates with exactly the nodes a chain of links leads to |
| `Graphs.ValidateGraph` | src/graph_model/models.py:68-119 | accepts if and only if nodes and edges are well formed, keys distinct, every node lies on a path from the start and on one to a terminal, and non-terminals have successors |
| `Runs.ValidOutgoingEdges` | src/graph_model/runtime.py:116-151 | the loop returns the unexhausted, condition-matching outgoing edges in priority order |
| `Runs.CandidatesAreAvailable` | src/graph_model/runtime.py:116-151 | an edge is a candidate if and only if it leaves the node, its cap is not reached and its condition holds |
| `Runs.RunState.RecordHistory` | src/graph_model/runtime.py:172-176 | data, artifacts, attempts, completed nodes and step count after a node result |
| `Runs.RunState.RecordCost` | src/graph_model/runtime.py:179-195 | which counters a result charges: a cached one no call, else by the node kind |
| `Runs.RunState.RecordProgress` | src/graph_model/runtime.py:197-204 | the no-progress counter counts repetitions of the same progress key and starts over otherwise |
| `Runs.RunState.ApplyNodeResult` | src/graph_model/runtime.py:160-226 | the state object after a result is the recorded one, finished at a terminal or moved along the edge the selector returned; the transition is refused for want of an edge if and only if there is no candidate, and as masked if and only if there are and the selector returned none of them, and then no edge is counted |
| `Runs.RunState.ChargePolicy` | src/graph_model/runtime.py:415-423 | policy time, calls and tokens are charged after the transition |
| `Runs.ViolationsMean` | src/graph_model/runtime.py:229-266 | the violations name exactly the spent budgets: steps, time and progress before any node, calls and tokens before the nodes that cost them |
| `Walks.NewRunsAreFresh` | src/graph_model/models.py:201-219 | a new run stands at the start with all counters empty, whatever data it is given |
| `Walks.StepShape` | src/graph_model/runtime.py:160-226 | every committed step records the node and follows one unexhausted edge of the graph, or finishes at a terminal with the result's output |
| `Walks.EveryRunIsAWalk` | src/graph_model/runtime.py:127-226 | for every well-formed graph, operators and controller: completed nodes are a walk along the chosen edges; per-edge uses equal the edge counts within the caps; executions of each node, plus one if it is pending, equal its incoming uses, plus one at the start |
| `Walks.EveryRunEnds` | src/graph_model/runtime.py:338-350 | no run takes more than one step more than the sum of all traversal caps |
| `Walks.StepsUseUpCaps` | src/graph_model/runtime.py:127-138 | every step uses up one of the remaining traversals, so the loop terminates |
| `Walks.BudgetsHold` | src/graph_model/runtime.py:229-266 | no run ever exceeds its step, model-call or tool-call budget |
| `Walks.StepHadBudget` | src/graph_model/runtime.py:229-266 | a committed step started with every budget that its node is checked against unspent |
| `Walks.StepCharges` | src/graph_model/runtime.py:179-195 | what a step adds to each of the eight counters, policy work included |
| `Walks.SpendingAddsUp` | src/graph_model/runtime.py:415-423 | tokens and time of a run, from any of its steps on, are the sum of what the steps charged |
| `Walks.OvershootsByLastStep` | src/graph_model/runtime.py:252-258 | a run exceeds its token budget by no more than the charges from its last model node on, and its time budget by no more than its last step |
| `Walks.RunsWithoutProgressEnd` | src/graph_model/runtime.py:259-262 | the no-progress count never exceeds its bound |
| `CodingGraph.GraphIsWellFormed` | src/graph_model/mlx_native/generated_coding_graph.py:22-81 | the coding graph with any repair and plan bounds has distinct edge keys, known ends and positive caps |
| `CodingValid.CodingGraphIsValid` | src/graph_model/models.py:68-119 | every member of the coding-graph family passes the whole graph validation |
| `CodingGraph.PassedMeans` | src/graph_model/mlx_native/generated_coding_graph.py:62-81 | the condition text for passing holds exactly when the run data hold the pass verdict |
| `CodingGraph.OthersRead` | src/graph_model/runtime.py:42-53 | what a condition reads of step count, artifacts, status and the three constants |
| `CodingGraph.AttemptsRead` | src/graph_model/runtime.py:42-53 | a condition reads of a node's attempts how often it has run, or the null value |
| `CodingGraph.FailedMeans` | src/graph_model/mlx_native/generated_coding_graph.py:62-81 | a condition for failing with a counter below or at its bound holds exactly when the verdict is a failure and the counter is a number, be it integer, boolean or real, that compares so; with any other counter it does not hold |
| `CodingGraph.PlannedMeans` | src/graph_model/mlx_native/generated_coding_graph.py:66-67 | the planned-route condition holds exactly when the route is the text deep or repair, whatever value the data hold for it |
| `CodingGraph.MergedControl` | src/graph_model/runtime.py:34-39 | what any merge makes of the four control keys: kept, replaced, or merged where both sides hold dictionaries |
| `CodingGraph.RunIsCoherent` | src/graph_model/operators.py:310-324 | in every reachable state the repair and plan counters in the data agree with the traversal counts of their cycles |
| `CodingGraph.OneCandidate` | src/graph_model/runtime.py:116-151 | at every reachable transition and for every operator outcome exactly one edge is a candidate |
| `CodingGraph.NeverStuck` | src/graph_model/runtime.py:206-226 | within its budget an obeying run can always go on; one edge is accepted and every other choice is refused as masked |
| `CodingGraph.ControllersDecideNothing` | src/graph_model/runtime.py:206-226 | two runs with the same operator results and any two controllers are in the same state after every number of steps |
| `CodingRuns.RunPassesGates` | src/graph_model/operators.py:442-570 | wherever a run stands behind a gate, the steps just before passed the gates in order with their own verdicts |
| `CodingRuns.CompletedRunsPassedEveryGate` | src/graph_model/mlx_native/generated_coding_graph.py:22-81 | every completed run ends apply, tests, review, finish, the first three each with its own pass verdict |
| `CodingCosts.RunWithinBill` | src/graph_model/runtime.py:174-203 | before each step a run has spent no more than a bill computed from where it stands and its two counters |
| `CodingCosts.RunsCostAtMost` | src/graph_model/runtime.py:229-266 | every run takes at most 7+2Q+5R steps, 2+Q+3R model calls and 3+Q+2R tool and verifier calls |
| `CodingCosts.RunsProgress` | src/graph_model/runtime.py:197-204 | with progress keys that begin as the operators label them the no-progress counter stays zero |
| `CodingCosts.CountBudgetsNeverFire` | src/graph_model/runtime.py:229-266 | with budgets at least the bounds only tokens or time can stop an obeying run |
| `CodingCosts.ShippedGraphFitsDefaults` | src/graph_model/models.py:129-137 | under the default budget no obeying run of the shipped graph takes more than 21 steps, 10 model calls and 9 tool calls, and none with labelled progress keys is stopped by anything but tokens or time |
| `LongestRun.EveryGateCanFail` | src/graph_model/mlx_native/generated_coding_graph.py:22-81 | for each of the three gates some obeying run completes after failing it as often as repairs allow, using every edge on its way up to its cap |
| `LongestRun.BoundsAreReached` | src/graph_model/operators.py:310-324 | the bounds are tight: every member of the family has an obeying run, with labelled progress keys, that completes at exactly all three |
| `Mutations.CheckMutation` | src/graph_model/graph_search.py:121-158 | the ordered checks of one mutation pass if and only if it is inside the envelope |
| `Mutations.ValidateEnvelope` | src/graph_model/graph_search.py:115-158 | accepts if and only if every mutation is a temperature of a model node within range, a cap no higher than the base's, or a bounded priority of a known edge |
| `Mutations.MutationHasEffect` | src/graph_model/optimizer.py:32-110 | an applied mutation sets what it names to its value and leaves everything else of the graph alone |
| `Mutations.MutationFailsIff` | src/graph_model/optimizer.py:32-110 | applying fails if and only if the target is unknown or the cap is below one |
| `Mutations.MutationRefines` | src/graph_model/optimizer.py:45-110 | an enveloped mutation applies to every refinement of the base and gives another: same topology and conditions, caps no higher |
| `Mutations.RefinementIsValid` | src/graph_model/optimizer.py:51 | a refinement of a valid graph is valid, so revalidating a mutated graph never fails |
| `Mutations.RefinedOffer` | src/graph_model/runtime.py:116-151 | in every state a refinement offers exactly the base's edges that its own caps leave room for |
| `Mutations.HistoriesOfRefinement` | src/graph_model/graph_search.py:115-158 | the histories of a refined graph are exactly the base graph's histories within the refined caps, leading to the same states |
| `Mutations.HistoriesOfRefinements` | src/graph_model/runtime.py:316-332 | a run taken up again and again under different refinements of one base has exactly the base's histories in which every step has room under the graph it is taken in |
| `Mutations.MutationsCommute` | src/graph_model/optimizer.py:32-110 | two mutations of different slots give the same graph in either order |
| `Mutations.PathRefines` | src/graph_model/optimizer.py:157-164 | any path of enveloped mutations applies, and its result refines the base |
| `Variants.PathsEndInVariants` | src/graph_model/optimizer.py:167-186 | every path with one mutation a slot ends in a graph given by at most one option for each slot |
| `Variants.VariantsBounded` | src/graph_model/optimizer.py:197-260 | there are at most as many such graphs as the product over the slots of one plus their options |
| `GraphSearch.Backpropagate` | src/graph_model/optimizer.py:189-194 | afterwards every node's visits and reward are its own evaluations and those of its children, and the root has counted the whole history |
| `GraphSearch.DebtClimbs` | src/graph_model/optimizer.py:189-194 | counting a visit at a node settles its accounts and leaves its parent owing the same |
| `GraphSearch.ChildUsesMore` | src/graph_model/optimizer.py:167-186 | a child uses one slot more than its parent, so the descent ends |
| `GraphSearch.Select` | src/graph_model/optimizer.py:238-240 | the descent goes through fully tried nodes to their first best child and stops at a node to expand or a leaf |
| `GraphSearch.BestChild` | src/graph_model/optimizer.py:240 | the first child with the greatest score |
| `GraphSearch.NewChild` | src/graph_model/optimizer.py:167-186 | the child's graph is the mutated graph, its slots one more, its untried mutations those of the free slots; nothing else of the tree changes |
| `GraphSearch.Expand` | src/graph_model/optimizer.py:242-245 | taking a mutation out and making its child keeps the tree and its accounts: untried and expanded mutations are exactly those of unused slots, slots on a path distinct, every path rebuilds its graph; for enveloped mutations it cannot fail |
| `GraphSearch.Search.PathOf` | src/graph_model/optimizer.py:157-164 | the mutations from the root down to the node |
| `GraphSearch.Search.Evaluate` | src/graph_model/optimizer.py:222-230 | a graph is evaluated once, at its turn, and answered from the cache afterwards |
| `GraphSearch.Search.Iterate` | src/graph_model/optimizer.py:237-252 | one iteration keeps tree, accounts, cache and first best candidate, and its trial is of a new child, made by the drawn untried mutation at the end of the descent, or of that end itself exactly where nothing was untried |
| `GraphSearch.Search.Explore` | src/graph_model/optimizer.py:237-252 | the loop makes exactly as many trials as iterations, each by one such pass over the tree the pass before it left, with its own draw |
| `GraphSearch.RootIsTriedFirst` | src/graph_model/optimizer.py:237-245 | the first trials after the base, as many as there are mutations, are of children of the root, made by different entries of the mutations |
| `GraphSearch.SinglesAreEvaluated` | src/graph_model/optimizer.py:237-252 | with more iterations than mutations every single mutation of the base is evaluated and the result is rewarded at least as well |
| `GraphSearch.Search.RootSeesAll` | src/graph_model/optimizer.py:237-248 | the root's visits are the iterations done |
| `GraphSearch.KeptIsFirstBest` | src/graph_model/optimizer.py:249-252 | keeping a candidate only for a greater reward keeps the first with the greatest of all evaluated rewards |
| `GraphSearch.EvaluationsBounded` | src/graph_model/optimizer.py:222-260 | no more graphs are evaluated than the product over the slots of one plus their options |
| `GraphSearch.Optimize` | src/graph_model/optimizer.py:197-260 | bad arguments are refused; a result is that of a search of exactly as many trials as iterations, each as the descent, the draw and the tree so far prescribe; it is the first best of the distinct graphs met, each evaluated once and rebuilt by its path, at most as many as iterations and variants; enveloped mutations fail only if the evaluator does |
| `GraphSearch.FoundRefinesBase` | src/graph_model/optimizer.py:254-260 | everything evaluated refines the base, and the result is rewarded at least as well as the base |
| `TunedGraphs.TunedRunsAreSafe` | src/graph_model/graph_search.py:115-158 | runs of a tuned coding graph pass the same gates and keep the same cost bounds |
| `TunedGraphs.TunedRunGoesOnWhileRoom` | src/graph_model/runtime.py:127-138 | a tuned run can take its next step if and only if the tuned cap of the one edge the coding graph takes leaves room |
| `TunedGraphs.TunedRunsNeverStopIff` | src/graph_model/graph_search.py:115-158 | for every refinement of the coding graph and every budget with room: its obeying runs can always take their next step if and only if every cap is the coding graph's |
| `TunedGraphs.KeptCapsNeverStop` | src/graph_model/runtime.py:127-138 | with the caps kept, and priorities and node settings changed in any way, obeying runs from any start can always go on within their budget |
| `TunedGraphs.LoweredCapsStopRuns` | src/graph_model/graph_search.py:146-152 | whichever cap is lowered, some run that the coding graph completes comes to a dead end: every choice is refused |
| `RuntimeProgress.RunsMeetNoEdgeError` | src/graph_model/runtime.py:206-226 | a call of the runtime for the coding graph, or a refinement with its caps, with obeying operators and a controller that returns what it was offered is stopped by nothing but a spent budget or its caller: it is never refused an edge nor out of edges |
| `RunStore.CreatedKeepsValid` | src/graph_model/store.py:117-134 | a run is created once; its first event has number zero and other runs are untouched |
| `RunStore.LoggedKeepsValid` | src/graph_model/store.py:206-276 | an event gets the number after the run's last, so numbers run from zero without gaps |
| `RunStore.SqliteRunStore.CreateRun` | src/graph_model/store.py:117-134 | the tables after creating a run, or unchanged if the run exists |
| `RunStore.SqliteRunStore.CommitStep` | src/graph_model/store.py:206-251 | one transaction stores the result unless it was cached, updates the state if the run has a row, and appends the event in any case; the numbering is kept for runs that exist |
| `RunStore.SqliteRunStore.SaveTerminalEvent` | src/graph_model/store.py:253-276 | the terminal event is appended and the state updated if the run has a row, together |
| `RunStore.LoadedAsStored` | src/graph_model/store.py:136-141 | loading finds a run as its last commit or terminal event stored it, and other runs as before; something is found if and only if the run has events |
| `RunStore.RememberedAsCommitted` | src/graph_model/store.py:198-204 | a result is found under its key as it was committed, unless it had been answered from the store; other commits leave what is found unchanged |
| `Checkpoints.CommittedIsKept` | src/graph_model/runtime.py:424-435 | committing a step extends what the store keeps of the run by exactly that step |
| `Checkpoints.EndedIsKept` | src/graph_model/runtime.py:437-442 | the terminal event, after the last step or for a spent budget, closes the run's chronicle |
| `Checkpoints.NeverCached` | src/graph_model/runtime.py:355-361 | no step is ever answered from the stored results, because its attempt number is new |
| `Checkpoints.StepsHaveTheirOwnKeys` | src/graph_model/runtime.py:345-374 | two different steps of a run never share an idempotency key |
| `Checkpoints.SameKeyIff` | src/graph_model/runtime.py:345-361 | two steps share a key if and only if they are of one run and agree in node, task, data, artifacts, attempt and graph version |
| `Checkpoints.NoCachedSteps` | src/graph_model/runtime.py:179-180 | a run answered by its operators has counted no cached step |
| `Checkpoints.LogEqualsCheckpoint` | src/graph_model/store.py:206-251 | for every run: event numbers are exactly 0..n-1, and folding the logged results and chosen edges over the created state gives the stored data, edge counts, attempts, completed nodes and position; and the two progress fields if and only if no step was taken or the last result has a progress key |
| `Checkpoints.UnkeyedStepsLookAlike` | src/graph_model/runtime.py:197-204 | after a result without a progress key no other fold could tell them: steps that differ in the artifacts they leave log the same and leave different progress |
| `Checkpoints.UnkeyedRunIsNotTold` | src/graph_model/runtime.py:197-204 | such a run: one step of a one-node graph, without a progress key |
| `GraphRuntimes.GraphRuntime.CheckBudget` | src/graph_model/runtime.py:471-478 | a run is stored as failed, with its terminal event, if and only if a budget is spent, and the failure names exactly those that are; otherwise nothing changes |
| `GraphRuntimes.GraphRuntime.Turn` | src/graph_model/runtime.py:338-442 | one turn of the loop carries the chronicle on by one uncached step, made of what the operator returned along the edge the controller chose, and uses up a traversal; or stops for the budget; or, exactly when nothing was offered or the choice was not, leaves the store unchanged on an edge error |
| `GraphRuntimes.GraphRuntime.Drive` | src/graph_model/runtime.py:334-444 | the loop terminates; it ends with a closed chronicle, a spent budget, an edge error, or where it was told to stop, which it does not run past |
| `GraphRuntimes.GraphRuntime.Enter` | src/graph_model/runtime.py:316-332 | an unknown run is created if and only if there is a task and the metadata is an object, with the caller's data over the counters and the runtime's two identities; a stored one is taken up as it is if and only if name and version agree and each identity recorded with it is absent, empty or the runtime's own, and the first misfit is named |
| `GraphRuntimes.GraphRuntime.RunLocked` | src/graph_model/runtime.py:307-444 | whatever operators and controller do, and whatever refinements of one base the run was driven under before, the store keeps a chronicle of the base, which goes on from the one before, and the outcome is the stored state or says why it stopped |
| `GraphRuntimes.ResumedByItsOwn` | src/graph_model/runtime.py:446-468 | a run stamped with identities, whose results leave them alone, is taken up at any later time by exactly the runtimes with its graph's name and version and each identity that is not empty |
| `Ledger.AdvanceKeepsInvariant` | src/graph_model/workspace.py:691-903 | every action of a call, going through or raising before or after its effect, keeps the protocol invariant of its key |
| `Ledger.AppliedOnce` | src/graph_model/workspace.py:691-847 | for calls with one key, of any patches, dying and raising anywhere: if the intent's patch goes forward from where the intent was written, the tree is that tree or the patched one; once committed it is the patched one, except exactly when a rollback ran after the commit, and then it is the tree before |
| `Ledger.CommittedKeyIsFinal` | src/graph_model/workspace.py:691-700 | once a key is committed no call with it changes anything, wherever the tree has moved; success means the recorded commit of the very patch given |
| `Ledger.RefusedMeansRestored` | src/graph_model/workspace.py:834-903 | a call refused without an action raising leaves the tree as before the first attempt: a failing check after application is rolled back |
| `Ledger.RefusedMeansRestoredIff` | src/graph_model/workspace.py:656-688 | that holds of all dying and retried calls if and only if the checks made before the locks are taken would not refuse the patch on the patched tree |
| `Ledger.LinkIsLeftBehind` | src/graph_model/workspace.py:1774-1788 | a patch that makes a link is one: refused on the retry because its path is a link by then, it is left in the tree; an instance with a concrete Git and tree |
| `Ledger.AtMostOnceIff` | src/graph_model/workspace.py:761-802 | dying and calling again never applies a patch twice if and only if the patch does not apply to its own result |
| `Ledger.AppendingIsAppliedTwice` | src/graph_model/workspace.py:761-802 | a patch that appends, with a reverse that undoes it, is one: dying after it is applied and calling again appends it twice |
| `Workspaces.LateInterruptIff` | src/graph_model/workspace.py:834-845 | a first call leaves its key committed and its patch out of the tree if and only if nothing raises before the commit, the commit raises after its effect, only declared paths changed and the rollback takes effect |
| `Ledger.LateInterruptLies` | src/graph_model/workspace.py:691-700 | after that the next call reports the recorded success of a patch that is not in the tree |
| `Ledger.CreatedFileIsLost` | src/graph_model/workspace.py:834-845 | so a created file is lost: an instance with a concrete Git and tree |
| `Ledger.RetryClaimsIff` | src/graph_model/workspace.py:802-814 | with nothing raised, a first call is refused and a second with its key claims the patch if and only if the patch was already in place |
| `Ledger.InPlaceIsRefusedOnce` | src/graph_model/workspace.py:802-814 | the claim is committed as recovered, and a retry that has to roll back takes the patch out of the tree |
| `Ledger.CreatedFileIsClaimed` | src/graph_model/workspace.py:802-814 | so creating a file that exists is refused and then claimed: an instance with a concrete Git and tree |
| `Ledger.WholeIsDone` | src/graph_model/workspace.py:656-849 | a call in which nothing raises ends |
| `Ledger.RefusedOutrightIff` | src/graph_model/workspace.py:663-680 | a patch over the size limit, one that validation refuses, and an empty one without the word that no changes are needed are refused by name with all files as they were, and only they |
| `Ledger.FirstNoopIff` | src/graph_model/workspace.py:727-747 | a first call commits without applying if and only if its patch is empty and no changes are needed; the tree is as it was |
| `Ledger.FirstPatchIff` | src/graph_model/workspace.py:748-845 | a first call with a fit patch ends applied and committed if and only if the patch applies and changes only declared paths and those changed before; one that changes another path is taken out again |
| `Ledger.IntentBinds` | src/graph_model/workspace.py:701-712 | a key whose intent is written refuses another patch or another worktree and changes nothing |
| `Ledger.RetriedNoopIff` | src/graph_model/workspace.py:727-747 | a no-op is recovered on a retry if and only if the tree is where its intent was written |
| `Ledger.RetriedPatchIff` | src/graph_model/workspace.py:748-903 | what a retry comes to: applied, claimed as recovered, reversed, or rejected, by what the tree and the declared paths say |
| `Workspaces.CourseIsProtocol` | src/graph_model/workspace.py:656-849 | every durable state a call passes through is one the protocol reaches |
| `Workspaces.CalmCallIsWhole` | src/graph_model/workspace.py:656-849 | a call in which nothing raises is such a whole call |
| `Workspaces.RefusedLeavesPatchIff` | src/graph_model/workspace.py:761-845 | a first call that is refused leaves its forward-applicable patch in the tree if and only if applying it raised after its effect or the rollback raised before its own; one that succeeds has changed the tree by the patch |
| `Workspaces.RefusedFileIsCreated` | src/graph_model/workspace.py:761-785 | an instance: creating a file, with a raise after the patch is applied, is refused and leaves the file |
| `Workspaces.Workspace.ApplyPatch` | src/graph_model/workspace.py:656-849 | the method goes through exactly the durable states of a call of the protocol and returns its outcome, for every way its actions can raise |
| `Workspaces.Workspace.RollBack` | src/graph_model/workspace.py:851-903 | reverses the patch if that checks, and reports a tree that does not match the fingerprint |
| `Durability.ActKeeps` | src/graph_model/runtime.py:338-442 | every action of the system, and the death of its process, keeps the invariant over store, ledger, worktree and process |
| `Durability.ProposalDecides` | src/graph_model/operators.py:457-477 | the apply step calls if and only if the data hold a proposal, with its patch and the step's key; an empty proposal is a no-op if it says that no changes are needed and is refused if not |
| `Durability.StepsHappenExactlyOnce` | src/graph_model/runtime.py:345-374 | after any schedule of processes that run, raise and die anywhere, each committed apply step that passed with a non-empty forward-applicable patch changed the tree by that patch exactly once, except exactly when a rollback ran after its ledger commit; failed ones by it or not at all; other steps but tests not at all |
| `Durability.WorktreeBetweenCheckpoints` | src/graph_model/workspace.py:691-847 | between checkpoints the tree is as at the last one or has the pending patch as well, once; of a run that is over it is as at the last one |
| `Durability.StoreMatchesLog` | src/graph_model/runtime.py:424-441 | after any schedule the stored state is what the gapless log tells: position, data and counts for every run, the progress fields if and only if no step was taken or the last result has a progress key |
| `Durability.TurnIsActed` | src/graph_model/runtime.py:338-442 | what one turn of the runtime's loop leaves in the store is what the system's actions of a step, or of a spent budget, leave in it |
| `Outcomes.RunsGoWell` | src/graph_model/runtime.py:338-442 | after any schedule of processes that run, raise and die: what the store has of an obeying coding run is within the cost bounds; if it is completed there, its last steps passed the three gates in order, the last apply made its tree by its patch, and the worktree is as the tests left it |
| `Outcomes.ExportedIsOnDisk` | src/graph_model/operators.py:934-937 | and with operators honest in what they see, that worktree is the tree tested, reviewed and exported |
| `Lease.MoveKeepsInvariant` | src/graph_model/store.py:43-77 | every step of asking for, holding and leaving the lease, and every death, keeps locks and places in accord |
| `Lease.OneInside` | src/graph_model/store.py:43-77 | for any number of processes and threads at most one is inside |
| `Lease.CommitsExtendStored` | src/graph_model/runtime.py:294-303 | every commit starts from the state the one before stored |
| `Lease.OthersFreeNothing` | src/graph_model/store.py:57-77 | among any moves of any other agents, refused ones too, an agent keeps its place and the locks it holds, and gets none |
| `Lease.OutHoldsNothing` | src/graph_model/store.py:57-77 | in any history an agent that is out, because it was refused or is done, holds neither lock |
| `Lease.RefusalLeavesNoTrace` | src/graph_model/store.py:57-77 | the moves of a refused caller, when nobody else moves between them, restore the state exactly |
| `Lease.FreeLeaseIsGranted` | src/graph_model/store.py:57-70 | a caller that finds both locks free gets in |
| `Lease.DeathFreesTheLease` | src/graph_model/store.py:43-49 | the death of the process inside frees the lease |
| `TreeSafety.ReviewedTreeIsTestedTree` | src/graph_model/operators.py:595-623 | whoever else writes the worktree, a completed run's review saw the tree that its tests started from, passed on and left |
| `TreeSafety.ReportIsFound` | src/graph_model/operators.py:537-570 | the fingerprint passed tests report is the one the next node reads from the merged data |
| `TreeSafety.ExportedTreeIsTestedTree` | src/graph_model/operators.py:934-937 | when nobody else writes, the tree exported at the end of a completed run is the one the tests started from and passed on and the review saw, and so the one the steps since apply left |
| `TreeSafety.LastApplyMadeTheTree` | src/graph_model/operators.py:442-535 | the last apply step of a completed run made its tree from the one before by its pending patch, if that is empty or goes forward and no rollback ran after its commit |
| `TreeSafety.ExportAmongWriters` | src/graph_model/operators.py:934-937 | with any other writers in any interleaving, the tested tree is exported if and only if nobody writes between the review's look and the export's or the last to do so writes that tree |
| `LateWrites.LateWriteIsExported` | src/graph_model/operators.py:934-937 | an instance: a run of the shipped graph under the default budget completes with honest operators and exports a tree written after the review looked |
| `LateWrites.ListedTellsApart` | src/graph_model/workspace.py:640-654 | a fingerprint that tells all trees apart exists |
| `GraphTables.CompilingForgetsOrder` | src/graph_model/mlx_native/graph_tables.py:106-128 | listing nodes or edges in another order leaves the compiled tables unchanged |
| `GraphTables.SamePayloadIff` | src/graph_model/mlx_native/graph_tables.py:25-51 | two graphs with distinct edge keys have the same normalised payload, and so the same schema hash, if and only if they differ at most in listing order |
| `GraphTables.PayloadTellsRefinements` | src/graph_model/optimizer.py:222-230 | among refinements of one base, which are what a search reaches, equal payloads mean equal graphs, so its cache by schema hash confuses none |
| `GraphTables.SameOrderIff` | src/graph_model/models.py:121-126 | two graphs offer a node's edges in the same order if and only if they list those of each priority in the same order, which the payload does not settle |
| `GraphTables.ForkIsOneOfTwo` | src/graph_model/models.py:121-126 | an instance: one graph with two ways out, listed in two orders, has one payload and two candidate orders |
| `GraphTables.ColumnDecodes` | src/graph_model/mlx_native/graph_tables.py:106-128 | every column decodes to its edge, with ends, cap, priority and condition |
| `GraphTables.MaskRowIsOutgoing` | src/graph_model/mlx_native/graph_tables.py:110-113 | a node's mask row decodes to exactly its outgoing edges |
| `GraphTables.TerminalColumn` | src/graph_model/mlx_native/graph_tables.py:106-128 | the tables list every node once and mark exactly the terminals |
| `Decisions.DecisionIsBestAllowed` | src/graph_model/mlx_native/decision.py:46-58 | selects the first allowed index with the greatest allowed logit, whatever the masked logits are; probabilities add up to one and are zero exactly where masked |
| `Decisions.FlooringRespectsMaskIff` | src/graph_model/mlx_native/decision.py:85-102 | masking by a very low logit respects the mask if and only if the best allowed logit is above it, or on it with nothing masked before, or nothing is masked |
| `Decisions.FloorIsSelected` | src/graph_model/mlx_native/decision.py:85-102 | an instance: the masked entry of two is selected when the allowed logit is below the floor |
| `Controllers.RouteIsOneOfThree` | src/graph_model/mlx_native/controller.py:438-483 | for any residual the route is one of the three, and the rules' own at scale zero |
| `Controllers.StopIsAllowed` | src/graph_model/mlx_native/controller.py:485-563 | for any residual the stop action is an allowed one, and the prior one at scale zero |
| `Controllers.AllowedActionsMean` | src/graph_model/mlx_native/controller.py:485-563 | which stop actions are allowed: those some candidate leads to, the end where there is none, and abort without progress |
| `Controllers.SelectEdge` | src/graph_model/mlx_native/controller.py:565-647 | the loop that fills mask and logits decides as the row of the tables does |
| `Controllers.MaskIsCandidates` | src/graph_model/mlx_native/controller.py:578-596 | the mask is exactly the runtime's candidate set |
| `Controllers.LearnedEdgeIsCandidate` | src/graph_model/mlx_native/controller.py:565-647 | for any residual the chosen edge is a candidate, so the runtime never refuses it, and at scale zero it is the static choice |
| `Controllers.StaticEdgeIsFavoured` | src/graph_model/mlx_native/controller.py:565-615 | without weight on a policy no candidate has more favour, by priority and by leading where the stop decision points, than the chosen one |
| `Controllers.DefaultStopPointsToCandidate` | src/graph_model/controller.py:204-239 | away from terminals and while the run progresses, the default stop decision points nowhere or where a candidate leads, but for the repair action of a candidate into repair itself |
| `Controllers.DefaultStopMeans` | src/graph_model/controller.py:204-230 | the default stop decision in each of its cases |
| `Controllers.DefaultEdgeIsCandidate` | src/graph_model/controller.py:241-267 | the default controller chooses the first candidate that leads where the stop decision points, and the first of all if and only if none does |
| `TrainingData.Ratio` | src/graph_model/mlx_native/training_data.py:48-51 | a cost ratio is the value over the maximum, clamped to zero and one, and zero without a maximum |
| `TrainingData.Export` | src/graph_model/mlx_native/training_data.py:106-209 | the nested loops emit the records of every matching run, event by event, route before transition |
| `TrainingData.ExportedRecords` | src/graph_model/mlx_native/training_data.py:116-126 | exported are the records of all nodes of the runs with this graph's name and version, or of those of them that completed |
| `TrainingData.TransitionRecordTells` | src/graph_model/mlx_native/training_data.py:161-209 | when a transition is exported, and that its labels point to the chosen edge and action, its masks to what was allowed, and reward and cost to the run |
| `TrainingData.RouteRecordTells` | src/graph_model/mlx_native/training_data.py:126-160 | when a route is exported, and what its record tells |
| `TrainingData.Read` | src/graph_model/mlx_native/training_data.py:216-337 | reading succeeds if and only if there are records and each passes every check, by the checks in the source's order |
| `TrainingData.CheckRecord` | src/graph_model/mlx_native/training_data.py:266-333 | the ordered checks of one record pass if and only if it is readable |
| `TrainingData.RunsExportReadable` | src/graph_model/mlx_native/training_data.py:106-337 | every record exported from runs under the learned controller, each with its own policy and operators, passes every check of the reader; same-named runs logged for another graph schema may be in the store |
| `TrainingData.ForeignIsDropped` | src/graph_model/mlx_native/training_data.py:54-71 | nothing is exported of a node whose features were computed for another graph schema |
| `TrainingData.RunIsConsistent` | src/graph_model/mlx_native/controller.py:485-647 | in such a run every logged stop and edge decision is among what was allowed where it was made, and only terminals log none |
| `DiffScanner.FinishSection` | src/graph_model/workspace.py:1310-1337 | the checks at the end of a section together mean that its headers agree |
| `DiffScanner.ValidatePatch` | src/graph_model/workspace.py:1307-1401 | the scan with its mutable section accepts exactly the patches whose sections are each complete, within the file limit, and returns their declared paths in the order of their texts, none twice |
| `DiffScanner.OneList` | src/graph_model/workspace.py:1401 | there is only one such list of a set of paths |

## Left out

- Provider calls, prompt building, model tensors, hidden states and the hashed router: their results are arbitrary inputs.
- Parsing: condition texts are given as expression trees, diff lines as what the scan makes of them, and the whole-text
  checks for binary, symlink, submodule and rename patches are not part of the scan here.
- Attribute access on values other than dictionaries, and the identity operators, in conditions: they are errors here.
- Sharing of sub-objects between a result and the run's artifacts: artifacts after a step are arbitrary, and nothing is
  claimed of them.
- Wall-clock stamps; seconds and tokens of a step are arbitrary inputs, so a run may overshoot those two budgets by a step.
- Integer widths, floating-point rounding, NaN and infinite numbers.
- GraphSearch.Select: the score of a child is any function of its visits, its reward and its parent's visits, in place of
  the formula with logarithm and square root; the random source is an arbitrary sequence of draws.
- GraphSearch.Optimize: evaluations are sequential, as in both variants of the source; their order among runs is not modelled.
- Ledger.AppliedOnce: says nothing of a tree at which the intent's patch does not go forward, beyond the other lemmas.
- Workspaces.Workspace.ApplyPatch: the locks around the ledger are not modelled; calls on one workspace do not overlap.
- Durability.StepsHappenExactlyOnce: one run with one process at a time, which the lease grants; patches that do not go
  forward are left to the ledger lemmas; the number of terminal events is not claimed, since a process may die between the
  last checkpoint and its event.
- Durability.TurnIsActed: ties the store transactions of a turn to the system's actions; what an operator does to the worktree
  is tied to them by `Workspaces.CourseIsProtocol`.
- Conditions.FootprintDecides: `is` comparisons, which compare object identities, and attributes of values that are not
  dictionaries are not in the expression tree.
- Conditions.ComparisonIsConjunction: `is` and `is not` links are not in the comparison type.
- Runs.RunState.RecordHistory: the artifacts become an arbitrary value, and the update stamp is left out.
- Runs.RunState.ApplyNodeResult: artifacts as above, and a selector is a function of what it is shown and cannot change it.
- Workspaces.Workspace.RollBack: the index reset of newly declared paths after the reverse is not modelled.
- GraphTables.SamePayloadIff: an edge's label, or its condition text without one, is one tag, so a label that repeats the
  condition text is not told from no label; and node settings that JSON renders alike, such as a tuple and a list, are
  told apart, which the source's payload does not do.
- GraphTables.PayloadTellsRefinements: for settings that JSON renders differently when they differ, as above.
- Checkpoints.LogEqualsCheckpoint: the modelled results leave out the artifacts, which the source logs with each result.
  So the hash that stands for a missing progress key is not recomputed from the log here; that is the model's, not the code's.
- Ledger.RetryClaimsIff: for patches that, if they apply, go forward and are not refused on the patched tree.
- Reopening a run that a collector closed, and the collector's own writes, which go past the lease.
- GraphTables.CompilingForgetsOrder: node ids are listed by the caller, since a map has no order to forget.
- Controllers.SelectEdge: the memo of policy contexts and the decision metrics are left out.
- TrainingData.RunsExportReadable: with hidden-state capture off; JSON encoding is left out.
- DiffScanner.ValidatePatch: all refusals are one, and the refusals over the whole text come before the scan.
- Command policies, path rules, promotion, bundles, reporting, the command line, benchmarks and the other durable adapter.
