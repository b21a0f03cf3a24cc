/**
 The write-ahead ledger around the one real side effect, applying a patch to the worktree:
 an intent is written before the patch is applied and a commit after it. A call can die
 between any two durable actions and be made again with the same key; each action can also
 raise, before its effect or after it.

 Git is a record of functions. It applies and reverses whole patches atomically, and nobody
 else writes the worktree during a call.
 */
module Ledger {
  import opened Graphs
  import opened Keys
  import opened Wrappers

  type Path = string
  type Patch = string

  /** The files below the worktree. A fingerprint is taken as the tree itself. */
  type Tree = map<Path, string>

  datatype Git = Git(
    applies: (Patch, Tree) -> bool,
    apply: (Patch, Tree) -> Tree,
    reverses: (Patch, Tree) -> bool,
    unapply: (Patch, Tree) -> Tree,
    changed: Tree -> set<Path>,
    accepts: (Patch, Tree) -> bool,
    declared: Patch -> set<Path>)

  /** Reversing undoes applying. */
  ghost predicate Reversible(git: Git, p: Patch, t: Tree) {
    git.applies(p, t) ==> git.reverses(p, git.apply(p, t)) && git.unapply(p, git.apply(p, t)) == t
  }

  /** The patch applies to the tree, not to its own result, and can be reversed there. */
  predicate Forward(git: Git, p: Patch, t: Tree) {
    && git.applies(p, t) && !git.applies(p, git.apply(p, t))
    && git.reverses(p, git.apply(p, t)) && git.unapply(p, git.apply(p, t)) == t
  }

  datatype Intent = Intent(patch: Patch, root: string, before: Tree, changed: set<Path>)

  datatype Commit = Commit(intent: Intent, applied: bool, recovered: bool, after: Tree)

  /** The durable state: the worktree and the ledger files. */
  datatype Files = Files(tree: Tree, intents: map<StepKey, Intent>, commits: map<StepKey, Commit>)

  datatype Call = Call(key: StepKey, patch: Patch, noChangesNeeded: bool, root: string, maxBytes: nat)

  datatype Refusal =
    | TooLarge | EmptyPatch | InvalidPatch
    | KeyUsedForOther | IntentForOther | IntentElsewhere
    | NoopChanged | AlreadyPresent | Rejected
    | Undeclared | NotRolledBack | Raised

  datatype Outcome = Applied(commit: Commit, replayed: bool) | Refused(refusal: Refusal)

  /** Where a call stands. Every phase has at most one durable effect. */
  datatype Phase =
    | Starting
    | Checking(intent: Intent, prior: bool)
    | Present(intent: Intent, applied: bool)
    | Undoing(intent: Intent, refusal: Refusal)
    | Done(outcome: Outcome)

  /** What happens at a phase: its action goes through, or raises before or after its effect. */
  datatype Strike = Through | RaiseBefore | RaiseAfter

  // ----- One phase at a time -----

  /** What a call finds wrong before it takes the locks. */
  function Objection(git: Git, call: Call, tree: Tree): Option<Refusal> {
    if |call.patch| > call.maxBytes then Some(TooLarge)
    else if call.patch != "" then (if git.accepts(call.patch, tree) then None else Some(InvalidPatch))
    else if !call.noChangesNeeded then Some(EmptyPatch)
    else None
  }

  /** Up to and with writing the intent. */
  function AdvanceStart(git: Git, call: Call, fs: Files, strike: Strike): (Files, Phase) {
    if Objection(git, call, fs.tree).Some? then (fs, Done(Refused(Objection(git, call, fs.tree).value)))
    else if strike.RaiseBefore? then (fs, Done(Refused(Raised)))
    else if call.key in fs.commits then
      var commit := fs.commits[call.key];
      if commit.intent.patch != call.patch then (fs, Done(Refused(KeyUsedForOther)))
      else (fs, Done(Applied(commit, true)))
    else if call.key in fs.intents then
      var intent := fs.intents[call.key];
      if intent.patch != call.patch then (fs, Done(Refused(IntentForOther)))
      else if intent.root != call.root then (fs, Done(Refused(IntentElsewhere)))
      else if strike.RaiseAfter? then (fs, Done(Refused(Raised)))
      else (fs, Checking(intent, true))
    else
      var intent := Intent(call.patch, call.root, fs.tree, git.changed(fs.tree));
      (fs.(intents := fs.intents[call.key := intent]),
       if strike.RaiseAfter? then Done(Refused(Raised)) else Checking(intent, false))
  }

  /** The no-op commit, or applying the patch unless it is found in place. */
  function AdvanceCheck(git: Git, call: Call, fs: Files, intent: Intent, prior: bool, strike: Strike): (Files, Phase) {
    if strike.RaiseBefore? then (fs, Done(Refused(Raised)))
    else if call.patch == "" then
      if prior && fs.tree != intent.before then (fs, Done(Refused(NoopChanged)))
      else
        var commit := Commit(intent, false, prior, fs.tree);
        (fs.(commits := fs.commits[call.key := commit]),
         Done(if strike.RaiseAfter? then Refused(Raised) else Applied(commit, false)))
    else if git.applies(call.patch, fs.tree) then
      (fs.(tree := git.apply(call.patch, fs.tree)),
       if strike.RaiseAfter? then Done(Refused(Raised)) else Present(intent, true))
    else if !git.reverses(call.patch, fs.tree) then (fs, Done(Refused(Rejected)))
    else if !prior then (fs, Done(Refused(AlreadyPresent)))
    else if strike.RaiseAfter? then (fs, Done(Refused(Raised)))
    else (fs, Present(intent, false))
  }

  /** The patch leaves only declared paths changed, beside those that were changed before. */
  predicate OnlyDeclared(git: Git, intent: Intent, tree: Tree) {
    git.changed(tree) - intent.changed <= git.declared(intent.patch)
  }

  /** The check after the patch is in place, and the commit. Raising here rolls back. */
  function AdvancePresent(git: Git, call: Call, fs: Files, intent: Intent, applied: bool, strike: Strike):
    (Files, Phase)
  {
    if strike.RaiseBefore? then (fs, Undoing(intent, Raised))
    else if !OnlyDeclared(git, intent, fs.tree) then (fs, Undoing(intent, Undeclared))
    else
      var commit := Commit(intent, applied, !applied, fs.tree);
      (fs.(commits := fs.commits[call.key := commit]),
       if strike.RaiseAfter? then Undoing(intent, Raised) else Done(Applied(commit, false)))
  }

  /** `_rollback_patch`, after which the first error is raised again unless the rollback fails. */
  function AdvanceUndo(git: Git, call: Call, fs: Files, intent: Intent, refusal: Refusal, strike: Strike):
    (Files, Phase)
  {
    if strike.RaiseBefore? then (fs, Done(Refused(Raised)))
    else if !git.reverses(call.patch, fs.tree) then (fs, Done(Refused(NotRolledBack)))
    else
      var undone := git.unapply(call.patch, fs.tree);
      (fs.(tree := undone),
       Done(Refused(if strike.RaiseAfter? then Raised else if undone != intent.before then NotRolledBack else refusal)))
  }

  function Advance(git: Git, call: Call, fs: Files, phase: Phase, strike: Strike): (Files, Phase) {
    match phase
    case Starting => AdvanceStart(git, call, fs, strike)
    case Checking(intent, prior) => AdvanceCheck(git, call, fs, intent, prior, strike)
    case Present(intent, applied) => AdvancePresent(git, call, fs, intent, applied, strike)
    case Undoing(intent, refusal) => AdvanceUndo(git, call, fs, intent, refusal, strike)
    case Done(_) => (fs, phase)
  }

  // ----- Calls that die and are made again -----

  /** A call in progress. */
  datatype Attempt = Attempt(call: Call, phase: Phase)

  datatype World = World(files: Files, attempt: Option<Attempt>)

  /** A new call begins when none is in progress; a call in progress moves on; a process dies. */
  datatype Act = Begin(call: Call) | Go(strike: Strike) | Die

  function Do(git: Git, w: World, act: Act): World {
    match act
    case Begin(call) => if w.attempt == None then w.(attempt := Some(Attempt(call, Starting))) else w
    case Go(strike) =>
      (match w.attempt
       case Some(Attempt(call, phase)) =>
         var (files, next) := Advance(git, call, w.files, phase, strike);
         World(files, Some(Attempt(call, next)))
       case None => w)
    case Die => w.(attempt := None)
  }

  function DoAll(git: Git, w: World, acts: seq<Act>): World {
    if acts == [] then w else Do(git, DoAll(git, w, acts[..|acts| - 1]), acts[|acts| - 1])
  }

  /** A rollback that takes the patch out of the tree after its key was committed. */
  predicate SpoilsAt(key: StepKey, fs: Files, phase: Phase, strike: Strike) {
    phase.Undoing? && strike != RaiseBefore && key in fs.commits
  }

  predicate Spoils(w: World, act: Act) {
    act.Go? && w.attempt.Some? && SpoilsAt(w.attempt.value.call.key, w.files, w.attempt.value.phase, act.strike)
  }

  /** Some act of the schedule was such a rollback. */
  predicate SpoiltBy(git: Git, w: World, acts: seq<Act>) {
    acts != [] &&
    (SpoiltBy(git, w, acts[..|acts| - 1]) || Spoils(DoAll(git, w, acts[..|acts| - 1]), acts[|acts| - 1]))
  }

  /** All calls use one key. */
  predicate OneKey(key: StepKey, acts: seq<Act>) {
    forall i | 0 <= i < |acts| :: acts[i].Begin? ==> acts[i].call.key == key
  }

  // ----- The protocol invariant -----

  /** The tree is as before the patch of the intent, or as the patch makes it. */
  predicate Between(git: Git, intent: Intent, tree: Tree) {
    tree == intent.before || (intent.patch != "" && tree == git.apply(intent.patch, intent.before))
  }

  /** What the tree is once the intent is committed. */
  function Result(git: Git, intent: Intent): Tree {
    if intent.patch == "" then intent.before else git.apply(intent.patch, intent.before)
  }

  /** The patch of an intent is the empty one or goes forward from where the intent was written. */
  predicate Sound(git: Git, intent: Intent) {
    intent.patch == "" || Forward(git, intent.patch, intent.before)
  }

  /** What the files show of one key whose calls began from the tree `before`. */
  predicate Settled(git: Git, key: StepKey, before: Tree, fs: Files, spoilt: bool) {
    if key in fs.intents then
      var intent := fs.intents[key];
      && intent.before == before
      && (spoilt ==> key in fs.commits && intent.patch != "")
      && (Sound(git, intent) ==>
            && Between(git, intent, fs.tree)
            && (key in fs.commits ==>
                  fs.commits[key].intent == intent && fs.tree == if spoilt then before else Result(git, intent)))
    else !spoilt && key !in fs.commits && fs.tree == before
  }

  /** A call in progress agrees with the files. */
  predicate Agrees(git: Git, key: StepKey, fs: Files, call: Call, phase: Phase, spoilt: bool) {
    call.key == key &&
    match phase
    case Starting => true
    case Checking(intent, prior) =>
      Holds(key, fs, call, intent) && key !in fs.commits && (prior || fs.tree == intent.before)
    case Present(intent, _) => Holds(key, fs, call, intent) && key !in fs.commits && InTree(git, fs, call, intent)
    case Undoing(intent, _) => Holds(key, fs, call, intent) && !spoilt && InTree(git, fs, call, intent)
    case Done(Applied(commit, _)) => key in fs.commits && commit == fs.commits[key] && commit.intent.patch == call.patch
    case Done(Refused(_)) => true
  }

  /** The intent is the key's, and it is the call's. */
  predicate Holds(key: StepKey, fs: Files, call: Call, intent: Intent) {
    key in fs.intents && fs.intents[key] == intent && intent.patch == call.patch
  }

  predicate InTree(git: Git, fs: Files, call: Call, intent: Intent) {
    call.patch != "" && (Sound(git, intent) ==> fs.tree == Result(git, intent))
  }

  predicate Invariant(git: Git, key: StepKey, before: Tree, w: World, spoilt: bool) {
    && Settled(git, key, before, w.files, spoilt)
    && (w.attempt.Some? ==> Agrees(git, key, w.files, w.attempt.value.call, w.attempt.value.phase, spoilt))
  }

  lemma AdvanceKeepsInvariant(git: Git, key: StepKey, before: Tree, fs: Files, call: Call, phase: Phase, strike: Strike,
                              spoilt: bool)
    requires Settled(git, key, before, fs, spoilt) && Agrees(git, key, fs, call, phase, spoilt)
    ensures var (files, next) := Advance(git, call, fs, phase, strike);
            var now := spoilt || SpoilsAt(key, fs, phase, strike);
            Settled(git, key, before, files, now) && Agrees(git, key, files, call, next, now)
  {
    match phase
    case Starting =>
    case Checking(intent, prior) =>
    case Present(intent, applied) =>
    case Undoing(intent, refusal) =>
    case Done(outcome) =>
  }

  /** No call has been made with the key, and none is in progress. */
  predicate Untouched(key: StepKey, w: World) {
    w.attempt == None && key !in w.files.intents && key !in w.files.commits
  }

  /** The invariant holds at every crash point of every schedule of calls with one key. */
  lemma {:induction false} EveryScheduleKeepsInvariant(git: Git, key: StepKey, w: World, acts: seq<Act>)
    requires Untouched(key, w) && OneKey(key, acts)
    ensures Invariant(git, key, w.files.tree, DoAll(git, w, acts), SpoiltBy(git, w, acts))
    decreases |acts|
  {
    if acts != [] {
      var shorter, act := acts[..|acts| - 1], acts[|acts| - 1];
      EveryScheduleKeepsInvariant(git, key, w, shorter);
      var before := DoAll(git, w, shorter);
      if act.Go? && before.attempt.Some? {
        AdvanceKeepsInvariant(git, key, w.files.tree, before.files, before.attempt.value.call,
                              before.attempt.value.phase, act.strike, SpoiltBy(git, w, shorter));
      }
    }
  }

  /**
   The ledger theorem. Whatever calls are made with one key, wherever they die or raise: if
   the patch whose intent was written goes forward from the tree it was written at, then the
   tree is that tree or the patched one; once the key is committed it is the patched one,
   unless a rollback ran after the commit, and then it is as before; and a call that reports
   success has committed that patch.
   */
  lemma AppliedOnce(git: Git, key: StepKey, w: World, acts: seq<Act>)
    requires Untouched(key, w) && OneKey(key, acts)
    ensures var last := DoAll(git, w, acts);
            var fs := last.files;
            if key !in fs.intents then fs.tree == w.files.tree && key !in fs.commits
            else
              var intent := fs.intents[key];
              && intent.before == w.files.tree
              && (Sound(git, intent) ==>
                    && fs.tree in {w.files.tree, Result(git, intent)}
                    && (key in fs.commits ==>
                          && fs.commits[key].intent == intent
                          && fs.tree == if SpoiltBy(git, w, acts) then w.files.tree else Result(git, intent)))
    ensures var last := DoAll(git, w, acts);
            last.attempt.Some? && last.attempt.value.phase.Done? && last.attempt.value.phase.outcome.Applied? ==>
              && key in last.files.commits
              && last.files.commits[key] == last.attempt.value.phase.outcome.commit
              && last.files.commits[key].intent.patch == last.attempt.value.call.patch
  {
    EveryScheduleKeepsInvariant(git, key, w, acts);
  }

  // ----- A committed key -----

  /** A call for a committed key has nothing left to do. */
  predicate Idle(key: StepKey, fs: Files, attempt: Option<Attempt>)
    requires key in fs.commits
  {
    attempt.Some? ==>
      && attempt.value.call.key == key
      && match attempt.value.phase
         case Starting => true
         case Done(Applied(commit, replayed)) =>
           replayed && fs.commits[key] == commit && commit.intent.patch == attempt.value.call.patch
         case Done(Refused(_)) => true
         case _ => false
  }

  /**
   Once a key is committed no later call with it changes anything, wherever the tree has
   moved since, with the same patch or another, and however calls die or raise; one that
   succeeds answers with the recorded commit of the very patch it was given.
   */
  lemma {:induction false} CommittedKeyIsFinal(git: Git, key: StepKey, w: World, acts: seq<Act>)
    requires key in w.files.commits && w.attempt == None && OneKey(key, acts)
    ensures DoAll(git, w, acts).files == w.files
    ensures Idle(key, w.files, DoAll(git, w, acts).attempt)
    decreases |acts|
  {
    if acts != [] {
      CommittedKeyIsFinal(git, key, w, acts[..|acts| - 1]);
      assert acts[|acts| - 1].Begin? ==> acts[|acts| - 1].call.key == key;
    }
  }

  // ----- Refusals -----

  /** One call, made over and over, that only ever dies. */
  predicate Smooth(call: Call, acts: seq<Act>) {
    forall i | 0 <= i < |acts| :: acts[i] in {Begin(call), Go(Through), Die}
  }

  predicate SmoothInvariant(git: Git, call: Call, before: Tree, w: World) {
    && Invariant(git, call.key, before, w, false)
    && (w.attempt.Some? && w.attempt.value.phase.Undoing? ==> call.key !in w.files.commits)
    && (call.key in w.files.intents ==>
          && w.files.intents[call.key].patch == call.patch && w.files.intents[call.key].root == call.root
          && Objection(git, call, before) == None)
    && (w.attempt.Some? ==> w.attempt.value.call == call)
    && (w.attempt.Some? && w.attempt.value.phase.Done? && w.attempt.value.phase.outcome.Refused?
        ==> w.files.tree == before)
  }

  lemma SmoothStep(git: Git, call: Call, before: Tree, w: World)
    requires SmoothInvariant(git, call, before, w) && w.attempt.Some?
    requires call.patch != "" ==>
      Forward(git, call.patch, before) && git.accepts(call.patch, git.apply(call.patch, before))
    ensures SmoothInvariant(git, call, before, Do(git, w, Go(Through)))
  {
    AdvanceKeepsInvariant(git, call.key, before, w.files, call, w.attempt.value.phase, Through, false);
    match w.attempt.value.phase
    case Starting =>
    case Checking(intent, prior) =>
    case Present(intent, applied) =>
    case Undoing(intent, refusal) =>
    case Done(outcome) =>
  }

  /**
   A call that is refused without an action raising leaves the tree as it was before the
   first attempt: what a failing check finds in place is rolled back, by whichever attempt.
   */
  lemma {:induction false} RefusedMeansRestored(git: Git, call: Call, w: World, acts: seq<Act>)
    requires Untouched(call.key, w) && Smooth(call, acts)
    requires call.patch != "" ==>
      Forward(git, call.patch, w.files.tree) && git.accepts(call.patch, git.apply(call.patch, w.files.tree))
    ensures SmoothInvariant(git, call, w.files.tree, DoAll(git, w, acts))
    decreases |acts|
  {
    if acts != [] {
      var shorter, act := acts[..|acts| - 1], acts[|acts| - 1];
      RefusedMeansRestored(git, call, w, shorter);
      if act == Go(Through) && DoAll(git, w, shorter).attempt.Some? {
        SmoothStep(git, call, w.files.tree, DoAll(git, w, shorter));
      }
    }
  }

  // ----- What the conditions are for -----

  lemma DoMore(git: Git, w: World, acts: seq<Act>, act: Act)
    ensures DoAll(git, w, acts + [act]) == Do(git, DoAll(git, w, acts), act)
  {
    assert (acts + [act])[..|acts|] == acts;
  }

  /** The acts of a call that is not interrupted, as far as the patch being in place. */
  function UntilPresent(call: Call): seq<Act> {
    [Begin(call)] + [Go(Through)] + [Go(Through)]
  }

  lemma ReachesPresent(git: Git, call: Call, w: World, acts: seq<Act>)
    requires DoAll(git, w, acts).attempt == None && call.key !in DoAll(git, w, acts).files.commits
    requires var fs := DoAll(git, w, acts).files;
             && Objection(git, call, fs.tree) == None && call.patch != "" && git.applies(call.patch, fs.tree)
             && (call.key in fs.intents ==>
                   fs.intents[call.key].patch == call.patch && fs.intents[call.key].root == call.root)
    ensures var fs, after := DoAll(git, w, acts).files, DoAll(git, w, acts + UntilPresent(call));
            && after.files.tree == git.apply(call.patch, fs.tree)
            && after.files.commits == fs.commits
            && after.attempt.Some? && after.attempt.value.call == call && after.attempt.value.phase.Present?
            && after.attempt.value.phase.applied
            && call.key in after.files.intents
            && after.files.intents[call.key] == after.attempt.value.phase.intent
            && after.attempt.value.phase.intent
               == (if call.key in fs.intents then fs.intents[call.key]
                   else Intent(call.patch, call.root, fs.tree, git.changed(fs.tree)))
  {
    DoMore(git, w, acts, Begin(call));
    DoMore(git, w, acts + [Begin(call)], Go(Through));
    DoMore(git, w, acts + [Begin(call)] + [Go(Through)], Go(Through));
    assert acts + UntilPresent(call) == acts + [Begin(call)] + [Go(Through)] + [Go(Through)];
  }

  /** Dying between applying and committing, then calling again. */
  function DieThenAgain(call: Call): seq<Act> {
    UntilPresent(call) + [Die] + UntilPresent(call)
  }

  lemma AppliesTwice(git: Git, call: Call, w: World)
    requires Untouched(call.key, w) && call.patch != ""
    requires var once := git.apply(call.patch, w.files.tree);
             && Objection(git, call, w.files.tree) == None && git.applies(call.patch, w.files.tree)
             && Objection(git, call, once) == None && git.applies(call.patch, once)
    ensures Smooth(call, DieThenAgain(call))
    ensures DoAll(git, w, DieThenAgain(call)).files.tree == git.apply(call.patch, git.apply(call.patch, w.files.tree))
  {
    DieThenAgainIsSmooth(call);
    ReachesPresent(git, call, w, []);
    assert [] + UntilPresent(call) == UntilPresent(call);
    DoMore(git, w, UntilPresent(call), Die);
    ReachesPresent(git, call, w, UntilPresent(call) + [Die]);
  }

  lemma DieThenAgainIsSmooth(call: Call)
    ensures Smooth(call, DieThenAgain(call))
  {
  }

  /** Dying between applying and committing, then calling again as far as its first action. */
  function DieThenAsk(call: Call): seq<Act> {
    UntilPresent(call) + [Die] + [Begin(call)] + [Go(Through)]
  }

  lemma AsksInVain(git: Git, call: Call, w: World)
    requires Untouched(call.key, w) && call.patch != "" && git.applies(call.patch, w.files.tree)
    requires Objection(git, call, w.files.tree) == None
    requires Objection(git, call, git.apply(call.patch, w.files.tree)).Some?
    ensures Smooth(call, DieThenAsk(call))
    ensures var last := DoAll(git, w, DieThenAsk(call));
            && last.files.tree == git.apply(call.patch, w.files.tree)
            && last.attempt.Some? && last.attempt.value.phase.Done? && last.attempt.value.phase.outcome.Refused?
  {
    ReachesPresent(git, call, w, []);
    assert [] + UntilPresent(call) == UntilPresent(call);
    DoMore(git, w, UntilPresent(call), Die);
    DoMore(git, w, UntilPresent(call) + [Die], Begin(call));
    DoMore(git, w, UntilPresent(call) + [Die] + [Begin(call)], Go(Through));
  }

  /** In this world the last call was refused. */
  predicate RefusedIn(w: World) {
    w.attempt.Some? && w.attempt.value.phase.Done? && w.attempt.value.phase.outcome.Refused?
  }

  /**
   For a patch that goes forward and shows, a call that is refused with nothing raised always
   leaves the tree as before the first attempt, if and only if what refuses calls before they
   take the locks would not refuse one on the patched tree: a retry must get as far as finding
   the patch in place.
   */
  lemma RefusedMeansRestoredIff(git: Git, call: Call, w: World)
    requires Untouched(call.key, w) && call.patch != "" && Forward(git, call.patch, w.files.tree)
    requires Objection(git, call, w.files.tree) == None && git.apply(call.patch, w.files.tree) != w.files.tree
    ensures (forall acts :: Smooth(call, acts) && RefusedIn(DoAll(git, w, acts)) ==>
               DoAll(git, w, acts).files.tree == w.files.tree)
       <==> Objection(git, call, git.apply(call.patch, w.files.tree)) == None
  {
    if Objection(git, call, git.apply(call.patch, w.files.tree)) == None {
      forall acts | Smooth(call, acts) && RefusedIn(DoAll(git, w, acts))
        ensures DoAll(git, w, acts).files.tree == w.files.tree
      {
        RefusedMeansRestored(git, call, w, acts);
      }
    } else {
      AsksInVain(git, call, w);
      assert RefusedIn(DoAll(git, w, DieThenAsk(call)));
    }
  }

  /**
   The ledger tells a patch that is in place from one that is not by whether it applies. So,
   for a patch that applies, whose second application would show and whose reverse undoes it,
   dying and calling again keeps the tree to the two it may be exactly when the patch does
   not apply to its own result.
   */
  lemma AtMostOnceIff(git: Git, call: Call, w: World)
    requires Untouched(call.key, w) && call.patch != "" && git.applies(call.patch, w.files.tree)
    requires Reversible(git, call.patch, w.files.tree)
    requires var once := git.apply(call.patch, w.files.tree);
             && Objection(git, call, w.files.tree) == None && Objection(git, call, once) == None
             && git.apply(call.patch, once) !in {w.files.tree, once}
    ensures (forall acts :: Smooth(call, acts) ==>
               DoAll(git, w, acts).files.tree in {w.files.tree, git.apply(call.patch, w.files.tree)})
       <==> !git.applies(call.patch, git.apply(call.patch, w.files.tree))
  {
    var once := git.apply(call.patch, w.files.tree);
    if git.applies(call.patch, once) {
      AppliesTwice(git, call, w);
    } else {
      forall acts | Smooth(call, acts)
        ensures DoAll(git, w, acts).files.tree in {w.files.tree, once}
      {
        RefusedMeansRestored(git, call, w, acts);
      }
    }
  }

  /**
   Raising after the commit is durable breaks the protocol: the rollback takes the patch out
   while the key stays committed, and the next call reports a success that is not in the tree.
   */
  lemma LateInterruptLies(git: Git, call: Call, w: World)
    requires Untouched(call.key, w) && call.patch != "" && Forward(git, call.patch, w.files.tree)
    requires Objection(git, call, w.files.tree) == None
    requires git.apply(call.patch, w.files.tree) != w.files.tree
    requires OnlyDeclared(git, Intent(call.patch, call.root, w.files.tree, git.changed(w.files.tree)),
                          git.apply(call.patch, w.files.tree))
    ensures var late := DoAll(git, w, UntilPresent(call) + [Go(RaiseAfter)] + [Go(Through)] + [Die]
                              + [Begin(call)] + [Go(Through)]);
            && late.files.tree == w.files.tree
            && call.key in late.files.commits && late.files.commits[call.key].after != late.files.tree
            && late.attempt == Some(Attempt(call, Done(Applied(late.files.commits[call.key], true))))
  {
    var acts := UntilPresent(call);
    ReachesPresent(git, call, w, []);
    assert [] + acts == acts;
    DoMore(git, w, acts, Go(RaiseAfter));
    DoMore(git, w, acts + [Go(RaiseAfter)], Go(Through));
    DoMore(git, w, acts + [Go(RaiseAfter)] + [Go(Through)], Die);
    DoMore(git, w, acts + [Go(RaiseAfter)] + [Go(Through)] + [Die], Begin(call));
    DoMore(git, w, acts + [Go(RaiseAfter)] + [Go(Through)] + [Die] + [Begin(call)], Go(Through));
  }

  /** One call from its beginning to its end, with nothing raised. */
  function Whole(git: Git, call: Call, fs: Files): (Files, Phase) {
    var (a, p) := Advance(git, call, fs, Starting, Through);
    var (b, q) := Advance(git, call, a, p, Through);
    var (c, r) := Advance(git, call, b, q, Through);
    Advance(git, call, c, r, Through)
  }

  lemma WholeIsDone(git: Git, call: Call, fs: Files)
    ensures Whole(git, call, fs).1.Done?
  {
  }

  // ----- What a call comes to, with nothing raised -----

  /** The key was never used. */
  predicate Unused(key: StepKey, fs: Files) {
    key !in fs.intents && key !in fs.commits
  }

  /** A call is over before it takes the locks, and has changed nothing. */
  predicate RefusedOutright(git: Git, call: Call, fs: Files, refusal: Refusal) {
    Whole(git, call, fs) == (fs, Done(Refused(refusal)))
  }

  /**
   A patch over the size limit, a patch that validation refuses and an empty patch of a call that
   does not say that no changes are needed are refused outright, each by its name and whatever the
   ledger holds; nothing else is refused by those names.
   */
  lemma RefusedOutrightIff(git: Git, call: Call, fs: Files)
    ensures |call.patch| > call.maxBytes ==> RefusedOutright(git, call, fs, TooLarge)
    ensures |call.patch| <= call.maxBytes && call.patch != "" && !git.accepts(call.patch, fs.tree) ==>
              RefusedOutright(git, call, fs, InvalidPatch)
    ensures call.patch == "" && !call.noChangesNeeded ==> RefusedOutright(git, call, fs, EmptyPatch)
    ensures var p := Whole(git, call, fs).1;
            && (p == Done(Refused(TooLarge)) ==> |call.patch| > call.maxBytes)
            && (p == Done(Refused(InvalidPatch)) ==> call.patch != "" && !git.accepts(call.patch, fs.tree))
            && (p == Done(Refused(EmptyPatch)) ==> call.patch == "" && !call.noChangesNeeded)
  {
  }

  /** The call is within the size limit, and its patch is valid or empty with no changes needed. */
  predicate Fit(git: Git, call: Call, tree: Tree) {
    |call.patch| <= call.maxBytes && if call.patch == "" then call.noChangesNeeded else git.accepts(call.patch, tree)
  }

  /** The call ends with a new commit under its key, and otherwise only the intent and this tree. */
  predicate EndsCommitted(git: Git, call: Call, fs: Files, commit: Commit) {
    Whole(git, call, fs) ==
      (Files(commit.after, fs.intents[call.key := commit.intent], fs.commits[call.key := commit]),
       Done(Applied(commit, false)))
  }

  /** The call succeeded with a commit of its own, having applied its patch or not. */
  predicate Succeeds(p: Phase, applied: bool) {
    p.Done? && p.outcome.Applied? && !p.outcome.replayed && p.outcome.commit.applied == applied
  }

  /** The intent that a first call writes. */
  function FirstIntent(git: Git, call: Call, tree: Tree): Intent {
    Intent(call.patch, call.root, tree, git.changed(tree))
  }

  /**
   The first call with a key commits without applying anything if and only if its patch is empty
   and no changes are needed; the tree is then as it was.
   */
  lemma FirstNoopIff(git: Git, call: Call, fs: Files)
    requires Unused(call.key, fs)
    ensures Succeeds(Whole(git, call, fs).1, false) <==> call.patch == "" && call.noChangesNeeded
    ensures call.patch == "" && call.noChangesNeeded ==>
              EndsCommitted(git, call, fs, Commit(FirstIntent(git, call, fs.tree), false, false, fs.tree))
  {
  }

  /** Every path that is changed in a tree was changed before or is declared by the patch. */
  predicate ChangesNoMore(git: Git, patch: Patch, changed: set<Path>, tree: Tree) {
    forall path | path in git.changed(tree) :: path in changed || path in git.declared(patch)
  }

  predicate ChangesDeclared(git: Git, patch: Patch, tree: Tree) {
    ChangesNoMore(git, patch, git.changed(tree), git.apply(patch, tree))
  }

  /**
   The first call with a fit non-empty patch: it ends applied if and only if the patch applies
   and changes no path that is neither declared nor changed before. A patch that does change one
   is taken out again; one that does not apply never gets in.
   */
  lemma FirstPatchIff(git: Git, call: Call, fs: Files)
    requires Unused(call.key, fs) && call.patch != "" && Fit(git, call, fs.tree)
    requires Reversible(git, call.patch, fs.tree)
    ensures Succeeds(Whole(git, call, fs).1, true)
       <==> git.applies(call.patch, fs.tree) && ChangesDeclared(git, call.patch, fs.tree)
    ensures git.applies(call.patch, fs.tree) && ChangesDeclared(git, call.patch, fs.tree) ==>
              EndsCommitted(git, call, fs,
                            Commit(FirstIntent(git, call, fs.tree), true, false, git.apply(call.patch, fs.tree)))
    ensures git.applies(call.patch, fs.tree) && !ChangesDeclared(git, call.patch, fs.tree) ==>
              LeavesIntent(git, call, fs, Undeclared)
    ensures !git.applies(call.patch, fs.tree) ==>
              LeavesIntent(git, call, fs, if git.reverses(call.patch, fs.tree) then AlreadyPresent else Rejected)
  {
    OnlyDeclaredMeans(git, FirstIntent(git, call, fs.tree), git.apply(call.patch, fs.tree));
  }

  /** The call is refused with the tree as it was, and its intent is all it leaves. */
  predicate LeavesIntent(git: Git, call: Call, fs: Files, refusal: Refusal) {
    Whole(git, call, fs) ==
      (fs.(intents := fs.intents[call.key := FirstIntent(git, call, fs.tree)]), Done(Refused(refusal)))
  }

  /**
   A call with a key whose intent is written but not committed is refused for another patch or
   from another worktree, and changes nothing.
   */
  lemma IntentBinds(git: Git, call: Call, fs: Files)
    requires Fit(git, call, fs.tree) && call.key in fs.intents && call.key !in fs.commits
    ensures fs.intents[call.key].patch != call.patch <==> Whole(git, call, fs) == (fs, Done(Refused(IntentForOther)))
    ensures fs.intents[call.key].patch == call.patch && fs.intents[call.key].root != call.root
       <==> Whole(git, call, fs) == (fs, Done(Refused(IntentElsewhere)))
  {
  }

  /** The call is made again after one that left this intent, uncommitted. */
  predicate IsRetry(git: Git, call: Call, fs: Files, intent: Intent) {
    && Fit(git, call, fs.tree) && call.key in fs.intents && fs.intents[call.key] == intent && call.key !in fs.commits
    && intent.patch == call.patch && intent.root == call.root
  }

  /** A no-op is recovered from where its intent was written, and refused anywhere else. */
  lemma RetriedNoopIff(git: Git, call: Call, fs: Files, intent: Intent)
    requires IsRetry(git, call, fs, intent) && call.patch == ""
    ensures fs.tree == intent.before ==> EndsCommitted(git, call, fs, Commit(intent, false, true, fs.tree))
    ensures fs.tree != intent.before <==> Whole(git, call, fs) == (fs, Done(Refused(NoopChanged)))
  {
    assert fs.intents[call.key := intent] == fs.intents;
  }

  /**
   A patch is applied if it applies and claimed as recovered if it is found in place; either way it is
   committed if nothing but declared paths and those changed before the intent is changed then, and
   else reversed, with a complaint of its own if that does not lead back to where the intent was
   written. A patch that neither applies nor reverses changes nothing.
   */
  lemma RetriedPatchIff(git: Git, call: Call, fs: Files, intent: Intent)
    requires IsRetry(git, call, fs, intent) && call.patch != "" && Reversible(git, call.patch, fs.tree)
    ensures var applies, found := git.applies(call.patch, fs.tree), git.reverses(call.patch, fs.tree);
            var present := if applies then git.apply(call.patch, fs.tree) else fs.tree;
            var declared := ChangesNoMore(git, call.patch, intent.changed, present);
            && (!applies && !found <==> Whole(git, call, fs) == (fs, Done(Refused(Rejected))))
            && (applies || found ==>
                  if declared then EndsCommitted(git, call, fs, Commit(intent, applies, !applies, present))
                  else
                    var undone := git.unapply(call.patch, present);
                    Whole(git, call, fs) ==
                      (fs.(tree := undone),
                       Done(Refused(if undone == intent.before then Undeclared else NotRolledBack))))
  {
    var present := if git.applies(call.patch, fs.tree) then git.apply(call.patch, fs.tree) else fs.tree;
    OnlyDeclaredMeans(git, intent, present);
    assert fs.intents[call.key := intent] == fs.intents;
  }

  lemma OnlyDeclaredMeans(git: Git, intent: Intent, tree: Tree)
    ensures OnlyDeclared(git, intent, tree) <==> ChangesNoMore(git, intent.patch, intent.changed, tree)
  {
    forall path | path in git.changed(tree) && path !in intent.changed && path !in git.declared(intent.patch)
      ensures !OnlyDeclared(git, intent, tree)
    {
      assert path in git.changed(tree) - intent.changed;
    }
  }

  /** A patch that is already in the tree, before any call with the key. */
  predicate InPlace(git: Git, call: Call, fs: Files) {
    && call.key !in fs.intents && call.key !in fs.commits && call.patch != ""
    && Objection(git, call, fs.tree) == None
    && !git.applies(call.patch, fs.tree) && git.reverses(call.patch, fs.tree)
  }

  /** A call made again after one that left the intent, raising once it has found the patch in place. */
  function Interrupted(git: Git, call: Call, fs: Files): (Files, Phase) {
    var (a, p) := Advance(git, call, fs, Starting, Through);
    var (b, q) := Advance(git, call, a, p, Through);
    var (c, r) := Advance(git, call, b, q, RaiseBefore);
    Advance(git, call, c, r, Through)
  }

  /**
   A patch already in place is refused by the first call with a key, yet its intent stays
   behind. A second call with that key takes the patch for its own: it commits it as
   recovered, and if it is made to roll back it takes out of the tree what no call put there.
   */
  lemma InPlaceIsRefusedOnce(git: Git, call: Call, fs: Files)
    requires InPlace(git, call, fs)
    ensures var (first, outcome) := Whole(git, call, fs);
            && outcome == Done(Refused(AlreadyPresent)) && first.tree == fs.tree && first.commits == fs.commits
            && (var (second, again) := Whole(git, call, first);
                && second.tree == fs.tree && call.key in second.commits && second.commits[call.key].recovered
                && again == Done(Applied(second.commits[call.key], false)))
            && (var (second, again) := Interrupted(git, call, first);
                && second.tree == git.unapply(call.patch, fs.tree) && second.commits == fs.commits
                && again.Done? && again.outcome.Refused?)
  {
    var intent := Intent(call.patch, call.root, fs.tree, git.changed(fs.tree));
    var first := fs.(intents := fs.intents[call.key := intent]);
    assert Whole(git, call, fs) == (first, Done(Refused(AlreadyPresent)));
    assert OnlyDeclared(git, intent, fs.tree);
  }

  /** The first call is refused and a second one with its key succeeds. */
  predicate RefusedThenClaimed(git: Git, call: Call, fs: Files) {
    var (first, outcome) := Whole(git, call, fs);
    var (_, again) := Whole(git, call, first);
    outcome.Done? && outcome.outcome.Refused? && again.Done? && again.outcome.Applied?
  }

  /**
   With nothing raised, a patch that the first call with a key refuses is claimed by the
   second if and only if it was already in place.
   */
  lemma RetryClaimsIff(git: Git, call: Call, fs: Files)
    requires call.key !in fs.intents && call.key !in fs.commits && call.patch != ""
             && Objection(git, call, fs.tree) == None
    requires git.applies(call.patch, fs.tree) ==>
               Forward(git, call.patch, fs.tree) && Objection(git, call, git.apply(call.patch, fs.tree)) == None
    ensures RefusedThenClaimed(git, call, fs) <==> InPlace(git, call, fs)
  {
    if InPlace(git, call, fs) {
      InPlaceIsRefusedOnce(git, call, fs);
    }
  }

  // ----- Two Gits -----

  /** A Git whose patches create the empty file they name. */
  const CREATING: Git := Git(
    (p: Patch, t: Tree) => p !in t,
    (p: Patch, t: Tree) => t[p := ""],
    (p: Patch, t: Tree) => p in t && t[p] == "",
    (p: Patch, t: Tree) => t - {p},
    (t: Tree) => t.Keys,
    (p: Patch, t: Tree) => true,
    (p: Patch) => {p})

  /** Its patches meet every condition above. */
  lemma CreatingGoesForward(p: Patch, t: Tree)
    ensures CREATING.applies(p, t) ==> Forward(CREATING, p, t)
    ensures CREATING.applies(p, t)
            ==> OnlyDeclared(CREATING, Intent(p, "", t, CREATING.changed(t)), CREATING.apply(p, t))
  {
    if CREATING.applies(p, t) {
      assert t[p := ""] - {p} == t;
    }
  }

  const JOURNAL: Path := "journal"

  /** A Git whose patches append their text to one file, wherever it ends. */
  const APPENDING: Git := Git(
    (p: Patch, t: Tree) => p != "" && JOURNAL in t,
    (p: Patch, t: Tree) => if JOURNAL in t then t[JOURNAL := t[JOURNAL] + p] else t,
    (p: Patch, t: Tree) => JOURNAL in t && EndsWith(t[JOURNAL], p),
    (p: Patch, t: Tree) =>
      if JOURNAL in t && EndsWith(t[JOURNAL], p) then t[JOURNAL := t[JOURNAL][..|t[JOURNAL]| - |p|]] else t,
    (t: Tree) => t.Keys,
    (p: Patch, t: Tree) => true,
    (p: Patch) => {JOURNAL})

  predicate EndsWith(text: string, end: string) {
    |end| <= |text| && text[|text| - |end|..] == end
  }

  const A_KEY := StepKey("run", StepInputs(Apply, "task", map[], map[], 0, "1"))

  /** A first call with a patch, on a tree of one file. */
  function FirstCall(patch: Patch): Call {
    Call(A_KEY, patch, false, "", |patch|)
  }

  function FirstWorld(path: Path): World {
    World(Files(map[path := ""], map[], map[]), None)
  }

  /** A patch that appends is reversible and applies to its own result: dying and retrying appends it twice. */
  lemma AppendingIsAppliedTwice(patch: Patch)
    requires patch != ""
    ensures var call, w := FirstCall(patch), FirstWorld(JOURNAL);
            && Reversible(APPENDING, patch, w.files.tree)
            && Smooth(call, DieThenAgain(call))
            && DoAll(APPENDING, w, DieThenAgain(call)).files.tree == map[JOURNAL := patch + patch]
  {
    var call, w := FirstCall(patch), FirstWorld(JOURNAL);
    var once := APPENDING.apply(patch, w.files.tree);
    assert "" + patch == patch;
    assert once == map[JOURNAL := patch];
    assert APPENDING.apply(patch, once) == map[JOURNAL := patch + patch];
    assert EndsWith(patch, patch) && patch[..0] == "";
    assert APPENDING.unapply(patch, once) == w.files.tree;
    AppliesTwice(APPENDING, call, w);
  }

  /** A file that is there already: creating it is refused, and then claimed by a retry. */
  lemma CreatedFileIsClaimed()
    ensures InPlace(CREATING, FirstCall("notes"), FirstWorld("notes").files)
    ensures RefusedThenClaimed(CREATING, FirstCall("notes"), FirstWorld("notes").files)
  {
    RetryClaimsIff(CREATING, FirstCall("notes"), FirstWorld("notes").files);
  }

  /** Creating a file, interrupted after the commit: the file is gone, and the retry reports it created. */
  lemma CreatedFileIsLost()
    ensures var call, w := FirstCall("notes"), FirstWorld("readme");
            var late := DoAll(CREATING, w, UntilPresent(call) + [Go(RaiseAfter)] + [Go(Through)] + [Die]
                                 + [Begin(call)] + [Go(Through)]);
            && late.files.tree == w.files.tree && call.key in late.files.commits
            && late.attempt == Some(Attempt(call, Done(Applied(late.files.commits[call.key], true))))
  {
    var call, w := FirstCall("notes"), FirstWorld("readme");
    assert "notes"[0] != "readme"[0];
    CreatingGoesForward("notes", w.files.tree);
    LateInterruptLies(CREATING, call, w);
  }

  /** CREATING with links in place of files: a path that is a link already is refused before the locks are taken. */
  const LINKING: Git := CREATING.(accepts := (p: Patch, t: Tree) => p !in t)

  /** A link, made by a call that dies before its commit: the retry is refused, and the link is left behind. */
  lemma LinkIsLeftBehind()
    ensures var call, w := FirstCall("notes"), FirstWorld("readme");
            var last := DoAll(LINKING, w, DieThenAsk(call));
            && Forward(LINKING, "notes", w.files.tree) && Smooth(call, DieThenAsk(call))
            && RefusedIn(last) && "notes" in last.files.tree && "notes" !in w.files.tree
  {
    var call, w := FirstCall("notes"), FirstWorld("readme");
    assert "notes"[0] != "readme"[0];
    assert w.files.tree["notes" := ""] - {"notes"} == w.files.tree;
    AsksInVain(LINKING, call, w);
  }
}
