/**
 The workspace as an object whose worktree and ledger files are updated in place. Its
 `ApplyPatch` goes, for every way its actions can raise, through exactly the durable states
 of the ledger protocol, so that what holds at every crash point of the protocol holds at
 every crash point of the method.
 */
module Workspaces {
  import opened Keys
  import opened Ledger
  import opened Wrappers

  /** What strikes each of the four actions of a call, if the call comes to it. */
  datatype Strikes = Strikes(start: Strike, check: Strike, present: Strike, undo: Strike)

  function StrikeAt(strikes: Strikes, phase: Phase): Strike {
    match phase
    case Starting => strikes.start
    case Checking(_, _) => strikes.check
    case Present(_, _) => strikes.present
    case Undoing(_, _) => strikes.undo
    case Done(_) => Through
  }

  function Ahead(phase: Phase): nat {
    match phase
    case Starting => 4
    case Checking(_, _) => 3
    case Present(_, _) => 2
    case Undoing(_, _) => 1
    case Done(_) => 0
  }

  /** The durable states a call passes through from a phase on, and how it ends. */
  datatype Course = Course(states: seq<Files>, outcome: Outcome)

  function CourseFrom(git: Git, call: Call, fs: Files, phase: Phase, strikes: Strikes): Course
    decreases Ahead(phase)
  {
    if phase.Done? then Course([], phase.outcome)
    else
      var (files, next) := Advance(git, call, fs, phase, StrikeAt(strikes, phase));
      var rest := CourseFrom(git, call, files, next, strikes);
      Course([files] + rest.states, rest.outcome)
  }

  lemma CourseStep(git: Git, call: Call, fs: Files, phase: Phase, strikes: Strikes, files: Files, next: Phase)
    requires !phase.Done? && Advance(git, call, fs, phase, StrikeAt(strikes, phase)) == (files, next)
    ensures var rest := CourseFrom(git, call, files, next, strikes);
            CourseFrom(git, call, fs, phase, strikes) == Course([files] + rest.states, rest.outcome)
    ensures next.Done? ==> CourseFrom(git, call, fs, phase, strikes) == Course([files], next.outcome)
    ensures TreeAfter(git, call, fs, phase, strikes) == TreeAfter(git, call, files, next, strikes)
    ensures next.Done? ==> TreeAfter(git, call, fs, phase, strikes) == files.tree
  {
  }

  /** The acts of the protocol that make up a call. */
  function ActsOf(git: Git, call: Call, fs: Files, phase: Phase, strikes: Strikes): seq<Act>
    decreases Ahead(phase)
  {
    if phase.Done? then []
    else
      var (files, next) := Advance(git, call, fs, phase, StrikeAt(strikes, phase));
      [Go(StrikeAt(strikes, phase))] + ActsOf(git, call, files, next, strikes)
  }

  /** Every durable state of a call is one that the protocol reaches after as many acts. */
  lemma {:induction false} CourseIsProtocol(git: Git, call: Call, fs: Files, phase: Phase, strikes: Strikes, w: World,
                                            acts: seq<Act>, k: nat)
    requires DoAll(git, w, acts) == World(fs, Some(Attempt(call, phase)))
    requires k < |CourseFrom(git, call, fs, phase, strikes).states|
    ensures |ActsOf(git, call, fs, phase, strikes)| == |CourseFrom(git, call, fs, phase, strikes).states|
    ensures DoAll(git, w, acts + ActsOf(git, call, fs, phase, strikes)[..k + 1]).files
         == CourseFrom(git, call, fs, phase, strikes).states[k]
    decreases Ahead(phase)
  {
    var strike := StrikeAt(strikes, phase);
    var (files, next) := Advance(git, call, fs, phase, strike);
    var later := ActsOf(git, call, files, next, strikes);
    DoMore(git, w, acts, Go(strike));
    CourseStep(git, call, fs, phase, strikes, files, next);
    SameLength(git, call, fs, phase, strikes);
    OneActFurther(acts, Go(strike), later, k);
    if k > 0 {
      CourseIsProtocol(git, call, files, next, strikes, w, acts + [Go(strike)], k - 1);
    }
  }

  lemma OneActFurther(acts: seq<Act>, act: Act, later: seq<Act>, k: nat)
    requires k <= |later|
    ensures acts + ([act] + later)[..k + 1] == acts + [act] + later[..k]
    ensures later[..0] == []
  {
  }

  lemma {:induction false} SameLength(git: Git, call: Call, fs: Files, phase: Phase, strikes: Strikes)
    ensures |ActsOf(git, call, fs, phase, strikes)| == |CourseFrom(git, call, fs, phase, strikes).states|
    decreases Ahead(phase)
  {
    if !phase.Done? {
      var (files, next) := Advance(git, call, fs, phase, StrikeAt(strikes, phase));
      SameLength(git, call, files, next, strikes);
    }
  }

  /** The tree that a call from some phase on leaves behind. */
  function TreeAfter(git: Git, call: Call, fs: Files, phase: Phase, strikes: Strikes): Tree {
    var states := CourseFrom(git, call, fs, phase, strikes).states;
    if states == [] then fs.tree else states[|states| - 1].tree
  }

  /** An action raises at a place where nothing takes the patch out again. */
  predicate LeavesPatch(git: Git, call: Call, fs: Files, strikes: Strikes) {
    var intent := Intent(call.patch, call.root, fs.tree, git.changed(fs.tree));
    var patched := git.apply(call.patch, fs.tree);
    && strikes.start == Through
    && (|| strikes.check == RaiseAfter
        || (&& strikes.check == Through
            && (strikes.present != Through || !OnlyDeclared(git, intent, patched))
            && strikes.undo == RaiseBefore))
  }

  /** The call can begin, and its patch goes forward and shows. */
  predicate Begins(git: Git, call: Call, fs: Files) {
    && call.key !in fs.intents && call.key !in fs.commits && call.patch != ""
    && Objection(git, call, fs.tree) == None
    && Forward(git, call.patch, fs.tree) && git.apply(call.patch, fs.tree) != fs.tree
  }

  /** Whether a call that has come to an end, having begun with these files, left its key committed. */
  predicate CommitsFrom(git: Git, call: Call, fs: Files, phase: Phase, strikes: Strikes) {
    var states := CourseFrom(git, call, fs, phase, strikes).states;
    call.key in (if states == [] then fs else states[|states| - 1]).commits
  }

  lemma CommitsNext(git: Git, call: Call, fs: Files, phase: Phase, strikes: Strikes, files: Files, next: Phase)
    requires !phase.Done? && Advance(git, call, fs, phase, StrikeAt(strikes, phase)) == (files, next)
    ensures CommitsFrom(git, call, fs, phase, strikes) <==> CommitsFrom(git, call, files, next, strikes)
    ensures CourseFrom(git, call, fs, phase, strikes).outcome == CourseFrom(git, call, files, next, strikes).outcome
    ensures TreeAfter(git, call, fs, phase, strikes) == TreeAfter(git, call, files, next, strikes)
    ensures next.Done? ==>
      && (CommitsFrom(git, call, files, next, strikes) <==> call.key in files.commits)
      && CourseFrom(git, call, files, next, strikes).outcome == next.outcome
      && TreeAfter(git, call, files, next, strikes) == files.tree
  {
  }

  /** How a first call goes on once its patch is in the tree: it commits or takes the patch out again. */
  lemma PresentEnds(git: Git, call: Call, fs: Files, intent: Intent, b: Files, strikes: Strikes)
    requires Begins(git, call, fs) && intent == Intent(call.patch, call.root, fs.tree, git.changed(fs.tree))
    requires b.tree == git.apply(call.patch, fs.tree) && call.key !in b.commits
    ensures var phase, only := Present(intent, true), OnlyDeclared(git, intent, b.tree);
            && (CourseFrom(git, call, b, phase, strikes).outcome.Applied? <==> strikes.present == Through && only)
            && (CommitsFrom(git, call, b, phase, strikes) <==> strikes.present != RaiseBefore && only)
            && TreeAfter(git, call, b, phase, strikes)
            == if (strikes.present == Through && only) || strikes.undo == RaiseBefore then b.tree else fs.tree
  {
    var (c, r) := Advance(git, call, b, Present(intent, true), strikes.present);
    CommitsNext(git, call, b, Present(intent, true), strikes, c, r);
    if !r.Done? {
      var (d, z) := Advance(git, call, c, r, strikes.undo);
      CommitsNext(git, call, c, r, strikes, d, z);
    }
  }

  /**
   A first call that is refused leaves its patch in the tree exactly when applying it raised
   after its effect, or the rollback it came to raised before its own. Otherwise the tree is
   as it was; and a call that succeeds has changed it by the patch.
   */
  lemma RefusedLeavesPatchIff(git: Git, call: Call, fs: Files, strikes: Strikes)
    requires Begins(git, call, fs)
    ensures var outcome := CourseFrom(git, call, fs, Starting, strikes).outcome;
            var tree := TreeAfter(git, call, fs, Starting, strikes);
            && tree in {fs.tree, git.apply(call.patch, fs.tree)}
            && (outcome.Applied? ==> tree != fs.tree)
            && (outcome.Refused? ==> (tree != fs.tree <==> LeavesPatch(git, call, fs, strikes)))
  {
    var (a, p) := Advance(git, call, fs, Starting, strikes.start);
    CommitsNext(git, call, fs, Starting, strikes, a, p);
    if !p.Done? {
      var (b, q) := Advance(git, call, a, p, strikes.check);
      CommitsNext(git, call, a, p, strikes, b, q);
      if !q.Done? {
        PresentEnds(git, call, fs, p.intent, b, strikes);
      }
    }
  }

  /** The key is committed and the patch is not in the tree, once the call has ended. */
  predicate Lies(git: Git, call: Call, fs: Files, strikes: Strikes) {
    CommitsFrom(git, call, fs, Starting, strikes) && TreeAfter(git, call, fs, Starting, strikes) == fs.tree
  }

  /**
   A first call leaves its key committed and its patch out of the tree if and only if it
   raises after the commit is in place and the rollback then takes effect.
   */
  lemma LateInterruptIff(git: Git, call: Call, fs: Files, strikes: Strikes)
    requires Begins(git, call, fs)
    ensures Lies(git, call, fs, strikes) <==>
      && strikes.start == Through && strikes.check == Through && strikes.present == RaiseAfter
      && strikes.undo != RaiseBefore
      && OnlyDeclared(git, Intent(call.patch, call.root, fs.tree, git.changed(fs.tree)), git.apply(call.patch, fs.tree))
  {
    var (a, p) := Advance(git, call, fs, Starting, strikes.start);
    CommitsNext(git, call, fs, Starting, strikes, a, p);
    if !p.Done? {
      var (b, q) := Advance(git, call, a, p, strikes.check);
      CommitsNext(git, call, a, p, strikes, b, q);
      if !q.Done? {
        PresentEnds(git, call, fs, p.intent, b, strikes);
      }
    }
  }

  /** Creating a file, when applying raises after its effect: the call is refused and the file is there. */
  lemma RefusedFileIsCreated()
    ensures var call, fs := FirstCall("notes"), FirstWorld("readme").files;
            var strikes := Strikes(Through, RaiseAfter, Through, Through);
            && Begins(CREATING, call, fs)
            && CourseFrom(CREATING, call, fs, Starting, strikes).outcome.Refused?
            && "notes" in TreeAfter(CREATING, call, fs, Starting, strikes) && "notes" !in fs.tree
  {
    var call, fs := FirstCall("notes"), FirstWorld("readme").files;
    var strikes := Strikes(Through, RaiseAfter, Through, Through);
    assert "notes"[0] != "readme"[0];
    CreatingGoesForward("notes", fs.tree);
    RefusedLeavesPatchIff(CREATING, call, fs, strikes);
    var (a, p) := Advance(CREATING, call, fs, Starting, Through);
    CommitsNext(CREATING, call, fs, Starting, strikes, a, p);
    var (b, q) := Advance(CREATING, call, a, p, RaiseAfter);
    CommitsNext(CREATING, call, a, p, strikes, b, q);
  }

  /** What a call comes to in so many actions that go through. */
  function Onward(git: Git, call: Call, fs: Files, phase: Phase, n: nat): (Files, Phase)
    decreases n
  {
    if n == 0 then (fs, phase)
    else
      var (files, next) := Advance(git, call, fs, phase, Through);
      Onward(git, call, files, next, n - 1)
  }

  const CALM := Strikes(Through, Through, Through, Through)

  function LastOf(states: seq<Files>, fs: Files): Files {
    if states == [] then fs else states[|states| - 1]
  }

  lemma {:induction false} CalmCourse(git: Git, call: Call, fs: Files, phase: Phase, n: nat)
    requires n >= Ahead(phase)
    ensures var course := CourseFrom(git, call, fs, phase, CALM);
            Onward(git, call, fs, phase, n) == (LastOf(course.states, fs), Done(course.outcome))
    decreases n
  {
    if n > 0 {
      var (files, next) := Advance(git, call, fs, phase, Through);
      CalmCourse(git, call, files, next, n - 1);
      if !phase.Done? {
        CourseStep(git, call, fs, phase, CALM, files, next);
      }
    }
  }

  /** A call that nothing strikes is a whole call of the protocol. */
  lemma CalmCallIsWhole(git: Git, call: Call, fs: Files)
    ensures var course := CourseFrom(git, call, fs, Starting, CALM);
            Whole(git, call, fs) == (LastOf(course.states, fs), Done(course.outcome))
  {
    CalmCourse(git, call, fs, Starting, 4);
    var (a, p) := Advance(git, call, fs, Starting, Through);
    var (b, q) := Advance(git, call, a, p, Through);
    var (c, r) := Advance(git, call, b, q, Through);
    assert Onward(git, call, c, r, 1) == Advance(git, call, c, r, Through);
    assert Onward(git, call, b, q, 2) == Onward(git, call, c, r, 1);
    assert Onward(git, call, a, p, 3) == Onward(git, call, b, q, 2);
  }

  class Workspace {
    const git: Git
    const root: string
    const maxBytes: nat
    var tree: Tree
    var intents: map<StepKey, Intent>
    var commits: map<StepKey, Commit>
    /** The durable states passed through so far. */
    ghost var passed: seq<Files>

    constructor (git: Git, root: string, maxBytes: nat, files: Files)
      ensures this.git == git && this.root == root && this.maxBytes == maxBytes && OnDisk() == files && passed == []
    {
      this.git, this.root, this.maxBytes := git, root, maxBytes;
      tree, intents, commits, passed := files.tree, files.intents, files.commits, [];
    }

    function OnDisk(): Files
      reads this
    {
      Files(tree, intents, commits)
    }

    function CallOf(key: StepKey, patch: Patch, noChangesNeeded: bool): Call {
      Call(key, patch, noChangesNeeded, root, maxBytes)
    }

    ghost method Pass()
      modifies this`passed
      ensures passed == old(passed) + [OnDisk()]
    {
      passed := passed + [OnDisk()];
    }

    /** `_rollback_patch`, and the error the call ends with. */
    method RollBack(call: Call, intent: Intent, refusal: Refusal, strike: Strike) returns (outcome: Outcome)
      modifies this`tree, this`passed
      ensures AdvanceUndo(git, call, old(OnDisk()), intent, refusal, strike) == (OnDisk(), Done(outcome))
      ensures passed == old(passed) + [OnDisk()]
    {
      if strike.RaiseBefore? {
        outcome := Refused(Raised);
      } else if !git.reverses(call.patch, tree) {
        outcome := Refused(NotRolledBack);
      } else {
        tree := git.unapply(call.patch, tree);
        if strike.RaiseAfter? {
          outcome := Refused(Raised);
        } else if tree != intent.before {
          outcome := Refused(NotRolledBack);
        } else {
          outcome := Refused(refusal);
        }
      }
      Pass();
    }

    /** The ledger lookups and the intent: the intent to go on with, or how the call ends. */
    method Prepare(call: Call, strike: Strike) returns (next: Phase)
      requires Objection(git, call, tree) == None
      modifies this`intents, this`passed
      ensures AdvanceStart(git, call, old(OnDisk()), strike) == (OnDisk(), next)
      ensures passed == old(passed) + [OnDisk()]
    {
      if strike.RaiseBefore? {
        next := Done(Refused(Raised));
      } else if call.key in commits {
        var commit := commits[call.key];
        next := Done(if commit.intent.patch != call.patch then Refused(KeyUsedForOther) else Applied(commit, true));
      } else if call.key in intents {
        var intent := intents[call.key];
        if intent.patch != call.patch {
          next := Done(Refused(IntentForOther));
        } else if intent.root != call.root {
          next := Done(Refused(IntentElsewhere));
        } else {
          next := if strike.RaiseAfter? then Done(Refused(Raised)) else Checking(intent, true);
        }
      } else {
        var intent := Intent(call.patch, call.root, tree, git.changed(tree));
        intents := intents[call.key := intent];
        next := if strike.RaiseAfter? then Done(Refused(Raised)) else Checking(intent, false);
      }
      Pass();
    }

    /** The no-op commit, or the patch put in place or found there. */
    method PutInPlace(call: Call, intent: Intent, prior: bool, strike: Strike) returns (next: Phase)
      modifies this`tree, this`commits, this`passed
      ensures AdvanceCheck(git, call, old(OnDisk()), intent, prior, strike) == (OnDisk(), next)
      ensures passed == old(passed) + [OnDisk()]
    {
      if strike.RaiseBefore? {
        next := Done(Refused(Raised));
      } else if call.patch == "" {
        if prior && tree != intent.before {
          next := Done(Refused(NoopChanged));
        } else {
          var commit := Commit(intent, false, prior, tree);
          commits := commits[call.key := commit];
          next := Done(if strike.RaiseAfter? then Refused(Raised) else Applied(commit, false));
        }
      } else if git.applies(call.patch, tree) {
        tree := git.apply(call.patch, tree);
        next := if strike.RaiseAfter? then Done(Refused(Raised)) else Present(intent, true);
      } else if git.reverses(call.patch, tree) && prior {
        next := if strike.RaiseAfter? then Done(Refused(Raised)) else Present(intent, false);
      } else {
        next := Done(Refused(if git.reverses(call.patch, tree) then AlreadyPresent else Rejected));
      }
      Pass();
    }

    /** The check after the patch is in place, and the commit. */
    method Seal(call: Call, intent: Intent, applied: bool, strike: Strike) returns (next: Phase)
      modifies this`commits, this`passed
      ensures AdvancePresent(git, call, old(OnDisk()), intent, applied, strike) == (OnDisk(), next)
      ensures passed == old(passed) + [OnDisk()]
    {
      if strike.RaiseBefore? {
        next := Undoing(intent, Raised);
      } else if !(git.changed(tree) - intent.changed <= git.declared(intent.patch)) {
        next := Undoing(intent, Undeclared);
      } else {
        var commit := Commit(intent, applied, !applied, tree);
        commits := commits[call.key := commit];
        next := if strike.RaiseAfter? then Undoing(intent, Raised) else Done(Applied(commit, false));
      }
      Pass();
    }

    /** The commit, or the rollback if the check fails or raises. */
    method Conclude(call: Call, present: Phase, strikes: Strikes) returns (outcome: Outcome)
      requires present.Present?
      modifies this`tree, this`commits, this`passed
      ensures Went(call, old(OnDisk()), present, strikes, old(passed), outcome)
    {
      ghost var before := OnDisk();
      var sealed := Seal(call, present.intent, present.applied, strikes.present);
      CourseStep(git, call, before, present, strikes, OnDisk(), sealed);
      if sealed.Done? {
        return sealed.outcome;
      }
      ghost var between := OnDisk();
      outcome := RollBack(call, sealed.intent, sealed.refusal, strikes.undo);
      CourseStep(git, call, between, sealed, strikes, OnDisk(), Done(outcome));
    }

    method Carry(call: Call, checking: Phase, strikes: Strikes) returns (outcome: Outcome)
      requires checking.Checking?
      modifies this`tree, this`commits, this`passed
      ensures Went(call, old(OnDisk()), checking, strikes, old(passed), outcome)
    {
      ghost var before := OnDisk();
      var present := PutInPlace(call, checking.intent, checking.prior, strikes.check);
      CourseStep(git, call, before, checking, strikes, OnDisk(), present);
      if present.Done? {
        return present.outcome;
      }
      outcome := Conclude(call, present, strikes);
    }

    /** The object went through the course of the protocol from a phase on. */
    ghost predicate Went(call: Call, fs: Files, phase: Phase, strikes: Strikes, before: seq<Files>, outcome: Outcome)
      reads this
    {
      var course := CourseFrom(git, call, fs, phase, strikes);
      && course.states != [] && OnDisk() == course.states[|course.states| - 1]
      && passed == before + course.states
      && outcome == course.outcome
    }

    /** `apply_patch`: exactly a call of the protocol, durable state by durable state. */
    method ApplyPatch(key: StepKey, patch: Patch, noChangesNeeded: bool, strikes: Strikes) returns (outcome: Outcome)
      modifies this`tree, this`intents, this`commits, this`passed
      ensures Went(CallOf(key, patch, noChangesNeeded), old(OnDisk()), Starting, strikes, old(passed), outcome)
    {
      var call := CallOf(key, patch, noChangesNeeded);
      ghost var before := OnDisk();
      if Objection(git, call, tree).Some? {
        outcome := Refused(Objection(git, call, tree).value);
        Pass();
        CourseStep(git, call, before, Starting, strikes, before, Done(outcome));
        return;
      }
      var checking := Prepare(call, strikes.start);
      CourseStep(git, call, before, Starting, strikes, OnDisk(), checking);
      if checking.Done? {
        return checking.outcome;
      }
      outcome := Carry(call, checking, strikes);
    }
  }
}
