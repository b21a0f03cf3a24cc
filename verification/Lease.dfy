/**
 The per-run lease: a lock of the process around a lock on a file. Any number of processes
 and threads ask for it, enter, commit, leave and die in any order.

 The file lock belongs to the open handle that took it: unlocking another handle does not
 free it, and it is freed when its handle is closed or its process dies.
 */
module Lease {
  import opened Runs
  import opened Wrappers

  /** A thread of a process. */
  datatype Agent = Agent(pid: nat, tid: nat)

  /** Where an agent stands in `run_lock`; inside, it may have loaded the run. */
  datatype Place =
    | Out
    | Opening
    | Opened
    | Inside(loaded: Option<seq<StepInput>>)
    | Unlocking
    | Closing
    | Releasing

  /** The locks of the processes and of the file, the agents, and the committed steps of the run. */
  datatype State = State(
    threadLocks: map<nat, Agent>, fileLock: Option<Agent>, places: map<Agent, Place>, stored: seq<StepInput>)
  {
    function At(a: Agent): Place {
      if a in places then places[a] else Out
    }

    function Put(a: Agent, place: Place): State {
      this.(places := places[a := place])
    }
  }

  const START := State(map[], None, map[], [])

  datatype Move =
    | Ask(agent: Agent)
    | Open(agent: Agent, ok: bool)
    | Lock(agent: Agent)
    | Load(agent: Agent)
    | Commit(agent: Agent, step: StepInput)
    | Leave(agent: Agent)
    | Unlock(agent: Agent)
    | Close(agent: Agent)
    | Release(agent: Agent)
    | Crash(pid: nat)

  /** The thread lock is taken if it is free; otherwise the caller is refused at once. */
  function DoAsk(s: State, a: Agent): State {
    if a.pid in s.threadLocks then s
    else s.(threadLocks := s.threadLocks[a.pid := a]).Put(a, Opening)
  }

  /** The file lock is taken if it is free; otherwise the caller is refused, and cleans up. */
  function DoLock(s: State, a: Agent): State {
    if s.fileLock == None then s.(fileLock := Some(a)).Put(a, Inside(None)) else s.Put(a, Unlocking)
  }

  /** Unlocking or closing a handle frees the file lock only if that handle holds it. */
  function Freed(s: State, a: Agent): State {
    if s.fileLock == Some(a) then s.(fileLock := None) else s
  }

  /** Death takes the locks of the process along. */
  function DoCrash(s: State, pid: nat): State {
    State(s.threadLocks - {pid},
          if s.fileLock.Some? && s.fileLock.value.pid == pid then None else s.fileLock,
          map a | a in s.places && a.pid != pid :: s.places[a],
          s.stored)
  }

  /** A move that is not the agent's next leaves the state as it is. */
  function Do(s: State, m: Move): State {
    match m
    case Crash(pid) => DoCrash(s, pid)
    case Ask(a) => if s.At(a).Out? then DoAsk(s, a) else s
    case Open(a, ok) => if s.At(a).Opening? then s.Put(a, if ok then Opened else Releasing) else s
    case Lock(a) => if s.At(a).Opened? then DoLock(s, a) else s
    case Load(a) => if s.At(a).Inside? then s.Put(a, Inside(Some(s.stored))) else s
    case Commit(a, step) =>
      if s.At(a).Inside? && s.At(a).loaded.Some? then
        var log := s.At(a).loaded.value + [step];
        s.(stored := log).Put(a, Inside(Some(log)))
      else s
    case Leave(a) => if s.At(a).Inside? then s.Put(a, Unlocking) else s
    case Unlock(a) => if s.At(a).Unlocking? then Freed(s, a).Put(a, Closing) else s
    case Close(a) => if s.At(a).Closing? then Freed(s, a).Put(a, Releasing) else s
    case Release(a) => if s.At(a).Releasing? then s.(threadLocks := s.threadLocks - {a.pid}).Put(a, Out) else s
  }

  function DoAll(s: State, moves: seq<Move>): State {
    if moves == [] then s else Do(DoAll(s, moves[..|moves| - 1]), moves[|moves| - 1])
  }

  // ----- The invariant -----

  /** The agent is anywhere between taking its process's lock and giving it back. */
  predicate AtWork(place: Place) {
    !place.Out?
  }

  /** What the locks say of one agent is where it stands. */
  predicate Accords(s: State, a: Agent) {
    && (AtWork(s.At(a)) <==> a.pid in s.threadLocks && s.threadLocks[a.pid] == a)
    && (s.At(a).Inside? ==> s.fileLock == Some(a))
    && (s.fileLock == Some(a) ==> s.At(a).Inside? || s.At(a).Unlocking?)
    && (s.At(a).Inside? && s.At(a).loaded.Some? ==> s.At(a).loaded.value == s.stored)
  }

  ghost predicate Invariant(s: State) {
    && (forall a :: Accords(s, a))
    && (forall pid | pid in s.threadLocks :: s.threadLocks[pid].pid == pid)
  }

  lemma MoveKeepsInvariant(s: State, m: Move)
    requires Invariant(s)
    ensures Invariant(Do(s, m))
  {
    forall a
      ensures Accords(Do(s, m), a)
    {
      assert Accords(s, a);
      if !m.Crash? {
        assert Accords(s, m.agent);
      }
    }
  }

  lemma {:induction false} EveryHistoryKeepsInvariant(moves: seq<Move>)
    ensures Invariant(DoAll(START, moves))
    decreases |moves|
  {
    if moves != [] {
      EveryHistoryKeepsInvariant(moves[..|moves| - 1]);
      MoveKeepsInvariant(DoAll(START, moves[..|moves| - 1]), moves[|moves| - 1]);
    }
  }

  // ----- What the lease is for -----

  /** At most one agent of all processes is inside at any time. */
  lemma OneInside(moves: seq<Move>, a: Agent, b: Agent)
    requires DoAll(START, moves).At(a).Inside? && DoAll(START, moves).At(b).Inside?
    ensures a == b
  {
    EveryHistoryKeepsInvariant(moves);
    assert Accords(DoAll(START, moves), a) && Accords(DoAll(START, moves), b);
  }

  /** Every commit extends what is stored: the history of a run is linear. */
  lemma CommitsExtendStored(moves: seq<Move>, m: Move)
    ensures var s, t := DoAll(START, moves), DoAll(START, moves + [m]);
            t.stored == if m.Commit? && s.At(m.agent).Inside? && s.At(m.agent).loaded.Some? then s.stored + [m.step]
                        else s.stored
  {
    EveryHistoryKeepsInvariant(moves);
    assert (moves + [m])[..|moves|] == moves;
    if m.Commit? {
      assert Accords(DoAll(START, moves), m.agent);
    }
  }

  /** What matters of a state: places of agents that are out need not be listed. */
  ghost predicate Same(s: State, t: State) {
    s.threadLocks == t.threadLocks && s.fileLock == t.fileLock && s.stored == t.stored && forall a :: s.At(a) == t.At(a)
  }

  /** The agent is the one that its process's lock was taken by. */
  predicate HoldsThread(s: State, a: Agent) {
    a.pid in s.threadLocks && s.threadLocks[a.pid] == a
  }

  /** A move that is neither the agent's own nor the death of its process. */
  predicate Foreign(m: Move, a: Agent) {
    match m
    case Crash(pid) => pid != a.pid
    case _ => m.agent != a
  }

  lemma ForeignMoveKeeps(s: State, m: Move, a: Agent)
    requires Invariant(s) && Foreign(m, a)
    ensures var t := Do(s, m);
            && t.At(a) == s.At(a) && (HoldsThread(t, a) <==> HoldsThread(s, a))
            && (t.fileLock == Some(a) <==> s.fileLock == Some(a))
  {
    assert Accords(s, a);
    if !m.Crash? {
      assert Accords(s, m.agent);
    }
  }

  /**
   Whatever others do meanwhile, refused or not, in any order: they neither move an agent nor
   free a lock it holds nor take one for it.
   */
  lemma {:induction false} OthersFreeNothing(moves: seq<Move>, more: seq<Move>, a: Agent)
    requires forall i | 0 <= i < |more| :: Foreign(more[i], a)
    ensures var s, t := DoAll(START, moves), DoAll(START, moves + more);
            && t.At(a) == s.At(a) && (HoldsThread(t, a) <==> HoldsThread(s, a))
            && (t.fileLock == Some(a) <==> s.fileLock == Some(a))
    decreases |more|
  {
    if more == [] {
      assert moves + more == moves;
    } else {
      var shorter, m := more[..|more| - 1], more[|more| - 1];
      OthersFreeNothing(moves, shorter, a);
      EveryHistoryKeepsInvariant(moves + shorter);
      ForeignMoveKeeps(DoAll(START, moves + shorter), m, a);
      assert (moves + more)[..|moves + more| - 1] == moves + shorter && (moves + more)[|moves + more| - 1] == m;
    }
  }

  /** Among any moves of others: an agent that is out, refused or through, has leaked no lock. */
  lemma OutHoldsNothing(moves: seq<Move>, a: Agent)
    requires DoAll(START, moves).At(a).Out?
    ensures !HoldsThread(DoAll(START, moves), a) && DoAll(START, moves).fileLock != Some(a)
  {
    EveryHistoryKeepsInvariant(moves);
    assert Accords(DoAll(START, moves), a);
  }

  /**
   A caller that is refused, by its process or by the file, with nobody else moving: all is as before
   once it is out.
   */
  lemma RefusalLeavesNoTrace(s: State, a: Agent)
    requires Invariant(s) && s.At(a).Out?
    ensures a.pid in s.threadLocks ==> Do(s, Ask(a)) == s
    ensures a.pid !in s.threadLocks && s.fileLock.Some? ==>
      var refused := Do(Do(Do(s, Ask(a)), Open(a, true)), Lock(a));
      refused.At(a) == Unlocking && Same(Do(Do(Do(refused, Unlock(a)), Close(a)), Release(a)), s)
    ensures a.pid !in s.threadLocks ==> Same(Do(Do(Do(s, Ask(a)), Open(a, false)), Release(a)), s)
  {
    assert Accords(s, a);
  }

  /** With the file lock free and no thread of its process at work, a caller gets in. */
  lemma FreeLeaseIsGranted(s: State, a: Agent)
    requires Invariant(s) && s.At(a).Out? && a.pid !in s.threadLocks && s.fileLock == None
    ensures Do(Do(Do(s, Ask(a)), Open(a, true)), Lock(a)).At(a) == Inside(None)
  {
  }

  /** The death of the process inside frees the lease. */
  lemma DeathFreesTheLease(s: State, a: Agent)
    requires Invariant(s) && s.At(a).Inside?
    ensures var t := Do(s, Crash(a.pid));
            t.fileLock == None && a.pid !in t.threadLocks && forall b: Agent | b.pid == a.pid :: t.At(b).Out?
  {
    assert Accords(s, a);
  }
}
