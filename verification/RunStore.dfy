/**
 The checkpoint store: one row per run with its latest state, an append-only log of events
 numbered per run, and the results of committed steps. Every method is one transaction.
 */
module RunStore {
  import opened Graphs
  import opened Runs
  import opened Keys
  import opened Wrappers

  /** What the log keeps of a committed step: the result, and the edge the controller chose. */
  datatype Entry = Entry(
    node: NodeId, result: NodeResult, cached: bool, nextNode: Option<NodeId>, status: Status, edge: Option<EdgeKey>)

  datatype Event =
    | RunStarted(node: NodeId, graph: string, version: string)
    | NodeCompleted(entry: Entry)
    | RunEnded(node: NodeId, status: Status, error: Option<RunError>)

  datatype Row = Row(runId: string, seqNo: nat, event: Event)

  datatype Tables = Tables(runs: map<string, Snapshot>, events: seq<Row>, results: map<StepKey, NodeResult>)

  const EMPTY := Tables(map[], [], map[])

  /** The rows of one run, in the order of their numbers. */
  function RowsOf(events: seq<Row>, runId: string): seq<Row> {
    if events == [] then []
    else
      var last := events[|events| - 1];
      RowsOf(events[..|events| - 1], runId) + if last.runId == runId then [last] else []
  }

  /** `COALESCE(MAX(seq), 0)` over the rows of a run. */
  function MaxSeq(rows: seq<Row>): nat {
    if rows == [] then 0
    else
      var before, last := MaxSeq(rows[..|rows| - 1]), rows[|rows| - 1].seqNo;
      if last > before then last else before
  }

  predicate NumberTaken(rows: seq<Row>, seqNo: nat) {
    exists r | r in rows :: r.seqNo == seqNo
  }

  /** The inserting of `create_run`; a key that is taken fails the transaction. */
  function Created(t: Tables, s: Snapshot): Option<Tables> {
    var id := s.header.runId;
    if id in t.runs || NumberTaken(RowsOf(t.events, id), 0) then None
    else Some(Tables(t.runs[id := s],
                     t.events + [Row(id, 0, RunStarted(s.currentNode, s.header.graphName, s.header.graphVersion))],
                     t.results))
  }

  /** Updating the run's row, if there is one, and appending an event under the next number. */
  function Logged(t: Tables, s: Snapshot, event: Event): Tables {
    var id := s.header.runId;
    t.(runs := if id in t.runs then t.runs[id := s] else t.runs,
       events := t.events + [Row(id, MaxSeq(RowsOf(t.events, id)) + 1, event)])
  }

  function Committed(t: Tables, s: Snapshot, key: StepKey, entry: Entry): Tables {
    Logged(if entry.cached then t else t.(results := t.results[key := entry.result]), s, NodeCompleted(entry))
  }

  function Ended(t: Tables, s: Snapshot): Tables {
    Logged(t, s, RunEnded(s.currentNode, s.status, s.error))
  }

  // ----- Event numbers -----

  /** The rows are numbered from zero without gaps. */
  predicate Numbered(rows: seq<Row>) {
    forall i | 0 <= i < |rows| :: rows[i].seqNo == i
  }

  /** Every run has events, numbered from zero, and every event belongs to a run. */
  predicate ValidFor(t: Tables, runId: string) {
    Numbered(RowsOf(t.events, runId)) && (runId in t.runs <==> RowsOf(t.events, runId) != [])
  }

  ghost predicate Valid(t: Tables) {
    forall runId :: ValidFor(t, runId)
  }

  lemma {:induction false} MaxOfNumbered(rows: seq<Row>)
    requires Numbered(rows)
    ensures MaxSeq(rows) == if rows == [] then 0 else |rows| - 1
    decreases |rows|
  {
    if rows != [] {
      MaxOfNumbered(rows[..|rows| - 1]);
    }
  }

  lemma RowsOfMore(events: seq<Row>, row: Row, runId: string)
    ensures RowsOf(events + [row], runId) == RowsOf(events, runId) + if row.runId == runId then [row] else []
  {
    assert (events + [row])[..|events|] == events;
  }

  /** Creating a run numbers its first event zero and leaves the other runs alone. */
  lemma CreatedKeepsValid(t: Tables, s: Snapshot)
    requires Valid(t)
    ensures Created(t, s) == None <==> s.header.runId in t.runs
    ensures Created(t, s).Some? ==>
      && Valid(Created(t, s).value)
      && Created(t, s).value.runs == t.runs[s.header.runId := s]
      && |RowsOf(Created(t, s).value.events, s.header.runId)| == 1
  {
    var id := s.header.runId;
    assert ValidFor(t, id);
    if id !in t.runs {
      var row := Row(id, 0, RunStarted(s.currentNode, s.header.graphName, s.header.graphVersion));
      CreatedIs(t, s, row);
      forall other
        ensures ValidFor(Created(t, s).value, other)
      {
        assert ValidFor(t, other);
        RowsOfMore(t.events, row, other);
      }
      RowsOfMore(t.events, row, id);
    }
  }

  lemma CreatedIs(t: Tables, s: Snapshot, row: Row)
    requires s.header.runId !in t.runs && RowsOf(t.events, s.header.runId) == []
    requires row == Row(s.header.runId, 0, RunStarted(s.currentNode, s.header.graphName, s.header.graphVersion))
    ensures Created(t, s) == Some(Tables(t.runs[s.header.runId := s], t.events + [row], t.results))
  {
  }

  /** An event of a run gets the next number; the log of every run only grows. */
  lemma LoggedKeepsValid(t: Tables, s: Snapshot, event: Event)
    requires Valid(t) && s.header.runId in t.runs
    ensures var id, next := s.header.runId, Logged(t, s, event);
            && Valid(next) && next.runs == t.runs[id := s] && next.results == t.results
            && RowsOf(next.events, id) == RowsOf(t.events, id) + [Row(id, |RowsOf(t.events, id)|, event)]
            && forall other | other != id :: RowsOf(next.events, other) == RowsOf(t.events, other)
  {
    var id, next := s.header.runId, Logged(t, s, event);
    assert ValidFor(t, id);
    MaxOfNumbered(RowsOf(t.events, id));
    var row := Row(id, MaxSeq(RowsOf(t.events, id)) + 1, event);
    RowsOfMore(t.events, row, id);
    forall other
      ensures ValidFor(next, other)
      ensures other != id ==> RowsOf(next.events, other) == RowsOf(t.events, other)
    {
      assert ValidFor(t, other);
      RowsOfMore(t.events, row, other);
    }
  }

  // ----- What is read back -----

  function Loaded(t: Tables, runId: string): Option<Snapshot> {
    if runId in t.runs then Some(t.runs[runId]) else None
  }

  function Remembered(t: Tables, key: StepKey): Option<NodeResult> {
    if key in t.results then Some(t.results[key]) else None
  }

  /** A run is found as it was last stored, by the commit of a step or at its end; other runs as before. */
  lemma LoadedAsStored(t: Tables, s: Snapshot, key: StepKey, entry: Entry, runId: string)
    requires Valid(t) && s.header.runId in t.runs
    ensures Loaded(Committed(t, s, key, entry), runId) == if runId == s.header.runId then Some(s) else Loaded(t, runId)
    ensures Loaded(Ended(t, s), runId) == if runId == s.header.runId then Some(s) else Loaded(t, runId)
    ensures Loaded(t, runId).Some? <==> RowsOf(t.events, runId) != []
  {
    assert ValidFor(t, runId);
  }

  /** A result is found under its key as it was last committed, unless the commit was of a result found already. */
  lemma RememberedAsCommitted(t: Tables, s: Snapshot, key: StepKey, entry: Entry, other: StepKey)
    ensures Remembered(Committed(t, s, key, entry), other)
         == if other == key && !entry.cached then Some(entry.result) else Remembered(t, other)
    ensures Remembered(Ended(t, s), other) == Remembered(t, other)
  {
  }

  // ----- The store -----

  class SqliteRunStore {
    var runs: map<string, Snapshot>
    var events: seq<Row>
    var results: map<StepKey, NodeResult>

    constructor ()
      ensures Now() == EMPTY && Valid(Now())
    {
      runs, events, results := map[], [], map[];
      new;
      forall runId
        ensures ValidFor(Now(), runId)
      {
      }
    }

    function Now(): Tables
      reads this
    {
      Tables(runs, events, results)
    }

    method CreateRun(state: Snapshot) returns (ok: bool)
      requires Valid(Now())
      modifies this
      ensures Valid(Now())
      ensures ok <==> state.header.runId !in old(runs)
      ensures Created(old(Now()), state) == if ok then Some(Now()) else None
      ensures !ok ==> Now() == old(Now())
    {
      CreatedKeepsValid(Now(), state);
      var id := state.header.runId;
      if id in runs {
        return false;
      }
      runs := runs[id := state];
      events := events + [Row(id, 0, RunStarted(state.currentNode, state.header.graphName, state.header.graphVersion))];
      return true;
    }

    /** The row is updated if there is one; the event is appended in any case. */
    method Append(state: Snapshot, event: Event)
      modifies this`runs, this`events
      ensures Now() == Logged(old(Now()), state, event)
      ensures Valid(old(Now())) && state.header.runId in old(runs) ==> Valid(Now())
    {
      if Valid(Now()) && state.header.runId in runs {
        LoggedKeepsValid(Now(), state, event);
      }
      if state.header.runId in runs {
        runs := runs[state.header.runId := state];
      }
      var next := MaxSeq(RowsOf(events, state.header.runId)) + 1;
      events := events + [Row(state.header.runId, next, event)];
    }

    method CommitStep(state: Snapshot, key: StepKey, entry: Entry)
      modifies this
      ensures Now() == Committed(old(Now()), state, key, entry)
      ensures Valid(old(Now())) && state.header.runId in old(runs) ==> Valid(Now())
    {
      if !entry.cached {
        results := results[key := entry.result];
        if Valid(old(Now())) {
          ResultsDoNotNumber(old(Now()), Now());
        }
      }
      Append(state, NodeCompleted(entry));
    }

    method SaveTerminalEvent(state: Snapshot)
      modifies this`runs, this`events
      ensures Now() == Ended(old(Now()), state)
      ensures Valid(old(Now())) && state.header.runId in old(runs) ==> Valid(Now())
    {
      Append(state, RunEnded(state.currentNode, state.status, state.error));
    }

    method LoadRun(runId: string) returns (state: Option<Snapshot>)
      requires Valid(Now())
      ensures state == Loaded(Now(), runId)
      ensures state.Some? <==> RowsOf(events, runId) != []
    {
      assert ValidFor(Now(), runId);
      if runId !in runs {
        return None;
      }
      return Some(runs[runId]);
    }

    method GetStepResult(key: StepKey) returns (result: Option<NodeResult>)
      ensures result == Remembered(Now(), key)
    {
      if key !in results {
        return None;
      }
      return Some(results[key]);
    }
  }

  lemma ResultsDoNotNumber(t: Tables, u: Tables)
    requires Valid(t) && u == t.(results := u.results)
    ensures Valid(u)
  {
    forall runId
      ensures ValidFor(u, runId)
    {
      assert ValidFor(t, runId);
    }
  }
}
