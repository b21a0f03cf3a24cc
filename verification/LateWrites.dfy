/**
 A history in which a completed run exports a tree that it neither tested nor reviewed: its
 operators are honest, and somebody writes the worktree between the review and the export.
 */
module LateWrites {
  import opened Values
  import opened Graphs
  import opened Runs
  import opened Walks
  import opened CodingGraph
  import opened CodingRuns
  import opened LongestRun
  import opened Ledger
  import opened TreeSafety
  import opened Wrappers

  // ----- A fingerprint that tells trees apart -----

  function Strokes(n: nat): string {
    if n == 0 then "" else "1" + Strokes(n - 1)
  }

  /** A text behind its length. */
  function Framed(text: string): string {
    Strokes(|text|) + ":" + text
  }

  lemma {:induction false} StrokesEnd(m: nat, n: nat, x: string, y: string)
    requires Strokes(m) + ":" + x == Strokes(n) + ":" + y
    ensures m == n && x == y
    decreases m
  {
    var all := Strokes(m) + ":" + x;
    StrokesBegin(m, x);
    StrokesBegin(n, y);
    if m == 0 {
      assert x == all[1..] == y;
    } else {
      assert all[1..] == Strokes(m - 1) + ":" + x;
      assert all[1..] == Strokes(n - 1) + ":" + y;
      StrokesEnd(m - 1, n - 1, x, y);
    }
  }

  lemma StrokesBegin(n: nat, x: string)
    ensures (Strokes(n) + ":" + x)[0] == if n == 0 then ':' else '1'
  {
  }

  lemma FramesEnd(a: string, b: string, x: string, y: string)
    requires Framed(a) + x == Framed(b) + y
    ensures a == b && x == y
  {
    assert Framed(a) + x == Strokes(|a|) + ":" + (a + x);
    assert Framed(b) + y == Strokes(|b|) + ":" + (b + y);
    StrokesEnd(|a|, |b|, a + x, b + y);
    assert a == (a + x)[..|a|] && x == (a + x)[|a|..];
  }

  /** The files of a tree one after the other, in some order that the tree fixes. */
  ghost function Listing(t: Tree): string
    decreases |t|
  {
    if t == map[] then ""
    else
      var path :| path in t;
      Framed(path) + (Framed(t[path]) + Listing(t - {path}))
  }

  lemma {:induction false} ListingsTellApart(t: Tree, u: Tree)
    requires Listing(t) == Listing(u)
    ensures t == u
    decreases |t|
  {
    if t != map[] && u != map[] {
      var p :| p in t && Listing(t) == Framed(p) + (Framed(t[p]) + Listing(t - {p}));
      var q :| q in u && Listing(u) == Framed(q) + (Framed(u[q]) + Listing(u - {q}));
      FramesEnd(p, q, Framed(t[p]) + Listing(t - {p}), Framed(u[q]) + Listing(u - {q}));
      FramesEnd(t[p], u[q], Listing(t - {p}), Listing(u - {q}));
      ListingsTellApart(t - {p}, u - {q});
      assert t == (t - {p})[p := t[p]] && u == (u - {q})[q := u[q]];
    }
  }

  /** A fingerprint of any tree; that of the tree without files is the text that the tests report. */
  ghost function Listed(): Fingerprint {
    (t: Tree) => if t == map[] then "empty" else "tree" + Listing(t)
  }

  lemma ListedTellsApart()
    ensures TellsApart(Listed())
  {
    var fingerprint := Listed();
    forall t, u | fingerprint(t) == fingerprint(u)
      ensures t == u
    {
      assert "empty"[0] != "tree"[0];
      if t != map[] && u != map[] {
        assert ("tree" + Listing(t))[4..] == Listing(t);
        assert ("tree" + Listing(u))[4..] == Listing(u);
        ListingsTellApart(t, u);
      }
    }
  }

  // ----- A run with honest operators -----

  /** The worktree all along, and what is written when the review has looked. */
  const CLEAN: Tree := map[]
  const WRITTEN: Tree := map["notes" := ""]

  /** What the steps of a run of n steps see: the clean tree, but for the last, the export. */
  function SightsOf(n: nat): (sights: seq<Sight>)
    ensures |sights| == n
  {
    seq(n, i => if i + 1 == n then Sight(WRITTEN, WRITTEN) else Sight(CLEAN, CLEAN))
  }

  /** The only report in the data is that of the clean tree. */
  predicate ReportsClean(data: Fields) {
    TestedIn(data) in {Nil, Str("empty")}
  }

  lemma MergeReports(n: NodeId, data: Fields, delta: Fields)
    requires ReportsAt(n, delta) && ReportsClean(data)
    ensures ReportsClean(MergeFields(data, delta))
  {
    if n == Tests {
      ReportIsFound(data, delta);
    } else {
      MergedKey(data, delta, "test_report");
    }
  }

  lemma {:induction false} RunReportsClean(g: GraphSpec, s: Snapshot, log: seq<StepInput>, t: Snapshot)
    requires Replay(g, s, log) == Ok(t) && Fresh(g, s) && ReportsClean(s.data)
    requires |log| == |t.completedNodes|
             && forall i | 0 <= i < |log| :: ReportsAt(t.completedNodes[i], log[i].result.delta)
    ensures ReportsClean(t.data)
    decreases |log|
  {
    if log != [] {
      var shorter, input, before := ReplayLast(g, s, log, t);
      StepAppends(g, before, input, t);
      assert ReportsAt(t.completedNodes[|shorter|], log[|shorter|].result.delta);
      forall i | 0 <= i < |shorter|
        ensures ReportsAt(before.completedNodes[i], shorter[i].result.delta)
      {
        assert ReportsAt(t.completedNodes[i], log[i].result.delta);
      }
      PrefixReplays(g, s, shorter, before, |shorter|);
      RunReportsClean(g, s, shorter, before);
      MergeReports(before.currentNode, before.data, input.result.delta);
    }
  }

  lemma CleanStepIsHonest(s: Snapshot, result: NodeResult, sight: Sight)
    requires ReportsClean(s.data) && ReportsAt(s.currentNode, result.delta)
    requires s.currentNode in {Tests, Review} ==> sight == Sight(CLEAN, CLEAN)
    ensures Honest(Listed(), s, result, sight)
  {
  }

  lemma CleanRunIsHonest(g: GraphSpec, s: Snapshot, log: seq<StepInput>, t: Snapshot)
    requires Replay(g, s, log) == Ok(t) && Fresh(g, s) && ReportsClean(s.data) && Worded(log, t.completedNodes)
    requires log != [] && t.completedNodes[|log| - 1] == Finish
    ensures AllHonest(Listed(), g, s, log, SightsOf(|log|))
  {
    forall i | 0 <= i < |log|
      ensures HonestAt(Listed(), g, s, log, SightsOf(|log|), i)
    {
      var before, _ := StateAt(g, s, log, t, i);
      PrefixReplays(g, s, log, t, i);
      forall j | 0 <= j < i
        ensures ReportsAt(before.completedNodes[j], log[..i][j].result.delta)
      {
        assert ReportsAt(t.completedNodes[j], log[j].result.delta);
      }
      RunReportsClean(g, s, log[..i], before);
      assert ReportsAt(t.completedNodes[i], log[i].result.delta);
      CleanStepIsHonest(before, log[i].result, SightsOf(|log|)[i]);
    }
  }

  // ----- The write -----

  /** The review looks, somebody writes, and the export looks. */
  function LateWrite(n: nat): seq<Moment>
    requires n >= 2
  {
    [Look(n - 2), Write(WRITTEN), Look(n - 1)]
  }

  lemma LateWriteIsSeen(n: nat)
    requires n >= 4
    ensures Looks(CLEAN, LateWrite(n), SightsOf(n), n - 2, 0, 0) && Looks(CLEAN, LateWrite(n), SightsOf(n), n - 1, 2, 2)
  {
    var moments := LateWrite(n);
    assert moments[..0] == [];
    assert moments[..2][|moments[..2]| - 1] == Write(WRITTEN);
  }

  /** This run completed, with operators that are honest in what they see. */
  ghost predicate CompletedHonestly(f: Family, s: Snapshot, log: seq<StepInput>, t: Snapshot) {
    && ObeyingRun(f, s, log) == Some(t) && t.status == Completed && |log| >= 4
    && AllHonest(Listed(), f.Graph(), s, log, SightsOf(|log|))
  }

  lemma RunIsHonest(f: Family, s: Snapshot, log: seq<StepInput>, t: Snapshot)
    requires CompletesUsing(f, Review, s, log, t) && Fresh(f.Graph(), s) && ReportsClean(s.data)
    ensures CompletedHonestly(f, s, log, t)
  {
    CompletedRunsPassedEveryGate(f, s, log, t);
    CleanRunIsHonest(f.Graph(), s, log, t);
  }

  lemma NothingReported()
    ensures ReportsClean(INITIAL_COUNTERS)
  {
  }

  /**
   A run of the shipped graph under the default budget, new with this task, that completes with
   honest operators, though the tree it exports is neither the tested nor the reviewed one.
   */
  lemma LateWriteIsExported(task: string, runId: string) returns (log: seq<StepInput>, t: Snapshot)
    ensures TellsApart(Listed())
    ensures CompletedHonestly(SHIPPED, NewRun(SHIPPED.Graph(), task, DEFAULT_BUDGET, runId, map[]), log, t)
    ensures Looks(CLEAN, LateWrite(|log|), SightsOf(|log|), |log| - 2, 0, 0)
    ensures Looks(CLEAN, LateWrite(|log|), SightsOf(|log|), |log| - 1, 2, 2)
    ensures SightsOf(|log|)[|log| - 1].start == WRITTEN != CLEAN == SightsOf(|log|)[|log| - 3].end
  {
    log, t := HonestRun(task, runId, NewRun(SHIPPED.Graph(), task, DEFAULT_BUDGET, runId, map[]));
    ListedTellsApart();
    LateWriteIsSeen(|log|);
    assert "notes" in WRITTEN;
  }

  lemma HonestRun(task: string, runId: string, s: Snapshot) returns (log: seq<StepInput>, t: Snapshot)
    requires s == NewRun(SHIPPED.Graph(), task, DEFAULT_BUDGET, runId, map[])
    ensures CompletedHonestly(SHIPPED, s, log, t)
  {
    NewRunIs(SHIPPED.Graph(), task, DEFAULT_BUDGET, runId, s);
    NothingReported();
    EveryGateCanFail(SHIPPED, Review, task, DEFAULT_BUDGET, runId);
    log, t :| CompletesUsing(SHIPPED, Review, s, log, t);
    RunIsHonest(SHIPPED, s, log, t);
  }
}
