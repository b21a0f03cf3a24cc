/**
 The controllers. Whatever residual logits a policy adds, the learned controller chooses
 among exactly the edges the runtime offers, and with its residuals scaled to nothing it
 chooses as it would without a policy.
 */
module Controllers {
  import opened Graphs
  import opened Runs
  import opened GraphTables
  import opened Decisions
  import opened Wrappers

  datatype Route = Fast | Deep | RepairRoute

  datatype StopAction = ToContinue | ToRepair | ToFinish | ToAbort

  const ROUTES := [Fast, Deep, RepairRoute]

  const STOP_ACTIONS := [ToContinue, ToRepair, ToFinish, ToAbort]

  /** The residual logits of a policy for one decision; none when no policy was asked. */
  type Residual = Option<seq<real>>

  /** `_add_logits`. */
  function Added(base: seq<real>, residual: seq<real>, scale: real): (sum: seq<real>)
    requires |base| == |residual|
    ensures |sum| == |base| && forall i | 0 <= i < |base| :: sum[i] == base[i] + scale * residual[i]
  {
    if base == [] then [] else [base[0] + scale * residual[0]] + Added(base[1..], residual[1..], scale)
  }

  /** The logits a decision is made on; a residual of another size is an error. */
  function Biased(base: seq<real>, residual: Residual, scale: real): Option<seq<real>> {
    match residual
    case None => Some(base)
    case Some(deltas) => if |base| != |deltas| then None else Some(Added(base, deltas, scale))
  }

  lemma NothingAdded(base: seq<real>, residual: Residual)
    requires residual.Some? ==> |residual.value| == |base|
    ensures Biased(base, residual, 0.0) == Some(base)
  {
    if residual.Some? {
      assert Added(base, residual.value, 0.0) == base;
    }
  }

  /** What a decision selects, if it can be made. */
  function Chosen(base: seq<real>, mask: seq<bool>, residual: Residual, scale: real, exp: Exp): Option<nat> {
    match Biased(base, residual, scale)
    case None => None
    case Some(logits) =>
      match MaskedSoftmaxArgmax(logits, mask, exp)
      case Ok(decision) => Some(decision.selected)
      case Err(_) => None
  }

  predicate Fits(residual: Residual, size: nat) {
    residual.Some? ==> |residual.value| == size
  }

  /** A choice is always an allowed one. */
  lemma ChoiceIsAllowed(base: seq<real>, mask: seq<bool>, residual: Residual, scale: real, exp: Exp)
    requires ExpLike(exp) && Decisions.Objection(base, mask) == None && Fits(residual, |base|)
    ensures Biased(base, residual, scale).Some? && |Biased(base, residual, scale).value| == |mask|
    ensures Chosen(base, mask, residual, scale, exp).Some?
    ensures IsBestAllowed(Biased(base, residual, scale).value, mask, Chosen(base, mask, residual, scale, exp).value)
  {
    DecisionIsBestAllowed(Biased(base, residual, scale).value, mask, exp);
  }

  lemma ChoiceKeepsMask(base: seq<real>, mask: seq<bool>, residual: Residual, scale: real, exp: Exp)
    requires ExpLike(exp) && Decisions.Objection(base, mask) == None && Fits(residual, |base|)
    ensures Chosen(base, mask, residual, scale, exp).Some?
    ensures var k := Chosen(base, mask, residual, scale, exp).value; k < |mask| && mask[k]
  {
    ChoiceIsAllowed(base, mask, residual, scale, exp);
  }

  /** Without weight the residual does not matter. */
  lemma WeightlessChoice(base: seq<real>, mask: seq<bool>, residual: Residual, exp: Exp)
    requires Fits(residual, |base|)
    ensures Chosen(base, mask, residual, 0.0, exp) == Chosen(base, mask, None, 0.0, exp)
  {
    NothingAdded(base, residual);
  }

  /** Without a residual the scale does not. */
  lemma UnbiasedChoice(base: seq<real>, mask: seq<bool>, scale: real, exp: Exp)
    ensures Chosen(base, mask, None, scale, exp) == Chosen(base, mask, None, 0.0, exp)
  {
  }

  // ----- Routes and stops -----

  /** Eight for the favoured index, nothing for the others. */
  function Favouring(size: nat, favoured: nat): (logits: seq<real>)
    ensures |logits| == size && forall i | 0 <= i < size :: logits[i] == if i == favoured then 8.0 else 0.0
    decreases size
  {
    if size == 0 then [] else Favouring(size - 1, favoured) + [if size - 1 == favoured then 8.0 else 0.0]
  }

  lemma FavouriteIsChosen(size: nat, favoured: nat, mask: seq<bool>, scale: real, exp: Exp)
    requires ExpLike(exp) && favoured < size == |mask| && mask[favoured]
    ensures Chosen(Favouring(size, favoured), mask, None, scale, exp) == Some(favoured)
  {
    var base := Favouring(size, favoured);
    assert base != [];
    ChoiceIsAllowed(base, mask, None, scale, exp);
    BestAllowedIsUnique(base, mask, Chosen(base, mask, None, scale, exp).value, favoured);
  }

  /** A choice with a favourite is an allowed one, and the favourite unless a residual has weight. */
  lemma FavouringChoice(favoured: nat, mask: seq<bool>, residual: Residual, scale: real, exp: Exp)
    requires ExpLike(exp) && favoured < |mask| && mask[favoured] && Fits(residual, |mask|)
    ensures var k := Chosen(Favouring(|mask|, favoured), mask, residual, scale, exp);
            k.Some? && k.value < |mask| && mask[k.value] && (scale == 0.0 || residual == None ==> k.value == favoured)
  {
    var base := Favouring(|mask|, favoured);
    assert base != [];
    ChoiceIsAllowed(base, mask, residual, scale, exp);
    if scale == 0.0 || residual == None {
      FavouriteIsChosen(|mask|, favoured, mask, 0.0, exp);
      if residual == None {
        UnbiasedChoice(base, mask, scale, exp);
      } else {
        WeightlessChoice(base, mask, residual, exp);
      }
    }
  }

  function RouteIndex(route: Route): (k: nat)
    ensures k < |ROUTES| && ROUTES[k] == route
  {
    match route
    case Fast => 0
    case Deep => 1
    case RepairRoute => 2
  }

  const ANY_ROUTE := [true, true, true]

  /** `select_route` of the learned controller, given the route the rules would take. */
  function SelectRoute(rule: Route, residual: Residual, scale: real, exp: Exp): Option<Route> {
    match Chosen(Favouring(3, RouteIndex(rule)), ANY_ROUTE, residual, scale, exp)
    case Some(k) => if k < 3 then Some(ROUTES[k]) else None
    case None => None
  }

  /** The learned route is always one of the three, and the rules' own at scale zero. */
  lemma RouteIsOneOfThree(rule: Route, residual: Residual, scale: real, exp: Exp)
    requires ExpLike(exp) && Fits(residual, 3)
    ensures SelectRoute(rule, residual, scale, exp).Some?
    ensures scale == 0.0 || residual == None ==> SelectRoute(rule, residual, scale, exp) == Some(rule)
  {
    var k := RouteIndex(rule);
    assert |ANY_ROUTE| == 3 && ANY_ROUTE[k];
    FavouringChoice(k, ANY_ROUTE, residual, scale, exp);
    assert Favouring(|ANY_ROUTE|, k) == Favouring(3, k);
  }

  /** `_action_for_target`. */
  function ActionFor(target: NodeId): StopAction {
    match target
    case Abort => ToAbort
    case Finish => ToFinish
    case Diagnose => ToRepair
    case Repair => ToRepair
    case _ => ToContinue
  }

  /** The actions a stop decision may take, and the one favoured without a policy. */
  function AllowedActions(s: Snapshot, node: NodeId, candidates: seq<EdgeSpec>): set<StopAction> {
    var offered := set e | e in candidates :: ActionFor(e.target);
    var actions := if offered == {} then {PriorAction(node, candidates)} else offered;
    if s.noProgressCount >= s.header.budget.maxNoProgressSteps then actions + {ToAbort} else actions
  }

  function PriorAction(node: NodeId, candidates: seq<EdgeSpec>): StopAction {
    if candidates != [] then ActionFor(candidates[0].target) else if node == Abort then ToAbort else ToFinish
  }

  function ActionMask(actions: set<StopAction>): seq<bool> {
    [ToContinue in actions, ToRepair in actions, ToFinish in actions, ToAbort in actions]
  }

  function ActionIndex(action: StopAction): (k: nat)
    ensures k < |STOP_ACTIONS| && STOP_ACTIONS[k] == action
  {
    match action
    case ToContinue => 0
    case ToRepair => 1
    case ToFinish => 2
    case ToAbort => 3
  }

  lemma AllowedIndex(actions: set<StopAction>, k: nat)
    requires k < 4 && ActionMask(actions)[k]
    ensures STOP_ACTIONS[k] in actions
  {
  }

  /** `select_stop` of the learned controller. */
  function SelectStop(s: Snapshot, node: NodeId, candidates: seq<EdgeSpec>, residual: Residual, scale: real, exp: Exp)
    : Option<StopAction>
  {
    match Chosen(Favouring(4, ActionIndex(PriorAction(node, candidates))),
                 ActionMask(AllowedActions(s, node, candidates)), residual, scale, exp)
    case Some(k) => if k < 4 then Some(STOP_ACTIONS[k]) else None
    case None => None
  }

  lemma PriorIsAllowed(s: Snapshot, node: NodeId, candidates: seq<EdgeSpec>)
    ensures PriorAction(node, candidates) in AllowedActions(s, node, candidates)
  {
    if candidates != [] {
      assert candidates[0] in candidates;
    }
  }

  predicate LeadTo(candidates: seq<EdgeSpec>, targets: set<NodeId>) {
    exists c | c in candidates :: c.target in targets
  }

  /**
   Which actions may be taken: those that some candidate leads to, the end where there is none, and
   abort without progress.
   */
  lemma AllowedActionsMean(s: Snapshot, node: NodeId, candidates: seq<EdgeSpec>)
    ensures var allowed := AllowedActions(s, node, candidates);
            && (ToRepair in allowed <==> LeadTo(candidates, {Diagnose, Repair}))
            && (ToFinish in allowed <==> LeadTo(candidates, {Finish}) || (candidates == [] && node != Abort))
            && (ToAbort in allowed <==> || LeadTo(candidates, {Abort}) || (candidates == [] && node == Abort)
                                        || s.noProgressCount >= s.header.budget.maxNoProgressSteps)
            && (ToContinue in allowed <==>
                  exists c | c in candidates :: c.target !in {Abort, Finish, Diagnose, Repair})
  {
    if candidates != [] {
      assert candidates[0] in candidates;
      assert ActionFor(candidates[0].target) in (set e | e in candidates :: ActionFor(e.target));
    }
  }

  /** A stop decision is one of the allowed actions, and the favoured one at scale zero. */
  lemma StopIsAllowed(s: Snapshot, node: NodeId, candidates: seq<EdgeSpec>, residual: Residual, scale: real, exp: Exp)
    requires ExpLike(exp) && Fits(residual, 4)
    ensures var action := SelectStop(s, node, candidates, residual, scale, exp);
            && action.Some? && action.value in AllowedActions(s, node, candidates)
            && (scale == 0.0 || residual == None ==> action.value == PriorAction(node, candidates))
  {
    var prior, mask := PriorAction(node, candidates), ActionMask(AllowedActions(s, node, candidates));
    PriorIsAllowed(s, node, candidates);
    assert mask[ActionIndex(prior)];
    FavouringChoice(ActionIndex(prior), mask, residual, scale, exp);
    AllowedIndex(AllowedActions(s, node, candidates),
                 Chosen(Favouring(4, ActionIndex(prior)), mask, residual, scale, exp).value);
  }

  // ----- Edges -----

  datatype ControllerError = NoCandidates | UnknownNode | UnknownCandidates | BadResidual

  predicate TablesFit(t: Tables) {
    && |t.priorities| == |t.maxTraversals| == |t.edgeKeys|
    && |t.allowed| == |t.nodeIds| && forall i | 0 <= i < |t.allowed| :: |t.allowed[i]| == |t.edgeKeys|
  }

  /** Whether the j-th edge may be chosen, as the controller works it out from its tables. */
  predicate AllowedAt(t: Tables, s: Snapshot, row: seq<bool>, candidates: seq<EdgeSpec>, j: nat)
    requires TablesFit(t) && j < |t.edgeKeys| == |row|
  {
    && row[j]
    && EdgeBy(candidates, t.edgeKeys[j]).Some?
    && Count(s.edgeCounts, t.edgeKeys[j]) < t.maxTraversals[j]
  }

  /** The favour of the j-th edge: its priority, and more if it leads where the stop decision points. */
  function LogitAt(t: Tables, s: Snapshot, row: seq<bool>, candidates: seq<EdgeSpec>, preferred: Option<NodeId>,
                   j: nat): real
    requires TablesFit(t) && j < |t.edgeKeys| == |row|
  {
    var base := t.priorities[j] as real / 10.0;
    if AllowedAt(t, s, row, candidates, j) && preferred == Some(EdgeBy(candidates, t.edgeKeys[j]).value.target)
    then base + 6.0
    else base
  }

  function EdgeMask(t: Tables, s: Snapshot, row: seq<bool>, candidates: seq<EdgeSpec>): (mask: seq<bool>)
    requires TablesFit(t) && |row| == |t.edgeKeys|
    ensures |mask| == |row| && forall j | 0 <= j < |row| :: mask[j] == AllowedAt(t, s, row, candidates, j)
  {
    seq(|row|, j requires 0 <= j < |row| => AllowedAt(t, s, row, candidates, j))
  }

  function EdgeLogits(t: Tables, s: Snapshot, row: seq<bool>, candidates: seq<EdgeSpec>, preferred: Option<NodeId>)
    : (logits: seq<real>)
    requires TablesFit(t) && |row| == |t.edgeKeys|
    ensures |logits| == |row| && forall j | 0 <= j < |row| :: logits[j] == LogitAt(t, s, row, candidates, preferred, j)
  {
    seq(|row|, j requires 0 <= j < |row| => LogitAt(t, s, row, candidates, preferred, j))
  }

  /** `select_edge` of the learned controller. */
  method SelectEdge(t: Tables, s: Snapshot, node: NodeId, candidates: seq<EdgeSpec>, preferred: Option<NodeId>,
                    residual: Residual, scale: real, exp: Exp)
    returns (outcome: Result<EdgeSpec, ControllerError>)
    requires TablesFit(t) && ExpLike(exp)
    ensures candidates == [] ==> outcome == Err(NoCandidates)
    ensures candidates != [] && node in t.nodeIds && (forall c | c in candidates :: c.Key() in t.edgeKeys) ==>
              var row := t.allowed[IndexOf(t.nodeIds, node)];
              outcome == RowDecision(t, s, row, candidates, preferred, residual, scale, exp)
  {
    if candidates == [] {
      return Err(NoCandidates);
    }
    if node !in t.nodeIds {
      return Err(UnknownNode);
    }
    if exists c | c in candidates :: c.Key() !in t.edgeKeys {
      return Err(UnknownCandidates);
    }
    var row := t.allowed[IndexOf(t.nodeIds, node)];
    var mask, logits := [], [];
    for j := 0 to |t.edgeKeys|
      invariant |mask| == |logits| == j
      invariant forall i | 0 <= i < j :: mask[i] == AllowedAt(t, s, row, candidates, i)
      invariant forall i | 0 <= i < j :: logits[i] == LogitAt(t, s, row, candidates, preferred, i)
    {
      var candidate := EdgeBy(candidates, t.edgeKeys[j]);
      var available := Count(s.edgeCounts, t.edgeKeys[j]) < t.maxTraversals[j];
      var allowed := row[j] && candidate.Some? && available;
      var logit := t.priorities[j] as real / 10.0;
      if allowed && preferred == Some(candidate.value.target) {
        logit := logit + 6.0;
      }
      mask, logits := mask + [allowed], logits + [logit];
    }
    assert mask == EdgeMask(t, s, row, candidates);
    assert logits == EdgeLogits(t, s, row, candidates, preferred);
    outcome := EdgeOutcome(t, candidates, logits, mask, residual, scale, exp);
  }

  function EdgeOutcome(t: Tables, candidates: seq<EdgeSpec>, logits: seq<real>, mask: seq<bool>, residual: Residual,
                       scale: real, exp: Exp): Result<EdgeSpec, ControllerError>
  {
    match Chosen(logits, mask, residual, scale, exp)
    case None => Err(BadResidual)
    case Some(k) =>
      if k >= |t.edgeKeys| then Err(UnknownCandidates)
      else
        match EdgeBy(candidates, t.edgeKeys[k])
        case Some(edge) => Ok(edge)
        case None => Err(UnknownCandidates)
  }

  /** What the compiled tables say of their j-th edge. */
  lemma CompiledColumn(g: GraphSpec, listed: seq<NodeId>, texts: Texts, node: NodeId, j: nat)
    requires Lists(listed, g) && node in g.nodes
    ensures var t, sorted := Compile(g, listed, texts), Sort(g.edges, EdgeBefore(texts));
            && TablesFit(t) && node in t.nodeIds && |t.edgeKeys| == |sorted|
            && (j < |sorted| ==>
                  && t.edgeKeys[j] == sorted[j].Key() && t.maxTraversals[j] == sorted[j].maxTraversals
                  && t.priorities[j] == sorted[j].priority
                  && t.allowed[IndexOf(t.nodeIds, node)][j] == (sorted[j].source == node)
                  && sorted[j] in g.edges)
  {
    EdgesSorted(g.edges, texts);
    NodesSorted(g, listed, texts);
  }

  lemma CandidatesAreCompiled(g: GraphSpec, listed: seq<NodeId>, texts: Texts, s: Snapshot, node: NodeId)
    requires Lists(listed, g) && node in g.nodes
    ensures forall c | c in Candidates(g, s, node) :: c.Key() in Compile(g, listed, texts).edgeKeys
  {
    var t, sorted := Compile(g, listed, texts), Sort(g.edges, EdgeBefore(texts));
    EdgesSorted(g.edges, texts);
    CandidatesAreAvailable(g, s, node);
    forall c | c in Candidates(g, s, node)
      ensures c.Key() in t.edgeKeys
    {
      assert c in sorted;
      SortedIsCompiled(g, listed, texts, node, c);
    }
  }

  lemma SortedIsCompiled(g: GraphSpec, listed: seq<NodeId>, texts: Texts, node: NodeId, c: EdgeSpec)
    requires Lists(listed, g) && node in g.nodes && c in Sort(g.edges, EdgeBefore(texts))
    ensures c.Key() in Compile(g, listed, texts).edgeKeys
  {
    var sorted := Sort(g.edges, EdgeBefore(texts));
    var i :| 0 <= i < |sorted| && sorted[i] == c;
    CompiledColumn(g, listed, texts, node, i);
    assert Compile(g, listed, texts).edgeKeys[i] == c.Key();
  }

  /** The mask of a decision over the runtime's candidates is exactly those candidates. */
  lemma MaskIsCandidates(g: GraphSpec, listed: seq<NodeId>, texts: Texts, s: Snapshot, node: NodeId, j: nat)
    requires WellFormedEdges(g) && Lists(listed, g) && node in g.nodes
    ensures var t := Compile(g, listed, texts);
            && TablesFit(t) && node in t.nodeIds
            && var row := t.allowed[IndexOf(t.nodeIds, node)];
               j < |t.edgeKeys| ==>
                 (AllowedAt(t, s, row, Candidates(g, s, node), j)
                  <==> exists c | c in Candidates(g, s, node) :: c.Key() == t.edgeKeys[j])
  {
    var t, sorted := Compile(g, listed, texts), Sort(g.edges, EdgeBefore(texts));
    CompiledColumn(g, listed, texts, node, j);
    if j < |sorted| {
      var candidates := Candidates(g, s, node);
      EdgeByMeans(candidates, t.edgeKeys[j]);
      if c :| c in candidates && c.Key() == sorted[j].Key() {
        CandidatesAreAvailable(g, s, node);
        SameKeySameEdge(g.edges, c, sorted[j]);
      }
    }
  }

  /** The edge decision in a row of the tables. */
  function RowDecision(t: Tables, s: Snapshot, row: seq<bool>, candidates: seq<EdgeSpec>, preferred: Option<NodeId>,
                       residual: Residual, scale: real, exp: Exp): Result<EdgeSpec, ControllerError>
    requires TablesFit(t) && |row| == |t.edgeKeys|
  {
    EdgeOutcome(t, candidates, EdgeLogits(t, s, row, candidates, preferred), EdgeMask(t, s, row, candidates), residual,
                scale, exp)
  }

  lemma RowDecisionIsCandidate(t: Tables, s: Snapshot, row: seq<bool>, candidates: seq<EdgeSpec>,
                               preferred: Option<NodeId>, residual: Residual, scale: real, exp: Exp, i: nat)
    requires TablesFit(t) && |row| == |t.edgeKeys| && ExpLike(exp) && Fits(residual, |row|)
    requires i < |row| && AllowedAt(t, s, row, candidates, i)
    ensures var outcome := RowDecision(t, s, row, candidates, preferred, residual, scale, exp);
            && outcome.Ok? && outcome.value in candidates
            && (scale == 0.0 ==> outcome == RowDecision(t, s, row, candidates, preferred, None, scale, exp))
  {
    var mask := EdgeMask(t, s, row, candidates);
    assert mask[i];
    OutcomeIsAllowed(t, candidates, EdgeLogits(t, s, row, candidates, preferred), mask, residual, scale, exp);
  }

  /**
   The learned controller returns one of the edges the runtime offers, so the runtime never
   refuses its choice; with scale zero it is the edge chosen without a policy.
   */
  lemma LearnedEdgeIsCandidate(g: GraphSpec, listed: seq<NodeId>, texts: Texts, s: Snapshot, node: NodeId,
                               preferred: Option<NodeId>, residual: Residual, scale: real, exp: Exp)
    requires WellFormedEdges(g) && Lists(listed, g) && node in g.nodes && ExpLike(exp)
    requires Candidates(g, s, node) != [] && Fits(residual, |g.edges|)
    ensures var t, candidates := Compile(g, listed, texts), Candidates(g, s, node);
            && TablesFit(t) && node in t.nodeIds
            && var row := t.allowed[IndexOf(t.nodeIds, node)];
               var outcome := RowDecision(t, s, row, candidates, preferred, residual, scale, exp);
               && outcome.Ok? && outcome.value in candidates
               && (scale == 0.0 ==> outcome == RowDecision(t, s, row, candidates, preferred, None, scale, exp))
  {
    var t, candidates := Compile(g, listed, texts), Candidates(g, s, node);
    EdgesSorted(g.edges, texts);
    var i := SomeEdgeAllowed(g, listed, texts, s, node);
    RowDecisionIsCandidate(t, s, t.allowed[IndexOf(t.nodeIds, node)], candidates, preferred, residual, scale, exp, i);
  }

  /** How much an edge is favoured without a policy: by its priority, and for leading where the stop decision points. */
  function Favour(e: EdgeSpec, preferred: Option<NodeId>): real {
    e.priority as real / 10.0 + if preferred == Some(e.target) then 6.0 else 0.0
  }

  lemma CandidateIndex(g: GraphSpec, listed: seq<NodeId>, texts: Texts, s: Snapshot, node: NodeId, c: EdgeSpec)
    returns (j: nat)
    requires Lists(listed, g) && node in g.nodes && c in Candidates(g, s, node)
    ensures var t := Compile(g, listed, texts);
            && TablesFit(t) && node in t.nodeIds && j < |t.edgeKeys| && c in g.edges
            && t.edgeKeys[j] == c.Key() && t.priorities[j] == c.priority
  {
    var sorted := Sort(g.edges, EdgeBefore(texts));
    CandidatesAreAvailable(g, s, node);
    EdgesSorted(g.edges, texts);
    j :| 0 <= j < |sorted| && sorted[j] == c;
    CompiledColumn(g, listed, texts, node, j);
  }

  /** What the controller's tables make of a candidate. */
  lemma CandidateColumn(g: GraphSpec, listed: seq<NodeId>, texts: Texts, s: Snapshot, node: NodeId,
                        preferred: Option<NodeId>, c: EdgeSpec)
    returns (j: nat)
    requires WellFormedEdges(g) && Lists(listed, g) && node in g.nodes && c in Candidates(g, s, node)
    ensures var t, candidates := Compile(g, listed, texts), Candidates(g, s, node);
            && TablesFit(t) && node in t.nodeIds && j < |t.edgeKeys| && t.edgeKeys[j] == c.Key()
            && Stands(t, s, t.allowed[IndexOf(t.nodeIds, node)], candidates, preferred, c, j)
  {
    j := CandidateIndex(g, listed, texts, s, node, c);
    MaskIsCandidates(g, listed, texts, s, node, j);
    CandidateByKey(g, s, node, c);
    var t := Compile(g, listed, texts);
    StandsThere(t, s, t.allowed[IndexOf(t.nodeIds, node)], Candidates(g, s, node), preferred, c, j);
  }

  lemma CandidateByKey(g: GraphSpec, s: Snapshot, node: NodeId, c: EdgeSpec)
    requires WellFormedEdges(g) && c in Candidates(g, s, node)
    ensures EdgeBy(Candidates(g, s, node), c.Key()) == Some(c)
  {
    EdgeByMeans(Candidates(g, s, node), c.Key());
    CandidatesAreAvailable(g, s, node);
    SameKeySameEdge(g.edges, EdgeBy(Candidates(g, s, node), c.Key()).value, c);
  }

  lemma StandsThere(t: Tables, s: Snapshot, row: seq<bool>, candidates: seq<EdgeSpec>, preferred: Option<NodeId>,
                    c: EdgeSpec, j: nat)
    requires TablesFit(t) && j < |t.edgeKeys| == |row| && AllowedAt(t, s, row, candidates, j)
    requires EdgeBy(candidates, t.edgeKeys[j]) == Some(c) && t.priorities[j] == c.priority
    ensures Stands(t, s, row, candidates, preferred, c, j)
  {
  }

  /** This candidate is what the tables have at this place, with its favour as the logit. */
  predicate Stands(t: Tables, s: Snapshot, row: seq<bool>, candidates: seq<EdgeSpec>, preferred: Option<NodeId>,
                   c: EdgeSpec, j: nat)
    requires TablesFit(t) && j < |t.edgeKeys| == |row|
  {
    && AllowedAt(t, s, row, candidates, j) && EdgeBy(candidates, t.edgeKeys[j]) == Some(c)
    && LogitAt(t, s, row, candidates, preferred, j) == Favour(c, preferred)
  }

  /** Without weight on a policy the row decides for the place of a greatest logit. */
  lemma RowDecidesBest(t: Tables, s: Snapshot, row: seq<bool>, candidates: seq<EdgeSpec>, preferred: Option<NodeId>,
                       residual: Residual, exp: Exp, i: nat)
    returns (k: nat)
    requires TablesFit(t) && |row| == |t.edgeKeys| && ExpLike(exp) && Fits(residual, |row|)
    requires i < |row| && AllowedAt(t, s, row, candidates, i)
    ensures k < |row| && AllowedAt(t, s, row, candidates, k)
    ensures RowDecision(t, s, row, candidates, preferred, residual, 0.0, exp)
            == Ok(EdgeBy(candidates, t.edgeKeys[k]).value)
    ensures LogitAt(t, s, row, candidates, preferred, i) <= LogitAt(t, s, row, candidates, preferred, k)
  {
    var logits, mask := EdgeLogits(t, s, row, candidates, preferred), EdgeMask(t, s, row, candidates);
    assert mask[i];
    WeightlessChoice(logits, mask, residual, exp);
    ChoiceIsAllowed(logits, mask, None, 0.0, exp);
    k := Chosen(logits, mask, None, 0.0, exp).value;
  }

  lemma AsManyColumns(g: GraphSpec, listed: seq<NodeId>, texts: Texts)
    ensures |Compile(g, listed, texts).edgeKeys| == |g.edges|
  {
    EdgesSorted(g.edges, texts);
  }

  /** Without a policy, or with one of no weight, no candidate is favoured more than the chosen one. */
  lemma StaticEdgeIsFavoured(g: GraphSpec, listed: seq<NodeId>, texts: Texts, s: Snapshot, node: NodeId,
                             preferred: Option<NodeId>, residual: Residual, exp: Exp, c: EdgeSpec)
    requires WellFormedEdges(g) && Lists(listed, g) && node in g.nodes && ExpLike(exp)
    requires Fits(residual, |g.edges|) && c in Candidates(g, s, node)
    ensures var t := Compile(g, listed, texts);
            && TablesFit(t) && node in t.nodeIds
            && var row := t.allowed[IndexOf(t.nodeIds, node)];
               var outcome := RowDecision(t, s, row, Candidates(g, s, node), preferred, residual, 0.0, exp);
               && outcome.Ok? && outcome.value in Candidates(g, s, node)
               && Favour(c, preferred) <= Favour(outcome.value, preferred)
  {
    var t, candidates := Compile(g, listed, texts), Candidates(g, s, node);
    AsManyColumns(g, listed, texts);
    var i := CandidateColumn(g, listed, texts, s, node, preferred, c);
    var k := RowDecidesBest(t, s, t.allowed[IndexOf(t.nodeIds, node)], candidates, preferred, residual, exp, i);
    FavourThere(g, listed, texts, s, node, preferred, k);
  }

  lemma FavourThere(g: GraphSpec, listed: seq<NodeId>, texts: Texts, s: Snapshot, node: NodeId,
                    preferred: Option<NodeId>, k: nat)
    requires WellFormedEdges(g) && Lists(listed, g) && node in g.nodes
    requires var t := Compile(g, listed, texts);
             && TablesFit(t) && node in t.nodeIds && k < |t.edgeKeys|
             && AllowedAt(t, s, t.allowed[IndexOf(t.nodeIds, node)], Candidates(g, s, node), k)
    ensures var t, candidates := Compile(g, listed, texts), Candidates(g, s, node);
            var e := EdgeBy(candidates, t.edgeKeys[k]).value;
            && e in candidates
            && LogitAt(t, s, t.allowed[IndexOf(t.nodeIds, node)], candidates, preferred, k) == Favour(e, preferred)
  {
    var t, candidates := Compile(g, listed, texts), Candidates(g, s, node);
    EdgeByMeans(candidates, t.edgeKeys[k]);
    var j := CandidateColumn(g, listed, texts, s, node, preferred, EdgeBy(candidates, t.edgeKeys[k]).value);
    SameColumn(g, listed, texts, node, j, k);
  }

  lemma SameColumn(g: GraphSpec, listed: seq<NodeId>, texts: Texts, node: NodeId, j: nat, k: nat)
    requires WellFormedEdges(g) && Lists(listed, g) && node in g.nodes
    requires var t := Compile(g, listed, texts); j < |t.edgeKeys| && k < |t.edgeKeys| && t.edgeKeys[j] == t.edgeKeys[k]
    ensures j == k
  {
    CompiledColumn(g, listed, texts, node, j);
    CompiledColumn(g, listed, texts, node, k);
    SortedKeysDiffer(g.edges, texts, j, k);
  }

  lemma SomeEdgeAllowed(g: GraphSpec, listed: seq<NodeId>, texts: Texts, s: Snapshot, node: NodeId) returns (i: nat)
    requires WellFormedEdges(g) && Lists(listed, g) && node in g.nodes && Candidates(g, s, node) != []
    ensures var t := Compile(g, listed, texts);
            && TablesFit(t) && node in t.nodeIds && i < |t.edgeKeys|
            && AllowedAt(t, s, t.allowed[IndexOf(t.nodeIds, node)], Candidates(g, s, node), i)
  {
    var t, c := Compile(g, listed, texts), Candidates(g, s, node)[0];
    assert c in Candidates(g, s, node);
    CandidatesAreCompiled(g, listed, texts, s, node);
    i := IndexOf(t.edgeKeys, c.Key());
    MaskIsCandidates(g, listed, texts, s, node, i);
  }

  lemma OutcomeIsAllowed(t: Tables, candidates: seq<EdgeSpec>, logits: seq<real>, mask: seq<bool>,
                         residual: Residual, scale: real, exp: Exp)
    requires ExpLike(exp) && Decisions.Objection(logits, mask) == None && |mask| == |t.edgeKeys|
             && Fits(residual, |mask|)
    requires forall j | 0 <= j < |mask| && mask[j] :: EdgeBy(candidates, t.edgeKeys[j]).Some?
    ensures var outcome := EdgeOutcome(t, candidates, logits, mask, residual, scale, exp);
            && outcome.Ok? && outcome.value in candidates
            && (scale == 0.0 ==> outcome == EdgeOutcome(t, candidates, logits, mask, None, scale, exp))
  {
    ChoiceKeepsMask(logits, mask, residual, scale, exp);
    WeightlessChoice(logits, mask, residual, exp);
    EdgeByMeans(candidates, t.edgeKeys[Chosen(logits, mask, residual, scale, exp).value]);
  }

  // ----- The default controller -----

  /** `select_stop` of the deterministic controller. */
  function DefaultStop(g: GraphSpec, s: Snapshot, node: NodeId, candidates: seq<EdgeSpec>): StopAction {
    if node in g.terminals then (if node == Abort then ToAbort else ToFinish)
    else if s.noProgressCount >= s.header.budget.maxNoProgressSteps then ToAbort
    else
      var targets := set e | e in candidates :: e.target;
      if Finish in targets then ToFinish
      else if targets == {Abort} then ToAbort
      else if Diagnose in targets || Repair in targets then ToRepair
      else ToContinue
  }

  function PreferredTarget(action: StopAction): Option<NodeId> {
    match action
    case ToContinue => None
    case ToRepair => Some(Diagnose)
    case ToFinish => Some(Finish)
    case ToAbort => Some(Abort)
  }

  /**
   Away from terminals and while the run progresses, the default stop decision points nowhere
   or where a candidate leads, but for the repair action of a candidate into repair itself.
   */
  lemma DefaultStopPointsToCandidate(g: GraphSpec, s: Snapshot, node: NodeId, candidates: seq<EdgeSpec>)
    requires node !in g.terminals && s.noProgressCount < s.header.budget.maxNoProgressSteps
    ensures match PreferredTarget(DefaultStop(g, s, node, candidates))
            case None => forall e | e in candidates :: e.target !in {Finish, Diagnose, Repair}
            case Some(target) =>
              exists e | e in candidates :: e.target == target || (target == Diagnose && e.target == Repair)
  {
    var targets := set e | e in candidates :: e.target;
    if e :| e in candidates && e.target in {Finish, Diagnose, Repair} {
      assert e.target in targets;
    }
    if Finish !in targets && targets == {Abort} {
      assert Abort in targets;
    }
  }

  /** The default stop decision, case by case. */
  lemma DefaultStopMeans(g: GraphSpec, s: Snapshot, node: NodeId, candidates: seq<EdgeSpec>)
    ensures var action := DefaultStop(g, s, node, candidates);
            var stuck := s.noProgressCount >= s.header.budget.maxNoProgressSteps;
            if node in g.terminals then action == (if node == Abort then ToAbort else ToFinish)
            else if stuck then action == ToAbort
            else
              && (action == ToFinish <==> LeadTo(candidates, {Finish}))
              && (action == ToAbort <==> candidates != [] && forall c | c in candidates :: c.target == Abort)
              && (action == ToRepair <==> LeadTo(candidates, {Diagnose, Repair}) && !LeadTo(candidates, {Finish}))
  {
    var targets := set e | e in candidates :: e.target;
    forall t
      ensures t in targets <==> LeadTo(candidates, {t})
    {
    }
    if candidates != [] {
      assert candidates[0].target in targets;
    }
    if targets == {Abort} {
      forall c | c in candidates
        ensures c.target == Abort
      {
        assert c.target in targets;
      }
    }
  }

  function FirstLeadingTo(candidates: seq<EdgeSpec>, preferred: Option<NodeId>): Option<EdgeSpec> {
    if candidates == [] then None
    else if Some(candidates[0].target) == preferred then Some(candidates[0])
    else FirstLeadingTo(candidates[1..], preferred)
  }

  /** `select_edge` of the deterministic controller: the first preferred candidate, else the first. */
  function DefaultEdge(candidates: seq<EdgeSpec>, preferred: Option<NodeId>): EdgeSpec
    requires candidates != []
  {
    match FirstLeadingTo(candidates, preferred)
    case Some(edge) => edge
    case None => candidates[0]
  }

  lemma {:induction false} FirstLeadingToMeans(candidates: seq<EdgeSpec>, preferred: Option<NodeId>)
    ensures match FirstLeadingTo(candidates, preferred)
            case Some(edge) =>
              && edge in candidates && Some(edge.target) == preferred
              && exists k | 0 <= k < |candidates| ::
                   candidates[k] == edge && forall j | 0 <= j < k :: Some(candidates[j].target) != preferred
            case None => forall c | c in candidates :: Some(c.target) != preferred
    decreases |candidates|
  {
    if candidates != [] {
      assert candidates == [candidates[0]] + candidates[1..];
      FirstLeadingToMeans(candidates[1..], preferred);
      var found := FirstLeadingTo(candidates, preferred);
      if Some(candidates[0].target) != preferred && found.Some? {
        var k :| 0 <= k < |candidates| - 1 && candidates[1..][k] == found.value
                 && forall j | 0 <= j < k :: Some(candidates[1..][j].target) != preferred;
        assert candidates[k + 1] == found.value;
        forall j | 0 <= j < k + 1
          ensures Some(candidates[j].target) != preferred
        {
          assert j > 0 ==> candidates[j] == candidates[1..][j - 1];
        }
      }
    }
  }

  /** The default controller chooses the first preferred candidate, and the first of all when none is preferred. */
  lemma DefaultEdgeIsCandidate(candidates: seq<EdgeSpec>, preferred: Option<NodeId>)
    requires candidates != []
    ensures DefaultEdge(candidates, preferred) in candidates
    ensures (exists c | c in candidates :: Some(c.target) == preferred)
       <==> Some(DefaultEdge(candidates, preferred).target) == preferred
    ensures exists k | 0 <= k < |candidates| ::
              && candidates[k] == DefaultEdge(candidates, preferred)
              && if Some(candidates[k].target) == preferred
                 then forall j | 0 <= j < k :: Some(candidates[j].target) != preferred
                 else k == 0
  {
    FirstLeadingToMeans(candidates, preferred);
    assert candidates[0] in candidates;
  }
}
