/** The coding graph, with whatever bounds, passes its own validation. */
module CodingValid {
  import opened Graphs
  import opened CodingGraph

  /** A node by which a way through the graph leads to this one, and one by which it leads on. */
  function Before(n: NodeId): NodeId {
    match n
    case CollectContext => Intake
    case Plan => CollectContext
    case PlanCheck => Plan
    case Implement => CollectContext
    case Apply => Implement
    case Tests => Apply
    case Review => Tests
    case Finish => Review
    case Diagnose => Apply
    case Repair => Diagnose
    case Abort => Apply
    case _ => Intake
  }

  function Onward(n: NodeId): NodeId {
    match n
    case Intake => CollectContext
    case CollectContext => Implement
    case Plan => PlanCheck
    case PlanCheck => Implement
    case Implement => Apply
    case Apply => Tests
    case Tests => Review
    case Diagnose => Repair
    case Repair => Apply
    case _ => Finish
  }

  /** How far a node is from the start along the first, and from a terminal along the second. */
  function Depth(n: NodeId): nat {
    match n
    case Intake => 0
    case CollectContext => 1
    case Plan => 2
    case PlanCheck => 3
    case Implement => 2
    case Apply => 3
    case Tests => 4
    case Review => 5
    case Finish => 6
    case Diagnose => 4
    case Repair => 5
    case Abort => 4
    case _ => 0
  }

  function Ahead(n: NodeId): nat {
    match n
    case Finish => 0
    case Abort => 0
    case Review => 1
    case Tests => 2
    case Apply => 3
    case Implement => 4
    case CollectContext => 5
    case PlanCheck => 5
    case Repair => 4
    case Intake => 6
    case Plan => 6
    case Diagnose => 5
    case _ => 0
  }

  lemma EdgeListed(f: Family, n: NodeId, i: nat)
    requires i < |f.From(n)|
    ensures HasEdge(f.Graph(), n, f.From(n)[i].target)
  {
    EdgesFromOne(f, n, i, i);
    EdgesOf(f, f.From(n)[i]);
  }

  /** Where the edge into a node is listed among those of the node before it. */
  function ListedAt(n: NodeId): nat {
    match n
    case Plan => 1
    case Diagnose => 1
    case Abort => 2
    case _ => 0
  }

  lemma TargetBefore(f: Family, n: NodeId)
    requires n in NODE_IDS && n != Intake
    ensures Before(n) in NODE_IDS && Depth(Before(n)) < Depth(n)
    ensures ListedAt(n) < |f.From(Before(n))| && f.From(Before(n))[ListedAt(n)].target == n
  {
  }

  lemma TargetOnward(f: Family, n: NodeId)
    requires n in NODE_IDS && n !in {Finish, Abort}
    ensures Onward(n) in NODE_IDS && Ahead(Onward(n)) < Ahead(n)
    ensures f.From(n) != [] && f.From(n)[0].target == Onward(n)
  {
  }

  lemma LinkBefore(f: Family, n: NodeId)
    requires n in NODE_IDS && n != Intake
    ensures Before(n) in NODE_IDS && Depth(Before(n)) < Depth(n) && HasEdge(f.Graph(), Before(n), n)
  {
    TargetBefore(f, n);
    EdgeListed(f, Before(n), ListedAt(n));
  }

  lemma LinkOnward(f: Family, n: NodeId)
    requires n in NODE_IDS && n !in {Finish, Abort}
    ensures Onward(n) in NODE_IDS && Ahead(Onward(n)) < Ahead(n) && HasEdge(f.Graph(), n, Onward(n))
  {
    TargetOnward(f, n);
    EdgeListed(f, n, 0);
  }

  lemma PathsMeet(g: GraphSpec, a: NodeId, b: NodeId, c: NodeId)
    requires Reaches(g, a, b) && HasEdge(g, b, c)
    ensures Reaches(g, a, c)
  {
    var path :| IsPath(g, path) && path[0] == a && path[|path| - 1] == b;
    assert IsPath(g, path + [c]);
  }

  lemma PathBegins(g: GraphSpec, a: NodeId, b: NodeId, c: NodeId)
    requires HasEdge(g, a, b) && Reaches(g, b, c)
    ensures Reaches(g, a, c)
  {
    var path :| IsPath(g, path) && path[0] == b && path[|path| - 1] == c;
    var longer := [a] + path;
    forall i, j | 0 <= i < j < |longer| && j == i + 1
      ensures HasEdge(g, longer[i], longer[j])
    {
      assert i > 0 ==> longer[i] == path[i - 1] && longer[j] == path[j - 1];
    }
    assert IsPath(g, longer);
  }

  lemma ReachesItself(g: GraphSpec, a: NodeId)
    ensures Reaches(g, a, a)
  {
    assert IsPath(g, [a]);
  }

  lemma {:induction false} StartReaches(f: Family, n: NodeId)
    requires n in NODE_IDS
    ensures Reaches(f.Graph(), Intake, n)
    decreases Depth(n)
  {
    if n == Intake {
      ReachesItself(f.Graph(), n);
    } else {
      LinkBefore(f, n);
      StartReaches(f, Before(n));
      PathsMeet(f.Graph(), Intake, Before(n), n);
    }
  }

  lemma {:induction false} ReachesEnd(f: Family, n: NodeId)
    requires n in NODE_IDS
    ensures ReachesTerminal(f.Graph(), n)
    decreases Ahead(n)
  {
    if n in {Finish, Abort} {
      ReachesItself(f.Graph(), n);
    } else {
      LinkOnward(f, n);
      ReachesEnd(f, Onward(n));
      var t :| t in f.Graph().terminals && Reaches(f.Graph(), Onward(n), t);
      PathBegins(f.Graph(), n, Onward(n), t);
    }
  }

  /** Every coding graph of the family is valid: no node is unreachable or leads nowhere. */
  lemma CodingGraphIsValid(f: Family)
    requires f.Proper()
    ensures ValidGraph(f.Graph())
  {
    GraphIsWellFormed(f);
    forall n | n in f.Graph().nodes
      ensures Useful(f.Graph(), n)
    {
      StartReaches(f, n);
      ReachesEnd(f, n);
      if n !in f.Graph().terminals {
        LinkOnward(f, n);
      }
    }
  }
}
