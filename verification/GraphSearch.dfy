/**
 The constrained tree search over graphs: nodes whose statistics are updated in place, an
 evaluation cache, and at most one mutation per slot on every path of the tree.
 */
module GraphSearch {
  import opened Graphs
  import opened Mutations
  import opened Variants
  import opened Wrappers

  class SearchNode {
    const graph: GraphSpec
    const parent: SearchNode?
    const mutation: Option<Mutation>
    const slots: set<Slot>
    /** The mutations from the root down to this node. */
    ghost const path: seq<Mutation>
    var untried: seq<Mutation>
    var children: seq<SearchNode>
    var visits: nat
    var totalReward: real

    constructor (graph: GraphSpec, parent: SearchNode?, mutation: Option<Mutation>, slots: set<Slot>,
                 ghost path: seq<Mutation>, untried: seq<Mutation>)
      ensures this.graph == graph && this.parent == parent && this.mutation == mutation && this.slots == slots
      ensures this.path == path && this.untried == untried && children == [] && visits == 0 && totalReward == 0.0
    {
      this.graph, this.parent, this.mutation, this.slots := graph, parent, mutation, slots;
      this.path, this.untried := path, untried;
      children, visits, totalReward := [], 0, 0.0;
    }
  }

  /** One pass of the search: the node it evaluated and the reward it fed back. */
  datatype Trial = Trial(node: SearchNode, reward: real)

  /** Visits and the rewards they brought. */
  datatype Tally = Tally(visits: nat, reward: real) {
    function More(reward: real): Tally {
      Tally(visits + 1, this.reward + reward)
    }
  }

  const NOTHING := Tally(0, 0.0)

  /** The part of the history that evaluated this very node. */
  ghost function Own(history: seq<Trial>, n: SearchNode): Tally {
    if history == [] then NOTHING
    else
      var last := history[|history| - 1];
      var before := Own(history[..|history| - 1], n);
      if last.node == n then before.More(last.reward) else before
  }

  /** The statistics of the nodes, and how they are linked, as values. */
  datatype Link = Link(untried: seq<Mutation>, children: seq<SearchNode>)

  type Stats = map<SearchNode, Tally>
  type Links = map<SearchNode, Link>

  ghost function StatsOf(nodes: set<SearchNode>): Stats
    reads nodes`visits, nodes`totalReward
  {
    map n | n in nodes :: Tally(n.visits, n.totalReward)
  }

  ghost function LinksOf(nodes: set<SearchNode>): Links
    reads nodes`untried, nodes`children
  {
    map n | n in nodes :: Link(n.untried, n.children)
  }

  /** What the children add up to; a node without statistics adds nothing. */
  ghost function TotalOf(stats: Stats, children: seq<SearchNode>): Tally {
    if children == [] then NOTHING
    else
      var before := TotalOf(stats, children[..|children| - 1]);
      var last := children[|children| - 1];
      if last in stats then Tally(before.visits + stats[last].visits, before.reward + stats[last].reward) else before
  }

  /** The mutations that made these nodes out of their parent. */
  ghost function Tried(children: seq<SearchNode>): multiset<Mutation> {
    if children == [] then multiset{}
    else Tried(children[..|children| - 1]) +
         match children[|children| - 1].mutation
         case Some(m) => multiset{m}
         case None => multiset{}
  }

  /** `inherited`: the mutations whose slot is still free. */
  function Unused(mutations: seq<Mutation>, slots: set<Slot>): (rest: seq<Mutation>)
    ensures forall m :: m in rest <==> m in mutations && SlotOf(m) !in slots
    ensures forall m :: SlotOf(m) !in slots ==> multiset(rest)[m] == multiset(mutations)[m]
  {
    if mutations == [] then []
    else
      assert mutations == [mutations[0]] + mutations[1..];
      if SlotOf(mutations[0]) in slots then Unused(mutations[1..], slots)
      else [mutations[0]] + Unused(mutations[1..], slots)
  }

  ghost function SlotsUsed(path: seq<Mutation>): set<Slot> {
    set m | m in path :: SlotOf(m)
  }

  ghost predicate Distinct(nodes: seq<SearchNode>) {
    forall i, j | 0 <= i < j < |nodes| :: nodes[i] != nodes[j]
  }

  /** How a node hangs in the tree. */
  ghost predicate Hangs(n: SearchNode, root: SearchNode, links: Links)
    requires n in links
  {
    && (n.parent == null <==> n == root)
    && (n.parent != null ==>
          && n.parent in links && n in links[n.parent].children
          && n.mutation.Some? && n.path == n.parent.path + [n.mutation.value])
    && (forall c | c in links[n].children :: c in links && c.parent == n)
    && Distinct(links[n].children)
  }

  ghost predicate AllHang(root: SearchNode, links: Links) {
    forall n {:trigger Hangs(n, root, links)} | n in links :: Hangs(n, root, links)
  }

  /** What a node holds: its path rebuilds its graph, and untried and tried mutations are those of the free slots. */
  ghost predicate Holds(n: SearchNode, link: Link, base: GraphSpec, mutations: seq<Mutation>) {
    && MutateAll(base, n.path) == Ok(n.graph)
    && DistinctSlots(n.path)
    && (forall m | m in n.path :: m in mutations)
    && n.slots == SlotsUsed(n.path)
    && multiset(link.untried) + Tried(link.children) == multiset(Unused(mutations, n.slots))
  }

  ghost predicate Tree(root: SearchNode, links: Links, base: GraphSpec, mutations: seq<Mutation>) {
    && root in links && root.path == [] && root.graph == base
    && AllHang(root, links)
    && (forall n {:trigger Holds(n, links[n], base, mutations)} | n in links :: Holds(n, links[n], base, mutations))
  }

  // ----- Accounting -----

  ghost predicate Balanced(n: SearchNode, stats: Stats, links: Links, history: seq<Trial>, owing: SearchNode?,
                           reward: real)
    requires n in stats && n in links
  {
    var counted := if n == owing then stats[n].More(reward) else stats[n];
    var own, below := Own(history, n), TotalOf(stats, links[n].children);
    counted.visits == own.visits + below.visits && counted.reward == own.reward + below.reward
  }

  /**
   Every node's statistics are its own evaluations and those of its children, except that
   the node `owing` has yet to count one visit.
   */
  ghost predicate Accounted(stats: Stats, links: Links, history: seq<Trial>, owing: SearchNode?, reward: real) {
    && stats.Keys == links.Keys
    && forall n {:trigger Balanced(n, stats, links, history, owing, reward)} | n in links ::
       Balanced(n, stats, links, history, owing, reward)
  }

  lemma {:induction false} TotalUnchanged(stats: Stats, c: SearchNode, tally: Tally, children: seq<SearchNode>)
    requires c !in children
    ensures TotalOf(stats[c := tally], children) == TotalOf(stats, children)
    decreases |children|
  {
    if children != [] {
      assert children[|children| - 1] in children;
      TotalUnchanged(stats, c, tally, children[..|children| - 1]);
    }
  }

  lemma {:induction false} TotalOfOneMore(stats: Stats, c: SearchNode, reward: real, children: seq<SearchNode>)
    requires c in stats && c in children && Distinct(children)
    ensures TotalOf(stats[c := stats[c].More(reward)], children) == TotalOf(stats, children).More(reward)
    decreases |children|
  {
    var before, last := children[..|children| - 1], children[|children| - 1];
    assert children == before + [last];
    if c == last {
      TotalUnchanged(stats, c, stats[c].More(reward), before);
    } else {
      TotalOfOneMore(stats, c, reward, before);
    }
  }

  /** Counting at the owing node hands the debt to its parent. */
  lemma DebtClimbs(stats: Stats, links: Links, root: SearchNode, history: seq<Trial>, c: SearchNode, reward: real)
    requires c in links && AllHang(root, links)
    requires Accounted(stats, links, history, c, reward)
    ensures Accounted(stats[c := stats[c].More(reward)], links, history, c.parent, reward)
  {
    var after := stats[c := stats[c].More(reward)];
    assert Hangs(c, root, links);
    forall n | n in links
      ensures Balanced(n, after, links, history, c.parent, reward)
    {
      assert Balanced(n, stats, links, history, c, reward);
      assert Hangs(n, root, links);
      if n == c.parent {
        TotalOfOneMore(stats, c, reward, links[n].children);
      } else {
        TotalUnchanged(stats, c, stats[c].More(reward), links[n].children);
      }
    }
  }

  lemma NewTrialIsOwed(stats: Stats, links: Links, history: seq<Trial>, node: SearchNode, reward: real)
    requires Accounted(stats, links, history, null, 0.0)
    ensures Accounted(stats, links, history + [Trial(node, reward)], node, reward)
  {
    var now := history + [Trial(node, reward)];
    assert now[..|now| - 1] == history;
    forall n | n in links
      ensures Balanced(n, stats, links, now, node, reward)
    {
      assert Balanced(n, stats, links, history, null, 0.0);
    }
  }

  /** All visits and rewards of a history. */
  ghost function Summary(history: seq<Trial>): Tally {
    if history == [] then NOTHING
    else Summary(history[..|history| - 1]).More(history[|history| - 1].reward)
  }

  lemma {:induction false} SummaryCounts(history: seq<Trial>)
    ensures Summary(history).visits == |history|
    decreases |history|
  {
    if history != [] {
      SummaryCounts(history[..|history| - 1]);
    }
  }

  /** The tree of a search is a tree, its statistics add up, and its root has seen the whole history. */
  ghost predicate Sound(root: SearchNode, links: Links, stats: Stats, history: seq<Trial>,
                        base: GraphSpec, mutations: seq<Mutation>) {
    && Tree(root, links, base, mutations)
    && Accounted(stats, links, history, null, 0.0)
    && stats[root] == Summary(history)
    && (forall t | t in history :: t.node in links)
  }

  lemma SoundAfterFeed(root: SearchNode, links: Links, stats: Stats, history: seq<Trial>, base: GraphSpec,
                       mutations: seq<Mutation>, node: SearchNode, reward: real, after: Stats)
    requires Sound(root, links, stats, history, base, mutations) && node in links
    requires Accounted(after, links, history + [Trial(node, reward)], null, 0.0)
    requires after[root] == stats[root].More(reward)
    ensures Sound(root, links, after, history + [Trial(node, reward)], base, mutations)
  {
    var now := history + [Trial(node, reward)];
    assert now[..|now| - 1] == history;
  }

  /** `_backpropagate`: from the node up to the root. */
  method Backpropagate(node: SearchNode, reward: real, ghost root: SearchNode, ghost nodes: set<SearchNode>,
                       ghost history: seq<Trial>, ghost base: GraphSpec, ghost mutations: seq<Mutation>)
    requires node in nodes && Sound(root, LinksOf(nodes), StatsOf(nodes), history, base, mutations)
    modifies nodes`visits, nodes`totalReward
    ensures Sound(root, LinksOf(nodes), StatsOf(nodes), history + [Trial(node, reward)], base, mutations)
    ensures LinksOf(nodes) == old(LinksOf(nodes))
  {
    ghost var now, links, stats := history + [Trial(node, reward)], LinksOf(nodes), StatsOf(nodes);
    NewTrialIsOwed(stats, links, history, node, reward);
    var cursor: SearchNode? := node;
    while cursor != null
      invariant cursor == null || cursor in nodes
      invariant Accounted(StatsOf(nodes), links, now, cursor, reward)
      invariant StatsOf(nodes)[root] == if cursor == null then stats[root].More(reward) else stats[root]
      decreases if cursor == null then -1 else |cursor.path|
    {
      DebtClimbs(StatsOf(nodes), links, root, now, cursor, reward);
      CountVisit(cursor, reward, nodes);
      assert Hangs(cursor, root, links);
      cursor := cursor.parent;
    }
    NothingIsOwed(StatsOf(nodes), links, now, reward);
    SoundAfterFeed(root, links, stats, history, base, mutations, node, reward, StatsOf(nodes));
  }

  lemma NothingIsOwed(stats: Stats, links: Links, history: seq<Trial>, reward: real)
    requires Accounted(stats, links, history, null, reward)
    ensures Accounted(stats, links, history, null, 0.0)
  {
    forall n | n in links
      ensures Balanced(n, stats, links, history, null, 0.0)
    {
      assert Balanced(n, stats, links, history, null, reward);
    }
  }

  method CountVisit(c: SearchNode, reward: real, ghost nodes: set<SearchNode>)
    requires c in nodes
    modifies c`visits, c`totalReward
    ensures StatsOf(nodes) == old(StatsOf(nodes))[c := old(StatsOf(nodes))[c].More(reward)]
  {
    c.visits := c.visits + 1;
    c.totalReward := c.totalReward + reward;
  }

  // ----- Selection -----

  /** `uct` as some function of visits, total reward and visits of the parent. */
  type Uct = (nat, real, nat) -> real

  function Score(uct: Uct, n: SearchNode): real
    reads n, n.parent
  {
    uct(n.visits, n.totalReward, if n.parent == null || n.parent.visits < 1 then 1 else n.parent.visits)
  }

  /** The first child with the greatest score. */
  ghost predicate IsBest(uct: Uct, children: seq<SearchNode>, best: SearchNode)
    reads children, set c | c in children :: c.parent
  {
    exists k | 0 <= k < |children| ::
      && children[k] == best
      && (forall j | 0 <= j < |children| :: Score(uct, children[j]) <= Score(uct, best))
      && (forall j | 0 <= j < k :: Score(uct, children[j]) < Score(uct, best))
  }

  method BestChild(uct: Uct, children: seq<SearchNode>) returns (best: SearchNode)
    requires children != []
    ensures IsBest(uct, children, best)
  {
    var k := 0;
    for i := 1 to |children|
      invariant 0 <= k < i
      invariant forall j | 0 <= j < i :: Score(uct, children[j]) <= Score(uct, children[k])
      invariant forall j | 0 <= j < k :: Score(uct, children[j]) < Score(uct, children[k])
    {
      if Score(uct, children[i]) > Score(uct, children[k]) {
        k := i;
      }
    }
    best := children[k];
  }

  /** The score of a node by its statistics as values. */
  ghost function ScoreIn(uct: Uct, stats: Stats, n: SearchNode): real {
    if n !in stats then 0.0
    else
      uct(stats[n].visits, stats[n].reward,
          if n.parent == null || n.parent !in stats || stats[n.parent].visits < 1 then 1 else stats[n.parent].visits)
  }

  /** The first of the nodes with the greatest score. */
  ghost predicate BestIn(uct: Uct, stats: Stats, children: seq<SearchNode>, best: SearchNode) {
    exists k | 0 <= k < |children| ::
      && children[k] == best
      && (forall j | 0 <= j < |children| :: ScoreIn(uct, stats, children[j]) <= ScoreIn(uct, stats, best))
      && (forall j | 0 <= j < k :: ScoreIn(uct, stats, children[j]) < ScoreIn(uct, stats, best))
  }

  /** The descent goes on from a node with nothing untried to its best child. */
  ghost predicate GoesTo(uct: Uct, links: Links, stats: Stats, n: SearchNode, c: SearchNode) {
    n in links && links[n].untried == [] && BestIn(uct, stats, links[n].children, c)
  }

  /** Each goes to the next. */
  ghost predicate GoesDown(uct: Uct, links: Links, stats: Stats, descent: seq<SearchNode>)
    ensures GoesDown(uct, links, stats, descent) && descent != [] ==> descent[|descent| - 1] in links
  {
    descent != [] ==>
      var last := descent[|descent| - 1];
      && last in links && GoesDown(uct, links, stats, descent[..|descent| - 1])
      && (|descent| > 1 ==> GoesTo(uct, links, stats, descent[|descent| - 2], last))
  }

  lemma GoesDownMore(uct: Uct, links: Links, stats: Stats, descent: seq<SearchNode>, c: SearchNode)
    requires descent != [] && GoesDown(uct, links, stats, descent) && c in links
    requires GoesTo(uct, links, stats, descent[|descent| - 1], c)
    ensures GoesDown(uct, links, stats, descent + [c])
  {
    assert (descent + [c])[..|descent|] == descent;
  }

  lemma {:induction false} GoneDown(uct: Uct, links: Links, stats: Stats, descent: seq<SearchNode>)
    requires GoesDown(uct, links, stats, descent) && |descent| > 1
    ensures GoesTo(uct, links, stats, descent[0], descent[1])
    decreases |descent|
  {
    if |descent| > 2 {
      GoneDown(uct, links, stats, descent[..|descent| - 1]);
    }
  }

  /** From the root from best child to best child, until something is untried or there is no child. */
  ghost predicate IsDescent(uct: Uct, root: SearchNode, links: Links, stats: Stats, descent: seq<SearchNode>) {
    && descent != [] && descent[0] == root && GoesDown(uct, links, stats, descent)
    && (links[descent[|descent| - 1]].untried != [] || links[descent[|descent| - 1]].children == [])
  }

  lemma BestIsBestIn(uct: Uct, n: SearchNode, best: SearchNode, nodes: set<SearchNode>)
    requires n in nodes && IsBest(uct, n.children, best)
    requires forall c | c in n.children :: c in nodes && c.parent == n
    ensures BestIn(uct, StatsOf(nodes), n.children, best)
  {
    forall c | c in n.children
      ensures Score(uct, c) == ScoreIn(uct, StatsOf(nodes), c)
    {
    }
  }

  /** A child uses one slot more than its parent. */
  lemma ChildUsesMore(n: SearchNode, c: SearchNode, root: SearchNode, links: Links, base: GraphSpec,
                      mutations: seq<Mutation>)
    requires Tree(root, links, base, mutations) && n in links && c in links && c.parent == n
    ensures n.slots < c.slots <= SlotsUsed(mutations)
  {
    assert Hangs(c, root, links) && Holds(n, links[n], base, mutations) && Holds(c, links[c], base, mutations);
    var m := c.mutation.value;
    assert c.path[|n.path|] == m;
    assert m in c.path && SlotOf(m) in c.slots;
  }

  /** The descent: through fully tried nodes to their best child, down to a node to expand or a leaf. */
  method Select(uct: Uct, root: SearchNode, ghost nodes: set<SearchNode>, ghost base: GraphSpec,
                ghost mutations: seq<Mutation>)
    returns (node: SearchNode, ghost descent: seq<SearchNode>)
    requires Tree(root, LinksOf(nodes), base, mutations)
    ensures node in nodes && (node.untried != [] || node.children == [])
    ensures descent != [] && descent[0] == root && descent[|descent| - 1] == node
    ensures IsDescent(uct, root, LinksOf(nodes), StatsOf(nodes), descent)
  {
    ghost var links, stats := LinksOf(nodes), StatsOf(nodes);
    node, descent := root, [root];
    while node.untried == [] && node.children != []
      invariant node in nodes
      invariant descent != [] && descent[0] == root && descent[|descent| - 1] == node
      invariant GoesDown(uct, links, stats, descent)
      decreases SlotsUsed(mutations) - node.slots
    {
      assert Hangs(node, root, links);
      var best := BestChild(uct, node.children);
      BestIsBestIn(uct, node, best, nodes);
      GoesDownMore(uct, links, stats, descent, best);
      ChildUsesMore(node, best, root, links, base, mutations);
      node, descent := best, descent + [best];
    }
  }

  // ----- Expansion -----

  /** The place of the first mutation equal to the drawn one, which is the one `remove` takes out. */
  method FirstEqual(untried: seq<Mutation>, drawn: nat) returns (k: nat)
    requires drawn < |untried|
    ensures k <= drawn && untried[k] == untried[drawn] && untried[drawn] !in untried[..k]
  {
    k := 0;
    while untried[k] != untried[drawn]
      invariant k <= drawn && untried[drawn] !in untried[..k]
      decreases drawn - k
    {
      k := k + 1;
    }
  }

  /** What `remove` leaves of a list: all but the first entry equal to this one. */
  function RemoveFirst(mutations: seq<Mutation>, m: Mutation): (rest: seq<Mutation>)
    ensures m in mutations ==> multiset(rest) + multiset{m} == multiset(mutations)
    ensures m in mutations ==> |rest| == |mutations| - 1
  {
    if mutations == [] then []
    else
      assert mutations == [mutations[0]] + mutations[1..];
      if mutations[0] == m then mutations[1..] else [mutations[0]] + RemoveFirst(mutations[1..], m)
  }

  lemma {:induction false} RemovedAt(mutations: seq<Mutation>, m: Mutation, k: nat)
    requires k < |mutations| && mutations[k] == m && m !in mutations[..k]
    ensures RemoveFirst(mutations, m) == mutations[..k] + mutations[k + 1..]
    decreases k
  {
    if k > 0 {
      assert mutations[0] in mutations[..k];
      forall i | 0 <= i < k - 1
        ensures mutations[1..][i] != m
      {
        assert mutations[i + 1] in mutations[..k];
      }
      RemovedAt(mutations[1..], m, k - 1);
      assert mutations[..k] + mutations[k + 1..] == [mutations[0]] + (mutations[1..][..k - 1] + mutations[1..][k..]);
    }
  }

  /** Taking the drawn mutation out of the untried ones. */
  method TakeOut(node: SearchNode, drawn: nat, ghost nodes: set<SearchNode>)
    requires node in nodes && drawn < |node.untried|
    modifies node`untried
    ensures node.untried == RemoveFirst(old(node.untried), old(node.untried)[drawn])
    ensures LinksOf(nodes) == old(LinksOf(nodes))[node := Link(node.untried, node.children)]
  {
    var k := FirstEqual(node.untried, drawn);
    RemovedAt(node.untried, node.untried[drawn], k);
    node.untried := node.untried[..k] + node.untried[k + 1..];
  }

  /** The node that one mutation makes below another. */
  ghost predicate IsChild(child: SearchNode, node: SearchNode, m: Mutation) {
    && child.parent == node && child.mutation == Some(m) && child.path == node.path + [m]
    && child.slots == node.slots + {SlotOf(m)} && Mutate(m, node.graph) == Ok(child.graph)
  }

  ghost function WithChild(links: Links, node: SearchNode, rest: seq<Mutation>, child: SearchNode,
                           mutations: seq<Mutation>): Links
    requires node in links
  {
    links[node := Link(rest, links[node].children + [child])][child := Link(Unused(mutations, child.slots), [])]
  }

  /** The tree after the node got its child for the drawn one of its untried mutations. */
  ghost function Grown(links: Links, node: SearchNode, drawn: nat, child: SearchNode, mutations: seq<Mutation>): Links
    requires node in links && drawn < |links[node].untried|
  {
    WithChild(links, node, RemoveFirst(links[node].untried, links[node].untried[drawn]), child, mutations)
  }

  /** `_new_child`. */
  method NewChild(node: SearchNode, m: Mutation, mutations: seq<Mutation>, ghost nodes: set<SearchNode>)
    returns (outcome: Result<SearchNode, MutationError>)
    requires node in nodes
    modifies node`children
    ensures outcome.Err? <==> Mutate(m, node.graph).Err?
    ensures outcome.Ok? ==>
              var child := outcome.value;
              && fresh(child) && IsChild(child, node, m)
              && StatsOf(nodes + {child}) == old(StatsOf(nodes))[child := NOTHING]
              && LinksOf(nodes + {child}) == WithChild(old(LinksOf(nodes)), node, node.untried, child, mutations)
  {
    var slots := node.slots + {SlotOf(m)};
    match Mutate(m, node.graph)
    case Err(error) =>
      return Err(error);
    case Ok(graph) =>
      var child := new SearchNode(graph, node, Some(m), slots, node.path + [m], Unused(mutations, slots));
      Attach(node, child, nodes);
      return Ok(child);
  }

  /** The child is appended to the children of its parent. */
  method Attach(node: SearchNode, child: SearchNode, ghost nodes: set<SearchNode>)
    requires node in nodes && child !in nodes && child.visits == 0 && child.totalReward == 0.0
    modifies node`children
    ensures StatsOf(nodes + {child}) == StatsOf(nodes)[child := NOTHING] && StatsOf(nodes) == old(StatsOf(nodes))
    ensures LinksOf(nodes + {child}) ==
              old(LinksOf(nodes))[node := Link(node.untried, old(node.children) + [child])]
                                 [child := Link(child.untried, child.children)]
  {
    node.children := node.children + [child];
  }

  /** A new child of a drawn mutation keeps the tree. */
  lemma ChildKeepsHanging(n: SearchNode, root: SearchNode, links: Links, node: SearchNode, child: SearchNode,
                          now: Links, rest: seq<Mutation>, unused: seq<Mutation>)
    requires node in links && child !in links && n in links && Hangs(n, root, links)
    requires child.parent == node && child.mutation.Some?
    requires now == links[node := Link(rest, links[node].children + [child])][child := Link(unused, [])]
    ensures Hangs(n, root, now)
  {
  }

  lemma TriedOneMore(children: seq<SearchNode>, child: SearchNode, m: Mutation)
    requires child.mutation == Some(m)
    ensures Tried(children + [child]) == Tried(children) + multiset{m}
  {
    assert (children + [child])[..|children|] == children;
  }

  /** A node keeps what it holds when a drawn mutation moves from the untried to the tried. */
  lemma ParentHolds(node: SearchNode, link: Link, base: GraphSpec, mutations: seq<Mutation>,
                    m: Mutation, rest: seq<Mutation>, child: SearchNode)
    requires Holds(node, link, base, mutations)
    requires multiset(rest) + multiset{m} == multiset(link.untried) && child.mutation == Some(m)
    ensures Holds(node, Link(rest, link.children + [child]), base, mutations)
  {
    TriedOneMore(link.children, child, m);
  }

  lemma DrawnIsUnused(node: SearchNode, link: Link, base: GraphSpec, mutations: seq<Mutation>, m: Mutation)
    requires Holds(node, link, base, mutations) && m in multiset(link.untried)
    ensures m in mutations && SlotOf(m) !in node.slots
  {
    assert m in multiset(Unused(mutations, node.slots));
  }

  lemma ChildHolds(node: SearchNode, base: GraphSpec, mutations: seq<Mutation>, link: Link, m: Mutation,
                   child: SearchNode)
    requires Holds(node, link, base, mutations) && m in mutations && SlotOf(m) !in node.slots
    requires child.path == node.path + [m] && child.slots == node.slots + {SlotOf(m)}
    requires Mutate(m, node.graph) == Ok(child.graph)
    ensures Holds(child, Link(Unused(mutations, child.slots), []), base, mutations)
  {
    MutateOneMore(base, node.path, m);
    OneSlotMore(node.path, m);
    assert forall n | n in child.path :: n in node.path || n == m;
  }

  lemma OneSlotMore(path: seq<Mutation>, m: Mutation)
    requires DistinctSlots(path) && SlotOf(m) !in SlotsUsed(path)
    ensures DistinctSlots(path + [m]) && SlotsUsed(path + [m]) == SlotsUsed(path) + {SlotOf(m)}
  {
    var longer := path + [m];
    assert forall n :: n in longer <==> n in path || n == m;
    forall i, j | 0 <= i < j < |longer|
      ensures SlotOf(longer[i]) != SlotOf(longer[j])
    {
      assert path[i] in path;
    }
  }

  lemma ChildHangs(root: SearchNode, links: Links, node: SearchNode, m: Mutation, rest: seq<Mutation>,
                   child: SearchNode, unused: seq<Mutation>)
    requires root in links && node in links && child !in links
    requires AllHang(root, links)
    requires child.parent == node && child.mutation == Some(m) && child.path == node.path + [m]
    ensures var now := links[node := Link(rest, links[node].children + [child])][child := Link(unused, [])];
            AllHang(root, now)
  {
    var now := links[node := Link(rest, links[node].children + [child])][child := Link(unused, [])];
    forall n | n in now
      ensures Hangs(n, root, now)
    {
      if n in links {
        assert Hangs(n, root, links);
        ChildKeepsHanging(n, root, links, node, child, now, rest, unused);
      }
    }
  }

  lemma ChildKeepsHoldings(links: Links, base: GraphSpec, mutations: seq<Mutation>,
                           node: SearchNode, m: Mutation, rest: seq<Mutation>, child: SearchNode, now: Links)
    requires node in links && child !in links
    requires forall n {:trigger Holds(n, links[n], base, mutations)} | n in links :: Holds(n, links[n], base, mutations)
    requires multiset(rest) + multiset{m} == multiset(links[node].untried)
    requires child.mutation == Some(m) && child.path == node.path + [m]
    requires child.slots == node.slots + {SlotOf(m)} && Mutate(m, node.graph) == Ok(child.graph)
    requires now == links[node := Link(rest, links[node].children + [child])]
                         [child := Link(Unused(mutations, child.slots), [])]
    ensures forall n {:trigger Holds(n, now[n], base, mutations)} | n in now :: Holds(n, now[n], base, mutations)
  {
    assert Holds(node, links[node], base, mutations);
    assert m in multiset(links[node].untried);
    DrawnIsUnused(node, links[node], base, mutations, m);
    ChildHolds(node, base, mutations, links[node], m, child);
    ParentHolds(node, links[node], base, mutations, m, rest, child);
    forall n | n in now
      ensures Holds(n, now[n], base, mutations)
    {
      assert n in links ==> Holds(n, links[n], base, mutations);
    }
  }

  lemma TotalWithChild(stats: Stats, child: SearchNode, children: seq<SearchNode>)
    requires child !in children
    ensures TotalOf(stats[child := NOTHING], children) == TotalOf(stats, children)
    ensures TotalOf(stats[child := NOTHING], children + [child]) == TotalOf(stats, children)
  {
    var after, more := stats[child := NOTHING], children + [child];
    TotalUnchanged(stats, child, NOTHING, children);
    assert more[..|more| - 1] == children && more[|more| - 1] == child;
  }

  lemma NoOwnChild(n: SearchNode, root: SearchNode, links: Links, child: SearchNode)
    requires n in links && Hangs(n, root, links) && child !in links
    ensures child !in links[n].children
  {
  }

  lemma ChildKeepsBalance(n: SearchNode, stats: Stats, links: Links, history: seq<Trial>,
                          node: SearchNode, rest: seq<Mutation>, child: SearchNode, unused: seq<Mutation>)
    requires n in links && n in stats && Balanced(n, stats, links, history, null, 0.0)
    requires node in links && child !in links && child !in stats && child !in links[n].children
    ensures Balanced(n, stats[child := NOTHING],
                     links[node := Link(rest, links[node].children + [child])][child := Link(unused, [])],
                     history, null, 0.0)
  {
    var after, kids := stats[child := NOTHING], links[n].children;
    TotalWithChild(stats, child, kids);
    var now := if n == node then kids + [child] else kids;
    assert TotalOf(after, now) == TotalOf(stats, kids);
    assert Balanced(n, stats, links, history, null, 0.0);
  }

  /** A new child owes nothing, and nobody owes anything for it. */
  lemma ChildIsBalanced(stats: Stats, links: Links, history: seq<Trial>, root: SearchNode,
                        node: SearchNode, rest: seq<Mutation>, child: SearchNode, unused: seq<Mutation>)
    requires Accounted(stats, links, history, null, 0.0) && AllHang(root, links)
    requires node in links && child !in links && forall t | t in history :: t.node in links
    ensures Accounted(stats[child := NOTHING],
                      links[node := Link(rest, links[node].children + [child])][child := Link(unused, [])],
                      history, null, 0.0)
  {
    var now := links[node := Link(rest, links[node].children + [child])][child := Link(unused, [])];
    OwnsNothing(history, child);
    forall n | n in now
      ensures Balanced(n, stats[child := NOTHING], now, history, null, 0.0)
    {
      if n in links {
        assert Balanced(n, stats, links, history, null, 0.0) && Hangs(n, root, links);
        NoOwnChild(n, root, links, child);
        ChildKeepsBalance(n, stats, links, history, node, rest, child, unused);
      }
    }
  }

  lemma {:induction false} OwnsNothing(history: seq<Trial>, n: SearchNode)
    requires forall t | t in history :: t.node != n
    ensures Own(history, n) == NOTHING
    decreases |history|
  {
    if history != [] {
      assert history[|history| - 1] in history;
      OwnsNothing(history[..|history| - 1], n);
    }
  }

  // ----- The search -----

  /** A graph evaluated for the first time. */
  datatype Candidate = Candidate(graph: GraphSpec, reward: real, path: seq<Mutation>)

  /** The evaluator: a reward for a graph at its k-th call, none when the reward is not finite. */
  type Evaluator = (GraphSpec, nat) -> Option<real>

  datatype SearchError = BadArgument | NotFinite | MutationFailed(error: MutationError)

  datatype SearchResult = SearchResult(best: Candidate, evaluations: nat, evaluated: seq<Candidate>)

  /** The k-th evaluated graph: its path rebuilds it, and the evaluator gave its reward. The base comes first. */
  ghost predicate IsEvaluated(c: Candidate, k: nat, base: GraphSpec, mutations: seq<Mutation>, evaluate: Evaluator) {
    && MutateAll(base, c.path) == Ok(c.graph)
    && DistinctSlots(c.path) && (forall m | m in c.path :: m in mutations)
    && evaluate(c.graph, k) == Some(c.reward)
    && (k == 0 ==> c.path == [])
  }

  /** Every candidate was evaluated at its turn, and no graph twice. */
  ghost predicate Evaluated(evaluated: seq<Candidate>, base: GraphSpec, mutations: seq<Mutation>, evaluate: Evaluator) {
    evaluated != [] ==>
      var before, last := evaluated[..|evaluated| - 1], evaluated[|evaluated| - 1];
      && Evaluated(before, base, mutations, evaluate)
      && IsEvaluated(last, |before|, base, mutations, evaluate)
      && last.graph !in CacheOf(before)
  }

  /** What a cache holds that remembers exactly these candidates. */
  ghost function CacheOf(evaluated: seq<Candidate>): map<GraphSpec, real> {
    if evaluated == [] then map[]
    else
      var last := evaluated[|evaluated| - 1];
      CacheOf(evaluated[..|evaluated| - 1])[last.graph := last.reward]
  }

  /** The candidate kept when a candidate replaces the kept one only for a greater reward. */
  ghost function Kept(evaluated: seq<Candidate>): Candidate
    requires evaluated != []
  {
    var last := evaluated[|evaluated| - 1];
    if |evaluated| == 1 then last
    else
      var best := Kept(evaluated[..|evaluated| - 1]);
      if last.reward > best.reward then last else best
  }

  /** The first candidate with the greatest reward. */
  ghost predicate FirstBest(best: Candidate, evaluated: seq<Candidate>) {
    exists k | 0 <= k < |evaluated| ::
      && evaluated[k] == best
      && (forall j | 0 <= j < |evaluated| :: evaluated[j].reward <= best.reward)
      && (forall j | 0 <= j < k :: evaluated[j].reward < best.reward)
  }

  lemma {:induction false} KeptIsFirstBest(evaluated: seq<Candidate>)
    requires evaluated != []
    ensures FirstBest(Kept(evaluated), evaluated)
    decreases |evaluated|
  {
    var before, last := evaluated[..|evaluated| - 1], |evaluated| - 1;
    if before != [] {
      KeptIsFirstBest(before);
      var best := Kept(before);
      var k :| 0 <= k < |before| && before[k] == best
        && (forall j | 0 <= j < |before| :: before[j].reward <= best.reward)
        && (forall j | 0 <= j < k :: before[j].reward < best.reward);
      assert evaluated[k] == best;
      assert forall j | 0 <= j < |before| :: evaluated[j] == before[j];
    }
    assert evaluated[last].reward <= Kept(evaluated).reward;
  }

  lemma {:induction false} CachedAtMostKept(evaluated: seq<Candidate>, g: GraphSpec)
    requires g in CacheOf(evaluated)
    ensures evaluated != [] && CacheOf(evaluated)[g] <= Kept(evaluated).reward
    decreases |evaluated|
  {
    var before, last := evaluated[..|evaluated| - 1], evaluated[|evaluated| - 1];
    if g != last.graph {
      CachedAtMostKept(before, g);
    }
  }

  lemma {:induction false} EvaluatedAt(evaluated: seq<Candidate>, k: nat, base: GraphSpec, mutations: seq<Mutation>,
                                       evaluate: Evaluator)
    requires Evaluated(evaluated, base, mutations, evaluate) && k < |evaluated|
    ensures IsEvaluated(evaluated[k], k, base, mutations, evaluate)
    ensures evaluated[k].graph in CacheOf(evaluated)
    decreases |evaluated|
  {
    if k < |evaluated| - 1 {
      EvaluatedAt(evaluated[..|evaluated| - 1], k, base, mutations, evaluate);
    }
  }

  lemma {:induction false} EvaluatedOnce(evaluated: seq<Candidate>, i: nat, j: nat, base: GraphSpec,
                                         mutations: seq<Mutation>, evaluate: Evaluator)
    requires Evaluated(evaluated, base, mutations, evaluate) && i < j < |evaluated|
    ensures evaluated[i].graph != evaluated[j].graph
    decreases |evaluated|
  {
    var before := evaluated[..|evaluated| - 1];
    if j < |evaluated| - 1 {
      EvaluatedOnce(before, i, j, base, mutations, evaluate);
    } else {
      EvaluatedAt(before, i, base, mutations, evaluate);
    }
  }

  lemma {:induction false} CacheSize(evaluated: seq<Candidate>, base: GraphSpec, mutations: seq<Mutation>,
                                     evaluate: Evaluator)
    requires Evaluated(evaluated, base, mutations, evaluate)
    ensures |CacheOf(evaluated)| == |evaluated|
    decreases |evaluated|
  {
    if evaluated != [] {
      var before := evaluated[..|evaluated| - 1];
      CacheSize(before, base, mutations, evaluate);
      assert CacheOf(evaluated).Keys == CacheOf(before).Keys + {evaluated[|evaluated| - 1].graph};
    }
  }

  lemma {:induction false} CacheHoldsEvaluated(evaluated: seq<Candidate>, g: GraphSpec)
    requires g in CacheOf(evaluated)
    ensures exists k :: 0 <= k < |evaluated| && evaluated[k].graph == g
    decreases |evaluated|
  {
    var last := |evaluated| - 1;
    if g != evaluated[last].graph {
      CacheHoldsEvaluated(evaluated[..last], g);
      var k :| 0 <= k < last && evaluated[..last][k].graph == g;
      assert evaluated[k].graph == g;
    }
  }

  /** Every reward fed back is the cached reward of the graph it was given for. */
  ghost predicate Answers(cache: map<GraphSpec, real>, history: seq<Trial>) {
    forall t | t in history :: t.node.graph in cache && t.reward == cache[t.node.graph]
  }

  lemma SoundAfterGrow(root: SearchNode, links: Links, stats: Stats, history: seq<Trial>, base: GraphSpec,
                       mutations: seq<Mutation>, node: SearchNode, m: Mutation, rest: seq<Mutation>, child: SearchNode)
    requires Sound(root, links, stats, history, base, mutations) && node in links && child !in links
    requires multiset(rest) + multiset{m} == multiset(links[node].untried) && IsChild(child, node, m)
    ensures Sound(root, WithChild(links, node, rest, child, mutations), stats[child := NOTHING], history, base,
                  mutations)
  {
    var unused := Unused(mutations, child.slots);
    ChildHangs(root, links, node, m, rest, child, unused);
    ChildKeepsHoldings(links, base, mutations, node, m, rest, child, WithChild(links, node, rest, child, mutations));
    ChildIsBalanced(stats, links, history, root, node, rest, child, unused);
  }

  lemma WithChildAfter(links: Links, node: SearchNode, rest: seq<Mutation>, child: SearchNode, mutations: seq<Mutation>)
    requires node in links
    ensures WithChild(links[node := Link(rest, links[node].children)], node, rest, child, mutations)
         == WithChild(links, node, rest, child, mutations)
  {
  }

  /** An untried mutation of the envelope applies. */
  lemma UntriedApplies(root: SearchNode, links: Links, stats: Stats, history: seq<Trial>, base: GraphSpec,
                       mutations: seq<Mutation>, node: SearchNode, k: nat)
    requires Sound(root, links, stats, history, base, mutations) && node in links && k < |links[node].untried|
    requires Enveloped(base, mutations)
    ensures Mutate(links[node].untried[k], node.graph).Ok?
  {
    var m := links[node].untried[k];
    assert Holds(node, links[node], base, mutations);
    assert m in multiset(links[node].untried);
    DrawnIsUnused(node, links[node], base, mutations, m);
    PathRefines(base, node.path);
    MutationRefines(base, node.graph, m);
  }

  /** Taking a mutation out of the untried ones of a node and making its child. */
  method Expand(node: SearchNode, drawn: nat, mutations: seq<Mutation>, ghost root: SearchNode,
                ghost nodes: set<SearchNode>, ghost history: seq<Trial>, ghost base: GraphSpec)
    returns (outcome: Result<SearchNode, MutationError>)
    requires node in nodes && drawn < |node.untried|
             && Sound(root, LinksOf(nodes), StatsOf(nodes), history, base, mutations)
    modifies node`untried, node`children
    ensures Enveloped(base, mutations) ==> outcome.Ok?
    ensures outcome.Ok? ==>
              var child := outcome.value;
              && fresh(child) && IsChild(child, node, old(node.untried)[drawn])
              && LinksOf(nodes + {child}) == Grown(old(LinksOf(nodes)), node, drawn, child, mutations)
              && Sound(root, LinksOf(nodes + {child}), StatsOf(nodes + {child}), history, base, mutations)
  {
    if Enveloped(base, mutations) {
      UntriedApplies(root, LinksOf(nodes), StatsOf(nodes), history, base, mutations, node, drawn);
    }
    outcome := Spend(node, drawn, mutations, nodes);
    if outcome.Ok? {
      GrownIsSound(root, old(LinksOf(nodes)), old(StatsOf(nodes)), history, base, mutations, node, drawn,
                   outcome.value);
    }
  }

  /** A drawn mutation is taken out of the untried ones and a child made of it. */
  method Spend(node: SearchNode, drawn: nat, mutations: seq<Mutation>, ghost nodes: set<SearchNode>)
    returns (outcome: Result<SearchNode, MutationError>)
    requires node in nodes && drawn < |node.untried|
    modifies node`untried, node`children
    ensures outcome.Err? <==> Mutate(old(node.untried)[drawn], node.graph).Err?
    ensures outcome.Ok? ==>
              var child := outcome.value;
              && fresh(child) && IsChild(child, node, old(node.untried)[drawn])
              && StatsOf(nodes + {child}) == old(StatsOf(nodes))[child := NOTHING]
              && LinksOf(nodes + {child}) == Grown(old(LinksOf(nodes)), node, drawn, child, mutations)
  {
    var mutation := node.untried[drawn];
    TakeOut(node, drawn, nodes);
    outcome := NewChild(node, mutation, mutations, nodes);
    if outcome.Ok? {
      WithChildAfter(old(LinksOf(nodes)), node, node.untried, outcome.value, mutations);
    }
  }

  lemma GrownIsSound(root: SearchNode, links: Links, stats: Stats, history: seq<Trial>, base: GraphSpec,
                     mutations: seq<Mutation>, node: SearchNode, drawn: nat, child: SearchNode)
    requires Sound(root, links, stats, history, base, mutations) && node in links && child !in links
    requires drawn < |links[node].untried| && IsChild(child, node, links[node].untried[drawn])
    ensures Sound(root, Grown(links, node, drawn, child, mutations), stats[child := NOTHING], history, base, mutations)
  {
    var untried := links[node].untried;
    assert untried[drawn] in untried;
    SoundAfterGrow(root, links, stats, history, base, mutations, node, untried[drawn],
                   RemoveFirst(untried, untried[drawn]), child);
  }

  // ----- What a search did -----

  /** One iteration: the tree it found, its descent there, the node it settled on and the tree it left. */
  datatype Pass = Pass(links: Links, stats: Stats, descent: seq<SearchNode>, node: SearchNode, after: Links)

  /**
   Where something was untried at the end of the descent, the drawn one of it makes a new child
   there, and that is the node settled on; where nothing was, it is the end of the descent itself.
   */
  ghost predicate Passes(uct: Uct, drawn: nat, root: SearchNode, mutations: seq<Mutation>, p: Pass) {
    && IsDescent(uct, root, p.links, p.stats, p.descent)
    && var stop := p.descent[|p.descent| - 1];
       var untried := p.links[stop].untried;
       if untried == [] then p.node == stop && p.after == p.links
       else
         && p.node !in p.links && IsChild(p.node, stop, untried[drawn % |untried|])
         && p.after == Grown(p.links, stop, drawn % |untried|, p.node, mutations)
  }

  /**
   The trials of a search: the base first, and then one for each pass, which found the tree that
   the one before it left, with the statistics of the trials so far.
   */
  ghost predicate Ran(uct: Uct, draw: nat -> nat, root: SearchNode, mutations: seq<Mutation>, trials: seq<Trial>,
                      passes: seq<Pass>, links: Links)
  {
    && |trials| == |passes| + 1 && trials[0].node == root
    && links == TreeAfter(root, mutations, passes)
    && forall k | 0 <= k < |passes| :: IsPassAt(uct, draw, root, mutations, trials, passes, k)
  }

  /** The tree after these passes, at first the root alone with everything untried. */
  ghost function TreeAfter(root: SearchNode, mutations: seq<Mutation>, passes: seq<Pass>): Links {
    if passes == [] then map[root := Link(mutations, [])] else passes[|passes| - 1].after
  }

  ghost predicate IsPassAt(uct: Uct, draw: nat -> nat, root: SearchNode, mutations: seq<Mutation>, trials: seq<Trial>,
                           passes: seq<Pass>, k: nat)
    requires k < |passes| < |trials|
  {
    && passes[k].links == TreeAfter(root, mutations, passes[..k])
    && IsPass(uct, draw(k + 1), root, mutations, trials[..k + 1], passes[k])
    && trials[k + 1].node == passes[k].node
  }

  /** A pass over a tree whose statistics are those of the trials so far. */
  ghost predicate IsPass(uct: Uct, drawn: nat, root: SearchNode, mutations: seq<Mutation>, trials: seq<Trial>,
                         p: Pass) {
    Accounted(p.stats, p.links, trials, null, 0.0) && Passes(uct, drawn, root, mutations, p)
  }

  lemma RanOnce(uct: Uct, draw: nat -> nat, root: SearchNode, mutations: seq<Mutation>, trials: seq<Trial>,
                links: Links)
    requires |trials| == 1 && trials[0].node == root && links == map[root := Link(mutations, [])]
    ensures Ran(uct, draw, root, mutations, trials, [], links)
  {
  }

  lemma RanOnceMore(uct: Uct, draw: nat -> nat, root: SearchNode, mutations: seq<Mutation>, trials: seq<Trial>,
                    passes: seq<Pass>, p: Pass, now: seq<Trial>)
    requires Ran(uct, draw, root, mutations, trials, passes, p.links) && Adds(trials, now, p.node)
    requires IsPass(uct, draw(|trials|), root, mutations, trials, p)
    ensures Ran(uct, draw, root, mutations, now, passes + [p], p.after)
  {
    var longer := passes + [p];
    forall k | 0 <= k < |longer|
      ensures IsPassAt(uct, draw, root, mutations, now, longer, k)
    {
      assert longer[..k] == passes[..k];
      assert now[..k + 1] == trials[..k + 1];
      assert k < |passes| ==> IsPassAt(uct, draw, root, mutations, trials, passes, k);
    }
  }

  function Least(a: int, b: int): int {
    if a <= b then a else b
  }

  /** The first trials after the base are of children of the root, made by different entries of the mutations. */
  ghost predicate FirstOfRoot(root: SearchNode, mutations: seq<Mutation>, trials: seq<Trial>, link: Link) {
    && |link.children| == Least(|trials| - 1, |mutations|) && |link.children| + |link.untried| == |mutations|
    && multiset(link.untried) + Tried(link.children) == multiset(mutations)
    && AreFirst(root, trials, link.children)
  }

  /** These children of the root were settled on in turn, right after the base. */
  ghost predicate AreFirst(root: SearchNode, trials: seq<Trial>, children: seq<SearchNode>) {
    && |children| < |trials|
    && forall i | 0 <= i < |children| ::
         && trials[i + 1].node == children[i]
         && children[i].mutation.Some? && IsChild(children[i], root, children[i].mutation.value)
  }

  lemma {:induction false} RootIsTriedFirst(uct: Uct, draw: nat -> nat, root: SearchNode, mutations: seq<Mutation>,
                                            trials: seq<Trial>, passes: seq<Pass>, links: Links)
    requires Ran(uct, draw, root, mutations, trials, passes, links)
    ensures root in links && FirstOfRoot(root, mutations, trials, links[root])
    decreases |passes|
  {
    if passes == [] {
      NothingTried(root, mutations, trials);
    } else {
      var k := |passes|;
      RanLast(uct, draw, root, mutations, trials, passes, links);
      RootIsTriedFirst(uct, draw, root, mutations, trials[..k], passes[..k - 1], passes[k - 1].links);
      PassKeepsFirst(uct, draw(k), root, mutations, trials[..k], passes[k - 1], trials);
    }
  }

  lemma RanLast(uct: Uct, draw: nat -> nat, root: SearchNode, mutations: seq<Mutation>, trials: seq<Trial>,
                passes: seq<Pass>, links: Links)
    requires Ran(uct, draw, root, mutations, trials, passes, links) && passes != []
    ensures var k := |passes|;
            var last := passes[k - 1];
            && |trials| == k + 1 && Adds(trials[..k], trials, last.node)
            && Ran(uct, draw, root, mutations, trials[..k], passes[..k - 1], last.links)
            && Passes(uct, draw(k), root, mutations, last) && links == last.after
  {
    var k := |passes|;
    assert IsPassAt(uct, draw, root, mutations, trials, passes, k - 1);
    var fewer, shorter := trials[..k], passes[..k - 1];
    forall j | 0 <= j < |shorter|
      ensures IsPassAt(uct, draw, root, mutations, fewer, shorter, j)
    {
      assert IsPassAt(uct, draw, root, mutations, trials, passes, j);
      assert shorter[..j] == passes[..j] && fewer[..j + 1] == trials[..j + 1];
    }
  }

  lemma NothingTried(root: SearchNode, mutations: seq<Mutation>, trials: seq<Trial>)
    requires |trials| == 1
    ensures FirstOfRoot(root, mutations, trials, Link(mutations, []))
  {
  }

  /** A descent that goes on from the root found nothing untried there. */
  lemma GoneOn(uct: Uct, root: SearchNode, links: Links, stats: Stats, descent: seq<SearchNode>)
    requires IsDescent(uct, root, links, stats, descent) && |descent| > 1
    ensures root in links && links[root].untried == []
  {
    GoneDown(uct, links, stats, descent);
  }

  /** What a pass makes of the root. */
  lemma PassAtRoot(uct: Uct, drawn: nat, root: SearchNode, mutations: seq<Mutation>, p: Pass)
    requires Passes(uct, drawn, root, mutations, p) && root in p.links
    ensures root in p.after
    ensures p.links[root].untried == [] ==> p.after[root] == p.links[root]
    ensures p.links[root].untried != [] ==>
              var untried := p.links[root].untried;
              var m := untried[drawn % |untried|];
              && IsChild(p.node, root, m)
              && p.after[root] == Link(RemoveFirst(untried, m), p.links[root].children + [p.node])
  {
    if |p.descent| > 1 {
      GoneOn(uct, root, p.links, p.stats, p.descent);
    }
  }

  lemma RootGets(root: SearchNode, mutations: seq<Mutation>, trials: seq<Trial>, now: seq<Trial>, link: Link,
                 m: Mutation,
                 child: SearchNode)
    requires trials != [] && FirstOfRoot(root, mutations, trials, link) && Adds(trials, now, child)
    requires m in link.untried && IsChild(child, root, m)
    ensures FirstOfRoot(root, mutations, now, Link(RemoveFirst(link.untried, m), link.children + [child]))
  {
    TriedOneMore(link.children, child, m);
    ChildrenAreFirst(root, trials, now, link.children, child, m);
  }

  lemma ChildrenAreFirst(root: SearchNode, trials: seq<Trial>, now: seq<Trial>, children: seq<SearchNode>,
                         child: SearchNode, m: Mutation)
    requires AreFirst(root, trials, children) && |trials| == |children| + 1
    requires Adds(trials, now, child) && IsChild(child, root, m)
    ensures AreFirst(root, now, children + [child])
  {
  }

  lemma RootStays(root: SearchNode, mutations: seq<Mutation>, trials: seq<Trial>, now: seq<Trial>, link: Link,
                  node: SearchNode)
    requires trials != [] && FirstOfRoot(root, mutations, trials, link) && Adds(trials, now, node) && link.untried == []
    ensures FirstOfRoot(root, mutations, now, link)
  {
  }

  lemma PassKeepsFirst(uct: Uct, drawn: nat, root: SearchNode, mutations: seq<Mutation>, trials: seq<Trial>, p: Pass,
                       now: seq<Trial>)
    requires Passes(uct, drawn, root, mutations, p) && Adds(trials, now, p.node)
    requires trials != [] && root in p.links && FirstOfRoot(root, mutations, trials, p.links[root])
    ensures root in p.after && FirstOfRoot(root, mutations, now, p.after[root])
  {
    PassAtRoot(uct, drawn, root, mutations, p);
    var link := p.links[root];
    if link.untried == [] {
      RootStays(root, mutations, trials, now, link, p.node);
    } else {
      RootGets(root, mutations, trials, now, link, link.untried[drawn % |link.untried|], p.node);
    }
  }

  lemma {:induction false} TriedIsOfSome(children: seq<SearchNode>, m: Mutation) returns (k: nat)
    requires m in Tried(children)
    ensures k < |children| && children[k].mutation == Some(m)
    decreases |children|
  {
    var last := |children| - 1;
    if children[last].mutation == Some(m) {
      k := last;
    } else {
      k := TriedIsOfSome(children[..last], m);
    }
  }

  /** The evaluated graphs of a history: each when it is first met. */
  ghost function MetAll(history: seq<Trial>): seq<Candidate> {
    if history == [] then []
    else
      var before, last := MetAll(history[..|history| - 1]), history[|history| - 1];
      Met(CacheOf(before), before, Candidate(last.node.graph, last.reward, last.node.path))
  }

  /** All that a search did, with the node it started from. */
  datatype Course = Course(root: SearchNode, trials: seq<Trial>, passes: seq<Pass>, links: Links)

  /** What was done is a search of so many trials, and this is its result. */
  ghost predicate IsSearch(uct: Uct, draw: nat -> nat, base: GraphSpec, mutations: seq<Mutation>, iterations: int,
                           course: Course, r: SearchResult)
  {
    && |course.trials| == iterations && course.root.graph == base && course.root.path == []
    && Ran(uct, draw, course.root, mutations, course.trials, course.passes, course.links)
    && r.evaluated == MetAll(course.trials) && Answers(CacheOf(r.evaluated), course.trials)
    && r.evaluated != [] && r.best == Kept(r.evaluated)
  }

  /**
   With more iterations than mutations every single mutation of the base is evaluated, and the
   result is rewarded at least as well.
   */
  lemma SinglesAreEvaluated(uct: Uct, draw: nat -> nat, base: GraphSpec, mutations: seq<Mutation>, iterations: int,
                            course: Course, r: SearchResult, m: Mutation)
    requires IsSearch(uct, draw, base, mutations, iterations, course, r) && iterations > |mutations| && m in mutations
    ensures Mutate(m, base).Ok?
    ensures exists k :: 0 <= k < |r.evaluated| && r.evaluated[k].graph == Mutate(m, base).value
    ensures Mutate(m, base).value in CacheOf(r.evaluated)
            && r.best.reward >= CacheOf(r.evaluated)[Mutate(m, base).value]
  {
    RootIsTriedFirst(uct, draw, course.root, mutations, course.trials, course.passes, course.links);
    var link := course.links[course.root];
    assert link.untried == [];
    assert m in multiset(mutations);
    var k := TriedIsOfSome(link.children, m);
    assert link.children[k] in link.children;
    assert course.trials[k + 1] in course.trials;
    CacheHoldsEvaluated(r.evaluated, Mutate(m, base).value);
    CachedAtMostKept(r.evaluated, Mutate(m, base).value);
  }

  /** These are the evaluated graphs and the cache of these trials. */
  ghost predicate AnswersOf(cache: map<GraphSpec, real>, evaluated: seq<Candidate>, history: seq<Trial>,
                            base: GraphSpec,
                            mutations: seq<Mutation>, evaluate: Evaluator)
  {
    && Evaluated(evaluated, base, mutations, evaluate)
    && evaluated == MetAll(history) && cache == CacheOf(evaluated)
    && Answers(cache, history)
    && |evaluated| <= |history|
    && (evaluated == [] <==> history == [])
  }

  /** A cached answer adds nothing to what is known. */
  lemma AnswersAgain(cache: map<GraphSpec, real>, evaluated: seq<Candidate>, history: seq<Trial>, base: GraphSpec,
                     mutations: seq<Mutation>, evaluate: Evaluator, node: SearchNode)
    requires AnswersOf(cache, evaluated, history, base, mutations, evaluate) && node.graph in cache
    ensures AnswersOf(cache, evaluated, history + [Trial(node, cache[node.graph])], base, mutations, evaluate)
  {
    MetOnceMore(history, node, cache[node.graph]);
  }

  lemma AnswersMore(cache: map<GraphSpec, real>, evaluated: seq<Candidate>, history: seq<Trial>, base: GraphSpec,
                    mutations: seq<Mutation>, evaluate: Evaluator, node: SearchNode, reward: real)
    requires AnswersOf(cache, evaluated, history, base, mutations, evaluate) && node.graph !in cache
    requires IsEvaluated(Candidate(node.graph, reward, node.path), |evaluated|, base, mutations, evaluate)
    ensures AnswersOf(cache[node.graph := reward], evaluated + [Candidate(node.graph, reward, node.path)],
                      history + [Trial(node, reward)], base, mutations, evaluate)
  {
    MetOnceMore(history, node, reward);
    MeetsOneMore(evaluated, history, node, Candidate(node.graph, reward, node.path), base, mutations, evaluate);
  }

  /** The first evaluation of a node of the tree; the first of all is of the root. */
  lemma NodeIsEvaluated(root: SearchNode, links: Links, base: GraphSpec, mutations: seq<Mutation>, evaluate: Evaluator,
                        node: SearchNode, reward: real, k: nat)
    requires Tree(root, links, base, mutations) && node in links && (k == 0 ==> node == root)
    requires evaluate(node.graph, k) == Some(reward)
    ensures IsEvaluated(Candidate(node.graph, reward, node.path), k, base, mutations, evaluate)
  {
    assert Holds(node, links[node], base, mutations);
  }

  lemma PassStays(uct: Uct, drawn: nat, root: SearchNode, mutations: seq<Mutation>, trials: seq<Trial>, p: Pass,
                  base: GraphSpec)
    requires Sound(root, p.links, p.stats, trials, base, mutations) && IsDescent(uct, root, p.links, p.stats, p.descent)
    requires p.node == p.descent[|p.descent| - 1] && p.links[p.node].untried == [] && p.after == p.links
    ensures IsPass(uct, drawn, root, mutations, trials, p)
  {
  }

  lemma PassGrows(uct: Uct, drawn: nat, root: SearchNode, mutations: seq<Mutation>, trials: seq<Trial>, p: Pass,
                  base: GraphSpec)
    requires Sound(root, p.links, p.stats, trials, base, mutations) && IsDescent(uct, root, p.links, p.stats, p.descent)
    requires var stop := p.descent[|p.descent| - 1];
             var untried := p.links[stop].untried;
             && untried != [] && p.node !in p.links && IsChild(p.node, stop, untried[drawn % |untried|])
             && p.after == Grown(p.links, stop, drawn % |untried|, p.node, mutations)
    ensures IsPass(uct, drawn, root, mutations, trials, p)
  {
  }

  /** What the search holds on to between two iterations. */
  class Search {
    const base: GraphSpec
    const mutations: seq<Mutation>
    const evaluate: Evaluator
    const root: SearchNode
    ghost var nodes: set<SearchNode>
    ghost var history: seq<Trial>
    var cache: map<GraphSpec, real>
    var evaluated: seq<Candidate>
    var best: Candidate

    /** The tree and its accounts. */
    ghost predicate ValidTree()
      reads this`nodes, this`history, nodes
    {
      Sound(root, LinksOf(nodes), StatsOf(nodes), history, base, mutations)
    }

    /** The cache, from which every reward of the history came, and the best candidate. */
    ghost predicate Knows(history: seq<Trial>)
      reads this`cache, this`evaluated, this`best
    {
      && KnowsAnswers(history)
      && (evaluated != [] ==> best == Kept(evaluated))
    }

    ghost predicate KnowsAnswers(history: seq<Trial>)
      reads this`cache, this`evaluated
    {
      AnswersOf(cache, evaluated, history, base, mutations, evaluate)
    }

    ghost predicate Valid()
      reads this`nodes, this`history, this`cache, this`evaluated, this`best, nodes
    {
      ValidTree() && Knows(history)
    }

    constructor (base: GraphSpec, mutations: seq<Mutation>, evaluate: Evaluator)
      ensures this.base == base && this.mutations == mutations && this.evaluate == evaluate
      ensures Valid() && history == [] && evaluated == [] && fresh(nodes)
      ensures LinksOf(nodes) == map[root := Link(mutations, [])] && root.graph == base && root.path == []
    {
      var node := new SearchNode(base, null, None, {}, [], mutations);
      this.base, this.mutations, this.evaluate, root := base, mutations, evaluate, node;
      nodes, history, cache, evaluated := {node}, [], map[], [];
      best := Candidate(base, 0.0, []);
      new;
      UnusedIsAll(mutations);
      assert Hangs(node, node, LinksOf(nodes));
      assert Holds(node, LinksOf(nodes)[node], base, mutations);
      assert Balanced(node, StatsOf(nodes), LinksOf(nodes), history, null, 0.0);
    }

    /** `_path`: up to the root, then reversed. */
    method PathOf(node: SearchNode) returns (path: seq<Mutation>)
      requires node in nodes && Tree(root, LinksOf(nodes), base, mutations)
      ensures path == node.path
    {
      path := [];
      var cursor := node;
      while cursor.parent != null
        invariant cursor in nodes && cursor.path + path == node.path
        decreases |cursor.path|
      {
        assert Hangs(cursor, root, LinksOf(nodes));
        path := [cursor.mutation.value] + path;
        cursor := cursor.parent;
      }
      assert Hangs(cursor, root, LinksOf(nodes));
    }

    /** `evaluate`: every graph is evaluated once and then answered from the cache. */
    method Evaluate(node: SearchNode) returns (reward: Option<real>)
      requires node in nodes && ValidTree() && KnowsAnswers(history) && (history == [] ==> node == root)
      modifies this`cache, this`evaluated
      ensures ValidTree() && LinksOf(nodes) == old(LinksOf(nodes))
      ensures reward.None? ==> evaluate(node.graph, |old(evaluated)|).None?
      ensures reward.Some? ==>
                var c := Candidate(node.graph, reward.value, node.path);
                && KnowsAnswers(history + [Trial(node, c.reward)])
                && evaluated == Met(old(cache), old(evaluated), c)
                && (c.graph in old(cache) ==> c.reward == old(cache)[c.graph])
    {
      if node.graph in cache {
        AnswersAgain(cache, evaluated, history, base, mutations, evaluate, node);
        return Some(cache[node.graph]);
      }
      var given := evaluate(node.graph, |evaluated|);
      if given.None? {
        return None;
      }
      Note(node, given.value);
      return given;
    }

    /** A graph evaluated for the first time is remembered with its path. */
    method Note(node: SearchNode, reward: real)
      requires node in nodes && ValidTree() && KnowsAnswers(history) && (history == [] ==> node == root)
      requires node.graph !in cache && evaluate(node.graph, |evaluated|) == Some(reward)
      modifies this`cache, this`evaluated
      ensures ValidTree() && LinksOf(nodes) == old(LinksOf(nodes))
      ensures KnowsAnswers(history + [Trial(node, reward)])
      ensures evaluated == old(evaluated) + [Candidate(node.graph, reward, node.path)]
    {
      var path := PathOf(node);
      var candidate := Candidate(node.graph, reward, path);
      NodeIsEvaluated(root, LinksOf(nodes), base, mutations, evaluate, node, reward, |evaluated|);
      AnswersMore(cache, evaluated, history, base, mutations, evaluate, node, reward);
      Store(candidate);
    }

    method Store(c: Candidate)
      requires ValidTree()
      modifies this`cache, this`evaluated
      ensures ValidTree() && LinksOf(nodes) == old(LinksOf(nodes))
      ensures cache == old(cache)[c.graph := c.reward] && evaluated == old(evaluated) + [c]
    {
      cache := cache[c.graph := c.reward];
      evaluated := evaluated + [c];
    }

    /** Feeding the reward back up the tree. */
    method Feed(node: SearchNode, reward: real)
      requires ValidTree() && node in nodes
      modifies this`history, nodes`visits, nodes`totalReward
      ensures ValidTree() && history == old(history) + [Trial(node, reward)]
      ensures LinksOf(nodes) == old(LinksOf(nodes))
    {
      Backpropagate(node, reward, root, nodes, history, base, mutations);
      history := history + [Trial(node, reward)];
    }

    /** Adding a child to the node for one of its untried mutations. */
    method Grow(node: SearchNode, drawn: nat) returns (outcome: Result<SearchNode, MutationError>)
      requires ValidTree() && node in nodes && drawn < |node.untried|
      modifies this`nodes, node`untried, node`children
      ensures Enveloped(base, mutations) ==> outcome.Ok?
      ensures outcome.Err? ==> nodes == old(nodes)
      ensures outcome.Ok? ==>
                && ValidTree() && fresh(outcome.value) && nodes == old(nodes) + {outcome.value}
                && IsChild(outcome.value, node, old(node.untried)[drawn])
                && LinksOf(nodes) == Grown(old(LinksOf(nodes)), node, drawn, outcome.value, mutations)
    {
      outcome := Expand(node, drawn, mutations, root, nodes, history, base);
      if outcome.Ok? {
        AddNode(outcome.value);
      }
    }

    /** The node becomes one of the search's. */
    ghost method AddNode(child: SearchNode)
      requires Sound(root, LinksOf(nodes + {child}), StatsOf(nodes + {child}), history, base, mutations)
      modifies this`nodes
      ensures nodes == old(nodes) + {child} && ValidTree() && LinksOf(nodes) == old(LinksOf(nodes + {child}))
    {
      nodes := nodes + {child};
    }

    /** The evaluation of the base graph, before the first iteration of the loop. */
    method Begin() returns (failure: Option<SearchError>)
      requires Valid() && history == [] && evaluated == []
      modifies this, nodes`visits, nodes`totalReward
      ensures nodes == old(nodes) && LinksOf(nodes) == old(LinksOf(nodes))
      ensures failure.None? ==> Valid() && |history| == 1 && history[0].node == root
      ensures failure.Some? ==> CanFail(evaluate)
    {
      var reward := Evaluate(root);
      if reward.None? {
        return Some(NotFinite);
      }
      Feed(root, reward.value);
      best := Candidate(base, reward.value, []);
      assert evaluated[0] == best;
      return None;
    }

    /** Evaluating the node and keeping it when its reward is the greatest so far. */
    method Judge(node: SearchNode) returns (reward: Option<real>)
      requires Valid() && node in nodes && history != []
      modifies this`cache, this`evaluated, this`best
      ensures reward.None? ==> CanFail(evaluate)
      ensures reward.Some? ==> Knows(history + [Trial(node, reward.value)])
      ensures ValidTree() && LinksOf(nodes) == old(LinksOf(nodes))
    {
      ghost var met, known := cache, evaluated;
      reward := Evaluate(node);
      if reward.Some? {
        KeptAfterMeeting(met, known, Candidate(node.graph, reward.value, node.path));
        Keep(node, reward.value);
      }
    }

    /** The kept candidate is replaced for a greater reward. */
    method Keep(node: SearchNode, reward: real)
      requires ValidTree() && node in nodes
      modifies this`best
      ensures ValidTree() && LinksOf(nodes) == old(LinksOf(nodes))
      ensures best == if reward > old(best).reward then Candidate(node.graph, reward, node.path) else old(best)
    {
      if reward > best.reward {
        var path := PathOf(node);
        best := Candidate(node.graph, reward, path);
      }
    }

    /** The end of an iteration: evaluate the node and feed its reward back. */
    method Settle(node: SearchNode) returns (failure: Option<SearchError>)
      requires Valid() && node in nodes && history != []
      modifies this`cache, this`evaluated, this`history, this`best, nodes`visits, nodes`totalReward
      ensures LinksOf(nodes) == old(LinksOf(nodes))
      ensures failure.None? ==> Valid() && Adds(old(history), history, node)
      ensures failure.Some? ==> CanFail(evaluate)
    {
      var reward := Judge(node);
      if reward.None? {
        return Some(NotFinite);
      }
      Remember(node, reward.value);
      return None;
    }

    /** The judged reward is fed back, and the search knows what it has seen. */
    method Remember(node: SearchNode, reward: real)
      requires ValidTree() && node in nodes && Knows(history + [Trial(node, reward)])
      modifies this`history, nodes`visits, nodes`totalReward
      ensures Valid() && history == old(history) + [Trial(node, reward)] && LinksOf(nodes) == old(LinksOf(nodes))
    {
      Feed(node, reward);
    }

    /** The descent, and a new child where it ends unless everything there was tried. */
    method Reach(uct: Uct, drawn: nat) returns (outcome: Result<SearchNode, MutationError>, ghost p: Pass)
      requires ValidTree()
      modifies this`nodes, nodes`untried, nodes`children
      ensures old(nodes) <= nodes && fresh(nodes - old(nodes))
      ensures outcome.Ok? ==>
                && ValidTree() && outcome.value in nodes && p.node == outcome.value
                && p.links == old(LinksOf(nodes)) && p.after == LinksOf(nodes)
                && IsPass(uct, drawn, root, mutations, old(history), p)
      ensures outcome.Err? ==> !Enveloped(base, mutations)
    {
      var node, descent := Select(uct, root, nodes, base, mutations);
      outcome, p := Branch(uct, drawn, node, descent);
    }

    /** A new child at the end of the descent, unless everything there was tried. */
    method Branch(uct: Uct, drawn: nat, node: SearchNode, ghost descent: seq<SearchNode>)
      returns (outcome: Result<SearchNode, MutationError>, ghost p: Pass)
      requires ValidTree() && IsDescent(uct, root, LinksOf(nodes), StatsOf(nodes), descent)
      requires node == descent[|descent| - 1] && node in nodes
      modifies this`nodes, node`untried, node`children
      ensures old(nodes) <= nodes && fresh(nodes - old(nodes))
      ensures outcome.Ok? ==>
                && ValidTree() && outcome.value in nodes && p.node == outcome.value
                && p.links == old(LinksOf(nodes)) && p.after == LinksOf(nodes)
                && IsPass(uct, drawn, root, mutations, old(history), p)
      ensures outcome.Err? ==> !Enveloped(base, mutations)
    {
      p := Pass(LinksOf(nodes), StatsOf(nodes), descent, node, LinksOf(nodes));
      if node.untried == [] {
        PassStays(uct, drawn, root, mutations, history, p, base);
        return Ok(node), p;
      }
      outcome := Grow(node, drawn % |node.untried|);
      if outcome.Ok? {
        p := p.(node := outcome.value, after := LinksOf(nodes));
        PassGrows(uct, drawn, root, mutations, history, p, base);
      }
    }

    /** One iteration: descend, expand, and settle. */
    method Iterate(uct: Uct, drawn: nat) returns (failure: Option<SearchError>, ghost p: Pass)
      requires Valid() && history != []
      modifies this`nodes, this`cache, this`evaluated, this`history, this`best, nodes
      ensures old(nodes) <= nodes && fresh(nodes - old(nodes))
      ensures failure.None? ==>
                && Valid() && Adds(old(history), history, p.node)
                && p.links == old(LinksOf(nodes)) && p.after == LinksOf(nodes)
                && IsPass(uct, drawn, root, mutations, old(history), p)
      ensures failure.Some? && Enveloped(base, mutations) ==> CanFail(evaluate)
    {
      var reached;
      reached, p := Reach(uct, drawn);
      if reached.Err? {
        return Some(MutationFailed(reached.error)), p;
      }
      failure := Settle(reached.value);
    }

    /** The search has come so far by these passes. */
    ghost predicate Going(uct: Uct, draw: nat -> nat, passes: seq<Pass>)
      reads this`nodes, this`history, this`cache, this`evaluated, this`best, nodes
    {
      Valid() && history != [] && Ran(uct, draw, root, mutations, history, passes, LinksOf(nodes))
    }

    /** One iteration more of what was done so far. */
    method RunOn(uct: Uct, drawn: nat, ghost draw: nat -> nat, ghost passes: seq<Pass>)
      returns (failure: Option<SearchError>, ghost more: seq<Pass>)
      requires Going(uct, draw, passes) && drawn == draw(|history|)
      modifies this`nodes, this`cache, this`evaluated, this`history, this`best, nodes
      ensures old(nodes) <= nodes && fresh(nodes - old(nodes))
      ensures failure.None? ==> Going(uct, draw, more) && |history| == |old(history)| + 1
      ensures failure.Some? && Enveloped(base, mutations) ==> CanFail(evaluate)
    {
      ghost var p;
      failure, p := Iterate(uct, drawn);
      more := passes + [p];
      if failure.None? {
        RanOnceMore(uct, draw, root, mutations, old(history), passes, p, history);
      }
    }

    /** The loop over the iterations, after the base was evaluated. */
    method Explore(uct: Uct, draw: nat -> nat, iterations: nat)
      returns (failure: Option<SearchError>, ghost passes: seq<Pass>)
      requires Going(uct, draw, []) && |history| == 1 <= iterations
      modifies this`nodes, this`cache, this`evaluated, this`history, this`best, nodes
      ensures failure.None? ==>
                Going(uct, draw, passes) && |history| == iterations
      ensures failure.Some? && Enveloped(base, mutations) ==> CanFail(evaluate)
    {
      failure, passes := None, [];
      for k := 1 to iterations
        invariant Going(uct, draw, passes) && |history| == k && failure.None?
        invariant old(nodes) <= nodes && fresh(nodes - old(nodes))
      {
        failure, passes := RunOn(uct, draw(k), draw, passes);
        if failure.Some? {
          return;
        }
      }
    }

    /** The root has been visited once for every evaluation. */
    lemma RootSeesAll()
      requires Valid()
      ensures root.visits == |history|
    {
      assert StatsOf(nodes)[root] == Summary(history);
      SummaryCounts(history);
    }

    lemma Outcome()
      requires Valid() && history != []
      ensures IsFound(SearchResult(best, |evaluated|, evaluated), base, mutations, evaluate, |history|)
      ensures evaluated == MetAll(history) && Answers(CacheOf(evaluated), history) && best == Kept(evaluated)
    {
      FoundAtLast(best, evaluated, base, mutations, evaluate, |history|);
    }
  }

  ghost predicate Enveloped(base: GraphSpec, mutations: seq<Mutation>) {
    WellFormed(base) && forall m | m in mutations :: InEnvelope(base, m)
  }

  /** The history goes on by one trial, of this node. */
  ghost predicate Adds(before: seq<Trial>, after: seq<Trial>, node: SearchNode) {
    |after| == |before| + 1 && after[..|before|] == before && after[|before|].node == node
  }

  /** Some call of the evaluator gives a reward that is not finite. */
  ghost predicate CanFail(evaluate: Evaluator) {
    exists g, k :: evaluate(g, k).None?
  }

  lemma MetOnceMore(history: seq<Trial>, node: SearchNode, reward: real)
    ensures MetAll(history + [Trial(node, reward)])
         == Met(CacheOf(MetAll(history)), MetAll(history), Candidate(node.graph, reward, node.path))
  {
    assert (history + [Trial(node, reward)])[..|history|] == history;
  }

  /** Meeting a candidate: the kept one is replaced exactly for a greater reward, cached or not. */
  lemma KeptAfterMeeting(cache: map<GraphSpec, real>, evaluated: seq<Candidate>, c: Candidate)
    requires cache == CacheOf(evaluated) && evaluated != []
    requires c.graph in cache ==> c.reward == cache[c.graph]
    ensures Kept(Met(cache, evaluated, c)) == if c.reward > Kept(evaluated).reward then c else Kept(evaluated)
  {
    if c.graph in cache {
      CachedAtMostKept(evaluated, c.graph);
    } else {
      AllButLast(evaluated, c);
    }
  }

  /** The evaluated graphs after meeting one more. */
  ghost function Met(cache: map<GraphSpec, real>, evaluated: seq<Candidate>, c: Candidate): seq<Candidate> {
    if c.graph in cache then evaluated else evaluated + [c]
  }

  lemma UnusedIsAll(mutations: seq<Mutation>)
    ensures Unused(mutations, {}) == mutations
  {
  }

  lemma MeetsOneMore(evaluated: seq<Candidate>, history: seq<Trial>, node: SearchNode, c: Candidate,
                     base: GraphSpec, mutations: seq<Mutation>, evaluate: Evaluator)
    requires Evaluated(evaluated, base, mutations, evaluate) && Answers(CacheOf(evaluated), history)
    requires c.graph == node.graph && c.graph !in CacheOf(evaluated)
             && IsEvaluated(c, |evaluated|, base, mutations, evaluate)
    ensures Evaluated(evaluated + [c], base, mutations, evaluate)
    ensures CacheOf(evaluated + [c]) == CacheOf(evaluated)[c.graph := c.reward]
    ensures Answers(CacheOf(evaluated)[c.graph := c.reward], history + [Trial(node, c.reward)])
  {
    AllButLast(evaluated, c);
  }

  lemma AllButLast(evaluated: seq<Candidate>, c: Candidate)
    ensures (evaluated + [c])[..|evaluated|] == evaluated
  {
  }

  /** What the search promises of its result. */
  ghost predicate IsFound(r: SearchResult, base: GraphSpec, mutations: seq<Mutation>, evaluate: Evaluator,
                          iterations: int) {
    && 1 <= r.evaluations == |r.evaluated| <= iterations
    && r.evaluations <= VariantBound((set m | m in mutations), SlotList(mutations))
    && (forall k | 0 <= k < |r.evaluated| :: IsEvaluated(r.evaluated[k], k, base, mutations, evaluate))
    && (forall i, j | 0 <= i < j < |r.evaluated| :: r.evaluated[i].graph != r.evaluated[j].graph)
    && FirstBest(r.best, r.evaluated)
  }

  /** The slots of the mutations, each once. */
  function SlotList(mutations: seq<Mutation>): (slots: seq<Slot>)
    ensures forall s :: s in slots <==> exists m :: m in mutations && SlotOf(m) == s
    ensures forall i, j | 0 <= i < j < |slots| :: slots[i] != slots[j]
  {
    if mutations == [] then []
    else
      var last := mutations[|mutations| - 1];
      var before := SlotList(mutations[..|mutations| - 1]);
      assert mutations == mutations[..|mutations| - 1] + [last];
      if SlotOf(last) in before then before else before + [SlotOf(last)]
  }

  lemma EvaluationsBounded(evaluated: seq<Candidate>, base: GraphSpec, mutations: seq<Mutation>, evaluate: Evaluator)
    requires Evaluated(evaluated, base, mutations, evaluate)
    ensures |evaluated| <= VariantBound((set m | m in mutations), SlotList(mutations))
  {
    var all, slots, met := (set m | m in mutations), SlotList(mutations), CacheOf(evaluated).Keys;
    forall g | g in met
      ensures g in VariantSet(base, all, slots)
    {
      CacheHoldsEvaluated(evaluated, g);
      var k :| 0 <= k < |evaluated| && evaluated[k].graph == g;
      EvaluatedAt(evaluated, k, base, mutations, evaluate);
      PathsEndInVariants(base, all, slots, evaluated[k].path);
    }
    CacheSize(evaluated, base, mutations, evaluate);
    GraphsMetBounded(base, all, slots, met);
  }

  lemma FoundAtLast(best: Candidate, evaluated: seq<Candidate>, base: GraphSpec, mutations: seq<Mutation>,
                    evaluate: Evaluator, iterations: int)
    requires Evaluated(evaluated, base, mutations, evaluate) && evaluated != [] && best == Kept(evaluated)
    requires |evaluated| <= iterations
    ensures IsFound(SearchResult(best, |evaluated|, evaluated), base, mutations, evaluate, iterations)
  {
    forall k | 0 <= k < |evaluated|
      ensures IsEvaluated(evaluated[k], k, base, mutations, evaluate)
    {
      EvaluatedAt(evaluated, k, base, mutations, evaluate);
    }
    forall i, j | 0 <= i < j < |evaluated|
      ensures evaluated[i].graph != evaluated[j].graph
    {
      EvaluatedOnce(evaluated, i, j, base, mutations, evaluate);
    }
    EvaluationsBounded(evaluated, base, mutations, evaluate);
    KeptIsFirstBest(evaluated);
  }

  /** `mcts_optimize`; the draws stand for the random source. */
  method Optimize(base: GraphSpec, mutations: seq<Mutation>, evaluate: Evaluator, uct: real -> Uct, draw: nat -> nat,
                  iterations: int, exploration: real)
    returns (outcome: Result<SearchResult, SearchError>, ghost course: Option<Course>)
    ensures iterations < 1 || exploration < 0.0 ==> outcome == Err(BadArgument)
    ensures outcome.Ok? ==> IsFound(outcome.value, base, mutations, evaluate, iterations)
    ensures outcome.Ok? ==>
              && course.Some?
              && IsSearch(uct(exploration), draw, base, mutations, iterations, course.value, outcome.value)
    ensures iterations >= 1 && exploration >= 0.0 && Enveloped(base, mutations) && outcome.Err? ==> CanFail(evaluate)
  {
    course := None;
    if iterations < 1 || exploration < 0.0 {
      return Err(BadArgument), course;
    }
    var search := new Search(base, mutations, evaluate);
    var failure := search.Begin();
    if failure.Some? {
      return Err(failure.value), course;
    }
    RanOnce(uct(exploration), draw, search.root, mutations, search.history, LinksOf(search.nodes));
    ghost var passes;
    failure, passes := search.Explore(uct(exploration), draw, iterations);
    if failure.Some? {
      return Err(failure.value), course;
    }
    search.Outcome();
    course := Some(Course(search.root, search.history, passes, LinksOf(search.nodes)));
    return Ok(SearchResult(search.best, |search.evaluated|, search.evaluated)), course;
  }

  /**
   Everything a search over enveloped mutations evaluates, and so what it returns, refines the
   base graph; what it returns was rewarded at least as well as the base.
   */
  lemma FoundRefinesBase(r: SearchResult, base: GraphSpec, mutations: seq<Mutation>, evaluate: Evaluator,
                         iterations: int)
    requires IsFound(r, base, mutations, evaluate, iterations) && Enveloped(base, mutations)
    ensures forall k | 0 <= k < |r.evaluated| :: Refines(base, r.evaluated[k].graph)
    ensures Refines(base, r.best.graph) && MutateAll(base, r.best.path) == Ok(r.best.graph)
    ensures evaluate(base, 0).Some? && r.best.reward >= evaluate(base, 0).value
  {
    forall k | 0 <= k < |r.evaluated|
      ensures Refines(base, r.evaluated[k].graph)
    {
      assert IsEvaluated(r.evaluated[k], k, base, mutations, evaluate);
      PathRefines(base, r.evaluated[k].path);
    }
    assert IsEvaluated(r.evaluated[0], 0, base, mutations, evaluate);
  }
}
