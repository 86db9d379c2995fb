/** Recomputing every analysis from the edges, and doing so again. */
module Analysis {
  import opened Wrappers
  import opened Graphs
  import opened Lists
  import opened Dfs
  import opened Dominance
  import opened NodePool
  import opened FlowGraph
  import opened Traversal
  import opened Backwards
  import opened Dominators
  import opened Frontiers
  import opened Reachability
  import opened PathQuery

  // ---------------------------------------------------------------- visiting again

  /** `h` is `g` with back edges of `order` moved to the end of their lists. */
  ghost predicate Moved(g: Graph, h: Graph, order: seq<Node>) {
    && |h.succ| == |g.succ|
    && forall x: Node :: x < |g.succ| ==> MovedAt(g, h, order, x)
  }

  ghost predicate MovedAt(g: Graph, h: Graph, order: seq<Node>, x: Node)
    requires x < |g.succ| == |h.succ|
  {
    h.succ[x] == g.succ[x] || exists y: Node :: BackEdge(g, order, x, y) && h.succ[x] == Erase(g.succ[x], y) + [y]
  }

  lemma {:induction false} VisitAllSnocSeen(g: Graph, t: Trav, xs: seq<Node>, y: Node)
    requires Closed(g) && InRange(xs + [y], |g.succ|) && y in t.visited
    ensures InRange(xs, |g.succ|) && VisitAll(g, t, xs + [y]) == VisitAll(g, t, xs)
    decreases Nodes(g) - t.visited, 1, xs
  {
    assert forall i :: 0 <= i < |xs| ==> (xs + [y])[i] == xs[i];
    if xs == [] {
      assert xs + [y] == [y] && [y][1..] == [];
    } else {
      assert (xs + [y])[1..] == xs[1..] + [y];
      if xs[0] in t.visited {
        VisitAllSnocSeen(g, t, xs[1..], y);
      } else {
        VisitAllSnocSeen(g, VisitNode(g, t, xs[0]), xs[1..], y);
      }
    }
  }

  lemma {:induction false} VisitAllEraseSeen(g: Graph, t: Trav, xs: seq<Node>, y: Node)
    requires Closed(g) && InRange(xs, |g.succ|) && y in t.visited
    ensures InRange(Erase(xs, y), |g.succ|) && VisitAll(g, t, Erase(xs, y)) == VisitAll(g, t, xs)
    decreases Nodes(g) - t.visited, 1, xs
  {
    if xs != [] && xs[0] != y {
      assert Erase(xs, y)[1..] == Erase(xs[1..], y);
      if xs[0] in t.visited {
        VisitAllEraseSeen(g, t, xs[1..], y);
      } else {
        VisitAllEraseSeen(g, VisitNode(g, t, xs[0]), xs[1..], y);
      }
    }
  }

  /** The target of a back edge is on the stack when its source is visited. */
  lemma BackEdgeOnStack(g: Graph, t: Trav, x: Node, y: Node, final: seq<Node>)
    requires Closed(g) && x < |g.succ| && x !in t.visited
    requires VisitNode(g, t, x).order <= final && Distinct(final) && BackEdge(g, final, x, y)
    ensures y in t.visited + {x}
  {
    var t1 := t.(visited := t.visited + {x});
    var r1 := VisitAll(g, t1, g.succ[x]);
    NewOfNode(g, t, x);
    VisitAllGrows(g, t1, g.succ[x]);
    assert final[|r1.order|] == x && final[..|r1.order|] == r1.order;
    BeforeAt(final, |r1.order|);
  }

  lemma {:induction false} SameVisitNode(g: Graph, h: Graph, t: Trav, x: Node, final: seq<Node>)
    requires Closed(g) && Closed(h) && Moved(g, h, final) && x < |g.succ| && x !in t.visited
    requires VisitNode(g, t, x).order <= final && Distinct(final)
    ensures VisitNode(h, t, x) == VisitNode(g, t, x)
    decreases Nodes(g) - t.visited, 0
  {
    var t1 := t.(visited := t.visited + {x});
    NewOfNode(g, t, x);
    SameVisitAll(g, h, t1, g.succ[x], final);
    assert MovedAt(g, h, final, x);
    if h.succ[x] != g.succ[x] {
      var y: Node :| BackEdge(g, final, x, y) && h.succ[x] == Erase(g.succ[x], y) + [y];
      BackEdgeOnStack(g, t, x, y, final);
      VisitAllSnocSeen(h, t1, Erase(g.succ[x], y), y);
      VisitAllEraseSeen(h, t1, g.succ[x], y);
    }
  }

  lemma {:induction false} SameVisitAll(g: Graph, h: Graph, t: Trav, xs: seq<Node>, final: seq<Node>)
    requires Closed(g) && Closed(h) && Moved(g, h, final) && InRange(xs, |g.succ|)
    requires VisitAll(g, t, xs).order <= final && Distinct(final)
    ensures VisitAll(h, t, xs) == VisitAll(g, t, xs)
    decreases Nodes(g) - t.visited, 1, xs
  {
    if xs == [] {
    } else if xs[0] in t.visited {
      SameVisitAll(g, h, t, xs[1..], final);
    } else {
      NewOfAll(g, t, xs);
      SameVisitNode(g, h, t, xs[0], final);
      SameVisitAll(g, h, VisitNode(g, t, xs[0]), xs[1..], final);
    }
  }

  // ---------------------------------------------------------------- the graph behind the columns

  /** The edge lists with the recorded back edges put back. */
  ghost function WithBackEdges(adj: seq<seq<Node>>, back: seq<Option<Node>>): seq<seq<Node>>
    requires |adj| == |back|
  {
    seq(|adj|, x requires 0 <= x < |adj| => AppendEdge(adj[x], back[x]))
  }

  /** The control-flow graph that the pool holds, whether or not a visit has taken back edges out. */
  ghost function FullGraph(c: Pool): Graph
    requires |c.succ| == |c.succBackEdge|
    reads c`succ, c`succBackEdge
  {
    Graph(WithBackEdges(c.succ, c.succBackEdge))
  }

  /** Every live block that has a successor has one that is not a back edge, so no loop is infinite. */
  ghost predicate LoopsExit(g: Graph, order: seq<Node>) {
    forall x: Node :: x in order && x < |g.succ| && g.succ[x] != [] ==>
      exists y: Node :: Edge(g, x, y) && Before(order, y, x)
  }

  /** What a graph must satisfy to be visited. */
  ghost predicate Analysable(g: Graph, pred: seq<seq<Node>>, entry: Node, exit: Node) {
    && Closed(g) && AllDistinct(g.succ) && entry < |g.succ| && exit < |g.succ|
    && var order := Order(g, entry);
    && PredsOf(pred, g, order) && SingleBackEdges(g, order) && exit !in order
  }

  /** The forward analyses can be made, also with blocks whose only edge goes back. */
  ghost predicate Visitable(c: Pool)
    reads c
  {
    c.Shape() && Analysable(FullGraph(c), WithBackEdges(c.pred, c.predBackEdge), c.entryBlock, c.exitBlock)
  }

  /** And so can those of the mirrored graph, in which every block must be found from a leaf. */
  ghost predicate Recomputable(c: Pool)
    reads c
  {
    Visitable(c) && LoopsExit(FullGraph(c), Order(FullGraph(c), c.entryBlock))
  }

  lemma AppendedIsFull(adj: seq<seq<Node>>, adj0: seq<seq<Node>>, back: seq<Option<Node>>)
    requires Appended(adj, adj0, back, |adj|)
    ensures adj == WithBackEdges(adj0, back)
  {}

  lemma BackEdgeSame(g: Graph, h: Graph, order: seq<Node>, x: Node, y: Node)
    requires Moved(g, h, order) && AllDistinct(g.succ)
    ensures Edge(h, x, y) <==> Edge(g, x, y)
    ensures BackEdge(h, order, x, y) <==> BackEdge(g, order, x, y)
  {
    if x < |g.succ| {
      assert MovedAt(g, h, order, x);
      if h.succ[x] != g.succ[x] {
        var z: Node :| BackEdge(g, order, x, z) && h.succ[x] == Erase(g.succ[x], z) + [z];
        EraseMembers(g.succ[x], z);
      }
    }
  }

  lemma MovedClosed(g: Graph, h: Graph, order: seq<Node>)
    requires Moved(g, h, order) && AllDistinct(g.succ) && Closed(g)
    ensures Closed(h) && AllDistinct(h.succ)
  {
    forall x: Node | x < |h.succ| ensures InRange(h.succ[x], |h.succ|) && Distinct(h.succ[x]) {
      assert MovedAt(g, h, order, x);
      forall i | 0 <= i < |h.succ[x]| ensures h.succ[x][i] < |h.succ| {
        BackEdgeSame(g, h, order, x, h.succ[x][i]);
        assert Edge(h, x, h.succ[x][i]);
        var j := Index(g.succ[x], h.succ[x][i]);
        assert g.succ[x][j] < |g.succ|;
      }
      if h.succ[x] != g.succ[x] {
        var z: Node :| BackEdge(g, order, x, z) && h.succ[x] == Erase(g.succ[x], z) + [z];
        EraseMembers(g.succ[x], z);
        DistinctSnoc(Erase(g.succ[x], z), z);
      }
    }
  }

  /** Visiting a graph whose back edges were moved to the end gives the same order and the same back edges. */
  lemma VisitAgain(g: Graph, h: Graph, root: Node)
    requires Closed(g) && root < |g.succ| && AllDistinct(g.succ) && Moved(g, h, Order(g, root))
    ensures Closed(h) && AllDistinct(h.succ) && Order(h, root) == Order(g, root)
    ensures forall x: Node, y: Node :: Edge(h, x, y) <==> Edge(g, x, y)
    ensures forall x: Node, y: Node :: BackEdge(h, Order(h, root), x, y) <==> BackEdge(g, Order(g, root), x, y)
  {
    var order := Order(g, root);
    MovedClosed(g, h, order);
    OrderFacts(g, root);
    SameVisitNode(g, h, Start(), root, order);
    forall x: Node, y: Node ensures (Edge(h, x, y) <==> Edge(g, x, y))
        && (BackEdge(h, order, x, y) <==> BackEdge(g, order, x, y)) {
      BackEdgeSame(g, h, order, x, y);
    }
  }

  /** The visit followed by the reset is a move of the back edges to the end of their lists. */
  lemma VisitMoves(k: Columns, g: Graph, pred0: seq<seq<Node>>, root: Node)
    requires Closed(g) && root < |g.succ| && AllDistinct(g.succ)
    requires State(k, g, pred0, VisitNode(g, Start(), root), Order(g, root))
    ensures |k.succ| == |k.succBack| && Moved(g, Graph(WithBackEdges(k.succ, k.succBack)), Order(g, root))
  {
    var order := Order(g, root);
    var h := Graph(WithBackEdges(k.succ, k.succBack));
    forall x: Node | x < |g.succ| ensures MovedAt(g, h, order, x) {
      if k.succBack[x].Some? {
        var y := k.succBack[x].value;
        assert Records(k.succBack, x, y);
        assert BackEdge(g, order, x, y);
      }
    }
  }

  /** Pruning and then restoring the predecessor lists still mirrors the edges between live blocks. */
  lemma PredsAgain(k: Columns, g: Graph, pred0: seq<seq<Node>>, root: Node, pred: seq<seq<Node>>, h: Graph)
    requires Closed(g) && root < |g.succ| && AllDistinct(g.succ) && PredsOf(pred0, g, Order(g, root))
    requires State(k, g, pred0, VisitNode(g, Start(), root), Order(g, root))
    requires |h.succ| == |g.succ| && forall x: Node, y: Node :: Edge(h, x, y) <==> Edge(g, x, y)
    requires |pred| == |k.pred| && |k.predBack| == |k.pred|
    requires forall x: Node :: x < |pred| ==>
               pred[x] == if x in k.order then Within(k.pred[x], k.reachable) else k.pred[x]
    ensures PredsOf(WithBackEdges(pred, k.predBack), h, Order(g, root))
  {
    var order := Order(g, root);
    var again := WithBackEdges(pred, k.predBack);
    OrderFacts(g, root);
    forall y: Node | y < |again|
      ensures Distinct(again[y])
      ensures y in order ==> forall x: Node :: x in order ==> (x in again[y] <==> x in pred0[y])
    {
      assert k.pred[y] == if y in order then EraseEdge(pred0[y], k.predBack[y]) else pred0[y];
      WithinMembers(k.pred[y], k.reachable);
      if k.predBack[y].Some? {
        var b := k.predBack[y].value;
        assert Records(k.predBack, y, b);
        assert Records(k.succBack, b, y) && BackEdge(g, order, b, y);
        EraseMembers(pred0[y], b);
        DistinctSnoc(Within(k.pred[y], k.reachable), b);
      }
    }
  }

  // ---------------------------------------------------------------- recompute_cfg

  /** How the columns read after the forward visit of `g`. */
  ghost predicate Split(c: Pool, g: Graph)
    reads c`succ, c`forwardOrder, c`entryBlock, c`forwardNumber, c`succBackEdge, c`predBackEdge
  {
    && |c.succ| == |g.succ|
    && (forall x: Node, y: Node :: Edge(Forward(c).g, x, y) <==>
          x in c.forwardOrder && Edge(g, x, y) && Before(c.forwardOrder, y, x))
    && (forall x: Node, y: Node :: Records(c.succBackEdge, x, y) <==> BackEdge(g, c.forwardOrder, x, y))
    && (forall x: Node, y: Node :: Records(c.predBackEdge, y, x) <==> Records(c.succBackEdge, x, y))
  }

  lemma VisitSplits(k: Columns, g: Graph, pred0: seq<seq<Node>>, root: Node, x: Node, y: Node)
    requires Closed(g) && root < |g.succ| && AllDistinct(g.succ)
    requires State(k, g, pred0, VisitNode(g, Start(), root), Order(g, root))
    ensures Records(k.succBack, x, y) <==> BackEdge(g, Order(g, root), x, y)
    ensures Records(k.predBack, y, x) <==> Records(k.succBack, x, y)
  {
    OrderFacts(g, root);
    if x in Order(g, root) && x < |g.succ| {
      KeptEdges(k, g, pred0, VisitNode(g, Start(), root), Order(g, root), x, y);
    }
  }

  /** Reset and visit. */
  method VisitPass(c: Pool, ghost g: Graph, ghost pred0: seq<seq<Node>>)
    requires Visitable(c) && g == FullGraph(c) && pred0 == WithBackEdges(c.pred, c.predBackEdge)
    modifies c`reachableNodes, c`forwardOrder, c`backwardOrder, c`visited, c`backwardVisited, c`traversing,
             c`immediateDominator, c`immediatePostDominator, c`succ, c`pred, c`succBackEdge, c`predBackEdge,
             c`forwardNumber
    ensures c.Shape() && Closed(g) && c.entryBlock < |g.succ|
    ensures State(ColumnsOf(c), g, pred0, VisitNode(g, Start(), c.entryBlock), Order(g, c.entryBlock))
    ensures c.backwardOrder == [] && forall x: Node :: x < |c.succ| ==> !c.backwardVisited[x]
  {
    hide State, Appended, Cleared, PredsOf, SingleBackEdges, Unvisited;
    ghost var succ1, sb1, pred1, pb1 := c.succ, c.succBackEdge, c.pred, c.predBackEdge;
    AnalysableParts(g, pred0, c.entryBlock, c.exitBlock);
    ResetTraversal(c);
    AfterReset(c, succ1, sb1, pred1, pb1);
    VisitEntry(c);
  }

  /** The forward half: reset, visit, prune. */
  method ForwardPass(c: Pool, ghost g: Graph)
    requires Visitable(c) && g == FullGraph(c)
    modifies c`reachableNodes, c`forwardOrder, c`backwardOrder, c`visited, c`backwardVisited, c`traversing,
             c`immediateDominator, c`immediatePostDominator, c`succ, c`pred, c`succBackEdge, c`predBackEdge,
             c`forwardNumber
    ensures c.Shape() && |c.succ| == |g.succ|
    ensures Closed(g) && c.entryBlock < |g.succ| && c.forwardOrder == Order(g, c.entryBlock)
    ensures Split(c, g)
    ensures Numbered(Forward(c), c.forwardOrder) && Mirrors(c.pred, Forward(c).g, c.forwardOrder)
    ensures InRange(c.forwardOrder, |c.succ|)
    ensures c.backwardOrder == [] && forall x: Node :: x < |c.succ| ==> !c.backwardVisited[x]
    ensures Analysable(FullGraph(c), WithBackEdges(c.pred, c.predBackEdge), c.entryBlock, c.exitBlock)
    ensures Order(FullGraph(c), c.entryBlock) == c.forwardOrder
    ensures forall x: Node, y: Node :: Edge(FullGraph(c), x, y) <==> Edge(g, x, y)
    ensures c.exitBlock !in c.forwardOrder
  {
    hide State, Analysable, Split, Mirrors, Numbered, PredsOf, Moved, BackEdge, WithBackEdges, Restrict, Edge;
    ghost var pred0 := WithBackEdges(c.pred, c.predBackEdge);
    ghost var root := c.entryBlock;
    VisitPass(c, g, pred0);
    ghost var k := ColumnsOf(c);
    ghost var f := VisitedFacts(k, g, pred0, root, c.exitBlock);
    PruneDeadPreds(c);
    PrunedPredsMirror(k, g, pred0, root, f, c.pred);
    SplitHolds(c, k, g, pred0, root);
    ghost var h := FullGraph(c);
    VisitAgain(g, h, root);
    PredsAgain(k, g, pred0, root, c.pred, h);
    AnalysableAgain(g, h, pred0, WithBackEdges(c.pred, c.predBackEdge), root, c.exitBlock);
    AnalysableParts(h, WithBackEdges(c.pred, c.predBackEdge), root, c.exitBlock);
  }

  /** Everything the visit's own state says, once it is over. */
  lemma VisitedFacts(k: Columns, g: Graph, pred0: seq<seq<Node>>, root: Node, exit: Node) returns (f: Flow)
    requires Analysable(g, pred0, root, exit)
    requires State(k, g, pred0, VisitNode(g, Start(), root), Order(g, root))
    ensures Closed(g) && root < |g.succ| && AllDistinct(g.succ) && PredsOf(pred0, g, Order(g, root))
    ensures |k.succ| == |k.pred| == |k.succBack| == |k.predBack| == |g.succ|
    ensures k.order == Order(g, root)
    ensures f == Flow(Restrict(k.succ, k.order), root, k.num) && Numbered(f, k.order) && |f.g.succ| == |g.succ|
    ensures forall x: Node, y: Node :: Edge(f.g, x, y) <==> x in k.order && Edge(g, x, y) && Before(k.order, y, x)
    ensures Distinct(k.order) && InRange(k.order, |g.succ|)
    ensures Moved(g, Graph(WithBackEdges(k.succ, k.succBack)), Order(g, root))
  {
    AnalysableParts(g, pred0, root, exit);
    StateShape(k, g, pred0, VisitNode(g, Start(), root), Order(g, root), root);
    f := VisitGivesFlow(k, g, pred0, root);
    OrderFacts(g, root);
    OrderInRange(f, k.order);
    VisitMoves(k, g, pred0, root);
  }

  lemma AnalysableParts(g: Graph, pred: seq<seq<Node>>, entry: Node, exit: Node)
    requires Analysable(g, pred, entry, exit)
    ensures Closed(g) && AllDistinct(g.succ) && entry < |g.succ| && exit < |g.succ|
    ensures PredsOf(pred, g, Order(g, entry)) && SingleBackEdges(g, Order(g, entry)) && exit !in Order(g, entry)
    ensures |pred| == |g.succ|
  {}

  lemma AfterReset(c: Pool, succ1: seq<seq<Node>>, sb1: seq<Option<Node>>, pred1: seq<seq<Node>>,
                   pb1: seq<Option<Node>>)
    requires c.Shape() && c.reachableNodes == {} && c.forwardOrder == []
    requires forall x: Node :: x < |c.succ| ==> !c.visited[x] && !c.traversing[x]
    requires Appended(c.succ, succ1, sb1, |c.succ|) && Cleared(c.succBackEdge, sb1, |c.succ|)
    requires Appended(c.pred, pred1, pb1, |c.pred|) && Cleared(c.predBackEdge, pb1, |c.pred|)
    ensures |succ1| == |sb1| && c.succ == WithBackEdges(succ1, sb1)
    ensures |pred1| == |pb1| && c.pred == WithBackEdges(pred1, pb1)
    ensures Unvisited(ColumnsOf(c))
  {
    AppendedIsFull(c.succ, succ1, sb1);
    AppendedIsFull(c.pred, pred1, pb1);
  }

  lemma SplitHolds(c: Pool, k: Columns, g: Graph, pred0: seq<seq<Node>>, root: Node)
    requires Closed(g) && root < |g.succ| && AllDistinct(g.succ)
    requires State(k, g, pred0, VisitNode(g, Start(), root), Order(g, root))
    requires k.order == Order(g, root) && |k.succ| == |g.succ|
    requires c.succ == k.succ && c.forwardOrder == k.order && c.succBackEdge == k.succBack
             && c.predBackEdge == k.predBack
    requires forall x: Node, y: Node :: Edge(Restrict(k.succ, k.order), x, y) <==>
               x in k.order && Edge(g, x, y) && Before(k.order, y, x)
    ensures Split(c, g)
  {
    forall x: Node, y: Node
      ensures (Records(c.succBackEdge, x, y) <==> BackEdge(g, c.forwardOrder, x, y))
              && (Records(c.predBackEdge, y, x) <==> Records(c.succBackEdge, x, y))
    {
      VisitSplits(k, g, pred0, root, x, y);
    }
  }

  lemma AnalysableAgain(g: Graph, h: Graph, pred0: seq<seq<Node>>, pred: seq<seq<Node>>, entry: Node, exit: Node)
    requires Analysable(g, pred0, entry, exit)
    requires Closed(h) && AllDistinct(h.succ) && |h.succ| == |g.succ| && Order(h, entry) == Order(g, entry)
    requires forall x: Node, y: Node :: Edge(h, x, y) <==> Edge(g, x, y)
    requires forall x: Node, y: Node :: BackEdge(h, Order(h, entry), x, y) <==> BackEdge(g, Order(g, entry), x, y)
    requires PredsOf(pred, h, Order(g, entry))
    ensures Analysable(h, pred, entry, exit)
  {
    assert SingleBackEdges(h, Order(g, entry));
  }

  lemma LoopsStillExit(g: Graph, h: Graph, order: seq<Node>)
    requires LoopsExit(g, order) && |h.succ| == |g.succ|
    requires forall x: Node, y: Node :: Edge(h, x, y) <==> Edge(g, x, y)
    ensures LoopsExit(h, order)
  {
    forall x: Node | x in order && x < |h.succ| && h.succ[x] != []
      ensures exists y: Node :: Edge(h, x, y) && Before(order, y, x)
    {
      assert Edge(h, x, h.succ[x][0]);
      assert Edge(g, x, h.succ[x][0]);
      assert g.succ[x] != [];
      var y: Node :| Edge(g, x, y) && Before(order, y, x);
      assert Edge(h, x, y);
    }
  }

  /** The backward half: visit from the leaves, then immediate post-dominators. */
  method BackwardPass(c: Pool)
    requires c.Shape() && Numbered(Forward(c), c.forwardOrder) && InRange(c.forwardOrder, |c.succ|)
    requires Mirrors(c.pred, Forward(c).g, c.forwardOrder) && c.exitBlock !in c.forwardOrder && EveryLoopExits(c)
    requires c.backwardOrder == [] && forall x: Node :: x < |c.succ| ==> !c.backwardVisited[x]
    modifies c`backwardVisited, c`traversing, c`backwardNumber, c`backwardOrder, c`immediatePostDominator
    ensures c.Shape() && MirrorNumbered(c, Forward(c)) && IdomCorrect(Backward(c), c.immediatePostDominator)
  {
    hide Numbered, Mirrors, MirrorNumbered, IdomFrom, Restrict, Mirror;
    BackwardsVisitAll(c, Forward(c));
    BuildImmediatePostDominators(c);
  }

  method DominatorPass(c: Pool)
    requires c.Shape() && Numbered(Forward(c), c.forwardOrder) && InRange(c.forwardOrder, |c.succ|)
    requires Mirrors(c.pred, Forward(c).g, c.forwardOrder)
    modifies c`immediateDominator, c`reachabilityStride, c`reachabilityBitset
    ensures c.Shape() && IdomCorrect(Forward(c), c.immediateDominator) && ReachabilityBuilt(c)
  {
    hide Mirrors, Numbered, IdomFrom, ReachabilityBuilt, Restrict;
    BuildImmediateDominators(c);
    BuildReachability(c);
  }

  /** `recompute_cfg` up to the reachability: every graph whose predecessor lists are right can be visited. */
  method ForwardAnalyses(c: Pool, ghost g: Graph)
    requires Visitable(c) && g == FullGraph(c)
    modifies c`reachableNodes, c`forwardOrder, c`backwardOrder, c`visited, c`backwardVisited, c`traversing,
             c`immediateDominator, c`immediatePostDominator, c`succ, c`pred, c`succBackEdge, c`predBackEdge,
             c`forwardNumber, c`reachabilityStride, c`reachabilityBitset
    ensures ForwardAnalysed(c) && Visitable(c) && c.exitBlock !in c.forwardOrder
    ensures Closed(g) && c.entryBlock < |g.succ| && c.forwardOrder == Order(g, c.entryBlock) && Split(c, g)
    ensures forall x: Node, y: Node :: Edge(FullGraph(c), x, y) <==> Edge(g, x, y)
    ensures Order(FullGraph(c), c.entryBlock) == c.forwardOrder
    ensures c.backwardOrder == [] && forall x: Node :: x < |c.succ| ==> !c.backwardVisited[x]
  {
    hide Analysable, Split, Mirrors, Numbered, Edge, Restrict, WithBackEdges, IdomFrom, ReachabilityBuilt,
         BackEdgesInside;
    ForwardPass(c, g);
    BackEdgesLive(c, g);
    DominatorPass(c);
  }

  /** Everything that is computed from the forward analyses. */
  method DerivedPasses(c: Pool)
    requires ForwardAnalysed(c) && c.exitBlock !in c.forwardOrder && EveryLoopExits(c)
    requires c.backwardOrder == [] && forall x: Node :: x < |c.succ| ==> !c.backwardVisited[x]
    modifies c`backwardVisited, c`traversing, c`backwardNumber, c`backwardOrder, c`immediatePostDominator,
             c`dominanceFrontier, c`postDominanceFrontier
    ensures Analysed(c)
  {
    hide Mirrors, Numbered, IdomFrom, ReachabilityBuilt, MirrorNumbered, FrontiersExact, PostFrontiersExact,
         BackEdgesInside, Restrict, Mirror, EveryLoopExits;
    BackwardPass(c);
    ComputeDominanceFrontier(c);
    ComputePostDominanceFrontier(c);
  }

  /** `recompute_cfg`: afterwards every analysis is exact for the graph, and the graph itself is unchanged. */
  method RecomputeCfg(c: Pool, ghost g: Graph)
    requires Recomputable(c) && g == FullGraph(c)
    modifies c
    ensures c.entryBlock == old(c.entryBlock) && c.exitBlock == old(c.exitBlock)
    ensures Analysed(c) && Recomputable(c)
    ensures Closed(g) && c.entryBlock < |g.succ| && c.forwardOrder == Order(g, c.entryBlock) && Split(c, g)
    ensures forall x: Node, y: Node :: Edge(FullGraph(c), x, y) <==> Edge(g, x, y)
    ensures Order(FullGraph(c), c.entryBlock) == c.forwardOrder
  {
    hide Analysable, Split, Mirrors, Numbered, Edge, Restrict, WithBackEdges, EveryLoopExits, Analysed,
         IdomFrom, ReachabilityBuilt, BackEdgesInside, LoopsExit;
    ForwardAnalyses(c, g);
    EveryLoopDoesExit(c, g);
    SameSizeSplit(c, g);
    LoopsStillExit(g, FullGraph(c), c.forwardOrder);
    DerivedPasses(c);
    AnalysedNumbered(c);
  }

  lemma SameSizeSplit(c: Pool, g: Graph)
    requires Split(c, g) && |c.succ| == |c.succBackEdge|
    ensures |FullGraph(c).succ| == |g.succ|
  {}

  lemma EveryLoopDoesExit(c: Pool, g: Graph)
    requires c.Shape() && Split(c, g) && InRange(c.forwardOrder, |c.succ|)
    requires LoopsExit(g, c.forwardOrder)
    ensures EveryLoopExits(c)
  {
    forall x: Node | x in c.forwardOrder && c.succBackEdge[x] != None ensures c.succ[x] != [] {
      var y := c.succBackEdge[x].value;
      assert Records(c.succBackEdge, x, y);
      assert BackEdge(g, c.forwardOrder, x, y);
      var z: Node :| Edge(g, x, z) && Before(c.forwardOrder, z, x);
      assert Edge(Forward(c).g, x, z);
    }
  }

  lemma BackEdgesLive(c: Pool, g: Graph)
    requires c.Shape() && |c.succ| == |g.succ| && Split(c, g)
    requires Closed(g) && c.entryBlock < |g.succ| && c.forwardOrder == Order(g, c.entryBlock)
    ensures BackEdgesInside(c)
  {
    OrderFacts(g, c.entryBlock);
  }
}
