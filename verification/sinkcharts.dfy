/** The pool's analyses are what sinking asks for. */
module SinkCharts {
  import opened Wrappers
  import opened Graphs
  import opened Lists
  import opened IR
  import opened TailSplit
  import opened Dominance
  import opened NodePool
  import opened FlowGraph
  import opened Dominators
  import opened Dfs
  import opened Traversal
  import opened Reachability
  import opened PathQuery
  import opened Analysis
  import opened AnalysisFacts
  import opened SinkPass

  /** The blocks branch along the edges of the graph. */
  ghost predicate Branches(p: seq<IRBlock>, g: Graph, order: seq<Node>) {
    && |p| == |g.succ|
    && forall x: Node, y: Node :: x in order && x < |p| ==> (y in Targets(p[x].terminator) <==> Edge(g, x, y))
  }

  /** The immediate dominators, where there is one. */
  function Idoms(c: Pool): seq<Node>
    reads c
  {
    seq(|c.immediateDominator|, i requires 0 <= i < |c.immediateDominator| reads c =>
      if c.immediateDominator[i].Some? then c.immediateDominator[i].value else 0)
  }

  /** All that an analysed graph is analysed for: the chart of the function. */
  lemma ChartOfPool(c: Pool, g: Graph, p: seq<IRBlock>)
    requires ForwardAnalysed(c) && Split(c, g) && Closed(g) && c.entryBlock < |g.succ|
    requires c.forwardOrder == Order(g, c.entryBlock) && Branches(p, g, c.forwardOrder)
    ensures Charted(p, c.pred, c.predBackEdge, Idoms(c), Members(c.forwardOrder), c.entryBlock, c.forwardOrder)
  {
    hide ForwardAnalysed, Split, Order, ChartedAt, Dominating, Reach, Branches, Edge, Idoms, Ok, Numbered, IdomCorrect,
        Mirrors;
    var order, live := c.forwardOrder, Members(c.forwardOrder);
    OrderFacts(g, c.entryBlock);
    PoolSizes(c, g, p);
    AboutForward(c);
    LiveByOrder(g, p, c.entryBlock);
    forall b: Node | b in live
      ensures Reach(FlowOf(p), c.entryBlock, b) && ChartedAt(p, c.pred, c.predBackEdge, Idoms(c), live, order, b)
    {
      ReachedFromEntry(c, g, p, b);
      ChartAt(c, g, p, b);
    }
    forall a: Node, b: Node | a in live && b in live && Dominating(FlowOf(p), c.entryBlock, a, b)
      ensures Index(order, a) >= Index(order, b)
    {
      DominatorsFinishLater(c, g, p, a, b);
    }
  }

  lemma PoolSizes(c: Pool, g: Graph, p: seq<IRBlock>)
    requires ForwardAnalysed(c) && Split(c, g) && Branches(p, g, c.forwardOrder)
    ensures |c.pred| == |c.predBackEdge| == |Idoms(c)| == |p| == |c.succ| == |g.succ|
  {
    hide Numbered, Ok, IdomCorrect, ReachabilityBuilt, BackEdgesInside, Mirrors;
  }

  lemma LiveByOrder(g: Graph, p: seq<IRBlock>, entry: Node)
    requires Closed(g) && entry < |g.succ| && Branches(p, g, Order(g, entry)) && InRange(Order(g, entry), |g.succ|)
    ensures LiveSet(p, Members(Order(g, entry)))
  {
    hide Order, VisitNode;
    OrderFacts(g, entry);
    var order := Order(g, entry);
    forall b: Node | b in order ensures b < |p| {
      assert order[Index(order, b)] == b;
    }
  }

  /** Forward edges are branches. */
  lemma {:induction false} ForwardWalk(c: Pool, g: Graph, p: seq<IRBlock>, r: seq<Node>, a: Node, b: Node)
    requires Split(c, g) && Branches(p, g, c.forwardOrder) && Path(Forward(c).g, r, a, b)
    ensures Path(FlowOf(p), r, a, b)
    decreases |r|
  {
    hide Before;
    if |r| > 1 {
      ForwardWalk(c, g, p, r[1..], r[1], b);
    }
  }

  lemma ReachedFromEntry(c: Pool, g: Graph, p: seq<IRBlock>, b: Node)
    requires ForwardAnalysed(c) && Split(c, g) && Branches(p, g, c.forwardOrder) && b in c.forwardOrder
    ensures Reach(FlowOf(p), c.entryBlock, b)
  {
    hide ForwardAnalysed, Split, Branches, Path;
    LiveOrder(c, b);
    var r :| Path(Forward(c).g, r, c.entryBlock, b);
    ForwardWalk(c, g, p, r, c.entryBlock, b);
  }

  lemma ChartAt(c: Pool, g: Graph, p: seq<IRBlock>, b: Node)
    requires ForwardAnalysed(c) && Split(c, g) && Branches(p, g, c.forwardOrder) && b in c.forwardOrder
    requires LiveSet(p, Members(c.forwardOrder))
    ensures |c.pred| == |c.predBackEdge| == |Idoms(c)| == |p| && b < |p|
    ensures ChartedAt(p, c.pred, c.predBackEdge, Idoms(c), Members(c.forwardOrder), c.forwardOrder, b)
  {
    hide Numbered, Ok, IdomCorrect, ReachabilityBuilt, BackEdgesInside, Dominating, Reach;
    PoolSizes(c, g, p);
    PredsAreForward(c, b);
    forall f: Node | f in c.forwardOrder && b in Targets(p[f].terminator)
      ensures f in c.pred[b] || c.predBackEdge[b] == Some(f)
    {
      if !Before(c.forwardOrder, b, f) {
        assert BackEdge(g, c.forwardOrder, f, b);
        assert Records(c.succBackEdge, f, b);
        assert Records(c.predBackEdge, b, f);
      }
    }
    if |c.pred[b]| == 1 {
      SinglePredIsIdom(c, b);
    }
  }

  lemma PredsAreForward(c: Pool, b: Node)
    requires ForwardAnalysed(c) && b in c.forwardOrder
    ensures b < |c.pred| && forall f: Node :: f in c.pred[b] <==> Edge(Forward(c).g, f, b)
  {
    hide Numbered, Ok, IdomCorrect, ReachabilityBuilt, BackEdgesInside;
    OnlyEntryHasNoPreds(c, b);
  }

  lemma SinglePredIsIdom(c: Pool, b: Node)
    requires ForwardAnalysed(c) && b in c.forwardOrder && b < |c.pred| && |c.pred[b]| == 1
    ensures b < |Idoms(c)| && Idoms(c)[b] == c.pred[b][0]
  {
    hide ForwardAnalysed, ImmediateDom, Live;
    OnlyEntryHasNoPreds(c, b);
    IdomStep(c, b);
    OnlyPred(c, b, c.immediateDominator[b].value);
  }

  /** In the post order no block comes before one that it dominates. */
  lemma DominatorsFinishLater(c: Pool, g: Graph, p: seq<IRBlock>, a: Node, b: Node)
    requires ForwardAnalysed(c) && Split(c, g) && Branches(p, g, c.forwardOrder)
    requires a in c.forwardOrder && b in c.forwardOrder && Dominating(FlowOf(p), c.entryBlock, a, b)
    ensures Index(c.forwardOrder, a) >= Index(c.forwardOrder, b)
  {
    hide ForwardAnalysed, Split, Branches, Path, Live, Numbered, Ok;
    var f := Forward(c);
    AboutForward(c);
    LiveOrder(c, b);
    forall r: seq<Node> | Path(f.g, r, f.root, b) ensures a in r {
      ForwardWalk(c, g, p, r, f.root, b);
    }
    DomNumber(f, a, b);
    NumberIsIndex(f, c.forwardOrder, a);
    NumberIsIndex(f, c.forwardOrder, b);
  }
}
