/** What the analyses of a pool say about its live blocks. */
module AnalysisFacts {
  import opened Wrappers
  import opened Graphs
  import opened Lists
  import opened Dominance
  import opened NodePool
  import opened FlowGraph
  import opened Backwards
  import opened Dominators
  import opened Traversal
  import opened Frontiers
  import opened Reachability
  import opened PathQuery

  lemma AboutAnalysed(c: Pool)
    requires Analysed(c)
    ensures c.Shape() && InRange(c.forwardOrder, |c.succ|) && Numbered(Forward(c), c.forwardOrder) && Ok(Forward(c))
            && Ok(Backward(c))
    ensures IdomCorrect(Forward(c), c.immediateDominator) && IdomCorrect(Backward(c), c.immediatePostDominator)
    ensures MirrorNumbered(c, Forward(c)) && Mirrors(c.pred, Forward(c).g, c.forwardOrder)
    ensures |c.predBackEdge| == |c.succ|
  {}

  lemma AboutForward(c: Pool)
    requires ForwardAnalysed(c)
    ensures c.Shape() && InRange(c.forwardOrder, |c.succ|) && Numbered(Forward(c), c.forwardOrder) && Ok(Forward(c))
    ensures IdomCorrect(Forward(c), c.immediateDominator) && Mirrors(c.pred, Forward(c).g, c.forwardOrder)
    ensures |c.predBackEdge| == |c.succ|
  {}

  /** Nothing branches to the entry block. */
  lemma OnlyEntryHasNoPreds(c: Pool, x: Node)
    requires ForwardAnalysed(c) && x in c.forwardOrder
    ensures x < |c.pred| && (c.pred[x] == [] <==> x == c.entryBlock)
  {
    hide IdomCorrect, ReachabilityBuilt, BackEdgesInside;
    var f := Forward(c);
    LiveInRange(f, x);
    if c.pred[x] == [] {
      assert forall y: Node :: y in c.pred[x] <==> Edge(f.g, y, x);
      NoPredsIsRoot(f, x);
    }
    if x == c.entryBlock && c.pred[x] != [] {
      var y := c.pred[x][0];
      assert y in c.pred[x] && Edge(f.g, y, x);
      LiveEdge(f, y, x);
      RootIsHighest(f, y);
    }
  }

  lemma LiveOrder(c: Pool, x: Node)
    requires ForwardAnalysed(c) && x in c.forwardOrder
    ensures Live(Forward(c), x) && x < |Forward(c).num| && x < |c.succ|
            && Forward(c).num[x] <= Forward(c).num[Forward(c).root]
  {
    hide IdomCorrect, ReachabilityBuilt, BackEdgesInside;
    LiveInRange(Forward(c), x);
    RootIsHighest(Forward(c), x);
  }

  lemma IdomStep(c: Pool, x: Node)
    requires ForwardAnalysed(c) && x in c.forwardOrder && x != c.entryBlock
    ensures x < |c.immediateDominator| && c.immediateDominator[x].Some?
    ensures var d := c.immediateDominator[x].value;
            && d in c.forwardOrder && x < |Forward(c).num| && d < |Forward(c).num|
            && Forward(c).num[d] > Forward(c).num[x] && ImmediateDom(Forward(c), d, x)
            && Live(Forward(c), d) && Forward(c).num[d] <= Forward(c).num[Forward(c).root]
  {
    hide ReachabilityBuilt, BackEdgesInside, ImmediateDom, Mirrors;
    LiveInRange(Forward(c), x);
    ChainStep(Forward(c), c.immediateDominator, 0, x);
  }

  lemma IdomWhole(f: Flow, idom: seq<Option<Node>>)
    requires IdomCorrect(f, idom)
    ensures IdomFrom(f, idom, 0)
  {}

  lemma OrderIsLive(c: Pool, x: Node)
    requires ForwardAnalysed(c)
    ensures Live(Forward(c), x) <==> x in c.forwardOrder
  {
    hide IdomCorrect, ReachabilityBuilt, BackEdgesInside, Live, Ok;
  }

  lemma BackLive(c: Pool, x: Node)
    requires Analysed(c) && x in c.forwardOrder
    ensures Live(Backward(c), x) && x != c.exitBlock && x < |c.backwardNumber|
  {
    hide IdomCorrect, ReachabilityBuilt, FrontiersExact, PostFrontiersExact, BackEdgesInside;
    MirrorLive(c, x);
  }

  /** Only the exit block is its own immediate post-dominator. */
  lemma ExitOnlyIsItsOwn(c: Pool, x: Node)
    requires Analysed(c) && Live(Backward(c), x)
    ensures x < |c.immediatePostDominator| && (c.immediatePostDominator[x] == Some(x) <==> x == c.exitBlock)
  {
    hide ReachabilityBuilt, FrontiersExact, PostFrontiersExact, BackEdgesInside, ImmediateDom, Mirrors;
    LiveInRange(Backward(c), x);
    ChainStep(Backward(c), c.immediatePostDominator, 0, x);
  }

  lemma EntryInOrder(c: Pool)
    requires ForwardAnalysed(c)
    ensures c.entryBlock in c.forwardOrder && Forward(c).root == c.entryBlock
  {
    hide IdomCorrect, ReachabilityBuilt, BackEdgesInside, Mirrors;
    LiveRoot(Forward(c));
  }

  /** Dominance in the mirrored graph, for a list of live blocks. */
  lemma BackDom(c: Pool, d: Node, x: Node)
    requires Analysed(c) && x in c.forwardOrder && d != c.exitBlock
    ensures PostDom(Forward(c).g, d, x) <==> Dom(Backward(c), d, x)
  {
    hide IdomCorrect, ReachabilityBuilt, FrontiersExact, PostFrontiersExact, BackEdgesInside, PostDom, Dom;
    PostDomIsMirrorDom(Backward(c).g, c.exitBlock, Forward(c), c.forwardOrder, c.backwardNumber, d, x);
  }

  lemma LiveBackInOrder(c: Pool, x: Node)
    requires Analysed(c) && Live(Backward(c), x) && x != c.exitBlock
    ensures x in c.forwardOrder
  {
    hide IdomCorrect, ReachabilityBuilt, FrontiersExact, PostFrontiersExact, BackEdgesInside, Mirrors;
    LiveInRange(Backward(c), x);
    var i := Index(c.backwardOrder, x);
    assert x in c.backwardOrder + [c.exitBlock];
    MirrorMembers(c, x, i);
  }

  lemma ExitIsNotLive(c: Pool)
    requires Analysed(c)
    ensures c.exitBlock !in c.forwardOrder
  {}

  lemma OnlyExitDominatesExit(c: Pool, d: Node)
    requires Analysed(c) && Dom(Backward(c), d, c.exitBlock)
    ensures d == c.exitBlock
  {
    hide IdomCorrect, ReachabilityBuilt, FrontiersExact, PostFrontiersExact, BackEdgesInside, Mirrors, Dom;
    LiveRoot(Backward(c));
    RootDominates(Backward(c), d);
    DomAntisym(Backward(c), d, c.exitBlock);
  }

  /** With one predecessor, that is the immediate dominator. */
  lemma OnlyPred(c: Pool, h: Node, above: Node)
    requires ForwardAnalysed(c) && h in c.forwardOrder && h != c.entryBlock && h < |c.pred| && |c.pred[h]| == 1
    requires ImmediateDom(Forward(c), above, h)
    ensures c.pred[h][0] == above && Edge(Forward(c).g, above, h) && above in c.forwardOrder
  {
    hide IdomCorrect, ReachabilityBuilt, BackEdgesInside, Dom, Reach;
    var f, x := Forward(c), c.pred[h][0];
    assert forall y: Node :: y in c.pred[h] <==> Edge(f.g, y, h);
    assert x in c.pred[h];
    LiveEdge(f, x, h);
    ImmediateDomLower(f, above, h);
    DomRefl(f, x);
    StrictDomByPreds(f, x, h);
    StrictDomByPreds(f, above, h);
    DomAntisym(f, x, above);
  }

  lemma NumberIsIndex(f: Flow, order: seq<Node>, x: Node)
    requires Numbered(f, order) && x in order
    ensures x < |f.num| && f.num[x] == Index(order, x)
  {
    var k := Index(order, x);
    assert order[k] == x;
  }
}
