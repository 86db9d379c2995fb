/** One lock for the whole shader, released in a loop: the pass accepts, and some run releases the lock twice. */
module RovInLoop {
  import opened Wrappers
  import opened Graphs
  import opened Lists
  import opened IR
  import opened Dominance
  import opened NodePool
  import opened FlowGraph
  import opened Backwards
  import opened Dfs
  import opened Traversal
  import opened PathQuery
  import opened Analysis
  import opened BlockPool
  import opened Cycles
  import opened Rov
  import opened RovRuns
  import opened RovChoice
  import opened RovLoops
  import opened RovRegion
  import opened RovAccept
  import opened RovPass

  /** A block, a block that may go round, and the end. */
  ghost predicate Looping(g: Graph) {
    |g.succ| >= 3 && forall x: Node, y: Node :: Edge(g, x, y) <==> (x == 0 && y == 1) || (x == 1 && (y == 1 || y == 2))
  }

  /** The forward part. */
  ghost predicate ForwardPart(f: Flow, g: Graph) {
    && f.root == 0 && |f.g.succ| == |g.succ| >= 3
    && forall x: Node, y: Node :: Edge(f.g, x, y) <==> (x == 0 && y == 1) || (x == 1 && y == 2)
  }

  /** An access before the loop, and one in it. */
  ghost predicate TwoAccesses(blocks: seq<IRBlock>) {
    forall x: Node :: Locks(blocks, x) <==> x <= 1
  }

  /** No walk leads to a smaller number. */
  lemma NeverDown(g: Graph, y: Node, x: Node)
    requires Looping(g) && Reach(g, y, x)
    ensures y <= x
  {
    var p :| Path(g, p, y, x);
    StaysAbove(g, p, y, x);
  }

  lemma {:induction false} StaysAbove(g: Graph, p: seq<Node>, y: Node, x: Node)
    requires Looping(g) && Path(g, p, y, x)
    ensures y <= x
    decreases |p|
  {
    if |p| > 1 {
      StaysAbove(g, p[1..], p[1], x);
    }
  }

  lemma LoopingReducible(g: Graph)
    requires Looping(g)
    ensures Closed(g) && Reducible(g, 0)
  {
    hide Reach, Order, Dominating;
    forall x: Node, i | x < |g.succ| && 0 <= i < |g.succ[x]| ensures g.succ[x][i] < |g.succ| {
      assert Edge(g, x, g.succ[x][i]);
    }
    forall x: Node, y: Node | BackEdge(g, Order(g, 0), x, y) ensures y != 0 && Dominating(g, 0, y, x) {
      AroundOnly(g, x, y);
      DominatesItself(g, 0, x);
    }
  }

  lemma AroundOnly(g: Graph, x: Node, y: Node)
    requires Looping(g) && Closed(g) && BackEdge(g, Order(g, 0), x, y)
    ensures x == y == 1
  {
    hide Reach, Order;
    BackEdgeReturns(g, 0, x, y);
    NeverDown(g, y, x);
  }

  /** The analyses find that part. */
  lemma AnalysedIsStraight(c: Pool, g: Graph)
    requires Split(c, g) && Looping(g) && Closed(g) && c.entryBlock == 0 && c.forwardOrder == Order(g, 0)
    ensures ForwardPart(Forward(c), g)
  {
    hide Order, Reach;
    var f, order := Forward(c), c.forwardOrder;
    OrderFacts(g, 0);
    assert Edge(g, 0, 1) && Edge(g, 1, 2);
    forall x: Node, y: Node ensures Edge(f.g, x, y) <==> (x == 0 && y == 1) || (x == 1 && y == 2) {
      if Edge(g, x, y) && x in order && !Before(order, y, x) {
        AroundOnly(g, x, y);
      }
    }
  }

  // ---------------------------------------------------------------- what the pass accepts

  lemma StraightRuns(f: Flow, g: Graph)
    requires ForwardPart(f, g)
    ensures PostDom(f.g, 0, 0) && PostDom(f.g, 1, 0) && PostDom(f.g, 1, 1)
  {
    forall p: seq<Node>, l: Node, x: Node | x <= 1 && Path(f.g, p, x, l) && Leaf(f.g, l) ensures x in p && 1 in p {
      PathLast(f.g, p, x, l);
      assert Edge(f.g, 0, 1) && Edge(f.g, 1, 2);
      if x == 0 {
        assert p[1] == 1;
      }
    }
  }

  /** Behind the second access is behind the first one too. */
  lemma StraightExit(f: Flow, g: Graph, xs: seq<Node>)
    requires ForwardPart(f, g) && (forall k :: 0 <= k < |xs| ==> xs[k] <= 1) && 1 in xs
    ensures ClosestExit(f, xs, 1)
  {
    hide PostDom, ForwardPart;
    StraightRuns(f, g);
    forall e: Node ensures PostDom(f.g, e, 1) <==> BehindAll(f, xs, e) {
      if PostDom(f.g, e, 1) {
        PostDomTrans(f.g, e, 1, 0);
      }
    }
  }

  lemma StraightEntry(f: Flow, g: Graph, xs: seq<Node>)
    requires ForwardPart(f, g) && (forall k :: 0 <= k < |xs| ==> xs[k] <= 1) && 0 in xs
    ensures ClosestEntry(f, xs, 0)
  {
    hide PostDom, Dom;
    StraightRuns(f, g);
    RootDominates(f, 0);
    RootDominates(f, 1);
    forall e: Node | Enters(f, xs, e) ensures Dom(f, e, 0) {
      assert xs[Index(xs, 0)] == 0;
    }
  }

  /** No loop is above the first access, so the lock goes from there to where the second one is. */
  lemma StraightAccepts(f: Flow, g: Graph, blocks: seq<IRBlock>, merges: Node -> Option<Node>, xs: seq<Node>)
    requires ForwardPart(f, g) && (forall k :: 0 <= k < |xs| ==> xs[k] <= 1) && 0 in xs && 1 in xs
    ensures Accepts(f, g, blocks, merges, xs, 0, 1)
  {
    hide PostDom, Dom, Live, ClosestEntry, ClosestExit;
    StraightEntry(f, g, xs);
    StraightExit(f, g, xs);
    StraightExit(f, g, [0, 1]);
    RootDominates(f, 0);
    RootDominates(f, 1);
    assert InnermostHeader(f, g, 0, 0, 0);
    assert ChosenAt(f, g, blocks, merges, xs, 0, 0, 1, 0, 1);
    assert Chosen(f, g, blocks, merges, xs, 0, 1, 0, 1);
    assert AcceptsFrom(f, g, blocks, merges, xs, 0, 1, 1, 0, 1);
  }

  lemma SecondIsOnCycle(g: Graph)
    requires Looping(g)
    ensures OnCycle(g, 1)
  {
    ReachRefl(g, 1);
    assert Edge(g, 1, 1);
  }

  lemma AccessesInOrder(g: Graph, blocks: seq<IRBlock>)
    requires Looping(g) && Closed(g) && TwoAccesses(blocks)
    ensures var xs := RovBlocks(blocks, Order(g, 0));
            (forall k :: 0 <= k < |xs| ==> xs[k] <= 1) && 0 in xs && 1 in xs
  {
    hide Order, Locks;
    var order := Order(g, 0);
    OrderFacts(g, 0);
    assert Edge(g, 0, 1);
    RovBlocksMembers(blocks, order, 0);
    RovBlocksMembers(blocks, order, 1);
    var xs := RovBlocks(blocks, order);
    forall k | 0 <= k < |xs| ensures xs[k] <= 1 {
      RovBlocksMembers(blocks, order, xs[k]);
    }
  }

  /** The pass takes the first block for the entry and the second for the exit, whatever the analysis of loops says, and
      some run releases the lock twice. */
  method LockTheLoop(c: Pool, f: Blocks, merges: Node -> Option<Node>, ghost g: Graph, ghost rov: Op -> bool)
    returns (trivial: bool)
    requires Recomputable(c) && g == FullGraph(c) && Looping(g) && c.entryBlock == 0
    requires forall h: Node :: merges(h).Some? ==> Reach(g, h, merges(h).value)
    requires f.Valid() && |f.blocks| == |c.succ| && TwoAccesses(f.blocks)
    requires forall x: Node :: x < |f.blocks| ==> Bracketed(rov, f.blocks[x].operations, false)
    modifies c, f`blocks
    ensures trivial && LocksAt(f.blocks, c.forwardOrder, 0, 1) && !LockedOnce(g, f.blocks, 0, rov)
  {
    hide Recomputable, Analysed, Split, Looping, Reducible, Reach, Order, Bracketed, LockedOnce, Accepts, LocksAt,
        OnCycle, SameOtherwise, LoopFree, LockFree, HasRegion, RovBlocks, HeldThrough, Edge, Locks, LoopAround;
    LoopingReducible(g);
    SecondIsOnCycle(g);
    AtLeastThree(g);
    ghost var blocks := f.blocks;
    trivial := RewriteRovLockRegion(c, f, merges, g, rov);
    AnalysedIsStraight(c, g);
    AccessesInOrder(g, blocks);
    StraightAccepts(Forward(c), g, blocks, merges, RovBlocks(blocks, c.forwardOrder));
  }

  lemma AtLeastThree(g: Graph)
    requires Looping(g)
    ensures |g.succ| >= 3
  {}

  // ---------------------------------------------------------------- around the loop

  /** One access, in the loop. */
  ghost predicate AccessInLoop(blocks: seq<IRBlock>) {
    forall x: Node :: Locks(blocks, x) <==> x == 1
  }

  lemma AroundHere(f: Flow, g: Graph, blocks: seq<IRBlock>, merges: Node -> Option<Node>, xs: seq<Node>)
    requires Looping(g) && ForwardPart(f, g) && Ok(f) && (forall k :: 0 <= k < |xs| ==> xs[k] == 1)
    requires |blocks| > 0 && blocks[0].terminator.Branch? && merges(1) == Some(2)
    ensures LoopAround(f, g, blocks, merges, xs, 1, 0, 2)
  {
    hide Reach, PostDom, OnCycle, Dom;
    StraightRuns(f, g);
    StraightEnd(f, g);
    TurnsHere(f, g);
    DomRefl(f, 1);
    EndOffCycles(g);
    forall t: Node | Dom(f, t, 0) ensures t == 0 {
      RootDominates(f, t);
      LiveRoot(f);
      DomAntisym(f, t, 0);
    }
    assert Edge(f.g, 0, 1);
  }

  lemma TurnsHere(f: Flow, g: Graph)
    requires Looping(g) && ForwardPart(f, g) && Ok(f)
    ensures Turns(f, g, 1, 1) && Reach(f.g, 1, 1)
  {
    assert Edge(f.g, 0, 1) && Edge(g, 1, 1);
    LiveEdge(f, 0, 1);
    ReachRefl(f.g, 1);
  }

  lemma EndOffCycles(g: Graph)
    requires Looping(g)
    ensures !OnCycle(g, 2)
  {}

  lemma StraightEnd(f: Flow, g: Graph)
    requires ForwardPart(f, g)
    ensures PostDom(f.g, 2, 1)
  {
    forall p: seq<Node>, l: Node | Path(f.g, p, 1, l) && Leaf(f.g, l) ensures 2 in p {
      assert Edge(f.g, 1, 2);
      assert p[1] == 2;
    }
  }

  lemma OneAccessInOrder(g: Graph, blocks: seq<IRBlock>)
    requires Looping(g) && Closed(g) && AccessInLoop(blocks)
    ensures var xs := RovBlocks(blocks, Order(g, 0)); xs != [] && forall k :: 0 <= k < |xs| ==> xs[k] == 1
  {
    hide Order, Locks;
    var order := Order(g, 0);
    OrderFacts(g, 0);
    assert Edge(g, 0, 1);
    RovBlocksMembers(blocks, order, 1);
    var xs := RovBlocks(blocks, order);
    forall k | 0 <= k < |xs| ensures xs[k] == 1 {
      RovBlocksMembers(blocks, order, xs[k]);
    }
  }

  /** With the only access in the loop, and a plain branch to it, the lock is put around the loop, and every complete
      run takes and releases it once. */
  method LockAroundTheLoop(c: Pool, f: Blocks, merges: Node -> Option<Node>, ghost g: Graph, ghost rov: Op -> bool)
    returns (trivial: bool)
    requires Recomputable(c) && g == FullGraph(c) && Looping(g) && c.entryBlock == 0 && merges(1) == Some(2)
    requires forall h: Node :: merges(h).Some? ==> Reach(g, h, merges(h).value)
    requires f.Valid() && |f.blocks| == |c.succ| > 0 && AccessInLoop(f.blocks) && f.blocks[0].terminator.Branch?
    requires forall x: Node :: x < |f.blocks| ==> Bracketed(rov, f.blocks[x].operations, false)
    modifies c, f`blocks
    ensures trivial && LocksAt(f.blocks, c.forwardOrder, 0, 2) && LockedOnce(g, f.blocks, 0, rov)
  {
    hide Recomputable, Analysed, Split, Looping, Reducible, Reach, Order, Bracketed, LockedOnce, Accepts, LocksAt,
        OnCycle, SameOtherwise, LoopFree, LockFree, HasRegion, RovBlocks, HeldThrough, Edge, Locks, LoopAround,
        AsAccepted, Trivial;
    LoopingReducible(g);
    AtLeastThree(g);
    ghost var blocks := f.blocks;
    trivial := RewriteRovLockRegion(c, f, merges, g, rov);
    AnalysedIsStraight(c, g);
    AnalysedIsOk(c);
    OneAccessInOrder(g, blocks);
    AroundHere(Forward(c), g, blocks, merges, RovBlocks(blocks, c.forwardOrder));
  }

  lemma AnalysedIsOk(c: Pool)
    requires Analysed(c)
    ensures Ok(Forward(c))
  {}
}
