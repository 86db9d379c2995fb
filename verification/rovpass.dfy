/** Widening the interlock brackets of a function to one region, or giving up. */
module RovPass {
  import opened Wrappers
  import opened Graphs
  import opened Lists
  import opened IR
  import opened Dominance
  import opened NodePool
  import opened FlowGraph
  import opened Backwards
  import opened Dominators
  import opened Dfs
  import opened Traversal
  import opened PathQuery
  import opened Analysis
  import opened BlockPool
  import opened Cycles
  import opened Rov
  import opened RovRuns
  import opened RovChoice
  import opened AnalysisFacts
  import opened RovLoops
  import opened RovRegion
  import opened RovAccept

  // ---------------------------------------------------------------- the pass

  /** No walk returns to a block that it has left. */
  ghost predicate LoopFree(g: Graph, entry: Node) {
    forall x: Node, y: Node :: Reach(g, entry, x) && Edge(g, x, y) ==> !Reach(g, y, x)
  }

  /** From where a back edge leads, control gets to where it comes from. */
  lemma BackEdgeReturns(g: Graph, root: Node, x: Node, y: Node)
    requires Closed(g) && root < |g.succ| && BackEdge(g, Order(g, root), x, y)
    ensures Reach(g, root, x) && Reach(g, y, x)
  {
    hide VisitNode;
    var order := Order(g, root);
    OrderFacts(g, root);
    var i, j := Index(order, x), Index(order, y);
    assert order[i..][j - i] == y;
    VisitNodeCycles(g, Start(), root, g, order, i);
    VisitNodeReaches(g, Start(), root, g, order, x);
  }

  lemma LoopFreeNoBackEdge(g: Graph, root: Node, x: Node, y: Node)
    requires Closed(g) && root < |g.succ| && LoopFree(g, root)
    requires x in Order(g, root) && Edge(g, x, y)
    ensures Before(Order(g, root), y, x)
  {
    hide LoopFree, VisitNode, Before;
    if !Before(Order(g, root), y, x) {
      BackEdgeReturns(g, root, x, y);
      NeverReturns(g, root, x, y);
      assert false;
    }
  }

  lemma NeverReturns(g: Graph, root: Node, x: Node, y: Node)
    requires LoopFree(g, root) && Reach(g, root, x) && Edge(g, x, y)
    ensures !Reach(g, y, x)
  {}

  /** Without loops, nothing is a back edge. */
  lemma LoopFreeHasNoLoops(c: Pool, g: Graph)
    requires Closed(g) && c.entryBlock < |g.succ| && LoopFree(g, c.entryBlock)
    requires c.forwardOrder == Order(g, c.entryBlock) && Split(c, g)
    ensures NoLoops(c)
  {
    hide LoopFree, Reach, Before, Edge;
    forall x: Node | x in c.forwardOrder && x < |c.predBackEdge| ensures c.predBackEdge[x].None? {
      var y := if c.predBackEdge[x].Some? then c.predBackEdge[x].value else 0;
      if BackEdge(g, c.forwardOrder, y, x) {
        LoopFreeNoBackEdge(g, c.entryBlock, y, x);
      }
      assert !Records(c.succBackEdge, y, x);
      assert !Records(c.predBackEdge, x, y);
    }
  }

  /** A graph without loops is reducible. */
  lemma LoopFreeIsReducible(g: Graph, entry: Node)
    requires Closed(g) && entry < |g.succ| && LoopFree(g, entry)
    ensures Reducible(g, entry)
  {
    hide LoopFree, Before, Dominating;
    forall x: Node, y: Node | BackEdge(g, Order(g, entry), x, y) ensures false {
      LoopFreeNoBackEdge(g, entry, x, y);
    }
  }

  lemma LoopFreeNoCycle(g: Graph, entry: Node, x: Node)
    requires LoopFree(g, entry) && Reach(g, entry, x)
    ensures !OnCycle(g, x)
  {}

  /** The blocks without their locks, but for the first begin in `first` and the last end in `last`. */
  function Scrubbed(ops: seq<Op>, first: bool, last: bool): seq<Op> {
    var begin := if first then KeepFirstBegin(ops) else Without(ops, BEGIN);
    if last then KeepLastEnd(begin) else Without(begin, END)
  }

  /** `scrub_rov_lock_regions` for each block with a lock. */
  method ScrubAll(f: Blocks, rovBlocks: seq<Node>, idom: Option<Node>, pdom: Option<Node>)
    requires f.Valid() && InRange(rovBlocks, |f.blocks|) && Distinct(rovBlocks)
    requires forall k :: 0 <= k < |rovBlocks| ==> HasOp(f.blocks[rovBlocks[k]].operations, BEGIN)
    modifies f`blocks
    ensures f.Valid() && |f.blocks| == |old(f.blocks)|
    ensures forall b: Node :: b < |f.blocks| ==> (f.blocks[b] ==
              if b in rovBlocks then old(f.blocks[b]).(operations :=
                                                       Scrubbed(old(f.blocks[b].operations), idom == Some(b),
                                                                pdom == Some(b)))
              else old(f.blocks[b]))
  {
    hide Scrubbed, HasOp, Distinct;
    var k := 0;
    while k < |rovBlocks|
      invariant k <= |rovBlocks| && f.Valid() && |f.blocks| == |old(f.blocks)|
      invariant forall b: Node :: b < |f.blocks| ==> (f.blocks[b] ==
                  if b in rovBlocks[..k]
                  then old(f.blocks[b]).(operations :=
                                         Scrubbed(old(f.blocks[b].operations), idom == Some(b), pdom == Some(b)))
                  else old(f.blocks[b]))
    {
      var node: Node := rovBlocks[k];
      NextInList(rovBlocks, k);
      var operations := ScrubBegin(f.blocks[node].operations, idom == Some(node));
      operations := ScrubEnd(operations, pdom == Some(node));
      ScrubbedIs(old(f.blocks[node].operations), idom == Some(node), pdom == Some(node));
      f.blocks := f.blocks[node := f.blocks[node].(operations := operations)];
      k := k + 1;
    }
    assert rovBlocks[..|rovBlocks|] == rovBlocks;
  }

  lemma ScrubbedIs(ops: seq<Op>, first: bool, last: bool)
    ensures Scrubbed(ops, first, last) ==
            var begin := if first then KeepFirstBegin(ops) else Without(ops, BEGIN); if last then KeepLastEnd(begin)
            else Without(begin, END)
  {}

  lemma NextInList(xs: seq<Node>, k: nat)
    requires Distinct(xs) && k < |xs|
    ensures xs[k] !in xs[..k] && xs[..k + 1] == xs[..k] + [xs[k]] && xs[k] in xs
  {
    DistinctSlice(xs, 0, k);
    assert xs[0..k] == xs[..k] && xs[k] in xs[k..] by { assert xs[k..][0] == xs[k]; }
  }

  ghost predicate LockFree(blocks: seq<IRBlock>, order: seq<Node>) {
    forall x: Node :: x in order && x < |blocks| ==>
      !HasOp(blocks[x].operations, BEGIN) && !HasOp(blocks[x].operations, END)
  }

  /** Everything but the locks. */
  ghost predicate SameOtherwise(blocks: seq<IRBlock>, after: seq<IRBlock>) {
    && |after| == |blocks|
    && forall x: Node :: x < |blocks| ==>
         (after[x] == blocks[x].(operations := after[x].operations)
          && Without(Without(after[x].operations, BEGIN), END) == Without(Without(blocks[x].operations, BEGIN), END))
  }

  /** Scrubbing, then adding what is missing, is bracketing the region. */
  lemma ScrubbedIsRegion(ops: seq<Op>, first: bool, last: bool)
    ensures HasOp(ops, BEGIN) ==> RegionOps(ops, first, last) == Scrubbed(ops, first, last)
    ensures !HasOp(ops, BEGIN) ==>
              RegionOps(ops, first, last) == (if last then [Op(END, 0, [])] else []) + (ops + if first
                      then [Op(BEGIN, 0, [])] else [])
  {
    if !HasOp(ops, BEGIN) {
      assert [] + ops == ops && ops + [] == ops;
    }
  }

  lemma FullScrub(ops: seq<Op>)
    ensures !HasOp(Scrubbed(ops, false, false), BEGIN) && !HasOp(Scrubbed(ops, false, false), END)
    ensures Without(Without(Scrubbed(ops, false, false), BEGIN), END) == Without(Without(ops, BEGIN), END)
  {
    var s := Scrubbed(ops, false, false);
    WithoutHas(ops, BEGIN, BEGIN);
    WithoutHas(Without(ops, BEGIN), END, BEGIN);
    WithoutHas(Without(ops, BEGIN), END, END);
    WithoutAbsent(s, BEGIN);
    WithoutAbsent(s, END);
  }

  /** After the scrub without a region no lock is left anywhere. */
  lemma AllScrubbed(blocks: seq<IRBlock>, after: seq<IRBlock>, order: seq<Node>, rov: Op -> bool)
    requires |after| == |blocks| && forall x: Node :: x in order && x < |blocks| ==>
               Bracketed(rov, blocks[x].operations, false)
    requires forall b: Node :: b < |after| ==> (after[b] ==
               if b in RovBlocks(blocks, order)
               then blocks[b].(operations := Scrubbed(blocks[b].operations, false, false)) else blocks[b])
    ensures LockFree(after, order) && SameOtherwise(blocks, after)
  {
    hide HasOp, Without, Scrubbed, Bracketed, RovBlocks;
    forall b: Node | b < |after|
      ensures b in order ==> !HasOp(after[b].operations, BEGIN) && !HasOp(after[b].operations, END)
      ensures Without(Without(after[b].operations, BEGIN), END) == Without(Without(blocks[b].operations, BEGIN), END)
    {
      RovBlocksMembers(blocks, order, b);
      FullScrub(blocks[b].operations);
      if b in order && b !in RovBlocks(blocks, order) {
        PlainScan(rov, blocks[b].operations, Held);
      }
    }
  }

  /** What the pass leaves when there is a region. */
  lemma RegionBracketed(blocks: seq<IRBlock>, after: seq<IRBlock>, order: seq<Node>, i: Node, d: Node)
    requires |after| == |blocks| && i in order && d in order
    requires forall b: Node :: b < |after| ==>
               after[b] == blocks[b].(operations := RegionOpsIfLive(blocks, order, i, d, b))
    ensures SameOtherwise(blocks, after)
    ensures forall y: Node :: y in order && y < |blocks| ==>
              after[y].operations == RegionOps(blocks[y].operations, y == i, y == d)
  {
    hide RegionOps, Without;
    forall b: Node | b < |after|
      ensures after[b] == blocks[b].(operations := after[b].operations)
      ensures Without(Without(after[b].operations, BEGIN), END) == Without(Without(blocks[b].operations, BEGIN), END)
    {
      RestKept(blocks[b].operations, b == i, b == d);
    }
  }

  function RegionOpsIfLive(blocks: seq<IRBlock>, order: seq<Node>, i: Node, d: Node, b: Node): seq<Op>
    requires b < |blocks|
  {
    if b in order then RegionOps(blocks[b].operations, b == i, b == d) else blocks[b].operations
  }

  lemma NoLocksAtAll(blocks: seq<IRBlock>, order: seq<Node>, rov: Op -> bool)
    requires RovBlocks(blocks, order) == [] && forall x: Node :: x in order && x < |blocks| ==>
               Bracketed(rov, blocks[x].operations, false)
    ensures LockFree(blocks, order) && SameOtherwise(blocks, blocks)
  {
    hide HasOp, Bracketed;
    forall x: Node | x in order && x < |blocks| ensures !HasOp(blocks[x].operations, BEGIN)
        && !HasOp(blocks[x].operations, END) {
      RovBlocksMembers(blocks, order, x);
      PlainScan(rov, blocks[x].operations, Held);
    }
  }

  lemma RovBlocksFacts(blocks: seq<IRBlock>, order: seq<Node>)
    requires Distinct(order) && InRange(order, |blocks|)
    ensures var xs := RovBlocks(blocks, order);
            && Distinct(xs) && InRange(xs, |blocks|)
            && (forall k :: 0 <= k < |xs| ==> HasOp(blocks[xs[k]].operations, BEGIN))
            && (forall x: Node :: x in xs <==> x in order && Locks(blocks, x))
  {
    hide HasOp, Distinct;
    RovBlocksDistinct(blocks, order);
    forall x: Node ensures x in RovBlocks(blocks, order) <==> x in order && Locks(blocks, x) {
      RovBlocksMembers(blocks, order, x);
    }
    var xs := RovBlocks(blocks, order);
    forall k | 0 <= k < |xs| ensures xs[k] < |blocks| && HasOp(blocks[xs[k]].operations, BEGIN) {
      assert xs[k] in xs && Locks(blocks, xs[k]);
    }
  }

  /** Scrubbing the blocks with locks and adding the missing begin or end brackets the region. */
  lemma BracketsAdded(blocks: seq<IRBlock>, scrubbed: seq<IRBlock>, after: seq<IRBlock>, order: seq<Node>, i: Node,
                      d: Node, b: Node)
    requires |after| == |scrubbed| == |blocks| && i in order && d in order && b < |blocks|
    requires (i == d ==> Locks(blocks, i)) && (b in RovBlocks(blocks, order) <==> b in order && Locks(blocks, b))
    requires scrubbed[b] == if b in RovBlocks(blocks, order)
             then blocks[b].(operations := Scrubbed(blocks[b].operations, i == b, d == b)) else blocks[b]
    requires after[b] == if b == i && !Locks(blocks, i)
             then scrubbed[b].(operations := scrubbed[b].operations + [Op(BEGIN, 0, [])])
                         else if b == d && !Locks(blocks, d)
                         then scrubbed[b].(operations := [Op(END, 0, [])] + scrubbed[b].operations)
                         else scrubbed[b]
    ensures after[b] == blocks[b].(operations := RegionOpsIfLive(blocks, order, i, d, b))
  {
    hide RegionOps, HasOp, Scrubbed;
    var ops := blocks[b].operations;
    ScrubbedIsRegion(ops, b == i, b == d);
    assert [] + (ops + [Op(BEGIN, 0, [])]) == ops + [Op(BEGIN, 0, [])] && ops + [] == ops && [] + ops == ops;
  }

  /** The lock is taken in `i` and released in `d`, and nowhere else. */
  ghost predicate LocksAt(blocks: seq<IRBlock>, order: seq<Node>, i: Node, d: Node) {
    && i in order && d in order
    && forall b: Node :: b in order && b < |blocks| ==>
         && (HasOp(blocks[b].operations, BEGIN) <==> b == i) && (HasOp(blocks[b].operations, END) <==> b == d)
  }

  /** Every complete run takes and releases the lock once exactly if the block that releases it is on no cycle. */
  ghost predicate LockedOffCycles(g: Graph, blocks: seq<IRBlock>, order: seq<Node>, entry: Node, rov: Op -> bool,
                                  i: Node, d: Node) {
    LocksAt(blocks, order, i, d) && (LockedOnce(g, blocks, entry, rov) <==> !OnCycle(g, d))
  }

  /** A region for the accesses of the function as it came. */
  ghost predicate Trivial(f: Flow, g: Graph, order: seq<Node>, blocks: seq<IRBlock>, merges: Node -> Option<Node>) {
    RovBlocks(blocks, order) == []
    || exists i: Node, d: Node :: Accepts(f, g, blocks, merges, RovBlocks(blocks, order), i, d)
  }

  /** The lock is taken and released at the ends of the region that the function determines. */
  ghost predicate AsAccepted(f: Flow, g: Graph, order: seq<Node>, blocks: seq<IRBlock>, after: seq<IRBlock>,
                             merges: Node -> Option<Node>, rov: Op -> bool) {
    forall i: Node, d: Node ::
      RovBlocks(blocks, order) != [] && Accepts(f, g, blocks, merges, RovBlocks(blocks, order), i, d) ==>
        LockedOffCycles(g, after, order, f.root, rov, i, d)
  }

  lemma NothingAccepted(f: Flow, g: Graph, order: seq<Node>, blocks: seq<IRBlock>, after: seq<IRBlock>,
                        merges: Node -> Option<Node>, rov: Op -> bool, region: Option<(Node, Node)>)
    requires RovBlocks(blocks, order) == []
             || (region.None? && forall i: Node, d: Node ::
                   Accepts(f, g, blocks, merges, RovBlocks(blocks, order), i, d) <==> region == Some((i, d)))
    ensures AsAccepted(f, g, order, blocks, after, merges, rov)
    ensures Trivial(f, g, order, blocks, merges) <==> RovBlocks(blocks, order) == []
  {
    hide Accepts, LockedOffCycles, RovBlocks;
  }

  lemma OneAccepted(f: Flow, g: Graph, order: seq<Node>, blocks: seq<IRBlock>, after: seq<IRBlock>,
                    merges: Node -> Option<Node>, rov: Op -> bool, i: Node, d: Node)
    requires forall i': Node, d': Node ::
               Accepts(f, g, blocks, merges, RovBlocks(blocks, order), i', d') <==> Some((i, d)) == Some((i', d'))
    requires LockedOffCycles(g, after, order, f.root, rov, i, d)
    ensures AsAccepted(f, g, order, blocks, after, merges, rov) && Trivial(f, g, order, blocks, merges)
  {
    hide Accepts, LockedOffCycles, RovBlocks;
    assert Accepts(f, g, blocks, merges, RovBlocks(blocks, order), i, d);
  }

  lemma NotTrivial(f: Flow, g: Graph, order: seq<Node>, blocks: seq<IRBlock>, after: seq<IRBlock>,
                   merges: Node -> Option<Node>, rov: Op -> bool)
    requires !Trivial(f, g, order, blocks, merges)
    ensures AsAccepted(f, g, order, blocks, after, merges, rov)
  {
    hide Accepts, LockedOffCycles, RovBlocks;
  }

  /** `CFGStructurizer::rewrite_rov_lock_region`. */
  method RewriteRovLockRegion(c: Pool, f: Blocks, merges: Node -> Option<Node>, ghost g: Graph, ghost rov: Op -> bool)
    returns (trivial: bool)
    requires Recomputable(c) && g == FullGraph(c) && Closed(g) && c.entryBlock < |g.succ| && Reducible(g, c.entryBlock)
    requires forall h: Node :: merges(h).Some? ==> Reach(g, h, merges(h).value)
    requires f.Valid() && |f.blocks| == |c.succ|
    requires forall x: Node :: x < |f.blocks| ==> Bracketed(rov, f.blocks[x].operations, false)
    modifies c, f`blocks
    ensures Analysed(c) && f.Valid() && c.entryBlock == old(c.entryBlock)
    ensures SameOtherwise(old(f.blocks), f.blocks)
    ensures Split(c, g) && c.forwardOrder == Order(g, c.entryBlock)
    ensures trivial <==> Trivial(Forward(c), g, c.forwardOrder, old(f.blocks), merges)
    ensures AsAccepted(Forward(c), g, c.forwardOrder, old(f.blocks), f.blocks, merges, rov)
    ensures RovBlocks(old(f.blocks), c.forwardOrder) == [] ==>
              trivial && f.blocks == old(f.blocks) && LockFree(f.blocks, c.forwardOrder)
    ensures !trivial ==> LockFree(f.blocks, c.forwardOrder) && HeldThrough(g, f.blocks, c.entryBlock, rov)
    ensures LoopFree(g, c.entryBlock) && RovBlocks(old(f.blocks), c.forwardOrder) != [] ==>
              && (trivial ==> LockedOnce(g, f.blocks, c.entryBlock, rov))
              && (trivial <==> HasRegion(Forward(c), c.forwardOrder, old(f.blocks)))
    ensures RovBlocks(old(f.blocks), c.forwardOrder) != [] ==> forall h: Node, i: Node, m: Node ::
              LoopAround(Forward(c), g, old(f.blocks), merges, RovBlocks(old(f.blocks), c.forwardOrder), h, i, m) ==>
                trivial && LocksAt(f.blocks, c.forwardOrder, i, m) && LockedOnce(g, f.blocks, c.entryBlock, rov)
  {
    hide Analysed, ForwardAnalysed, Recomputable, Split, LoopFree, Region, Bracketed, Scrubbed, HasOp, RegionOps,
        Without, LockedOnce, Numbered, Distinct, Reducible, Looped, OnCycle, Ends;
    hide LockFree, SameOtherwise, RovBlocks, RegionOpsIfLive, NoLoops, Restrict, Edge, Path, Reach, InRange,
        MirrorNumbered, Mirrors, IdomCorrect, Ok, Order, LockedOffCycles, HasRegion, LoopsExit, Accepts,
        AsAccepted, Trivial, LoopAround, LocksAt;
    LoopsDoExit(c, g);
    RecomputeCfg(c, g);
    AnalysedIsForward(c);
    AnalysedIsLooped(c, g);
    AllEnd(c, g);
    if LoopFree(g, c.entryBlock) {
      LoopFreeHasNoLoops(c, g);
    }
    SizeSplit(c, g);
    ghost var blocks := f.blocks;
    trivial := LockRegion(c, f, merges, g, rov);
    LockedAround(c, g, blocks, f.blocks, merges, rov, trivial);
  }

  /** A lock around a whole loop. */
  lemma LockedAround(c: Pool, g: Graph, blocks: seq<IRBlock>, after: seq<IRBlock>, merges: Node -> Option<Node>,
                     rov: Op -> bool, trivial: bool)
    requires ForwardAnalysed(c) && Looped(c, g)
    requires trivial <==> Trivial(Forward(c), g, c.forwardOrder, blocks, merges)
    requires AsAccepted(Forward(c), g, c.forwardOrder, blocks, after, merges, rov)
    ensures RovBlocks(blocks, c.forwardOrder) != [] ==> forall h: Node, i: Node, m: Node ::
              LoopAround(Forward(c), g, blocks, merges, RovBlocks(blocks, c.forwardOrder), h, i, m) ==>
                trivial && LocksAt(after, c.forwardOrder, i, m) && LockedOnce(g, after, c.entryBlock, rov)
  {
    hide ForwardAnalysed, Looped, Backed, RovBlocks, Accepts, LocksAt, LockedOnce, Numbered;
    AboutForward(c);
    AboutLooped(c, g);
    var f, order, xs := Forward(c), c.forwardOrder, RovBlocks(blocks, c.forwardOrder);
    forall h: Node, i: Node, m: Node | xs != [] && LoopAround(f, g, blocks, merges, xs, h, i, m)
      ensures trivial && LocksAt(after, order, i, m) && LockedOnce(g, after, c.entryBlock, rov)
    {
      AccessesListed(blocks, order);
      LoopAroundAccepted(f, g, order, blocks, merges, xs, h, i, m);
      assert !OnCycle(g, m);
    }
  }

  lemma AccessesListed(blocks: seq<IRBlock>, order: seq<Node>)
    ensures forall k :: 0 <= k < |RovBlocks(blocks, order)| ==> RovBlocks(blocks, order)[k] in order
  {
    var xs := RovBlocks(blocks, order);
    forall k | 0 <= k < |xs| ensures xs[k] in order {
      RovBlocksMembers(blocks, order, xs[k]);
    }
  }

  /** The pass, once the analyses are made. */
  method LockRegion(c: Pool, f: Blocks, merges: Node -> Option<Node>, ghost g: Graph, ghost rov: Op -> bool)
    returns (trivial: bool)
    requires Analysed(c) && Looped(c, g) && (LoopFree(g, c.entryBlock) ==> NoLoops(c))
    requires forall x: Node :: x in c.forwardOrder ==> Ends(g, x)
    requires forall h: Node :: merges(h).Some? ==> Reach(g, h, merges(h).value)
    requires f.Valid() && |f.blocks| == |c.succ|
    requires forall x: Node :: x < |f.blocks| ==> Bracketed(rov, f.blocks[x].operations, false)
    modifies f`blocks
    ensures f.Valid() && SameOtherwise(old(f.blocks), f.blocks)
    ensures trivial <==> Trivial(Forward(c), g, c.forwardOrder, old(f.blocks), merges)
    ensures AsAccepted(Forward(c), g, c.forwardOrder, old(f.blocks), f.blocks, merges, rov)
    ensures RovBlocks(old(f.blocks), c.forwardOrder) == [] ==>
              trivial && f.blocks == old(f.blocks) && LockFree(f.blocks, c.forwardOrder)
    ensures !trivial ==> LockFree(f.blocks, c.forwardOrder) && HeldThrough(g, f.blocks, c.entryBlock, rov)
    ensures LoopFree(g, c.entryBlock) && RovBlocks(old(f.blocks), c.forwardOrder) != [] ==>
              && (trivial ==> LockedOnce(g, f.blocks, c.entryBlock, rov))
              && (trivial <==> HasRegion(Forward(c), c.forwardOrder, old(f.blocks)))
  {
    hide Analysed, LoopFree, Region, Bracketed, Scrubbed, HasOp, LockedOnce, Numbered, Distinct, Looped, OnCycle,
        LockFree, SameOtherwise, RovBlocks, NoLoops, Edge, Path, Reach, InRange, MirrorNumbered, Mirrors, IdomCorrect,
        Ok, LockedOffCycles, HasRegion, Accepts, AsAccepted, Trivial, Backed, HeldThrough, Ends;
    AboutLooped(c, g);
    AboutAnalysed(c);
    ghost var flow, blocks, order := Forward(c), f.blocks, c.forwardOrder;
    OrderDistinct(flow, order);
    RovBlocksFacts(blocks, order);
    var rovBlocks := FindRovBlocks(c.forwardOrder, f.blocks);
    if rovBlocks == [] {
      NoLocksAtAll(blocks, order, rov);
      NothingAccepted(flow, g, order, blocks, f.blocks, merges, rov, None);
      return true;
    }
    var region := ChooseRegion(c, rovBlocks, f.blocks, merges, g);
    if region.None? {
      ScrubAll(f, rovBlocks, None, None);
      AllScrubbed(blocks, f.blocks, order, rov);
      EdgesStayInside(c, g);
      AllHeld(c, g, f.blocks, rov);
      NothingAccepted(flow, g, order, blocks, f.blocks, merges, rov, region);
      return false;
    }
    BracketRegion(f, rovBlocks, region.value.0, region.value.1, g, flow, order, rov);
    OneAccepted(flow, g, order, blocks, f.blocks, merges, rov, region.value.0, region.value.1);
    if LoopFree(g, c.entryBlock) {
      OffCycles(c, g, f.blocks, rov, region.value.0, region.value.1);
    }
    return true;
  }

  /** Where no loop is infinite, every block leads to the end of some run. */
  lemma AllEnd(c: Pool, g: Graph)
    requires ForwardAnalysed(c) && Looped(c, g) && Split(c, g) && LoopsExit(g, c.forwardOrder)
    ensures forall x: Node :: x in c.forwardOrder ==> Ends(g, x)
  {
    hide ForwardAnalysed, LoopsExit, Split, Path, Reach, Backed;
    AboutForward(c);
    AboutLooped(c, g);
    var f := Forward(c);
    forall x: Node | x in c.forwardOrder ensures Ends(g, x) {
      LiveOrder(c, x);
      LiveInRange(f, x);
      var p, l := ReachesLeaf(f.g, f.num, x);
      WalkInWhole(f, g, p, x, l);
      WalkIsReach(f.g, p, x, l);
      WalkIsReach(g, p, x, l);
      ReachTrans(f.g, f.root, x, l);
      OrderIsLive(c, l);
      PathLast(g, p, x, l);
      LeafOfWhole(c, g, l);
    }
  }

  lemma WalkIsReach(g: Graph, p: seq<Node>, x: Node, l: Node)
    requires Path(g, p, x, l)
    ensures Reach(g, x, l)
  {}

  lemma LeafOfWhole(c: Pool, g: Graph, x: Node)
    requires Split(c, g) && LoopsExit(g, c.forwardOrder) && x in c.forwardOrder && x < |g.succ|
    requires Leaf(Forward(c).g, x)
    ensures Leaf(g, x)
  {
    hide LoopsExit, Restrict;
    if g.succ[x] != [] {
      GoesOnForward(c, g, x);
    }
  }

  lemma GoesOnForward(c: Pool, g: Graph, x: Node)
    requires Split(c, g) && LoopsExit(g, c.forwardOrder) && x in c.forwardOrder && x < |g.succ| && g.succ[x] != []
    ensures !Leaf(Forward(c).g, x)
  {
    hide Restrict;
    var y: Node :| Edge(g, x, y) && Before(c.forwardOrder, y, x);
    assert Edge(Forward(c).g, x, y);
  }

  lemma LoopsDoExit(c: Pool, g: Graph)
    requires Recomputable(c) && g == FullGraph(c)
    ensures Closed(g) && c.entryBlock < |g.succ| && LoopsExit(g, Order(g, c.entryBlock)) && |g.succ| == |c.succ|
  {}

  lemma SizeSplit(c: Pool, g: Graph)
    requires Split(c, g)
    ensures |c.succ| == |g.succ|
  {}

  lemma OffCycles(c: Pool, g: Graph, blocks: seq<IRBlock>, rov: Op -> bool, i: Node, d: Node)
    requires Analysed(c) && Looped(c, g) && LoopFree(g, c.entryBlock)
    requires LockedOffCycles(g, blocks, c.forwardOrder, c.entryBlock, rov, i, d)
    ensures LockedOnce(g, blocks, c.entryBlock, rov)
  {
    hide Analysed, ForwardAnalysed, Backed, Reach, LockedOnce, LoopFree, HasOp, OnCycle;
    AnalysedIsForward(c);
    AboutLooped(c, g);
    LiveOrder(c, d);
    ReachInWhole(Forward(c), g, c.entryBlock, d);
    LoopFreeNoCycle(g, c.entryBlock, d);
  }

  /** The successful end of the pass. */
  method BracketRegion(f: Blocks, rovBlocks: seq<Node>, idom: Node, pdom: Node, ghost g: Graph, ghost flow: Flow,
                       ghost order: seq<Node>, ghost rov: Op -> bool)
    requires f.Valid() && InRange(order, |f.blocks|) && |f.blocks| == |flow.g.succ| && Backed(flow, g)
    requires Numbered(flow, order) && rovBlocks == RovBlocks(f.blocks, order) && rovBlocks != []
    requires idom in order && pdom in order && !OnCycle(g, idom) && Ends(g, pdom)
    requires !OnCycle(g, pdom) ==> Region(flow, order, f.blocks, idom, pdom)
    requires forall x: Node :: x < |f.blocks| ==> Bracketed(rov, f.blocks[x].operations, false)
    modifies f`blocks
    ensures f.Valid() && SameOtherwise(old(f.blocks), f.blocks)
    ensures LockedOffCycles(g, f.blocks, order, flow.root, rov, idom, pdom)
  {
    hide Region, Bracketed, Scrubbed, HasOp, RegionOps, Without, LockedOnce, Numbered, Distinct, SameOtherwise,
        RovBlocks, RegionOpsIfLive, Edge, OnCycle, Backed, LockedOffCycles, Ends;
    ghost var blocks := f.blocks;
    OrderDistinct(flow, order);
    RovBlocksFacts(blocks, order);
    InRangeMember(order, |f.blocks|, idom);
    InRangeMember(order, |f.blocks|, pdom);
    assert rovBlocks[0] in rovBlocks;
    if idom == pdom {
      RegionEndsDiffer(flow, order, blocks, idom, pdom, rovBlocks[0]);
    }
    var beginBlockHasLock := idom in rovBlocks;
    var endBlockHasLock := pdom in rovBlocks;
    ScrubAll(f, rovBlocks, Some(idom), Some(pdom));
    ghost var scrubbed := f.blocks;
    if !beginBlockHasLock {
      f.blocks := f.blocks[idom := f.blocks[idom].(operations := f.blocks[idom].operations + [Op(BEGIN, 0, [])])];
    }
    if !endBlockHasLock {
      f.blocks := f.blocks[pdom := f.blocks[pdom].(operations := [Op(END, 0, [])] + f.blocks[pdom].operations)];
    }
    forall b: Node | b < |f.blocks|
      ensures f.blocks[b] == blocks[b].(operations := RegionOpsIfLive(blocks, order, idom, pdom, b))
    {
      BracketsAdded(blocks, scrubbed, f.blocks, order, idom, pdom, b);
    }
    RegionBracketed(blocks, f.blocks, order, idom, pdom);
    LockedWhere(flow, g, order, blocks, f.blocks, idom, pdom, rov, rovBlocks[0]);
  }

  /** A bracketed region: what its runs do depends on the block that releases the lock. */
  lemma LockedWhere(flow: Flow, g: Graph, order: seq<Node>, blocks: seq<IRBlock>, after: seq<IRBlock>, i: Node, d: Node,
                    rov: Op -> bool, r: Node)
    requires Numbered(flow, order) && Backed(flow, g) && InRange(order, |blocks|) && |blocks| == |flow.g.succ|
    requires |after| == |blocks| && r in order && Locks(blocks, r) && i in order && d in order && !OnCycle(g, i)
             && Ends(g, d)
    requires !OnCycle(g, d) ==> Region(flow, order, blocks, i, d)
    requires forall y: Node :: y in order && y < |blocks| ==>
               && Bracketed(rov, blocks[y].operations, false)
               && after[y].operations == RegionOps(blocks[y].operations, y == i, y == d)
    ensures LockedOffCycles(g, after, order, flow.root, rov, i, d)
  {
    hide Region, Bracketed, HasOp, RegionOps, LockedOnce, Numbered, Edge, OnCycle, Backed, Ends;
    forall b: Node | b in order && b < |after|
      ensures HasOp(after[b].operations, BEGIN) <==> b == i
      ensures HasOp(after[b].operations, END) <==> b == d
    {
      EndsLock(blocks[b].operations, b == i, b == d, rov);
    }
    if OnCycle(g, d) {
      InRangeMember(order, |blocks|, d);
      InOrderLive(flow, order, d);
      CycleLocksTwice(flow, g, after, d, END, rov);
    } else {
      RegionLocksOnce(flow, g, order, blocks, after, i, d, rov, r);
    }
    assert LocksAt(after, order, i, d);
  }

  lemma InOrderLive(f: Flow, order: seq<Node>, x: Node)
    requires Numbered(f, order) && x in order
    ensures Live(f, x)
  {}

  lemma InRangeMember(xs: seq<Node>, bound: nat, x: Node)
    requires InRange(xs, bound) && x in xs
    ensures x < bound
  {
    var k := Index(xs, x);
    assert xs[k] == x;
  }

  lemma OrderDistinct(f: Flow, order: seq<Node>)
    requires Numbered(f, order)
    ensures Distinct(order)
  {}

  /** If the lock is taken and released in one block, that block has the accesses. */
  lemma RegionEndsDiffer(f: Flow, order: seq<Node>, blocks: seq<IRBlock>, i: Node, d: Node, r: Node)
    requires Numbered(f, order) && Region(f, order, blocks, i, d) && r in order && Locks(blocks, r)
    ensures i == d ==> Locks(blocks, i)
  {
    if i == d {
      OnePlace(f, order, i, r);
    }
  }

  // ---------------------------------------------------------------- the fallback

  /** OpFunctionCall. */
  const CALL: nat := 57

  /** A call of the function that holds the code. */
  predicate Calls(op: Op, code: Id) {
    op.op == CALL && op.arguments == [IdArgument(code)]
  }

  /** What runs if each call of the code runs `body`. */
  ghost function Inlined(ops: seq<Op>, code: Id, body: seq<Op>): seq<Op> {
    if ops == [] then [] else (if Calls(ops[0], code) then body else [ops[0]]) + Inlined(ops[1..], code, body)
  }

  lemma {:induction false} LockFreeTrace(f: Flow, order: seq<Node>, blocks: seq<IRBlock>, rov: Op -> bool, g: Graph,
                                         p: seq<Node>, x: Node, l: Node)
    requires Numbered(f, order) && |f.g.succ| == |g.succ| == |blocks| && x in order && Path(g, p, x, l)
    requires forall a: Node, b: Node :: a in order && Edge(g, a, b) ==> b in order
    requires LockFree(blocks, order)
    ensures Scan(rov, TraceOf(blocks, p), Held) == Held
    decreases |p|
  {
    LiveInRange(f, x);
    HeldThroughout(rov, blocks[x].operations);
    ScanConcat(rov, blocks[x].operations, TraceOf(blocks, p[1..]), Held);
    if |p| > 1 {
      LockFreeTrace(f, order, blocks, rov, g, p[1..], p[1], l);
    } else {
      assert p[1..] == [];
    }
  }

  /** No run of the code takes or releases the lock, and its accesses are made if the lock is held throughout. */
  ghost predicate HeldThrough(g: Graph, blocks: seq<IRBlock>, entry: Node, rov: Op -> bool) {
    forall p: seq<Node>, l: Node :: Path(g, p, entry, l) ==> Scan(rov, TraceOf(blocks, p), Held) == Held
  }

  /** With each call run as any run of the code, the operations take the lock once, make all accesses of that run while
      it is held, and release it once; and nothing else runs. */
  ghost predicate LocksAround(ops: seq<Op>, code: Id, g: Graph, blocks: seq<IRBlock>, entry: Node, rov: Op -> bool) {
    forall p: seq<Node>, l: Node :: Path(g, p, entry, l) ==>
      var run := Inlined(ops, code, TraceOf(blocks, p));
      && Scan(rov, run, Unlocked) == Released
      && Without(Without(run, BEGIN), END) == Without(Without(TraceOf(blocks, p), BEGIN), END)
  }

  lemma InlinedIs(code: Id, body: seq<Op>)
    ensures Inlined([Op(BEGIN, 0, []), Op(CALL, 0, [IdArgument(code)]), Op(END, 0, [])], code, body) ==
            [Op(BEGIN, 0, [])] + body + [Op(END, 0, [])]
  {
    var begin, call, end := Op(BEGIN, 0, []), Op(CALL, 0, [IdArgument(code)]), Op(END, 0, []);
    assert [begin, call, end][1..] == [call, end] && [call, end][1..] == [end] && [end][1..] == [];
    assert Inlined([end], code, body) == [end] + Inlined([], code, body);
    assert Inlined([call, end], code, body) == body + Inlined([end], code, body);
  }

  lemma OneWithout(op: Op, code: nat)
    ensures Without([op], code) == if op.op == code then [] else [op]
  {
    assert [op][1..] == [];
  }

  /** Begin, call, end. */
  lemma WrapperLocks(code: Id, g: Graph, blocks: seq<IRBlock>, entry: Node, rov: Op -> bool)
    requires HeldThrough(g, blocks, entry, rov)
    ensures LocksAround([Op(BEGIN, 0, []), Op(CALL, 0, [IdArgument(code)]), Op(END, 0, [])], code, g, blocks, entry,
                        rov)
  {
    hide Path, Without, TraceOf, Inlined;
    var begin, end := Op(BEGIN, 0, []), Op(END, 0, []);
    forall p: seq<Node>, l: Node | Path(g, p, entry, l)
      ensures Scan(rov, Inlined([begin, Op(CALL, 0, [IdArgument(code)]), end], code, TraceOf(blocks, p)), Unlocked)
              == Released
      ensures Without(Without(Inlined([begin, Op(CALL, 0, [IdArgument(code)]), end], code, TraceOf(blocks, p)), BEGIN),
                      END) == Without(Without(TraceOf(blocks, p), BEGIN), END)
    {
      var body := TraceOf(blocks, p);
      InlinedIs(code, body);
      ScanConcat(rov, [begin] + body, [end], Unlocked);
      ScanConcat(rov, [begin], body, Unlocked);
      WithoutConcat([begin] + body, [end], BEGIN);
      WithoutConcat([begin], body, BEGIN);
      OneWithout(begin, BEGIN);
      OneWithout(end, BEGIN);
      OneWithout(end, END);
      assert [] + Without(body, BEGIN) == Without(body, BEGIN);
      WithoutConcat(Without(body, BEGIN), [end], END);
    }
  }

  lemma AllHeld(c: Pool, g: Graph, blocks: seq<IRBlock>, rov: Op -> bool)
    requires Analysed(c) && |c.succ| == |g.succ| == |blocks| && LockFree(blocks, c.forwardOrder)
    requires forall a: Node, b: Node :: a in c.forwardOrder && Edge(g, a, b) ==> b in c.forwardOrder
    ensures HeldThrough(g, blocks, c.entryBlock, rov)
  {
    hide Analysed, ForwardAnalysed, LockFree, Scan, Path, IdomCorrect, Ok;
    AnalysedIsForward(c);
    AboutAnalysed(c);
    EntryInOrder(c);
    forall p: seq<Node>, l: Node | Path(g, p, c.entryBlock, l) ensures Scan(rov, TraceOf(blocks, p), Held) == Held {
      LockFreeTrace(Forward(c), c.forwardOrder, blocks, rov, g, p, c.entryBlock, l);
    }
  }

  lemma EdgesStayInside(c: Pool, g: Graph)
    requires Analysed(c) && Looped(c, g)
    ensures forall a: Node, b: Node :: a in c.forwardOrder && Edge(g, a, b) ==> b in c.forwardOrder
  {
    hide Analysed, ForwardAnalysed, Edge, Live, Backed;
    AnalysedIsForward(c);
    AboutLooped(c, g);
    forall a: Node, b: Node | a in c.forwardOrder && Edge(g, a, b) ensures b in c.forwardOrder {
      OrderIsLive(c, a);
      BackedEdge(Forward(c), g, a, b);
      OrderIsLive(c, b);
    }
  }

  /** `Converter::Impl::build_rov_main`, from where the function's blocks exist. */
  method BuildRovMain(c: Pool, f: Blocks, codeFunc: Id, merges: Node -> Option<Node>, ghost g: Graph,
                      ghost rov: Op -> bool)
    returns (entry: Node, leaves: seq<Node>)
    requires Recomputable(c) && g == FullGraph(c) && Closed(g) && c.entryBlock < |g.succ| && Reducible(g, c.entryBlock)
    requires forall h: Node :: merges(h).Some? ==> Reach(g, h, merges(h).value)
    requires f.Valid() && |f.blocks| == |c.succ|
    requires forall x: Node :: x < |f.blocks| ==> Bracketed(rov, f.blocks[x].operations, false)
    modifies c, f
    ensures f.Valid() && |f.blocks| >= |old(f.blocks)|
    ensures c.entryBlock == old(c.entryBlock) && Split(c, g) && c.forwardOrder == Order(g, c.entryBlock)
    ensures leaves == [] <==> Trivial(Forward(c), g, c.forwardOrder, old(f.blocks), merges)
    ensures leaves == [] ==> entry == c.entryBlock
    ensures RovBlocks(old(f.blocks), c.forwardOrder) == [] ==>
              f.blocks == old(f.blocks) && LockFree(f.blocks, c.forwardOrder)
    ensures AsAccepted(Forward(c), g, c.forwardOrder, old(f.blocks), f.blocks, merges, rov)
    ensures leaves == [] && LoopFree(g, c.entryBlock) ==>
              LockFree(f.blocks, c.forwardOrder) || LockedOnce(g, f.blocks, entry, rov)
    ensures leaves != [] ==>
              (leaves == [c.entryBlock] && |old(f.blocks)| <= entry < |f.blocks| && f.blocks[entry].phi == []
               && f.blocks[entry].terminator == Return(0)
               && LocksAround(f.blocks[entry].operations, codeFunc, g, f.blocks[..|old(f.blocks)|], c.entryBlock, rov))
    ensures SameOtherwise(old(f.blocks), f.blocks[..|old(f.blocks)|])
  {
    hide Analysed, Recomputable, LoopFree, LockFree, LockedOnce, HeldThrough, Bracketed, SameOtherwise, RovBlocks,
        Region, Reducible, LockedOffCycles, HasRegion, Reach, Split, Order, Trivial, AsAccepted, LocksAround;
    var trivialRewrite := RewriteRovLockRegion(c, f, merges, g, rov);
    assert |f.blocks| == |old(f.blocks)| by { SameCount(old(f.blocks), f.blocks); }
    assert f.blocks[..|old(f.blocks)|] == f.blocks;
    if trivialRewrite {
      return c.entryBlock, [];
    }
    ghost var body := f.blocks;
    var node := f.CreateNode();
    var operations := [Op(BEGIN, 0, [])];
    operations := operations + [Op(CALL, 0, [IdArgument(codeFunc)])];
    operations := operations + [Op(END, 0, [])];
    assert operations == [Op(BEGIN, 0, []), Op(CALL, 0, [IdArgument(codeFunc)]), Op(END, 0, [])];
    f.blocks := f.blocks[node := IRBlock([], operations, Return(0))];
    assert f.blocks[..|body|] == body;
    WrapperLocks(codeFunc, g, body, c.entryBlock, rov);
    NotTrivial(Forward(c), g, c.forwardOrder, old(f.blocks), f.blocks, merges, rov);
    return node, [c.entryBlock];
  }

  lemma SameCount(blocks: seq<IRBlock>, after: seq<IRBlock>)
    requires SameOtherwise(blocks, after)
    ensures |after| == |blocks|
  {}
}
