/** One lock for the whole shader: choosing where it is taken and released. */
module RovRegion {
  import opened Wrappers
  import opened Graphs
  import opened Lists
  import opened IR
  import opened Dominance
  import opened NodePool
  import opened FlowGraph
  import opened Backwards
  import opened Dominators
  import opened Traversal
  import opened Frontiers
  import opened Reachability
  import opened PathQuery
  import opened Cycles
  import opened Rov
  import opened RovRuns
  import opened AnalysisFacts
  import opened RovLoops
  import opened RovChoice

  // ---------------------------------------------------------------- choosing the region

  /** Finds all blocks that use raster-ordered views. */
  method FindRovBlocks(order: seq<Node>, blocks: seq<IRBlock>) returns (rovBlocks: seq<Node>)
    requires InRange(order, |blocks|)
    ensures rovBlocks == RovBlocks(blocks, order)
  {
    rovBlocks := [];
    var i := 0;
    while i < |order|
      invariant i <= |order| && rovBlocks == RovBlocks(blocks, order[..i])
    {
      var node: Node := order[i];
      var k := 0;
      while k < |blocks[node].operations| && blocks[node].operations[k].op != BEGIN
        invariant k <= |blocks[node].operations| && forall a :: 0 <= a < k ==> blocks[node].operations[a].op != BEGIN
      {
        k := k + 1;
      }
      RovBlocksSnoc(blocks, order[..i], node);
      assert order[..i + 1] == order[..i] + [node];
      if k < |blocks[node].operations| {
        rovBlocks := rovBlocks + [node];
      }
      i := i + 1;
    }
    assert order[..|order|] == order;
  }

  /** The closest block that dominates all of `xs`. */
  method CommonDominator(c: Pool, xs: seq<Node>) returns (m: Node)
    requires Analysed(c) && xs != [] && forall i :: 0 <= i < |xs| ==> xs[i] in c.forwardOrder
    ensures MeetOf(Forward(c), m, xs) && Live(Forward(c), m) && m in c.forwardOrder
  {
    hide Analysed, ForwardAnalysed, Numbered, Ok, IdomCorrect, Mirrors, MirrorNumbered, MeetOf, CommonDom, Live,
        IdomFrom;
    AnalysedIsForward(c);
    AboutAnalysed(c);
    IdomWhole(Forward(c), c.immediateDominator);
    m := xs[0];
    LiveOrder(c, m);
    MeetOne(Forward(c), m);
    assert xs[..1] == [xs[0]];
    var i := 1;
    while i < |xs|
      invariant 1 <= i <= |xs| && MeetOf(Forward(c), m, xs[..i])
      invariant Live(Forward(c), m) && m < |c.forwardNumber|
    {
      LiveOrder(c, xs[i]);
      ghost var was := m;
      m := FindCommonDominator(c, m, xs[i], 0);
      MeetStep(Forward(c), was, xs[..i], xs[i], m);
      assert xs[..i + 1] == xs[..i] + [xs[i]];
      i := i + 1;
    }
    assert xs[..|xs|] == xs;
    OrderIsLive(c, m);
  }

  /** `CFGStructurizer::find_common_post_dominator`: none if only the exit block post-dominates all candidates. */
  method FindCommonPostDominatorOf(c: Pool, candidates: seq<Node>) returns (r: Option<Node>)
    requires Analysed(c) && forall i :: 0 <= i < |candidates| ==> candidates[i] in c.forwardOrder
    ensures candidates == [] ==> r.None?
    ensures r.Some? ==> r.value != c.exitBlock && Live(Backward(c), r.value) && r.value < |c.backwardNumber|
    ensures candidates != [] ==> MeetOf(Backward(c), if r.Some? then r.value else c.exitBlock, candidates)
  {
    hide Analysed, Numbered, Ok, IdomCorrect, Mirrors, MirrorNumbered, MeetOf, CommonDom, Live, IdomFrom;
    AboutAnalysed(c);
    IdomWhole(Backward(c), c.immediatePostDominator);
    if candidates == [] {
      return None;
    }
    BackLive(c, candidates[0]);
    MeetOne(Backward(c), candidates[0]);
    if |candidates| == 1 {
      assert [candidates[0]] == candidates;
      return Some(candidates[0]);
    }
    BackLive(c, candidates[1]);
    var commonPost: Node := FindCommonPostDominator(c, candidates[0], candidates[1], 0);
    MeetStep(Backward(c), candidates[0], [candidates[0]], candidates[1], commonPost);
    assert candidates[..2] == [candidates[0]] + [candidates[1]];
    var i := 2;
    while i < |candidates|
      invariant 2 <= i <= |candidates| && MeetOf(Backward(c), commonPost, candidates[..i])
      invariant Live(Backward(c), commonPost) && commonPost < |c.backwardNumber|
    {
      BackLive(c, candidates[i]);
      ghost var was := commonPost;
      commonPost := FindCommonPostDominator(c, commonPost, candidates[i], 0);
      MeetStep(Backward(c), was, candidates[..i], candidates[i], commonPost);
      assert candidates[..i + 1] == candidates[..i] + [candidates[i]];
      i := i + 1;
    }
    assert candidates[..|candidates|] == candidates;
    ExitOnlyIsItsOwn(c, commonPost);
    if c.immediatePostDominator[commonPost] != Some(commonPost) {
      r := Some(commonPost);
    } else {
      r := None;
    }
  }

  lemma RootEnters(f: Flow, xs: seq<Node>)
    ensures Enters(f, xs, f.root)
  {
    forall p: seq<Node>, l: Node | Path(f.g, p, f.root, l) && Leaf(f.g, l) ensures f.root in p {
      PathLast(f.g, p, f.root, l);
    }
    forall i | 0 <= i < |xs| ensures Dom(f, f.root, xs[i]) {
      RootDominates(f, xs[i]);
    }
  }

  method StretchEntry(c: Pool, idom0: Node, ghost xs: seq<Node>) returns (idom: Node)
    requires Analysed(c) && idom0 in c.forwardOrder && MeetOf(Forward(c), idom0, xs)
    ensures idom in c.forwardOrder && ClosestEntry(Forward(c), xs, idom)
  {
    hide Analysed, ForwardAnalysed, Numbered, Ok, IdomCorrect, Mirrors, MirrorNumbered, Live, PostDom, Dom,
        ImmediateDom;
    AnalysedIsForward(c);
    ghost var f := Forward(c);
    idom := idom0;
    LiveOrder(c, idom);
    DomRefl(f, idom);
    EntryInOrder(c);
    LiveOrder(c, c.entryBlock);
    while idom != c.entryBlock
      invariant idom in c.forwardOrder && Live(f, idom) && idom < |f.num| && f.num[idom] <= f.num[f.root]
      invariant forall i :: 0 <= i < |xs| ==> Dom(f, idom, xs[i])
      invariant forall e: Node :: Enters(f, xs, e) ==> Dom(f, e, idom)
      decreases f.num[f.root] - f.num[idom]
    {
      var postDominates := LivePostDominates(c, idom, c.entryBlock);
      if postDominates {
        break;
      }
      IdomStep(c, idom);
      var d := c.immediateDominator[idom].value;
      StretchStep(f, xs, idom, d);
      idom := d;
    }
    RootEnters(f, xs);
  }

  lemma StretchStep(f: Flow, xs: seq<Node>, m: Node, d: Node)
    requires ImmediateDom(f, d, m) && !PostDom(f.g, m, f.root)
    requires forall i :: 0 <= i < |xs| ==> Dom(f, m, xs[i])
    requires forall e: Node :: Enters(f, xs, e) ==> Dom(f, e, m)
    ensures forall i :: 0 <= i < |xs| ==> Dom(f, d, xs[i])
    ensures forall e: Node :: Enters(f, xs, e) ==> Dom(f, e, d)
  {
    forall i | 0 <= i < |xs| ensures Dom(f, d, xs[i]) {
      DomTrans(f, d, m, xs[i]);
    }
    forall e: Node | Enters(f, xs, e) ensures Dom(f, e, d) {
      assert StrictDom(f, e, m);
    }
  }

  /** Whatever post-dominates an access and every block of a region's entry chain post-dominates its end. */
  lemma ExitBehindEntry(f: Flow, order: seq<Node>, i: Node, i': Node, d: Node, r: Node)
    requires Numbered(f, order) && i in order && r in order
    requires Dom(f, i, r) && Dom(f, i', i) && PostDom(f.g, d, i') && PostDom(f.g, d, r)
    ensures PostDom(f.g, d, i)
  {
    DomNumber(f, i, r);
    PostDomReached(f, order, d, r);
    DomNumber(f, i', i);
    var q :| Path(f.g, q, i', i);
    forall p: seq<Node>, l: Node | Path(f.g, p, i, l) && Leaf(f.g, l) ensures d in p {
      PathJoin(f.g, q, i', i, p, l);
      assert d in q + p[1..];
      if d in q {
        PathReach(f.g, q, i', i, d);
        ReachDescends(f.g, f.num, d, i);
        PathLast(f.g, p, i, l);
      }
    }
  }

  /** No block is the target of a back edge. */
  ghost predicate NoLoops(c: Pool)
    reads c`predBackEdge, c`forwardOrder
  {
    forall x: Node :: x in c.forwardOrder && x < |c.predBackEdge| ==> c.predBackEdge[x].None?
  }

  ghost predicate ExitMeets(c: Pool, pdom: Option<Node>, xs: seq<Node>)
    requires InRange(c.forwardOrder, |c.succ|) && |c.succBackEdge| == |c.succ|
    reads c
  {
    MeetOf(Backward(c), if pdom.Some? then pdom.value else c.exitBlock, xs)
    && (pdom.Some? ==> pdom.value != c.exitBlock)
  }

  /** Post-dominating all of `xs` is post-dominating their meet. */
  lemma MeetsAll(c: Pool, pdom: Option<Node>, xs: seq<Node>, d: Node)
    requires Analysed(c) && ExitMeets(c, pdom, xs) && (forall i :: 0 <= i < |xs| ==> xs[i] in c.forwardOrder)
             && d != c.exitBlock
    ensures (forall i :: 0 <= i < |xs| ==> PostDom(Forward(c).g, d, xs[i])) <==>
              Dom(Backward(c), d, if pdom.Some? then pdom.value else c.exitBlock)
  {
    hide Analysed, PostDom, Dom;
    AboutAnalysed(c);
    forall i | 0 <= i < |xs| ensures PostDom(Forward(c).g, d, xs[i]) <==> Dom(Backward(c), d, xs[i]) {
      BackDom(c, d, xs[i]);
    }
  }

  lemma RegionMembers(f: Flow, order: seq<Node>, blocks: seq<IRBlock>, i: Node, d: Node)
    requires i in order && d in order && PostDom(f.g, d, i) && Enters(f, RovBlocks(blocks, order), i)
    requires forall k :: 0 <= k < |RovBlocks(blocks, order)| ==> PostDom(f.g, d, RovBlocks(blocks, order)[k])
    ensures Region(f, order, blocks, i, d)
  {
    hide PostDom, Dom;
    forall x: Node | x in order && Locks(blocks, x) ensures Dom(f, i, x) && PostDom(f.g, d, x) {
      RovBlocksMembers(blocks, order, x);
    }
  }

  lemma RegionEnters(f: Flow, order: seq<Node>, blocks: seq<IRBlock>, i: Node, d: Node)
    requires Region(f, order, blocks, i, d)
    ensures Enters(f, RovBlocks(blocks, order), i)
    ensures forall k :: 0 <= k < |RovBlocks(blocks, order)| ==> PostDom(f.g, d, RovBlocks(blocks, order)[k])
  {
    hide PostDom, Dom;
    var xs := RovBlocks(blocks, order);
    forall k | 0 <= k < |xs| ensures Dom(f, i, xs[k]) && PostDom(f.g, d, xs[k]) {
      RovBlocksMembers(blocks, order, xs[k]);
    }
  }

  /** If nothing but the exit block post-dominates the accesses and their entry, there is no region. */
  lemma NoRegion(c: Pool, blocks: seq<IRBlock>, idom: Node, pdom: Option<Node>, last: Node)
    requires Analysed(c) && RovBlocks(blocks, c.forwardOrder) != []
    requires idom in c.forwardOrder && ClosestEntry(Forward(c), RovBlocks(blocks, c.forwardOrder), idom)
    requires ExitMeets(c, pdom, RovBlocks(blocks, c.forwardOrder))
    requires pdom.Some? ==> CommonDom(Backward(c), c.exitBlock, pdom.value, idom)
    ensures !HasRegion(Forward(c), c.forwardOrder, blocks)
  {
    hide Analysed, PostDom, Dom, ExitMeets, Region, MeetOf;
    var f, order := Forward(c), c.forwardOrder;
    var xs := RovBlocks(blocks, order);
    AboutAnalysed(c);
    ExitIsNotLive(c);
    forall i: Node, d: Node ensures !Region(f, order, blocks, i, d) {
      if Region(f, order, blocks, i, d) {
        RegionEnters(f, order, blocks, i, d);
        InRegion(f, order, blocks, i, d);
        forall k | 0 <= k < |xs| ensures xs[k] in order {
          RovBlocksMembers(blocks, order, xs[k]);
        }
        MeetsAll(c, pdom, xs, d);
        ExitBehindEntry(f, order, idom, i, d, xs[0]);
        BackDom(c, d, idom);
        OnlyExitDominatesExit(c, d);
        assert false;
      }
    }
  }

  lemma InRegion(f: Flow, order: seq<Node>, blocks: seq<IRBlock>, i: Node, d: Node)
    requires Region(f, order, blocks, i, d)
    ensures i in order && d in order && PostDom(f.g, d, i)
  {}

  /** Post-dominating both `e` and `i` is enough to post-dominate all of `xs`, off the cycles. */
  ghost predicate Covers(f: Flow, w: Graph, xs: seq<Node>, i: Node, e: Node) {
    forall d: Node :: PostDom(f.g, d, e) && PostDom(f.g, d, i) && !OnCycle(w, d) ==>
      forall k :: 0 <= k < |xs| ==> PostDom(f.g, d, xs[k])
  }

  lemma PostDomTrans(g: Graph, d: Node, e: Node, x: Node)
    requires PostDom(g, d, e) && PostDom(g, e, x)
    ensures PostDom(g, d, x)
  {
    forall p: seq<Node>, l: Node | Path(g, p, x, l) && Leaf(g, l) ensures d in p {
      var _, q := PathSplit(g, p, x, l, e);
    }
  }

  lemma CommonExitCovers(f: Flow, w: Graph, xs: seq<Node>, i: Node, e: Node)
    requires forall k :: 0 <= k < |xs| ==> PostDom(f.g, e, xs[k])
    ensures Covers(f, w, xs, i, e)
  {
    hide PostDom, OnCycle;
    forall d: Node, k | PostDom(f.g, d, e) && 0 <= k < |xs| ensures PostDom(f.g, d, xs[k]) {
      PostDomTrans(f.g, d, e, xs[k]);
    }
  }

  /** What dominates an entry that is on every run is one too. */
  lemma EntersAbove(f: Flow, xs: seq<Node>, a: Node, e: Node)
    requires Enters(f, xs, e) && Dom(f, a, e)
    ensures Enters(f, xs, a)
  {
    forall p: seq<Node>, l: Node | Path(f.g, p, f.root, l) && Leaf(f.g, l) ensures a in p {
      var q, _ := PathSplit(f.g, p, f.root, l, e);
    }
    forall k | 0 <= k < |xs| ensures Dom(f, a, xs[k]) {
      DomTrans(f, a, e, xs[k]);
    }
  }

  method AllInside(c: Pool, xs: seq<Node>, header: Node, ghost g: Graph) returns (r: bool)
    requires Analysed(c) && Looped(c, g) && (forall k :: 0 <= k < |xs| ==> xs[k] in c.forwardOrder)
    requires header in c.forwardOrder && header < |c.predBackEdge| && c.predBackEdge[header].Some?
    ensures r <==> forall k :: 0 <= k < |xs| ==> InLoop(Forward(c), g, header, xs[k])
  {
    hide Analysed, ForwardAnalysed, Looped, Numbered, Ok, IdomCorrect, Mirrors, MirrorNumbered, Live, Dom, Reach,
        InRange, ReachabilityBuilt, Restrict, InLoop;
    AnalysedIsForward(c);
    AboutAnalysed(c);
    BackIsLive(c, header);
    for i := 0 to |xs|
      invariant forall k :: 0 <= k < i ==> InLoop(Forward(c), g, header, xs[k])
    {
      LiveOrder(c, xs[i]);
      InLoopRecorded(c, g, header, xs[i]);
      var dominates := Dominates(c, header, xs[i]);
      if !dominates {
        return false;
      }
      var reaches := QueryReachability(c, xs[i], c.predBackEdge[header].value);
      if !reaches {
        return false;
      }
    }
    r := true;
  }

  lemma InLoopRecorded(c: Pool, g: Graph, h: Node, x: Node)
    requires Analysed(c) && Looped(c, g) && h < |c.predBackEdge| && c.predBackEdge[h].Some?
    ensures InLoop(Forward(c), g, h, x) <==>
            Dom(Forward(c), h, x) && Reach(Forward(c).g, x, c.predBackEdge[h].value)
  {
    hide Analysed, ForwardAnalysed, Looped, Turns, Reach, Dom;
    AnalysedIsForward(c);
    forall y: Node ensures Turns(Forward(c), g, y, h) <==> c.predBackEdge[h] == Some(y) {
      TurnsRecorded(c, g, y, h);
    }
  }

  /** The lock around a whole loop. */
  lemma LoopRegion(c: Pool, g: Graph, xs: seq<Node>, idom: Node, h: Node, above: Node, m: Node)
    requires Analysed(c) && Looped(c, g) && (forall k :: 0 <= k < |xs| ==> xs[k] in c.forwardOrder)
    requires idom in c.forwardOrder && Enters(Forward(c), xs, idom) && h in c.forwardOrder && Dom(Forward(c), h, idom)
    requires above in c.forwardOrder && Edge(Forward(c).g, above, h) && ImmediateDom(Forward(c), above, h)
    requires forall k :: 0 <= k < |xs| ==> InLoop(Forward(c), g, h, xs[k])
    requires h < |c.predBackEdge| && c.predBackEdge[h].Some? && !OnCycle(g, above) && Reach(g, h, m)
    ensures m in c.forwardOrder && Enters(Forward(c), xs, above) && Covers(Forward(c), g, xs, above, m)
  {
    hide Analysed, ForwardAnalysed, Dom, Reach, PostDom, OnCycle, Backed, Live, Enters, Numbered;
    AnalysedIsForward(c);
    var f, y := Forward(c), c.predBackEdge[h].value;
    AboutAnalysed(c);
    AboutLooped(c, g);
    AboveIdom(f, above, h, idom);
    EntersAbove(f, xs, above, idom);
    BackIsLive(c, h);
    assert Records(c.predBackEdge, h, y);
    assert Edge(g, y, h);
    LiveOrder(c, h);
    ReachedIsLive(f, g, h, m);
    OrderIsLive(c, m);
    forall d: Node, k | PostDom(f.g, d, m) && PostDom(f.g, d, above) && !OnCycle(g, d) && 0 <= k < |xs|
      ensures PostDom(f.g, d, xs[k])
    {
      AboutEnters(f, xs, above, k);
      AroundLoop(f, g, c.forwardOrder, above, h, y, m, d, xs[k]);
    }
  }

  lemma AboveIdom(f: Flow, above: Node, h: Node, idom: Node)
    requires ImmediateDom(f, above, h) && Dom(f, h, idom)
    ensures Dom(f, above, idom)
  {
    DomTrans(f, above, h, idom);
  }

  lemma AboutEnters(f: Flow, xs: seq<Node>, e: Node, k: nat)
    requires Enters(f, xs, e) && k < |xs|
    ensures Dom(f, e, xs[k])
  {}

  lemma ReachedIsLive(f: Flow, w: Graph, x: Node, y: Node)
    requires Backed(f, w) && Live(f, x) && Reach(w, x, y)
    ensures Live(f, y)
  {
    var p :| Path(w, p, x, y);
    StaysLive(f, w, p, x, y);
    PathLast(w, p, x, y);
  }

  /** `find_single_entry_exit_lock_region`. `merges` stands for `analyze_loop` and `analyze_loop_merge`: the one merge
      block that they find for a loop, which control gets to from the loop. */
  method FindSingleEntryExitLockRegion(c: Pool, idom0: Node, pdom0: Node, rovBlocks: seq<Node>, blocks: seq<IRBlock>,
                                       merges: Node -> Option<Node>, ghost g: Graph)
    returns (r: bool, idom: Node, pdom: Node)
    requires Analysed(c) && Looped(c, g) && |blocks| == |c.succ| && idom0 in c.forwardOrder && pdom0 in c.forwardOrder
    requires forall k :: 0 <= k < |rovBlocks| ==> rovBlocks[k] in c.forwardOrder
    requires Enters(Forward(c), rovBlocks, idom0)
    requires forall k :: 0 <= k < |rovBlocks| ==> PostDom(Forward(c).g, pdom0, rovBlocks[k])
    requires forall h: Node :: merges(h).Some? ==> Reach(g, h, merges(h).value)
    ensures r ==> Chosen(Forward(c), g, blocks, merges, rovBlocks, idom0, pdom0, idom, pdom)
    ensures !r ==> NoneChosen(Forward(c), g, blocks, merges, rovBlocks, idom0, pdom0)
    ensures r ==> idom in c.forwardOrder && pdom in c.forwardOrder && !OnCycle(g, idom)
    ensures r ==> Enters(Forward(c), rovBlocks, idom) && Covers(Forward(c), g, rovBlocks, idom, pdom)
    ensures NoLoops(c) ==> r && idom == idom0 && pdom == pdom0
  {
    hide Analysed, ForwardAnalysed, Looped, Numbered, Ok, IdomCorrect, Mirrors, MirrorNumbered, Live, Dom, ImmediateDom,
        InnermostHeader, PostDom, Reach, OnCycle, Enters, Covers, OutermostHeader, InLoop, PassedOnce, OnlyWayIn,
        Chosen;
    AnalysedIsForward(c);
    AboutAnalysed(c);
    ghost var f := Forward(c);
    idom, pdom := idom0, pdom0;
    CommonExitCovers(f, g, rovBlocks, idom, pdom);
    var outermost := OutermostLoopHeader(c, idom, g);
    LiveOrder(c, idom);
    forall i: Node, d: Node
      ensures Chosen(f, g, blocks, merges, rovBlocks, idom0, pdom0, i, d) <==>
              ChosenAt(f, g, blocks, merges, rovBlocks, outermost, idom0, pdom0, i, d)
    {
      ChosenIsAt(f, g, blocks, merges, rovBlocks, outermost, idom0, pdom0, i, d);
    }
    if outermost == c.entryBlock {
      LiveOrder(c, c.entryBlock);
      RootOutermost(f, g, idom);
      OutsideLoops(c, g, idom);
      return true, idom, pdom;
    }
    var inside := AllInside(c, rovBlocks, outermost, g);
    if !inside {
      r := ExecutionPathIsSingleEntryAndDominatesExit(c, idom, pdom, g);
      return r, idom, pdom;
    }
    idom := outermost;
    var merge := merges(outermost);
    if merge.None? {
      return false, idom, pdom;
    }
    pdom := merge.value;
    LiveOrder(c, outermost);
    OnlyEntryHasNoPreds(c, outermost);
    SinglePred(c, outermost);
    if |c.pred[idom]| != 1 {
      return false, idom, pdom;
    }
    ghost var above := c.immediateDominator[outermost].value;
    OnlyPred(c, outermost, above);
    LiveOrder(c, above);
    SameWayIn(f, outermost, above);
    if !blocks[c.pred[idom][0]].terminator.Branch? {
      return false, idom, pdom;
    }
    OutsideLoops(c, g, above);
    LoopRegion(c, g, rovBlocks, idom0, outermost, above, pdom);
    idom := c.pred[idom][0];
    r := true;
  }

  /** One entry in the list of predecessors is one forward edge. */
  lemma SinglePred(c: Pool, h: Node)
    requires Analysed(c) && h in c.forwardOrder
    ensures h < |c.pred|
    ensures |c.pred[h]| == 1 ==> OnlyWayIn(Forward(c), h, c.pred[h][0])
    ensures |c.pred[h]| != 1 ==> forall i: Node :: !OnlyWayIn(Forward(c), h, i)
  {
    hide Ok, IdomCorrect, ReachabilityBuilt, FrontiersExact, PostFrontiersExact, BackEdgesInside, MirrorNumbered,
        Numbered;
    OnlyEntryHasNoPreds(c, h);
    var f := Forward(c);
    assert (forall y: Node :: y in c.pred[h] <==> Edge(f.g, y, h)) && Distinct(c.pred[h]);
    if |c.pred[h]| != 1 {
      forall i: Node ensures !OnlyWayIn(f, h, i) {
        if OnlyWayIn(f, h, i) {
          OnlyMember(c.pred[h], i);
        }
      }
    }
  }

  lemma OnlyMember(xs: seq<Node>, i: Node)
    requires Distinct(xs) && forall y: Node :: y in xs <==> y == i
    ensures |xs| == 1
  {
    assert i in xs;
    if |xs| > 1 {
      DistinctPair(xs, 0, 1);
    }
  }

  lemma SameWayIn(f: Flow, h: Node, i: Node)
    requires OnlyWayIn(f, h, i)
    ensures forall i': Node :: OnlyWayIn(f, h, i') <==> i' == i
  {
    assert Edge(f.g, i, h);
  }

  /** Without loops, no block is on a cycle. */
  lemma NoLoopsNoCycle(c: Pool, g: Graph, x: Node)
    requires Analysed(c) && Looped(c, g) && NoLoops(c) && x in c.forwardOrder
    ensures !OnCycle(g, x)
  {
    hide Analysed, ForwardAnalysed, Dom, Reach, OnCycle, Backed;
    AnalysedIsForward(c);
    if OnCycle(g, x) {
      AboutLooped(c, g);
      LiveOrder(c, x);
      var h, y := LoopHeader(Forward(c), g, x);
      RecordedBack(c, g, y, h);
      BackTargetIsLive(c, y, h);
      assert false;
    }
  }

  lemma BackTargetIsLive(c: Pool, y: Node, h: Node)
    requires Analysed(c) && Records(c.succBackEdge, y, h)
    ensures h in c.forwardOrder
  {
    hide IdomCorrect, ReachabilityBuilt, FrontiersExact, PostFrontiersExact, MirrorNumbered, Mirrors, Numbered;
  }

  /** Widens the choice to where all runs from its ends come to. */
  method WidenExit(c: Pool, first: Node, last: Node, ghost g: Graph)
    returns (exit: Option<Node>)
    requires Analysed(c) && Looped(c, g) && first in c.forwardOrder && last in c.forwardOrder
    ensures exit.Some? ==> exit.value in c.forwardOrder && ClosestExit(Forward(c), [first, last], exit.value)
    ensures exit.Some? ==> CommonDom(Backward(c), exit.value, last, first) && Live(Backward(c), exit.value)
                           && exit.value != c.exitBlock
    ensures exit.None? ==> CommonDom(Backward(c), c.exitBlock, last, first)
                           && forall d: Node :: !ClosestExit(Forward(c), [first, last], d)
  {
    hide Analysed, Looped, Numbered, Ok, IdomCorrect, IdomFrom, Mirrors, MirrorNumbered, CommonDom, Live, ClosestExit;
    AboutAnalysed(c);
    BackLive(c, first);
    BackLive(c, last);
    IdomWhole(Backward(c), c.immediatePostDominator);
    var pdom := FindCommonPostDominator(c, last, first, 0);
    ExitOnlyIsItsOwn(c, pdom);
    CommonDomSym(Backward(c), pdom, last, first);
    CommonExit(c, pdom, first, last);
    exit := if c.immediatePostDominator[pdom] == Some(pdom) then None else Some(pdom);
  }

  /** Chooses where to take and where to release the lock, or gives up; without loops, only if there is no
      such place. */
  method ChooseRegion(c: Pool, rovBlocks: seq<Node>, blocks: seq<IRBlock>, merges: Node -> Option<Node>, ghost g: Graph)
    returns (region: Option<(Node, Node)>)
    requires Analysed(c) && Looped(c, g) && |blocks| == |c.succ|
    requires rovBlocks == RovBlocks(blocks, c.forwardOrder) && rovBlocks != []
    requires forall h: Node :: merges(h).Some? ==> Reach(g, h, merges(h).value)
    ensures forall i: Node, d: Node ::
              Accepts(Forward(c), g, blocks, merges, rovBlocks, i, d) <==> region == Some((i, d))
    ensures region.Some? ==>
              && region.value.0 in c.forwardOrder && region.value.1 in c.forwardOrder && !OnCycle(g, region.value.0)
              && (!OnCycle(g, region.value.1) ==>
                    Region(Forward(c), c.forwardOrder, blocks, region.value.0, region.value.1))
    ensures NoLoops(c) ==> (region.None? <==> !HasRegion(Forward(c), c.forwardOrder, blocks))
  {
    hide Analysed, ForwardAnalysed, Looped, Numbered, Ok, IdomCorrect, IdomFrom, Mirrors, MirrorNumbered, MeetOf,
        CommonDom, Live, PostDom, Dom, Region, ClosestEntry, ClosestExit, Enters, Covers, OnCycle, Reach, NoLoops,
        RovBlocks, Chosen, Accepts, HasRegion, BehindAll, NoneChosen;
    AnalysedIsForward(c);
    ghost var f, order := Forward(c), c.forwardOrder;
    AboutAnalysed(c);
    forall k | 0 <= k < |rovBlocks| ensures rovBlocks[k] in order {
      RovBlocksMembers(blocks, order, rovBlocks[k]);
    }
    var idom := CommonDominator(c, rovBlocks);
    idom := StretchEntry(c, idom, rovBlocks);
    EntryFacts(f, rovBlocks, idom);
    var pdom := FindCommonPostDominatorOf(c, rovBlocks);
    FoundExit(c, pdom, rovBlocks);
    if pdom.None? {
      NoRegion(c, blocks, idom, pdom, c.exitBlock);
      NoExitNoChoice(f, g, blocks, merges, rovBlocks);
      return None;
    }
    BackExits(c, pdom.value, rovBlocks);
    var trivial, first, last := FindSingleEntryExitLockRegion(c, idom, pdom.value, rovBlocks, blocks, merges, g);
    AcceptsIs(f, g, order, blocks, merges, rovBlocks, idom, pdom.value, trivial, first, last);
    if !trivial {
      return None;
    }
    LiveOrder(c, last);
    EntersBefore(f, order, idom, pdom.value, rovBlocks);
    var dominates := Dominates(c, first, last);
    if !dominates {
      return None;
    }
    var exit := WidenExit(c, first, last, g);
    if exit.None? {
      if NoLoops(c) {
        NoRegion(c, blocks, idom, pdom, c.exitBlock);
      }
      return None;
    }
    RegionFound(c, blocks, g, first, last, exit.value);
    region := Some((first, exit.value));
    OnlyExit(f, order, first, last, exit.value);
    if NoLoops(c) {
      NoLoopsNoCycle(c, g, exit.value);
      IsRegion(f, order, blocks, first, exit.value);
    }
  }

  lemma CommonDomSym(f: Flow, m: Node, a: Node, b: Node)
    requires CommonDom(f, m, a, b)
    ensures CommonDom(f, m, b, a)
  {
    hide Dom;
  }

  lemma FoundExit(c: Pool, pdom: Option<Node>, xs: seq<Node>)
    requires Analysed(c) && xs != [] && forall k :: 0 <= k < |xs| ==> xs[k] in c.forwardOrder
    requires pdom.Some? ==> pdom.value != c.exitBlock && Live(Backward(c), pdom.value)
    requires MeetOf(Backward(c), if pdom.Some? then pdom.value else c.exitBlock, xs)
    ensures pdom.Some? ==> pdom.value in c.forwardOrder && ClosestExit(Forward(c), xs, pdom.value)
    ensures pdom.None? ==> forall d: Node :: !ClosestExit(Forward(c), xs, d)
  {
    hide IdomCorrect, ReachabilityBuilt, FrontiersExact, PostFrontiersExact, BackEdgesInside, Mirrors, Live,
        ClosestExit;
    LiveRoot(Backward(c));
    MeetIsExit(c, if pdom.Some? then pdom.value else c.exitBlock, xs);
  }

  lemma NoExitNoChoice(f: Flow, g: Graph, blocks: seq<IRBlock>, merges: Node -> Option<Node>, xs: seq<Node>)
    requires forall d: Node :: !ClosestExit(f, xs, d)
    ensures forall i: Node, d: Node :: !Accepts(f, g, blocks, merges, xs, i, d)
  {
    hide ClosestEntry, ClosestExit, Chosen, Dom;
  }

  /** Once the closest ends and the choice are known, so is the region. */
  lemma AcceptsIs(f: Flow, g: Graph, order: seq<Node>, blocks: seq<IRBlock>, merges: Node -> Option<Node>,
                  xs: seq<Node>, e: Node, p: Node, chosen: bool, i: Node, q: Node)
    requires Numbered(f, order) && Ok(f) && xs != [] && (forall k :: 0 <= k < |xs| ==> xs[k] in order)
    requires ClosestEntry(f, xs, e) && ClosestExit(f, xs, p)
    requires chosen ==> Chosen(f, g, blocks, merges, xs, e, p, i, q)
    requires !chosen ==> NoneChosen(f, g, blocks, merges, xs, e, p)
    ensures forall i': Node, d': Node :: Accepts(f, g, blocks, merges, xs, i', d') <==>
              chosen && i' == i && Dom(f, i, q) && ClosestExit(f, [i, q], d')
  {
    hide ClosestEntry, ClosestExit, Chosen, Dom, Numbered, Ok, Live;
    AboutNumbered(f, order, xs[0]);
    forall i': Node, d': Node ensures Accepts(f, g, blocks, merges, xs, i', d') <==>
          chosen && i' == i && Dom(f, i, q) && ClosestExit(f, [i, q], d') {
      if Accepts(f, g, blocks, merges, xs, i', d') {
        var e': Node, p': Node, q': Node :| AcceptsFrom(f, g, blocks, merges, xs, e', p', q', i', d');
        ClosestEntryUnique(f, xs, e, e');
        ClosestExitUnique(f, order, xs, p, p');
        ChosenUnique(f, g, blocks, merges, xs, e, p, i, q, i', q');
      }
      if chosen && i' == i && Dom(f, i, q) && ClosestExit(f, [i, q], d') {
        assert AcceptsFrom(f, g, blocks, merges, xs, e, p, q, i', d');
      }
    }
  }

  lemma OnlyExit(f: Flow, order: seq<Node>, i: Node, q: Node, d: Node)
    requires Numbered(f, order) && i in order && ClosestExit(f, [i, q], d)
    ensures forall d': Node :: ClosestExit(f, [i, q], d') <==> d' == d
  {
    hide Numbered, ClosestExit;
    forall d': Node | ClosestExit(f, [i, q], d') ensures d' == d {
      ClosestExitUnique(f, order, [i, q], d, d');
    }
  }

  lemma IsRegion(f: Flow, order: seq<Node>, blocks: seq<IRBlock>, i: Node, d: Node)
    requires Region(f, order, blocks, i, d)
    ensures HasRegion(f, order, blocks)
  {}

  lemma EntersBefore(f: Flow, order: seq<Node>, i: Node, d: Node, xs: seq<Node>)
    requires Numbered(f, order) && i in order && Enters(f, xs, i) && xs != [] && xs[0] in order
    requires PostDom(f.g, d, xs[0])
    ensures Dom(f, i, d)
  {
    hide Numbered, Dom, PostDom;
    EntryDominatesExit(f, order, i, d, xs[0]);
  }

  lemma EntryFacts(f: Flow, xs: seq<Node>, m: Node)
    requires ClosestEntry(f, xs, m)
    ensures Enters(f, xs, m)
  {}

  /** The common post-dominator post-dominates every candidate. */
  lemma BackExits(c: Pool, pdom: Node, xs: seq<Node>)
    requires Analysed(c) && MeetOf(Backward(c), pdom, xs) && pdom != c.exitBlock && forall i :: 0 <= i < |xs| ==>
               xs[i] in c.forwardOrder
    ensures forall i :: 0 <= i < |xs| ==> PostDom(Forward(c).g, pdom, xs[i])
  {
    hide Analysed, PostDom, Dom;
    AboutAnalysed(c);
    DomRefl(Backward(c), pdom);
    MeetsAll(c, Some(pdom), xs, pdom);
  }

  lemma RegionFound(c: Pool, blocks: seq<IRBlock>, g: Graph, first: Node, last: Node, exit: Node)
    requires Analysed(c) && first in c.forwardOrder && last in c.forwardOrder
    requires Enters(Forward(c), RovBlocks(blocks, c.forwardOrder), first)
    requires Covers(Forward(c), g, RovBlocks(blocks, c.forwardOrder), first, last)
    requires CommonDom(Backward(c), exit, last, first) && Live(Backward(c), exit) && exit != c.exitBlock
    ensures exit in c.forwardOrder
    ensures !OnCycle(g, exit) ==> Region(Forward(c), c.forwardOrder, blocks, first, exit)
  {
    hide Analysed, PostDom, Dom, Live, Region, Enters, OnCycle, RovBlocks;
    AboutAnalysed(c);
    var f, order := Forward(c), c.forwardOrder;
    LiveBackInOrder(c, exit);
    DomRefl(Backward(c), exit);
    BackDom(c, exit, first);
    BackDom(c, exit, last);
    if !OnCycle(g, exit) {
      RegionMembers(f, order, blocks, first, exit);
    }
  }
}
