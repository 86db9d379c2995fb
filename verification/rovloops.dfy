/** Loops around the lock: the code's checks that a place is passed only once. */
module RovLoops {
  import opened Wrappers
  import opened Graphs
  import opened Dominance
  import opened NodePool
  import opened FlowGraph
  import opened Backwards
  import opened Dominators
  import opened Dfs
  import opened Traversal
  import opened Reachability
  import opened PathQuery
  import opened Analysis
  import opened AnalysisFacts
  import opened Cycles
  import opened RovRuns
  import opened RovChoice

  // ---------------------------------------------------------------- the loops of the function

  /** Every back edge leads to a block that is on every way to where it comes from, and none to the entry. */
  ghost predicate Reducible(g: Graph, entry: Node)
    requires Closed(g) && entry < |g.succ|
  {
    forall x: Node, y: Node :: BackEdge(g, Order(g, entry), x, y) ==> y != entry && Dominating(g, entry, y, x)
  }

  /** The pool's forward graph and recorded back edges make up the reducible graph `g`. */
  ghost predicate Looped(c: Pool, g: Graph)
    reads c`succ, c`forwardOrder, c`entryBlock, c`forwardNumber, c`succBackEdge, c`predBackEdge
  {
    && Backed(Forward(c), g)
    && (forall x: Node, y: Node :: Records(c.succBackEdge, x, y) <==>
          x in c.forwardOrder && Edge(g, x, y) && !Edge(Forward(c).g, x, y))
    && (forall x: Node, y: Node :: Records(c.predBackEdge, y, x) <==> Records(c.succBackEdge, x, y))
  }

  lemma AboutLooped(c: Pool, g: Graph)
    requires Looped(c, g)
    ensures Backed(Forward(c), g)
  {}

  /** After the analyses, the graph that they were made for is such a graph, if it is reducible. */
  lemma AnalysedIsLooped(c: Pool, g: Graph)
    requires ForwardAnalysed(c) && Closed(g) && c.entryBlock < |g.succ| && Reducible(g, c.entryBlock)
    requires c.forwardOrder == Order(g, c.entryBlock) && Split(c, g)
    ensures Looped(c, g)
  {
    hide IdomCorrect, ReachabilityBuilt, Mirrors, Restrict, Dominating, Order;
    var f, order := Forward(c), c.forwardOrder;
    forall x: Node, y: Node | Edge(g, x, y) && Live(f, x) && !Edge(f.g, x, y) ensures GoesBack(f, g, x, y) {
      assert BackEdge(g, order, x, y);
      assert Records(c.succBackEdge, x, y);
      NumberIsIndex(f, order, x);
      NumberIsIndex(f, order, y);
    }
  }

  /** A recorded back edge is one of the function. */
  lemma TurnsRecorded(c: Pool, g: Graph, y: Node, h: Node)
    requires ForwardAnalysed(c) && Looped(c, g)
    ensures Turns(Forward(c), g, y, h) <==> Records(c.predBackEdge, h, y)
  {
    hide ForwardAnalysed, Backed;
    OrderIsLive(c, y);
  }

  lemma SkippedRecorded(c: Pool, g: Graph, x: Node, h: Node)
    requires ForwardAnalysed(c) && Looped(c, g) && h < |c.predBackEdge|
    ensures Skipped(Forward(c), g, x, h) <==>
            (c.predBackEdge[h].Some? ==>
               c.predBackEdge[h].value != x && Reach(Forward(c).g, c.predBackEdge[h].value, x))
  {
    hide ForwardAnalysed, Looped, Turns, Reach;
    forall y: Node ensures Turns(Forward(c), g, y, h) <==> c.predBackEdge[h] == Some(y) {
      TurnsRecorded(c, g, y, h);
    }
  }

  /** `get_innermost_loop_header_for`: the walk up the immediate dominators stops at the first header whose back edge
      starts at the block or cannot reach it. */
  method GetInnermostLoopHeaderFor(c: Pool, header: Node, other0: Node, ghost g: Graph) returns (other: Node)
    requires ForwardAnalysed(c) && Looped(c, g) && other0 in c.forwardOrder
    ensures other in c.forwardOrder && InnermostHeader(Forward(c), g, header, other0, other)
  {
    hide ForwardAnalysed, Looped, Numbered, Ok, IdomCorrect, Mirrors, Live, Dom, Reach, Skipped;
    AboutForward(c);
    ghost var f := Forward(c);
    other := other0;
    LiveOrder(c, other);
    DomRefl(f, other);
    EntryInOrder(c);
    while header != other
      invariant other in c.forwardOrder && Live(f, other) && other < |f.num| && f.num[other] <= f.num[f.root]
      invariant Dom(f, other, other0)
      invariant forall h: Node :: Dom(f, h, other0) && !Dom(f, h, other) ==> h != header && Skipped(f, g, other0, h)
      decreases f.num[f.root] - f.num[other]
    {
      OnlyEntryHasNoPreds(c, other);
      if c.pred[other] == [] {
        break;
      }
      SkippedRecorded(c, g, other0, other);
      if c.predBackEdge[other].Some? {
        var back := c.predBackEdge[other].value;
        var stop := back == other0;
        if !stop {
          BackIsLive(c, other);
          var reaches := QueryReachability(c, back, other0);
          stop := !reaches;
        }
        if stop {
          break;
        }
      }
      SkipHeader(c, g, header, other0, other);
      other := c.immediateDominator[other].value;
    }
  }

  lemma BackIsLive(c: Pool, x: Node)
    requires ForwardAnalysed(c) && x < |c.predBackEdge| && c.predBackEdge[x].Some?
    ensures c.predBackEdge[x].value in c.forwardOrder && c.Shape() && ReachabilityBuilt(c)
  {
    hide IdomCorrect, ReachabilityBuilt, Mirrors, Numbered;
    assert Records(c.predBackEdge, x, c.predBackEdge[x].value);
  }

  /** One step up the chain of dominators. */
  lemma SkipHeader(c: Pool, g: Graph, header: Node, x: Node, other: Node)
    requires ForwardAnalysed(c) && x in c.forwardOrder && other in c.forwardOrder && other != c.entryBlock
    requires other != header && Dom(Forward(c), other, x) && Skipped(Forward(c), g, x, other)
    requires forall h: Node :: Dom(Forward(c), h, x) && !Dom(Forward(c), h, other) ==>
               h != header && Skipped(Forward(c), g, x, h)
    ensures other < |c.immediateDominator| && c.immediateDominator[other].Some?
    ensures var f, d := Forward(c), c.immediateDominator[other].value;
            && d in c.forwardOrder && Live(f, d) && other < |f.num| && d < |f.num|
            && f.num[other] < f.num[d] <= f.num[f.root] && Dom(f, d, x)
            && forall h: Node :: Dom(f, h, x) && !Dom(f, h, d) ==> h != header && Skipped(f, g, x, h)
  {
    hide ForwardAnalysed, Dom, Reach, Live, Skipped;
    IdomStep(c, other);
    var f, d := Forward(c), c.immediateDominator[other].value;
    DomTrans(f, d, other, x);
  }

  lemma EntryOnlyDominator(c: Pool)
    requires ForwardAnalysed(c)
    ensures forall h: Node :: Dom(Forward(c), h, c.entryBlock) ==> h == c.entryBlock
  {
    hide ForwardAnalysed, Dom, Live;
    EntryInOrder(c);
    AboutForward(c);
    var f := Forward(c);
    LiveRoot(f);
    forall h: Node | Dom(f, h, f.root) ensures h == f.root {
      RootDominates(f, h);
      DomAntisym(f, h, f.root);
    }
  }

  /** What the walk finds nothing above is on no cycle. */
  lemma OutsideLoops(c: Pool, g: Graph, x: Node)
    requires ForwardAnalysed(c) && Looped(c, g) && x in c.forwardOrder
    requires InnermostHeader(Forward(c), g, c.entryBlock, x, c.entryBlock)
    ensures !OnCycle(g, x)
  {
    hide ForwardAnalysed, Dom, Reach, OnCycle, Backed;
    var f := Forward(c);
    LiveOrder(c, x);
    EntryOnlyDominator(c);
    forall h: Node, y: Node | Dom(f, h, x) && Edge(g, y, h) && Live(f, y) && !Edge(f.g, y, h)
      ensures y != x && Reach(f.g, y, x)
    {
      RecordedBack(c, g, y, h);
      assert Turns(f, g, y, h);
      assert Skipped(f, g, x, h);
    }
    NotInLoop(f, g, x);
  }

  lemma RecordedBack(c: Pool, g: Graph, y: Node, h: Node)
    requires ForwardAnalysed(c) && Looped(c, g) && Edge(g, y, h) && Live(Forward(c), y) && !Edge(Forward(c).g, y, h)
    ensures Records(c.predBackEdge, h, y) && Records(c.succBackEdge, y, h) && h != c.entryBlock
  {
    hide ForwardAnalysed;
    OrderIsLive(c, y);
  }

  /** The outermost loop that holds `x`, as far as the walk can tell. */
  method OutermostLoopHeader(c: Pool, x: Node, ghost g: Graph) returns (outermost: Node)
    requires ForwardAnalysed(c) && Looped(c, g) && x in c.forwardOrder
    ensures outermost in c.forwardOrder && OutermostHeader(Forward(c), g, x, outermost)
    ensures outermost != c.entryBlock ==>
              && Dom(Forward(c), outermost, x)
              && outermost < |c.predBackEdge| && c.predBackEdge[outermost].Some?
              && outermost < |c.immediateDominator| && c.immediateDominator[outermost].Some?
              && var above := c.immediateDominator[outermost].value;
                 above in c.forwardOrder && ImmediateDom(Forward(c), above, outermost)
                 && InnermostHeader(Forward(c), g, c.entryBlock, above, c.entryBlock)
  {
    hide ForwardAnalysed, Looped, Dom, ImmediateDom, InnermostHeader, HeadersUp, Live;
    ghost var f := Forward(c);
    outermost := GetInnermostLoopHeaderFor(c, c.entryBlock, x, g);
    EntryInOrder(c);
    LiveOrder(c, f.root);
    LiveOrder(c, outermost);
    LiveOrder(c, x);
    AboutHeader(c, g, x, outermost);
    ghost var first := outermost;
    ghost var hs: seq<Node> := [];
    while outermost != c.entryBlock
      invariant outermost in c.forwardOrder && Dom(f, outermost, x)
      invariant outermost < |f.num| && f.num[outermost] <= f.num[f.root]
      invariant outermost == c.entryBlock ==> first == c.entryBlock
      invariant outermost != c.entryBlock ==> outermost < |c.predBackEdge| && c.predBackEdge[outermost].Some?
      invariant outermost != c.entryBlock ==> HeadersFrom(f, g, first, hs, outermost)
      decreases f.num[f.root] - f.num[outermost]
    {
      IdomStep(c, outermost);
      var innermost := GetInnermostLoopHeaderFor(c, c.entryBlock, c.immediateDominator[outermost].value, g);
      if innermost == c.entryBlock {
        break;
      }
      AboutHeader(c, g, c.immediateDominator[outermost].value, innermost);
      HigherUp(c, innermost, c.immediateDominator[outermost].value, outermost, x);
      HeadersMore(f, g, first, hs, outermost, c.immediateDominator[outermost].value, innermost);
      hs := hs + [innermost];
      outermost := innermost;
    }
    if outermost != c.entryBlock {
      OutermostFound(c, g, x, first, hs, outermost, c.immediateDominator[outermost].value);
    }
  }

  lemma AboutHeader(c: Pool, g: Graph, x: Node, h: Node)
    requires ForwardAnalysed(c) && Looped(c, g) && h in c.forwardOrder
             && InnermostHeader(Forward(c), g, c.entryBlock, x, h)
    ensures Dom(Forward(c), h, x)
    ensures h != c.entryBlock ==> h < |c.predBackEdge| && c.predBackEdge[h].Some?
  {
    hide ForwardAnalysed, Looped, Dom, Skipped;
    AboutForward(c);
    LiveOrder(c, h);
    SkippedRecorded(c, g, x, h);
  }

  lemma OutermostFound(c: Pool, g: Graph, x: Node, first: Node, hs: seq<Node>, o: Node, d: Node)
    requires ForwardAnalysed(c) && x in c.forwardOrder && first != c.entryBlock
             && InnermostHeader(Forward(c), g, c.entryBlock, x, first)
    requires HeadersFrom(Forward(c), g, first, hs, o) && ImmediateDom(Forward(c), d, o)
             && InnermostHeader(Forward(c), g, c.entryBlock, d, c.entryBlock)
    ensures OutermostHeader(Forward(c), g, x, o)
  {
    hide ForwardAnalysed, InnermostHeader, ImmediateDom, HeadersFrom, Live;
    AboutForward(c);
    LiveOrder(c, x);
    var f := Forward(c);
    if InnermostHeader(f, g, f.root, x, f.root) {
      InnermostUnique(f, g, f.root, x, first, f.root);
    }
    assert HeadersUp(f, g, first, hs, o);
  }

  lemma HigherUp(c: Pool, a: Node, d: Node, b: Node, x: Node)
    requires ForwardAnalysed(c) && a in c.forwardOrder && d in c.forwardOrder && b in c.forwardOrder
    requires Dom(Forward(c), a, d) && ImmediateDom(Forward(c), d, b) && Dom(Forward(c), b, x)
    ensures Dom(Forward(c), a, x) && a < |Forward(c).num| && b < |Forward(c).num|
    ensures Forward(c).num[b] < Forward(c).num[a] <= Forward(c).num[Forward(c).root]
  {
    hide ForwardAnalysed, Dom, Live;
    var f := Forward(c);
    AboutForward(c);
    LiveOrder(c, a);
    LiveOrder(c, d);
    LiveOrder(c, b);
    DomTrans(f, a, d, b);
    DomTrans(f, a, b, x);
    DomNumber(f, a, d);
    ImmediateDomLower(f, d, b);
  }

  // ---------------------------------------------------------------- a place that dominates all that follows

  /** Every branch of `z` leads to a block below the header. */
  ghost predicate LeadsBelow(c: Pool, header: Node, z: Node)
    reads c`succ, c`forwardOrder, c`entryBlock, c`forwardNumber, c`succBackEdge
  {
    && (forall y: Node :: Edge(Forward(c).g, z, y) ==> Dom(Forward(c), header, y))
    && (forall y: Node :: Records(c.succBackEdge, z, y) ==> Dom(Forward(c), header, y))
  }

  /** `z` has been looked at, and so have the blocks it leads to. */
  ghost predicate WalkedFrom(c: Pool, header: Node, completed: set<Node>, z: Node)
    reads c`succ, c`forwardOrder, c`entryBlock, c`forwardNumber, c`succBackEdge
  {
    LeadsBelow(c, header, z) && forall y: Node :: Edge(Forward(c).g, z, y) ==> y in completed
  }

  /** `CFGNode::dominates_all_reachable_exits`. */
  method DominatesAllReachableExits(c: Pool, completed0: set<Node>, x: Node, header: Node, ghost g: Graph)
    returns (r: bool, completed: set<Node>)
    requires ForwardAnalysed(c) && Looped(c, g) && x in c.forwardOrder && Reach(g, header, x)
    requires forall z: Node :: z in completed0 ==> z in c.forwardOrder
    ensures completed0 <= completed && forall z: Node :: z in completed ==> z in c.forwardOrder
    ensures r ==> x in completed && forall z: Node :: z in completed - completed0 ==>
              WalkedFrom(c, header, completed, z)
    ensures !r ==> !Encloses(Forward(c), g, header)
    decreases (set z | z in c.forwardOrder) - completed0
  {
    hide ForwardAnalysed, Looped, WalkedFrom, Dom, Numbered, Ok, IdomCorrect, Live, Mirrors, InRange, Reach;
    completed := completed0;
    if x in completed {
      return true, completed;
    }
    AboutForward(c);
    completed := completed + {x};
    SuccessorsOf(c, x);
    ReachedNext(c, g, header, x);
    if c.succBackEdge[x].Some? {
      var dominates := Dominates(c, header, c.succBackEdge[x].value);
      if !dominates {
        return false, completed;
      }
    }
    for i := 0 to |c.succ[x]|
      invariant completed0 + {x} <= completed && forall z: Node :: z in completed ==> z in c.forwardOrder
      invariant forall z: Node :: z in completed - completed0 - {x} ==> WalkedFrom(c, header, completed, z)
      invariant forall j :: 0 <= j < i ==> c.succ[x][j] in completed && Dom(Forward(c), header, c.succ[x][j])
    {
      var dominates := Dominates(c, header, c.succ[x][i]);
      if !dominates {
        return false, completed;
      }
      ghost var was := completed;
      r, completed := DominatesAllReachableExits(c, completed, c.succ[x][i], header, g);
      if !r {
        return false, completed;
      }
      WalkedMore(c, header, was, completed, completed0 + {x});
    }
    WalkedNow(c, header, completed, x);
    return true, completed;
  }

  /** What the block branches to, forwards and back, is reached too. */
  lemma ReachedNext(c: Pool, g: Graph, header: Node, x: Node)
    requires ForwardAnalysed(c) && Looped(c, g) && x in c.forwardOrder && Reach(g, header, x)
    ensures x < |c.succ| == |c.succBackEdge|
    ensures forall i :: 0 <= i < |c.succ[x]| ==> Reach(g, header, c.succ[x][i])
    ensures c.succBackEdge[x].Some? ==> Reach(g, header, c.succBackEdge[x].value)
  {
    hide Ok, IdomCorrect, ReachabilityBuilt, Mirrors, Live, Reach;
    var f := Forward(c);
    SuccessorsOf(c, x);
    forall i | 0 <= i < |c.succ[x]| ensures Reach(g, header, c.succ[x][i]) {
      var y: Node := c.succ[x][i];
      assert Edge(f.g, x, y);
      ReachSnoc(g, header, x, y);
    }
    if c.succBackEdge[x].Some? {
      var y: Node := c.succBackEdge[x].value;
      assert Records(c.succBackEdge, x, y);
      ReachSnoc(g, header, x, y);
    }
  }

  lemma SuccessorsOf(c: Pool, x: Node)
    requires ForwardAnalysed(c) && x in c.forwardOrder
    ensures x < |c.succ| == |c.succBackEdge|
    ensures forall i :: 0 <= i < |c.succ[x]| ==> c.succ[x][i] in c.forwardOrder && Live(Forward(c), c.succ[x][i])
    ensures c.succBackEdge[x].Some? ==>
              c.succBackEdge[x].value in c.forwardOrder && Live(Forward(c), c.succBackEdge[x].value)
  {
    hide IdomCorrect, ReachabilityBuilt, Mirrors, Live;
    var f := Forward(c);
    LiveInRange(f, x);
    forall i | 0 <= i < |c.succ[x]| ensures c.succ[x][i] in c.forwardOrder && Live(f, c.succ[x][i]) {
      assert Edge(f.g, x, c.succ[x][i]);
      LiveEdge(f, x, c.succ[x][i]);
    }
    if c.succBackEdge[x].Some? {
      assert Records(c.succBackEdge, x, c.succBackEdge[x].value);
    }
  }

  lemma WalkedMore(c: Pool, header: Node, was: set<Node>, now: set<Node>, known: set<Node>)
    requires was <= now
    requires forall z: Node :: z in was - known ==> WalkedFrom(c, header, was, z)
    requires forall z: Node :: z in now - was ==> WalkedFrom(c, header, now, z)
    ensures forall z: Node :: z in now - known ==> WalkedFrom(c, header, now, z)
  {
    hide LeadsBelow, Edge;
    forall z: Node | z in now - known ensures WalkedFrom(c, header, now, z) {
      if z in was {
        assert WalkedFrom(c, header, was, z);
      }
    }
  }

  lemma WalkedNow(c: Pool, header: Node, completed: set<Node>, x: Node)
    requires ForwardAnalysed(c) && x in c.forwardOrder && x < |c.succ| == |c.succBackEdge|
    requires forall j :: 0 <= j < |c.succ[x]| ==> c.succ[x][j] in completed && Dom(Forward(c), header, c.succ[x][j])
    requires c.succBackEdge[x].Some? ==> Dom(Forward(c), header, c.succBackEdge[x].value)
    ensures WalkedFrom(c, header, completed, x)
  {
    hide ForwardAnalysed, Dom;
  }

  /** From the header, the whole graph only leads to blocks below it. */
  lemma {:induction false} OnlyBelow(c: Pool, g: Graph, header: Node, completed: set<Node>, p: seq<Node>, a: Node,
                                     z: Node)
    requires ForwardAnalysed(c) && Looped(c, g) && header in completed
    requires forall z: Node :: z in completed ==> z in c.forwardOrder && WalkedFrom(c, header, completed, z)
    requires Path(g, p, a, z) && a in completed && Dom(Forward(c), header, a)
    ensures z in completed && Dom(Forward(c), header, z)
    decreases |p|
  {
    hide ForwardAnalysed, Dom, Looped;
    if |p| > 1 {
      var b := p[1];
      if !Edge(Forward(c).g, a, b) {
        OrderIsLive(c, a);
        RecordedBack(c, g, a, b);
        BackIsBelow(c, header, completed, b);
      }
      OnlyBelow(c, g, header, completed, p[1..], b, z);
    }
  }

  lemma BackIsBelow(c: Pool, header: Node, completed: set<Node>, b: Node)
    requires ForwardAnalysed(c) && header in completed && Dom(Forward(c), header, b)
             && (exists y: Node :: Records(c.succBackEdge, y, b))
    requires forall z: Node :: z in completed ==> WalkedFrom(c, header, completed, z)
    ensures b in completed
  {
    hide IdomCorrect, ReachabilityBuilt, Mirrors, Dom, LeadsBelow;
    DomNumber(Forward(c), header, b);
    var p :| Path(Forward(c).g, p, header, b);
    ReachedInside(c, header, completed, p, header, b);
  }

  lemma {:induction false} ReachedInside(c: Pool, header: Node, completed: set<Node>, p: seq<Node>, a: Node, b: Node)
    requires forall z: Node :: z in completed ==> WalkedFrom(c, header, completed, z)
    requires Path(Forward(c).g, p, a, b) && a in completed
    ensures b in completed
    decreases |p|
  {
    hide LeadsBelow;
    if |p| > 1 {
      ReachedInside(c, header, completed, p[1..], p[1], b);
    }
  }

  /** The walk down from `i` tells whether all that it leads to is below it. */
  method EnclosesAll(c: Pool, i: Node, ghost g: Graph) returns (r: bool)
    requires ForwardAnalysed(c) && Looped(c, g) && i in c.forwardOrder
    ensures r <==> Encloses(Forward(c), g, i)
  {
    hide ForwardAnalysed, Looped, Dom, WalkedFrom;
    ghost var completed;
    ReachesItself(c, g, i);
    r, completed := DominatesAllReachableExits(c, {}, i, i, g);
    if r {
      DomRefl(Forward(c), i);
      forall z: Node | Reach(g, i, z) ensures Dom(Forward(c), i, z) {
        var p :| Path(g, p, i, z);
        OnlyBelow(c, g, i, completed, p, i, z);
      }
    }
  }

  lemma ReachesItself(c: Pool, g: Graph, i: Node)
    requires ForwardAnalysed(c) && Looped(c, g) && i in c.forwardOrder
    ensures Reach(g, i, i)
  {
    hide ForwardAnalysed, Reach;
    AboutLooped(c, g);
    LiveOrder(c, i);
    ReachRefl(g, i);
  }

  /** LeadsBelow such a block, whatever is on a cycle is below a loop header that is below it too. */
  lemma HeaderBetween(c: Pool, g: Graph, i: Node, d: Node)
    requires ForwardAnalysed(c) && Looped(c, g) && i in c.forwardOrder && Encloses(Forward(c), g, i) && Reach(g, i, d)
    requires d in c.forwardOrder
    requires forall h: Node :: Dom(Forward(c), i, h) && Dom(Forward(c), h, d) && h < |c.predBackEdge| ==>
               c.predBackEdge[h].None?
    ensures !OnCycle(g, d)
  {
    hide ForwardAnalysed, Dom, Reach, Backed;
    if OnCycle(g, d) {
      var f := Forward(c);
      AboutForward(c);
      AboutLooped(c, g);
      LiveOrder(c, d);
      var h, y := LoopHeader(f, g, d);
      RecordedBack(c, g, y, h);
      ReachTrans(g, i, d, h);
      assert false;
    }
  }

  /** The closest common post-dominator, found in the mirrored graph. */
  lemma MeetIsExit(c: Pool, m: Node, xs: seq<Node>)
    requires Analysed(c) && xs != [] && (forall k :: 0 <= k < |xs| ==> xs[k] in c.forwardOrder)
    requires MeetOf(Backward(c), m, xs) && Live(Backward(c), m)
    ensures m != c.exitBlock ==> m in c.forwardOrder && ClosestExit(Forward(c), xs, m)
    ensures m == c.exitBlock ==> forall d: Node :: !ClosestExit(Forward(c), xs, d)
  {
    hide Analysed, PostDom, Dom, Live, MeetOf, BehindAll;
    var f := Forward(c);
    AboutAnalysed(c);
    if m != c.exitBlock {
      LiveBackInOrder(c, m);
      forall e: Node ensures PostDom(f.g, e, m) <==> BehindAll(f, xs, e) {
        ExitPostDoms(c, m, xs, e);
      }
    } else {
      forall e: Node ensures !BehindAll(f, xs, e) {
        ExitPostDoms(c, m, xs, e);
      }
      NoClosestExit(f, xs);
    }
  }

  lemma CommonExit(c: Pool, m: Node, a: Node, b: Node)
    requires Analysed(c) && a in c.forwardOrder && b in c.forwardOrder && CommonDom(Backward(c), m, a, b)
    requires Live(Backward(c), m)
    ensures m != c.exitBlock ==> m in c.forwardOrder && ClosestExit(Forward(c), [a, b], m)
    ensures m == c.exitBlock ==> forall d: Node :: !ClosestExit(Forward(c), [a, b], d)
  {
    hide Analysed, PostDom, Dom, Live, ClosestExit;
    AboutAnalysed(c);
    var xs := [a, b];
    assert xs[0] == a && xs[1] == b;
    MeetIsExit(c, m, xs);
  }

  lemma ExitPostDoms(c: Pool, m: Node, xs: seq<Node>, e: Node)
    requires Analysed(c) && xs != [] && (forall k :: 0 <= k < |xs| ==> xs[k] in c.forwardOrder)
    requires MeetOf(Backward(c), m, xs) && (m in c.forwardOrder || m == c.exitBlock)
    ensures BehindAll(Forward(c), xs, e) <==> m != c.exitBlock && PostDom(Forward(c).g, e, m)
  {
    hide Analysed, PostDom, Dom;
    AboutAnalysed(c);
    if e == c.exitBlock {
      ExitPostDominatesNone(c, xs[0]);
      if m != c.exitBlock { ExitPostDominatesNone(c, m); }
    } else {
      forall k | 0 <= k < |xs| ensures PostDom(Forward(c).g, e, xs[k]) <==> Dom(Backward(c), e, xs[k]) {
        BackDom(c, e, xs[k]);
      }
      if m != c.exitBlock {
        BackDom(c, e, m);
      } else if Dom(Backward(c), e, c.exitBlock) {
        OnlyExitDominatesExit(c, e);
      }
    }
  }

  lemma ExitPostDominatesNone(c: Pool, x: Node)
    requires Analysed(c) && x in c.forwardOrder
    ensures !PostDom(Forward(c).g, c.exitBlock, x)
  {
    hide Analysed, PostDom;
    AboutAnalysed(c);
    ExitIsNotLive(c);
    if PostDom(Forward(c).g, c.exitBlock, x) {
      PostDomReached(Forward(c), c.forwardOrder, c.exitBlock, x);
    }
  }

  /** `execution_path_is_single_entry_and_dominates_exit`: if it holds, the path from `idom` to its exit is run once. */
  method ExecutionPathIsSingleEntryAndDominatesExit(c: Pool, idom: Node, pdom0: Node, ghost g: Graph)
    returns (r: bool)
    requires Analysed(c) && Looped(c, g) && idom in c.forwardOrder && pdom0 in c.forwardOrder
    ensures r <==> PassedOnce(Forward(c), g, idom, pdom0)
    ensures r ==> !OnCycle(g, idom)
    ensures r ==> exists exit: Node ::
                    ClosestExit(Forward(c), [pdom0, idom], exit) && exit in c.forwardOrder && !OnCycle(g, exit)
  {
    hide Analysed, ForwardAnalysed, Looped, Numbered, Ok, IdomCorrect, Mirrors, MirrorNumbered, CommonDom, Live, Dom,
        Reach, OnCycle, Encloses, ClosestExit, PassedOnce, NoHeaderBetween;
    AnalysedIsForward(c);
    AboutAnalysed(c);
    ghost var f := Forward(c);
    var encloses := EnclosesAll(c, idom, g);
    PassedNeeds(f, g, idom, pdom0);
    if !encloses {
      return false;
    }
    BackLive(c, idom);
    BackLive(c, pdom0);
    IdomWhole(Backward(c), c.immediatePostDominator);
    var pdom := FindCommonPostDominator(c, pdom0, idom, 0);
    ghost var exit := pdom;
    ExitOnlyIsItsOwn(c, pdom);
    CommonExit(c, pdom, pdom0, idom);
    if c.immediatePostDominator[pdom] == Some(pdom) {
      return false;
    }
    PassedOnceIs(f, g, c.forwardOrder, idom, pdom0, exit);
    LiveOrder(c, pdom);
    LiveOrder(c, idom);
    DomRefl(f, idom);
    DomRefl(f, pdom);
    if c.predBackEdge[idom].Some? {
      HeaderInside(c, g, idom, exit, idom);
      return false;
    }
    var dominates := Dominates(c, idom, pdom);
    if !dominates {
      return false;
    }
    while pdom != idom
      invariant pdom in c.forwardOrder && Dom(f, idom, pdom) && pdom < |f.num| && f.num[pdom] <= f.num[f.root]
      invariant Dom(f, pdom, exit)
      invariant forall h: Node :: Dom(f, h, exit) && !Dom(f, h, pdom) && h < |c.predBackEdge| ==>
                  c.predBackEdge[h].None?
      decreases f.num[f.root] - f.num[pdom]
    {
      LiveOrder(c, pdom);
      if c.predBackEdge[pdom].Some? {
        HeaderInside(c, g, idom, exit, pdom);
        return false;
      }
      BetweenStep(c, idom, pdom, exit);
      pdom := c.immediateDominator[pdom].value;
    }
    OnceOnly(c, g, idom, exit);
    NoneInside(c, g, idom, exit);
    r := true;
  }

  lemma PassedNeeds(f: Flow, g: Graph, e: Node, p: Node)
    ensures PassedOnce(f, g, e, p) ==> Encloses(f, g, e) && exists exit: Node :: ClosestExit(f, [p, e], exit)
  {
    hide Encloses, ClosestExit, Dom, NoHeaderBetween;
  }

  lemma HeaderInside(c: Pool, g: Graph, i: Node, d: Node, h: Node)
    requires ForwardAnalysed(c) && Looped(c, g) && h < |c.predBackEdge| && c.predBackEdge[h].Some?
    requires Dom(Forward(c), i, h)
    ensures Dom(Forward(c), h, d) ==> !NoHeaderBetween(Forward(c), g, i, d)
  {
    hide ForwardAnalysed, Looped, Dom, Turns;
    TurnsRecorded(c, g, c.predBackEdge[h].value, h);
  }

  lemma NoneInside(c: Pool, g: Graph, i: Node, d: Node)
    requires ForwardAnalysed(c) && Looped(c, g) && d in c.forwardOrder && i in c.forwardOrder
    requires i < |c.predBackEdge| && c.predBackEdge[i].None?
    requires forall h: Node :: Dom(Forward(c), h, d) && !Dom(Forward(c), h, i) && h < |c.predBackEdge| ==>
               c.predBackEdge[h].None?
    ensures NoHeaderBetween(Forward(c), g, i, d)
  {
    hide ForwardAnalysed, Looped, Dom, Turns, Live;
    AboutForward(c);
    LiveOrder(c, i);
    forall h: Node, y: Node | Dom(Forward(c), i, h) && Dom(Forward(c), h, d) ensures !Turns(Forward(c), g, y, h) {
      TurnsRecorded(c, g, y, h);
      if Dom(Forward(c), h, i) {
        DomAntisym(Forward(c), h, i);
      }
    }
  }

  lemma BetweenStep(c: Pool, i: Node, x: Node, exit: Node)
    requires ForwardAnalysed(c) && i in c.forwardOrder && x in c.forwardOrder && x != i && Dom(Forward(c), i, x)
    requires Dom(Forward(c), x, exit)
    requires x < |c.predBackEdge| && c.predBackEdge[x].None?
    requires forall h: Node :: Dom(Forward(c), h, exit) && !Dom(Forward(c), h, x) && h < |c.predBackEdge| ==>
               c.predBackEdge[h].None?
    ensures x < |c.immediateDominator| && c.immediateDominator[x].Some?
    ensures var f, d := Forward(c), c.immediateDominator[x].value;
            && d in c.forwardOrder && Dom(f, i, d) && Dom(f, d, exit) && x < |f.num| && d < |f.num|
            && f.num[x] < f.num[d] <= f.num[f.root]
            && forall h: Node :: Dom(f, h, exit) && !Dom(f, h, d) && h < |c.predBackEdge| ==> c.predBackEdge[h].None?
  {
    hide ForwardAnalysed, Dom, Live;
    EntryOnlyDominator(c);
    IdomStep(c, x);
    DomTrans(Forward(c), c.immediateDominator[x].value, x, exit);
  }

  /** No header from `i` to `exit`, and nothing around them: neither is on a cycle. */
  lemma OnceOnly(c: Pool, g: Graph, i: Node, exit: Node)
    requires ForwardAnalysed(c) && Looped(c, g) && i in c.forwardOrder && exit in c.forwardOrder
    requires Encloses(Forward(c), g, i)
    requires Dom(Forward(c), i, exit) && i < |c.predBackEdge| && c.predBackEdge[i].None?
    requires forall h: Node :: Dom(Forward(c), h, exit) && !Dom(Forward(c), h, i) && h < |c.predBackEdge| ==>
               c.predBackEdge[h].None?
    ensures !OnCycle(g, i) && !OnCycle(g, exit)
  {
    hide ForwardAnalysed, Dom, Reach, Backed, OnCycle, Encloses, Live;
    var f := Forward(c);
    AboutForward(c);
    AboutLooped(c, g);
    LiveOrder(c, i);
    LiveOrder(c, exit);
    DomNumber(f, i, exit);
    ReachInWhole(f, g, i, exit);
    ReachRefl(f.g, i);
    ReachInWhole(f, g, i, i);
    DomRefl(f, i);
    forall h: Node | Dom(f, i, h) && Dom(f, h, exit) && h < |c.predBackEdge| ensures c.predBackEdge[h].None? {
      if Dom(f, h, i) {
        DomAntisym(f, h, i);
      }
    }
    forall h: Node | Dom(f, i, h) && Dom(f, h, i) && h < |c.predBackEdge| ensures c.predBackEdge[h].None? {
      DomAntisym(f, h, i);
    }
    HeaderBetween(c, g, i, i);
    HeaderBetween(c, g, i, exit);
  }

  // ---------------------------------------------------------------- around a whole loop

  lemma CycleThrough(w: Graph, d: Node, y: Node, h: Node)
    requires Reach(w, d, y) && Edge(w, y, h) && Reach(w, h, d)
    ensures OnCycle(w, d)
  {
    if d != y {
      var s := ReachFirst(w, d, y);
      ReachEdge(w, y, h, d);
      ReachTrans(w, s, y, d);
    }
  }

  /** A place before a loop, and a place that post-dominates it and where control gets to from the loop: if they are on
      no cycle, whatever the loop holds is between them. */
  lemma AroundLoop(f: Flow, w: Graph, order: seq<Node>, i: Node, h: Node, y: Node, m: Node, d: Node, x: Node)
    requires Numbered(f, order) && Backed(f, w) && i in order && x in order && m in order
    requires Edge(f.g, i, h) && Edge(w, y, h) && Reach(w, h, m) && Dom(f, i, x) && Reach(f.g, x, y)
    requires PostDom(f.g, d, m) && PostDom(f.g, d, i) && !OnCycle(w, i) && !OnCycle(w, d)
    ensures PostDom(f.g, d, x)
  {
    hide Numbered, Backed, PostDom, Dom, OnCycle, Reach, Path;
    PostDomReached(f, order, d, m);
    ReachInWhole(f, w, m, d);
    ReachTrans(w, h, m, d);
    if d == i {
      IsEdgeToo(f, w, i, h);
      ItselfReached(f, order, w, i);
      CycleThrough(w, i, i, h);
    }
    if Reach(f.g, d, x) {
      ReachTrans(f.g, d, x, y);
      ReachInWhole(f, w, d, y);
      CycleThrough(w, d, y, h);
    }
    BehindEntry(f, order, i, d, x);
  }

  lemma IsEdgeToo(f: Flow, w: Graph, x: Node, y: Node)
    requires Backed(f, w) && Edge(f.g, x, y)
    ensures Edge(w, x, y)
  {}

  lemma ItselfReached(f: Flow, order: seq<Node>, w: Graph, x: Node)
    requires Numbered(f, order) && Backed(f, w) && x in order
    ensures Reach(w, x, x)
  {
    LiveInRange(f, x);
    ReachRefl(w, x);
  }

  /** What post-dominates the entry of a region and does not lead to `x` post-dominates `x`. */
  lemma BehindEntry(f: Flow, order: seq<Node>, i: Node, d: Node, x: Node)
    requires Numbered(f, order) && x in order && Dom(f, i, x) && PostDom(f.g, d, i) && !Reach(f.g, d, x)
    ensures PostDom(f.g, d, x)
  {
    DomNumber(f, i, x);
    var q :| Path(f.g, q, i, x);
    forall p: seq<Node>, l: Node | Path(f.g, p, x, l) && Leaf(f.g, l) ensures d in p {
      PathJoin(f.g, q, i, x, p, l);
      assert d in q + p[1..];
      if d in q {
        PathReach(f.g, q, i, x, d);
      }
    }
  }
}
