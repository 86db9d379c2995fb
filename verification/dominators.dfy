/** Immediate dominators and post-dominators, computed in one pass over the visit order, and the
    queries that walk their chains. */
module Dominators {
  import opened Wrappers
  import opened Graphs
  import opened Lists
  import opened Dominance
  import opened NodePool
  import opened FlowGraph
  import opened Backwards

  /** The column holds the immediate dominator of `x`; the root is its own. */
  ghost predicate HasIdom(f: Flow, idom: seq<Option<Node>>, x: Node) {
    && x < |idom| && idom[x].Some?
    && if x == f.root then idom[x].value == x else ImmediateDom(f, idom[x].value, x)
  }

  /** The column is right for every live block numbered `k` or higher. */
  ghost predicate IdomFrom(f: Flow, idom: seq<Option<Node>>, k: nat) {
    && |idom| == |f.num|
    && forall x: Node :: Live(f, x) && x < |f.num| && f.num[x] >= k ==> HasIdom(f, idom, x)
  }

  ghost predicate IdomCorrect(f: Flow, idom: seq<Option<Node>>) {
    IdomFrom(f, idom, 0)
  }

  lemma RootIsHighest(f: Flow, x: Node)
    requires Ok(f) && Live(f, x)
    ensures x < |f.num| && f.num[x] <= f.num[f.root]
    ensures x != f.root ==> f.num[x] < f.num[f.root]
  {
    RootDominates(f, x);
    DomNumber(f, f.root, x);
  }

  /** One step up the chain of immediate dominators. */
  lemma ChainStep(f: Flow, idom: seq<Option<Node>>, k: nat, x: Node)
    requires Ok(f) && IdomFrom(f, idom, k) && Live(f, x) && x < |f.num| && f.num[x] >= k
    ensures x < |idom| && idom[x].Some? && Live(f, idom[x].value) && idom[x].value < |f.num|
    ensures idom[x].value == x <==> x == f.root
    ensures x != f.root ==> ImmediateDom(f, idom[x].value, x) && f.num[idom[x].value] > f.num[x]
    ensures f.num[idom[x].value] <= f.num[f.root]
  {
    assert HasIdom(f, idom, x);
    if x != f.root {
      ImmediateDomLower(f, idom[x].value, x);
    } else {
      LiveRoot(f);
    }
    RootIsHighest(f, idom[x].value);
  }

  /** `a` dominates `x` exactly when it is `x` or dominates the immediate dominator of `x`. */
  lemma DomByChain(f: Flow, idom: seq<Option<Node>>, a: Node, x: Node)
    requires Ok(f) && IdomCorrect(f, idom) && Live(f, x) && x < |idom|
    ensures a == x ==> Dom(f, a, x)
    ensures a != x && x != f.root ==> idom[x].Some? && (Dom(f, a, x) <==> Dom(f, a, idom[x].value))
    ensures a != x && x == f.root ==> !Dom(f, a, x)
  {
    LiveInRange(f, x);
    ChainStep(f, idom, 0, x);
    if a == x {
      DomRefl(f, a);
    } else if x != f.root {
      if Dom(f, a, idom[x].value) { DomTrans(f, a, idom[x].value, x); }
    } else {
      LiveRoot(f);
      if Dom(f, a, x) {
        RootDominates(f, a);
        DomAntisym(f, a, x);
      }
    }
  }

  /** `CFGNode::dominates`: follows the immediate dominators of `other` up to the entry block. */
  method Dominates(c: Pool, self: Node, other: Node) returns (r: bool)
    requires c.Shape() && Ok(Forward(c)) && IdomCorrect(Forward(c), c.immediateDominator) && Live(Forward(c), other)
    ensures r <==> Dom(Forward(c), self, other)
  {
    ghost var f := Forward(c);
    hide Ok, IdomFrom, Dom, ImmediateDom;
    var x: Node := other;
    LiveInRange(f, x);
    RootIsHighest(f, x);
    while self != x
      invariant Live(f, x) && x < |f.num| && f.num[x] <= f.num[f.root]
      invariant Dom(f, self, other) <==> Dom(f, self, x)
      decreases f.num[f.root] - f.num[x]
    {
      ChainStep(f, c.immediateDominator, 0, x);
      DomByChain(f, c.immediateDominator, self, x);
      if c.immediateDominator[x] == None || x == c.immediateDominator[x].value {
        break;
      }
      x := c.immediateDominator[x].value;
    }
    DomByChain(f, c.immediateDominator, self, x);
    r := self == x;
  }

  /** `CFGNode::post_dominates`, the same walk over the immediate post-dominators. */
  method PostDominates(c: Pool, self: Node, start: Node) returns (r: bool)
    requires c.Shape() && InRange(c.forwardOrder, |c.succ|)
    requires Ok(Backward(c)) && IdomCorrect(Backward(c), c.immediatePostDominator) && Live(Backward(c), start)
    ensures r <==> Dom(Backward(c), self, start)
  {
    ghost var f := Backward(c);
    hide Ok, IdomFrom, Dom, ImmediateDom;
    var x: Node := start;
    LiveInRange(f, x);
    RootIsHighest(f, x);
    while x != self
      invariant Live(f, x) && x < |f.num| && f.num[x] <= f.num[f.root]
      invariant Dom(f, self, start) <==> Dom(f, self, x)
      decreases f.num[f.root] - f.num[x]
    {
      ChainStep(f, c.immediatePostDominator, 0, x);
      DomByChain(f, c.immediatePostDominator, self, x);
      if c.immediatePostDominator[x] == None || x == c.immediatePostDominator[x].value {
        break;
      }
      x := c.immediatePostDominator[x].value;
    }
    DomByChain(f, c.immediatePostDominator, self, x);
    r := self == x;
  }

  /** `CFGNode::find_common_dominator`: the lower-numbered block steps up until the two meet. */
  method FindCommonDominator(c: Pool, a0: Node, b0: Node, ghost k: nat) returns (m: Node)
    requires c.Shape() && Ok(Forward(c)) && IdomFrom(Forward(c), c.immediateDominator, k)
    requires Live(Forward(c), a0) && a0 < |c.forwardNumber| && c.forwardNumber[a0] >= k
    requires Live(Forward(c), b0) && b0 < |c.forwardNumber| && c.forwardNumber[b0] >= k
    ensures Live(Forward(c), m) && m < |c.forwardNumber| && c.forwardNumber[m] >= k
    ensures CommonDom(Forward(c), m, a0, b0)
  {
    ghost var f := Forward(c);
    hide Ok, IdomFrom, Dom, ImmediateDom;
    var a: Node, b: Node := a0, b0;
    RootIsHighest(f, a);
    RootIsHighest(f, b);
    while a != b
      invariant Live(f, a) && a < |f.num| && k <= f.num[a] <= f.num[f.root]
      invariant Live(f, b) && b < |f.num| && k <= f.num[b] <= f.num[f.root]
      invariant forall e: Node :: Dom(f, e, a) && Dom(f, e, b) <==> Dom(f, e, a0) && Dom(f, e, b0)
      decreases 2 * f.num[f.root] - f.num[a] - f.num[b]
    {
      ChainStep(f, c.immediateDominator, k, a);
      ChainStep(f, c.immediateDominator, k, b);
      RootIsHighest(f, a);
      RootIsHighest(f, b);
      NumbersDiffer(f, a, b);
      if c.forwardNumber[a] < c.forwardNumber[b] {
        CommonDomStep(f, a, b, c.immediateDominator[a].value);
        a := c.immediateDominator[a].value;
      } else {
        CommonDomStep(f, b, a, c.immediateDominator[b].value);
        b := c.immediateDominator[b].value;
      }
    }
    m := a;
  }

  /** `CFGNode::find_common_post_dominator`. */
  method FindCommonPostDominator(c: Pool, a0: Node, b0: Node, ghost k: nat) returns (m: Node)
    requires c.Shape() && InRange(c.forwardOrder, |c.succ|)
    requires Ok(Backward(c)) && IdomFrom(Backward(c), c.immediatePostDominator, k)
    requires Live(Backward(c), a0) && a0 < |c.backwardNumber| && c.backwardNumber[a0] >= k
    requires Live(Backward(c), b0) && b0 < |c.backwardNumber| && c.backwardNumber[b0] >= k
    ensures Live(Backward(c), m) && m < |c.backwardNumber| && c.backwardNumber[m] >= k
    ensures CommonDom(Backward(c), m, a0, b0)
  {
    ghost var f := Backward(c);
    hide Ok, IdomFrom, Dom, ImmediateDom;
    var a: Node, b: Node := a0, b0;
    RootIsHighest(f, a);
    RootIsHighest(f, b);
    while a != b
      invariant Live(f, a) && a < |f.num| && k <= f.num[a] <= f.num[f.root]
      invariant Live(f, b) && b < |f.num| && k <= f.num[b] <= f.num[f.root]
      invariant forall e: Node :: Dom(f, e, a) && Dom(f, e, b) <==> Dom(f, e, a0) && Dom(f, e, b0)
      decreases 2 * f.num[f.root] - f.num[a] - f.num[b]
    {
      ChainStep(f, c.immediatePostDominator, k, a);
      ChainStep(f, c.immediatePostDominator, k, b);
      RootIsHighest(f, a);
      RootIsHighest(f, b);
      NumbersDiffer(f, a, b);
      if c.backwardNumber[a] < c.backwardNumber[b] {
        CommonDomStep(f, a, b, c.immediatePostDominator[a].value);
        a := c.immediatePostDominator[a].value;
      } else {
        CommonDomStep(f, b, a, c.immediatePostDominator[b].value);
        b := c.immediatePostDominator[b].value;
      }
    }
    m := a;
  }

  // ---------------------------------------------------------------- building the columns

  /** The dominators of `m` are the common dominators of all of `ys`. */
  ghost predicate MeetOf(f: Flow, m: Node, ys: seq<Node>) {
    forall d: Node :: Dom(f, d, m) <==> forall j :: 0 <= j < |ys| ==> Dom(f, d, ys[j])
  }

  lemma MeetOne(f: Flow, y: Node)
    ensures MeetOf(f, y, [y])
  {
    assert [y][0] == y;
  }

  lemma MeetStep(f: Flow, m: Node, ys: seq<Node>, y: Node, n: Node)
    requires MeetOf(f, m, ys) && CommonDom(f, n, m, y)
    ensures MeetOf(f, n, ys + [y])
  {
    var zs := ys + [y];
    forall d: Node ensures Dom(f, d, n) <==> forall j :: 0 <= j < |zs| ==> Dom(f, d, zs[j]) {
      if forall j :: 0 <= j < |zs| ==> Dom(f, d, zs[j]) {
        assert zs[|ys|] == y;
        forall j | 0 <= j < |ys| ensures Dom(f, d, ys[j]) {
          assert zs[j] == ys[j];
        }
      }
    }
  }

  /** The meet of the predecessors is the immediate dominator, and only the root has none. */
  lemma MeetIsImmediate(f: Flow, x: Node, m: Node, ys: seq<Node>)
    requires Ok(f) && Live(f, x) && (forall y: Node :: y in ys <==> Edge(f.g, y, x))
    requires ys != [] && MeetOf(f, m, ys)
    ensures x != f.root && ImmediateDom(f, m, x)
  {
    assert Edge(f.g, ys[0], x);
    LiveEdge(f, ys[0], x);
    RootIsHighest(f, ys[0]);
    forall d: Node ensures Dom(f, d, m) <==> forall y: Node :: Edge(f.g, y, x) ==> Dom(f, d, y) {
      if Dom(f, d, m) {
        forall y: Node | Edge(f.g, y, x) ensures Dom(f, d, y) {
          assert ys[Index(ys, y)] == y;
        }
      }
    }
    MeetOfPreds(f, x, m);
  }

  lemma NoPredsIsRoot(f: Flow, x: Node)
    requires Live(f, x) && forall y: Node :: !Edge(f.g, y, x)
    ensures x == f.root
  {
    var p :| Path(f.g, p, f.root, x);
    if x != f.root {
      var q, y := PathLastEdge(f.g, p, f.root, x);
    }
  }

  lemma IdomExtend(f: Flow, idom: seq<Option<Node>>, x: Node, m: Node)
    requires Ok(f) && Live(f, x) && x < |f.num| && IdomFrom(f, idom, f.num[x] + 1)
    requires if x == f.root then m == x else ImmediateDom(f, m, x)
    ensures IdomFrom(f, idom[x := Some(m)], f.num[x])
  {
    forall y: Node | Live(f, y) && y < |f.num| && f.num[y] >= f.num[x] ensures HasIdom(f, idom[x := Some(m)], y) {
      if y != x {
        NumbersDiffer(f, x, y);
        assert HasIdom(f, idom, y);
      }
    }
  }

  /** `CFGNode::recompute_immediate_dominator`. */
  method RecomputeImmediateDominator(c: Pool, x: Node)
    requires c.Shape() && Numbered(Forward(c), c.forwardOrder) && Mirrors(c.pred, Forward(c).g, c.forwardOrder)
    requires x in c.forwardOrder && x < |c.pred|
    requires IdomFrom(Forward(c), c.immediateDominator, c.forwardNumber[x] + 1)
    modifies c`immediateDominator
    ensures c.Shape() && IdomFrom(Forward(c), c.immediateDominator, c.forwardNumber[x])
  {
    hide Ok, IdomFrom, Dom, ImmediateDom, CommonDom, MeetOf, Live, Restrict;
    ghost var f := Forward(c);
    ghost var idom := c.immediateDominator;
    var pred := c.pred[x];
    if pred == [] {
      NoPredsIsRoot(f, x);
      IdomExtend(f, c.immediateDominator, x, x);
      c.immediateDominator := c.immediateDominator[x := Some(x)];
    } else {
      PredsAreHigher(f, c.forwardOrder, x, pred);
      var m: Node := pred[0];
      MeetOne(f, m);
      assert pred[..1] == [m];
      var i := 1;
      while i < |pred|
        invariant 1 <= i <= |pred| && Live(f, m) && m < |f.num| && f.num[m] > f.num[x]
        invariant MeetOf(f, m, pred[..i])
        modifies {}
      {
        var n := FindCommonDominator(c, m, pred[i], c.forwardNumber[x] + 1);
        MeetStep(f, m, pred[..i], pred[i], n);
        assert pred[..i + 1] == pred[..i] + [pred[i]];
        m := n;
        i := i + 1;
      }
      assert pred[..i] == pred;
      MeetIsImmediate(f, x, m, pred);
      IdomExtend(f, c.immediateDominator, x, m);
      c.immediateDominator := c.immediateDominator[x := Some(m)];
    }
  }

  lemma PredsAreHigher(f: Flow, order: seq<Node>, x: Node, pred: seq<Node>)
    requires Numbered(f, order) && x < |f.num| && forall y: Node :: y in pred <==> Edge(f.g, y, x)
    ensures forall i :: 0 <= i < |pred| ==> Live(f, pred[i]) && pred[i] < |f.num| && f.num[pred[i]] > f.num[x]
  {
    forall i | 0 <= i < |pred| ensures Live(f, pred[i]) && pred[i] < |f.num| && f.num[pred[i]] > f.num[x] {
      assert Edge(f.g, pred[i], x);
      LiveEdge(f, pred[i], x);
    }
  }

  /** `build_immediate_dominators`: reverse post order, so that every predecessor comes first. */
  method BuildImmediateDominators(c: Pool)
    requires c.Shape() && Numbered(Forward(c), c.forwardOrder) && Mirrors(c.pred, Forward(c).g, c.forwardOrder)
    modifies c`immediateDominator
    ensures c.Shape() && IdomCorrect(Forward(c), c.immediateDominator)
  {
    hide Ok, HasIdom;
    ghost var f := Forward(c);
    NothingAbove(f, c.forwardOrder, c.immediateDominator);
    var i: nat := |c.forwardOrder|;
    while i > 0
      invariant i <= |c.forwardOrder| && c.Shape() && IdomFrom(f, c.immediateDominator, i)
    {
      var x := c.forwardOrder[i - 1];
      assert x in c.forwardOrder;
      RecomputeImmediateDominator(c, x);
      i := i - 1;
    }
  }

  lemma NothingAbove(f: Flow, order: seq<Node>, idom: seq<Option<Node>>)
    requires Numbered(f, order) && |idom| == |f.num|
    ensures IdomFrom(f, idom, |order|)
  {
    forall x: Node | Live(f, x) && x < |f.num| ensures f.num[x] < |order| {
      OrderedByNumber(f, order, x);
    }
  }

  /** The blocks before a live block in the mirrored graph are its forward successors, or the exit block. */
  lemma MirrorPreds(m: Graph, exit: Node, f: Flow, order: seq<Node>, succ: seq<seq<Node>>, x: Node)
    requires Mirrored(m, exit, f, order) && Numbered(f, order) && f.g == Restrict(succ, order) && x in order
             && x < |succ|
    ensures succ[x] != [] ==> forall y: Node :: y in succ[x] <==> Edge(m, y, x)
    ensures succ[x] == [] ==> forall y: Node :: y in [exit] <==> Edge(m, y, x)
  {
    forall y: Node ensures Edge(m, y, x) <==> (y == exit && succ[x] == []) || y in succ[x] {
      if y in succ[x] {
        assert Edge(f.g, x, y);
        LiveEdge(f, x, y);
      }
    }
  }

  /** `CFGNode::recompute_immediate_post_dominator`; a leaf keeps the exit block it was given. */
  method RecomputeImmediatePostDominator(c: Pool, x: Node)
    requires c.Shape() && InRange(c.forwardOrder, |c.succ|) && Numbered(Forward(c), c.forwardOrder)
    requires MirrorNumbered(c, Forward(c)) && x in c.forwardOrder
    requires IdomFrom(Backward(c), c.immediatePostDominator, c.backwardNumber[x] + 1)
    requires c.succ[x] == [] ==> c.immediatePostDominator[x] == Some(c.exitBlock)
    modifies c`immediatePostDominator
    ensures c.Shape() && IdomFrom(Backward(c), c.immediatePostDominator, c.backwardNumber[x])
    ensures forall y: Node :: y < |c.succ| && y != x ==> c.immediatePostDominator[y] == old(c.immediatePostDominator[y])
    ensures c.succ[x] == [] ==> c.immediatePostDominator[x] == Some(c.exitBlock)
  {
    hide Ok, IdomFrom, Dom, ImmediateDom, CommonDom, MeetOf, Mirrored, Live, Restrict, Mirror;
    ghost var f := Backward(c);
    MirrorLive(c, x);
    MirrorPreds(f.g, c.exitBlock, Forward(c), c.forwardOrder, c.succ, x);
    var succ := c.succ[x];
    if succ != [] {
      PredsAreHigher(f, c.backwardOrder + [c.exitBlock], x, succ);
      var m: Node := succ[0];
      MeetOne(f, m);
      assert succ[..1] == [m];
      var i := 1;
      while i < |succ|
        invariant 1 <= i <= |succ| && Live(f, m) && m < |f.num| && f.num[m] > f.num[x]
        invariant MeetOf(f, m, succ[..i])
        modifies {}
      {
        var n := FindCommonPostDominator(c, m, succ[i], c.backwardNumber[x] + 1);
        MeetStep(f, m, succ[..i], succ[i], n);
        assert succ[..i + 1] == succ[..i] + [succ[i]];
        m := n;
        i := i + 1;
      }
      assert succ[..i] == succ;
      MeetIsImmediate(f, x, m, succ);
      IdomExtend(f, c.immediatePostDominator, x, m);
      c.immediatePostDominator := c.immediatePostDominator[x := Some(m)];
    } else {
      MeetOne(f, c.exitBlock);
      MeetIsImmediate(f, x, c.exitBlock, [c.exitBlock]);
      IdomExtend(f, c.immediatePostDominator, x, c.exitBlock);
      assert c.immediatePostDominator[x := Some(c.exitBlock)] == c.immediatePostDominator;
    }
  }

  lemma MirrorLive(c: Pool, x: Node)
    requires c.Shape() && InRange(c.forwardOrder, |c.succ|) && Numbered(Forward(c), c.forwardOrder)
    requires MirrorNumbered(c, Forward(c)) && x in c.forwardOrder
    ensures Live(Backward(c), x) && x != c.exitBlock && x in c.backwardOrder && x < |c.succ|
  {
    LiveInRange(Forward(c), x);
    MirrorFlowLive(Backward(c), Forward(c), c.forwardOrder, c.backwardOrder + [c.exitBlock], x);
  }

  /** A live block is live in the mirrored graph, because it reaches a leaf. */
  lemma MirrorFlowLive(b: Flow, f: Flow, order: seq<Node>, backOrder: seq<Node>, x: Node)
    requires Mirrored(b.g, b.root, f, order) && Numbered(f, order) && Numbered(b, backOrder) && x in order
    ensures Live(b, x) && x != b.root && x in backOrder
  {
    LiveInRange(f, x);
    var p, l := ReachesLeaf(f.g, f.num, x);
    ReverseToMirror(b.g, b.root, f, order, p, x, l);
    assert Edge(b.g, b.root, l);
    PathCons(b.g, b.root, Reverse(p), l, x);
  }

  /** `build_immediate_post_dominators`. */
  method BuildImmediatePostDominators(c: Pool)
    requires c.Shape() && InRange(c.forwardOrder, |c.succ|) && Numbered(Forward(c), c.forwardOrder)
    requires MirrorNumbered(c, Forward(c))
    requires c.immediatePostDominator[c.exitBlock] == Some(c.exitBlock)
    requires forall x: Node :: x in c.forwardOrder && c.succ[x] == [] ==>
               c.immediatePostDominator[x] == Some(c.exitBlock)
    modifies c`immediatePostDominator
    ensures c.Shape() && IdomCorrect(Backward(c), c.immediatePostDominator)
  {
    hide Ok, HasIdom, IdomFrom, Mirrored, Mirror;
    ghost var f := Backward(c);
    ExitAbove(f, c.backwardOrder, c.immediatePostDominator);
    var i: nat := |c.backwardOrder|;
    while i > 0
      invariant i <= |c.backwardOrder| && c.Shape() && IdomFrom(f, c.immediatePostDominator, i)
      invariant forall x: Node :: x in c.forwardOrder && c.succ[x] == [] ==>
                  c.immediatePostDominator[x] == Some(c.exitBlock)
    {
      var x := c.backwardOrder[i - 1];
      MirrorMembers(c, x, i - 1);
      RecomputeImmediatePostDominator(c, x);
      i := i - 1;
    }
  }

  lemma ExitAbove(f: Flow, order: seq<Node>, idom: seq<Option<Node>>)
    requires Numbered(f, order + [f.root]) && |idom| == |f.num| && f.root < |idom| && idom[f.root] == Some(f.root)
    ensures IdomFrom(f, idom, |order|)
  {
    forall x: Node | Live(f, x) && x < |f.num| && f.num[x] >= |order| ensures HasIdom(f, idom, x) {
      OrderedByNumber(f, order + [f.root], x);
    }
  }

  lemma MirrorMembers(c: Pool, x: Node, i: nat)
    requires c.Shape() && InRange(c.forwardOrder, |c.succ|) && Numbered(Forward(c), c.forwardOrder)
    requires MirrorNumbered(c, Forward(c)) && i < |c.backwardOrder| && c.backwardOrder[i] == x
    ensures x in c.forwardOrder && x < |c.succ| && c.backwardNumber[x] == i
  {
    var b := Backward(c);
    var order := c.backwardOrder + [c.exitBlock];
    assert order[i] == x && x in order;
    var p :| Path(b.g, p, b.root, x);
    var q, w := PathLastEdge(b.g, p, b.root, x);
    if w != b.root { LiveEdge(Forward(c), x, w); }
  }
}
