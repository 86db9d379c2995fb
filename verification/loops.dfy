/** Natural loop bodies and loop exits. */
module Loops {
  import opened Wrappers
  import opened Graphs
  import opened Lists
  import opened Dominance
  import opened NodePool
  import opened FlowGraph
  import opened Traversal
  import opened Analysis

  /** The live control-flow graph with its back edges. */
  ghost function Whole(c: Pool): Graph
    requires |c.succ| == |c.succBackEdge|
    reads c`succ, c`succBackEdge, c`forwardOrder
  {
    Restrict(WithBackEdges(c.succ, c.succBackEdge), c.forwardOrder)
  }

  /** The edges into a block are its predecessor list and its incoming back edge. */
  lemma WholePreds(c: Pool, x: Node, y: Node)
    requires Traversed(c) && y in c.forwardOrder
    ensures y < |c.pred| && y < |c.predBackEdge|
    ensures Edge(Whole(c), x, y) <==> x in c.pred[y] || c.predBackEdge[y] == Some(x)
    ensures Edge(Whole(c), x, y) ==> x in c.forwardOrder
  {
    TraversedNumbered(c);
    LiveInRange(Forward(c), y);
    WholeEdge(c, x, y);
    assert c.predBackEdge[y] == Some(x) <==> Records(c.predBackEdge, y, x);
    if Edge(Forward(c).g, x, y) {
      LiveEdge(Forward(c), x, y);
    }
  }

  /** A whole edge is a forward edge or a recorded back edge. */
  lemma WholeEdge(c: Pool, x: Node, y: Node)
    requires Traversed(c)
    ensures |c.succ| == |c.succBackEdge|
    ensures Edge(Whole(c), x, y) <==> Edge(Forward(c).g, x, y) || Records(c.succBackEdge, x, y)
  {
    hide Numbered, Mirrors;
    if Records(c.succBackEdge, x, y) {
      assert x in c.forwardOrder;
    }
  }

  lemma ForwardInWhole(c: Pool, x: Node, y: Node)
    requires Traversed(c) && Edge(Forward(c).g, x, y)
    ensures Edge(Whole(c), x, y) && x in c.forwardOrder && y in c.forwardOrder
  {
    LiveEdge(Forward(c), x, y);
  }

  /** The natural loop of a back edge from `block` to `header`: the header, and every block that can reach
      `block` without passing the header. */
  ghost predicate InLoop(w: Graph, header: Node, block: Node, x: Node) {
    x == header || ReachAvoiding(w, x, block, header)
  }

  // ---------------------------------------------------------------- LoopBacktracer

  /** Every block of `traced` other than the header, and outside `open`, has all its predecessors in `traced`. */
  ghost predicate ClosedBack(w: Graph, header: Node, traced: set<Node>, open: set<Node>) {
    forall x: Node, y: Node :: y in traced && y !in open && y != header && Edge(w, x, y) ==> x in traced
  }

  class LoopBacktracer {
    var tracedBlocks: set<Node>

    constructor ()
      ensures tracedBlocks == {}
    {
      tracedBlocks := {};
    }

    /** `trace_to_parent`: collects everything that leads to `block` without passing `header`. */
    method TraceToParent(c: Pool, header: Node, block: Node, ghost open: set<Node>, ghost target: Node)
      requires Traversed(c) && header in c.forwardOrder && block in c.forwardOrder
      requires forall x :: x in tracedBlocks ==> x in c.forwardOrder && InLoop(Whole(c), header, target, x)
      requires block == header || ReachAvoiding(Whole(c), block, target, header)
      requires ClosedBack(Whole(c), header, tracedBlocks, open) && header !in open
      modifies this
      ensures old(tracedBlocks) + {block} <= tracedBlocks
      ensures forall x :: x in tracedBlocks ==> x in c.forwardOrder && InLoop(Whole(c), header, target, x)
      ensures ClosedBack(Whole(c), header, tracedBlocks, open)
      decreases (set x: Node | x in c.forwardOrder) - tracedBlocks
    {
      hide Traversed, Reach, ReachAvoiding, WithBackEdges, Restrict, Edge;
      TraversedNumbered(c);
      ghost var w := Whole(c);
      if block == header {
        tracedBlocks := tracedBlocks + {block};
        return;
      }

      if block !in tracedBlocks {
        ghost var before := tracedBlocks;
        tracedBlocks := tracedBlocks + {block};
        WholePreds(c, block, block);
        var i := 0;
        while i < |c.pred[block]|
          invariant i <= |c.pred[block]| && before + {block} <= tracedBlocks
          invariant forall x :: x in tracedBlocks ==> x in c.forwardOrder && InLoop(w, header, target, x)
          invariant ClosedBack(w, header, tracedBlocks, open + {block})
          invariant forall j :: 0 <= j < i ==> c.pred[block][j] in tracedBlocks
        {
          var p := c.pred[block][i];
          WholePreds(c, p, block);
          StepBack(w, header, target, block, p);
          TraceToParent(c, header, p, open + {block}, target);
          i := i + 1;
        }
        if c.predBackEdge[block].Some? {
          var p := c.predBackEdge[block].value;
          WholePreds(c, p, block);
          StepBack(w, header, target, block, p);
          TraceToParent(c, header, p, open + {block}, target);
        }
        forall x: Node | Edge(w, x, block) ensures x in tracedBlocks {
          WholePreds(c, x, block);
          if x in c.pred[block] {
            assert c.pred[block][Index(c.pred[block], x)] == x;
          }
        }
      }
    }
  }

  lemma StepBack(w: Graph, header: Node, target: Node, block: Node, p: Node)
    requires Edge(w, p, block) && ReachAvoiding(w, block, target, header)
    ensures p == header || ReachAvoiding(w, p, target, header)
  {
    if p != header {
      AvoidingEdge(w, p, block, target, header);
    }
  }

  /** Walking back from `block` without passing the header never leaves a closed set. */
  lemma {:induction false} ClosedHoldsPath(w: Graph, header: Node, traced: set<Node>, p: seq<Node>, x: Node,
                                           block: Node)
    requires Path(w, p, x, block) && block in traced && header !in p[1..]
    requires ClosedBack(w, header, traced, {})
    ensures x in traced
    decreases |p|
  {
    if |p| > 1 {
      assert p[1] in p[1..];
      ClosedHoldsPath(w, header, traced, p[1..], p[1], block);
    }
  }

  /** Tracing back from the block at the other end of the header's back edge collects exactly the
      natural loop, inner loops included. */
  method CollectLoopBody(c: Pool, header: Node, block: Node) returns (tracer: LoopBacktracer)
    requires Traversed(c) && header in c.forwardOrder && block in c.forwardOrder && Reach(Whole(c), header, block)
    ensures fresh(tracer)
    ensures forall x: Node :: x in tracer.tracedBlocks <==> InLoop(Whole(c), header, block, x)
    ensures forall x: Node :: x in tracer.tracedBlocks ==> x in c.forwardOrder
  {
    tracer := new LoopBacktracer();
    ghost var w := Whole(c);
    SelfAvoiding(c, header, block);
    tracer.TraceToParent(c, header, block, {}, block);
    TracedIsLoop(w, header, block, tracer.tracedBlocks);
  }

  lemma SelfAvoiding(c: Pool, header: Node, block: Node)
    requires Traversed(c) && block in c.forwardOrder
    ensures block == header || ReachAvoiding(Whole(c), block, block, header)
  {
    LiveInRange(Forward(c), block);
    assert Path(Whole(c), [block], block, block);
  }

  lemma TracedIsLoop(w: Graph, header: Node, block: Node, traced: set<Node>)
    requires ClosedBack(w, header, traced, {}) && block in traced && Reach(w, header, block)
    requires forall x :: x in traced ==> InLoop(w, header, block, x)
    ensures forall x: Node :: x in traced <==> InLoop(w, header, block, x)
  {
    forall x: Node | InLoop(w, header, block, x) ensures x in traced {
      if x == header {
        var p :| Path(w, p, header, block);
        var q := AfterLastVisit(w, p, header, block);
        ClosedHoldsPath(w, header, traced, q, header, block);
      } else {
        var p :| Path(w, p, x, block) && header !in p;
        ClosedHoldsPath(w, header, traced, p, x, block);
      }
    }
  }

  // ---------------------------------------------------------------- LoopMergeTracer

  /** A forward walk from `h` to `x` through blocks of the body only. */
  ghost predicate Inside(g: Graph, body: set<Node>, h: Node, x: Node) {
    exists p: seq<Node> :: Path(g, p, h, x) && forall z :: z in p ==> z in body
  }

  /** `y` is outside the body and a forward edge leads to it from a body block that `h` reaches inside. */
  ghost predicate ExitFrom(g: Graph, body: set<Node>, h: Node, y: Node) {
    y !in body && exists x: Node :: Inside(g, body, h, x) && Edge(g, x, y)
  }

  /** Everything that tracing from `h` should find is in `exits`. */
  ghost predicate Traced(g: Graph, body: set<Node>, exits: seq<Node>, h: Node) {
    if h in body then forall y: Node :: ExitFrom(g, body, h, y) ==> y in exits else h in exits
  }

  ghost predicate SoundExits(g: Graph, body: set<Node>, exits: seq<Node>) {
    Distinct(exits) && forall y: Node :: y in exits ==> y !in body && exists x: Node :: x in body && Edge(g, x, y)
  }

  lemma TracedGrows(g: Graph, body: set<Node>, exits: seq<Node>, more: seq<Node>, h: Node)
    requires Traced(g, body, exits, h) && forall y: Node :: y in exits ==> y in more
    ensures Traced(g, body, more, h)
  {}

  /** Tracing every successor of a body block traces the block. */
  lemma TracedFromSuccs(g: Graph, body: set<Node>, exits: seq<Node>, h: Node)
    requires h in body && forall s: Node :: Edge(g, h, s) ==> Traced(g, body, exits, s)
    ensures Traced(g, body, exits, h)
  {
    forall y: Node | ExitFrom(g, body, h, y) ensures y in exits {
      var x: Node :| Inside(g, body, h, x) && Edge(g, x, y);
      var p :| Path(g, p, h, x) && forall z :: z in p ==> z in body;
      if |p| == 1 {
        assert Traced(g, body, exits, y);
      } else {
        var s := p[1];
        assert Path(g, p[1..], s, x) && s in p;
        assert Inside(g, body, s, x);
        assert ExitFrom(g, body, s, y);
        assert Traced(g, body, exits, s);
      }
    }
  }

  class LoopMergeTracer {
    const body: set<Node>
    var loopExits: seq<Node>
    var tracedBlocks: set<Node>

    constructor (backtracer: LoopBacktracer)
      ensures body == backtracer.tracedBlocks && loopExits == [] && tracedBlocks == {}
    {
      body := backtracer.tracedBlocks;
      loopExits, tracedBlocks := [], {};
    }

    ghost predicate Valid(g: Graph)
      reads this
    {
      SoundExits(g, body, loopExits) && forall s :: s in tracedBlocks ==> Traced(g, body, loopExits, s)
    }

    /** `trace_from_parent`: follows forward edges inside the body and notes where they leave it. */
    method TraceFromParent(c: Pool, header: Node)
      requires Traversed(c) && header in c.forwardOrder && Valid(Forward(c).g)
      requires header in body || exists x: Node :: x in body && Edge(Forward(c).g, x, header)
      modifies this
      ensures Valid(Forward(c).g) && Traced(Forward(c).g, body, loopExits, header)
      ensures forall y: Node :: y in old(loopExits) ==> y in loopExits
      decreases if header < |c.forwardNumber| then c.forwardNumber[header] else 0
    {
      hide Traversed, Edge, Restrict, Traced, Distinct;
      ghost var g := Forward(c).g;
      if header !in body {
        if header !in loopExits {
          DistinctSnoc(loopExits, header);
          ExitNoted(g, body, loopExits, header, tracedBlocks);
          loopExits := loopExits + [header];
        }
        OutsideTraced(g, body, loopExits, header);
        return;
      }
      SuccsOf(c, header);
      ghost var before := loopExits;
      var i := 0;
      while i < |c.succ[header]|
        invariant i <= |c.succ[header]| && Valid(g)
        invariant forall y: Node :: y in before ==> y in loopExits
        invariant forall j :: 0 <= j < i ==> Traced(g, body, loopExits, c.succ[header][j])
      {
        var s := c.succ[header][i];
        if s !in tracedBlocks {
          SuccLower(c, header, s);
          ghost var exits := loopExits;
          TraceFromParent(c, s);
          forall j | 0 <= j < i ensures Traced(g, body, loopExits, c.succ[header][j]) {
            TracedGrows(g, body, exits, loopExits, c.succ[header][j]);
          }
          tracedBlocks := tracedBlocks + {s};
        }
        i := i + 1;
      }
      forall s: Node | Edge(g, header, s) ensures Traced(g, body, loopExits, s) {
        assert c.succ[header][Index(c.succ[header], s)] == s;
      }
      TracedFromSuccs(g, body, loopExits, header);
    }
  }

  lemma OutsideTraced(g: Graph, body: set<Node>, exits: seq<Node>, h: Node)
    requires h !in body && h in exits
    ensures Traced(g, body, exits, h)
  {}

  lemma ExitNoted(g: Graph, body: set<Node>, exits: seq<Node>, h: Node, traced: set<Node>)
    requires forall s :: s in traced ==> Traced(g, body, exits, s)
    ensures forall s :: s in traced ==> Traced(g, body, exits + [h], s)
  {
    forall s | s in traced ensures Traced(g, body, exits + [h], s) {
      TracedGrows(g, body, exits, exits + [h], s);
    }
  }

  lemma SuccLower(c: Pool, x: Node, s: Node)
    requires Traversed(c) && Edge(Forward(c).g, x, s)
    ensures s < |c.forwardNumber| && x < |c.forwardNumber| && c.forwardNumber[s] < c.forwardNumber[x]
    ensures s in c.forwardOrder
  {
    LiveEdge(Forward(c), x, s);
  }

  /** Every block of the body is reached from the header by forward edges without leaving the body. */
  lemma BodyReachedInside(f: Flow, w: Graph, header: Node, block: Node, body: set<Node>, x: Node)
    requires Ok(f) && Live(f, x) && |w.succ| == |f.g.succ|
    requires forall a: Node, b: Node :: Edge(f.g, a, b) ==> Edge(w, a, b)
    requires forall z: Node :: z in body <==> InLoop(w, header, block, z)
    requires Dominating(w, f.root, header, block) && x in body
    ensures Inside(f.g, body, header, x)
  {
    LiveInRange(f, x);
    if x == header {
      assert Path(f.g, [x], x, x);
    } else {
      var q :| Path(w, q, x, block) && header !in q;
      var p :| Path(f.g, p, f.root, x);
      PathMonotone(f.g, w, p, f.root, x);
      PathJoin(w, p, f.root, x, q, block);
      assert header in p + q[1..];
      var p1, p2 := PathSplit(f.g, p, f.root, x, header);
      forall z | z in p2 ensures z in body {
        if z != header {
          var s := SuffixFrom(f.g, f.num, p2, header, x, z);
          PathMonotone(f.g, w, s, z, x);
          PathJoin(w, s, z, x, q, block);
          assert header !in s + q[1..];
        }
      }
    }
  }

  lemma ExitsComplete(c: Pool, header: Node, block: Node, body: set<Node>, exits: seq<Node>)
    requires Traversed(c) && header in c.forwardOrder && header in body
    requires forall x: Node :: x in body <==> InLoop(Whole(c), header, block, x)
    requires forall x: Node :: x in body ==> x in c.forwardOrder
    requires Dominating(Whole(c), c.entryBlock, header, block)
    requires Traced(Forward(c).g, body, exits, header)
    ensures forall x: Node, y: Node :: x in body && y !in body && Edge(Forward(c).g, x, y) ==> y in exits
  {
    hide Edge, Restrict, Mirrors, InLoop, Dominating;
    var g := Forward(c).g;
    WholeLength(c);
    forall x: Node, y: Node | x in body && y !in body && Edge(g, x, y) ensures y in exits {
      forall a: Node, b: Node | Edge(g, a, b) ensures Edge(Whole(c), a, b) {
        ForwardInWhole(c, a, b);
      }
      BodyReachedInside(Forward(c), Whole(c), header, block, body, x);
      assert ExitFrom(g, body, header, y);
    }
  }

  lemma WholeLength(c: Pool)
    requires Traversed(c)
    ensures |c.succ| == |c.succBackEdge| && |Whole(c).succ| == |Forward(c).g.succ|
  {}

  lemma {:induction false} PathMonotone(g: Graph, w: Graph, p: seq<Node>, a: Node, b: Node)
    requires Path(g, p, a, b) && |g.succ| == |w.succ|
    requires forall x: Node, y: Node :: Edge(g, x, y) ==> Edge(w, x, y)
    ensures Path(w, p, a, b)
    decreases |p|
  {
    if |p| > 1 {
      PathMonotone(g, w, p[1..], p[1], b);
    }
  }

  /** On an acyclic graph, what follows a later block of a walk does not contain its start. */
  lemma SuffixFrom(g: Graph, num: seq<nat>, p: seq<Node>, a: Node, b: Node, z: Node) returns (s: seq<Node>)
    requires Descending(g, num) && Path(g, p, a, b) && z in p && z != a
    ensures Path(g, s, z, b) && a !in s
  {
    var p1, p2 := PathSplit(g, p, a, b, z);
    PathDescends(g, num, p1, a, z);
    PathDescends(g, num, p2, z, b);
    s := p2;
  }

  /** The loop exits are exactly the forward successors of the body that lie outside it, each once. */
  method CollectLoopExits(c: Pool, header: Node, block: Node,
                          backtracer: LoopBacktracer) returns (tracer: LoopMergeTracer)
    requires Traversed(c) && header in c.forwardOrder && block in c.forwardOrder
    requires forall x: Node :: x in backtracer.tracedBlocks <==> InLoop(Whole(c), header, block, x)
    requires forall x: Node :: x in backtracer.tracedBlocks ==> x in c.forwardOrder
    requires Dominating(Whole(c), c.entryBlock, header, block)
    ensures fresh(tracer) && Distinct(tracer.loopExits)
    ensures forall y: Node :: y in tracer.loopExits <==>
              && y !in backtracer.tracedBlocks
              && exists x: Node :: x in backtracer.tracedBlocks && Edge(Forward(c).g, x, y)
  {
    hide Traversed, Edge, Restrict, InLoop, Dominating;
    TraversedNumbered(c);
    assert header in backtracer.tracedBlocks by {
      HeaderInLoop(Whole(c), header, block);
    }
    tracer := new LoopMergeTracer(backtracer);
    NothingTraced(Forward(c).g, backtracer.tracedBlocks);
    tracer.TraceFromParent(c, header);
    ExitsComplete(c, header, block, backtracer.tracedBlocks, tracer.loopExits);
  }

  lemma HeaderInLoop(w: Graph, header: Node, block: Node)
    ensures InLoop(w, header, block, header)
  {}

  lemma NothingTraced(g: Graph, body: set<Node>)
    ensures SoundExits(g, body, [])
  {}
}
