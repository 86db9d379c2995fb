/** The backward visit: the same depth-first numbering over the mirrored graph, rooted at the exit block. */
module Backwards {
  import opened Wrappers
  import opened Graphs
  import opened Lists
  import opened Dfs
  import opened Dominance
  import opened NodePool
  import opened FlowGraph
  import opened Traversal

  /** The blocks that control flow leaves the function from. */
  function LeafNodes(succ: seq<seq<Node>>, succBack: seq<Option<Node>>, order: seq<Node>): seq<Node>
    requires InRange(order, |succ|) && |succBack| == |succ|
  {
    if order == [] then []
    else if succ[order[0]] == [] && succBack[order[0]] == None then
      [order[0]] + LeafNodes(succ, succBack, order[1..])
    else LeafNodes(succ, succBack, order[1..])
  }

  lemma {:induction false} LeafNodesMembers(succ: seq<seq<Node>>, succBack: seq<Option<Node>>, order: seq<Node>)
    requires InRange(order, |succ|) && |succBack| == |succ|
    ensures forall x :: x in LeafNodes(succ, succBack, order) <==> x in order && succ[x] == [] && succBack[x] == None
  {
    if order != [] {
      LeafNodesMembers(succ, succBack, order[1..]);
      assert order == [order[0]] + order[1..];
    }
  }

  /** Every edge turned around, and an edge from the exit block to each leaf. */
  ghost function Mirror(pred: seq<seq<Node>>, order: seq<Node>, exit: Node, leaves: seq<Node>): Graph {
    Graph(seq(|pred|, x requires 0 <= x < |pred| => if x == exit then leaves else if x in order then pred[x] else []))
  }

  ghost function Backward(c: Pool): Flow
    requires InRange(c.forwardOrder, |c.succ|) && |c.succBackEdge| == |c.succ|
    reads c`succ, c`succBackEdge, c`pred, c`forwardOrder, c`exitBlock, c`backwardNumber
  {
    Flow(Mirror(c.pred, c.forwardOrder, c.exitBlock, LeafNodes(c.succ, c.succBackEdge, c.forwardOrder)),
         c.exitBlock, c.backwardNumber)
  }

  /** The columns that the backward visit writes. */
  datatype MirrorColumns = MirrorColumns(visited: seq<bool>, num: seq<nat>, order: seq<Node>)

  ghost function MirrorColumnsOf(c: Pool): MirrorColumns
    reads c
  {
    MirrorColumns(c.backwardVisited, c.backwardNumber, c.backwardOrder)
  }

  /** The columns hold the traversal `t`; the exit block itself counts as entered from the start. */
  ghost predicate Holds(k: MirrorColumns, m: Graph, exit: Node, t: Trav) {
    && Closed(m) && |k.visited| == |k.num| == |m.succ|
    && k.order == t.order
    && exit in t.visited
    && (forall x: Node :: x < |k.visited| && x != exit ==> (k.visited[x] <==> x in t.visited))
    && (forall x :: x in t.order ==> x in t.visited)
    && Numbers(k.num, t.order)
    && forall x: Node :: x < |m.succ| && x != exit ==> exit !in m.succ[x]
  }

  lemma EnterHolds(k: MirrorColumns, m: Graph, exit: Node, t: Trav, x: Node)
    requires Holds(k, m, exit, t) && x < |m.succ| && x !in t.visited
    ensures Holds(k.(visited := k.visited[x := true]), m, exit, t.(visited := t.visited + {x}))
  {}

  lemma FinishHolds(k: MirrorColumns, m: Graph, exit: Node, t: Trav, x: Node)
    requires Holds(k, m, exit, t) && x < |m.succ| && x in t.visited && x !in t.order
    ensures Holds(k.(num := k.num[x := |k.order|], order := k.order + [x]), m, exit, t.(order := t.order + [x]))
  {
    NumbersFinish(k.num, t.order, x);
  }

  /** The predecessor lists are the mirrored graph's edges, on a closed set of blocks. */
  ghost predicate Follows(pred: seq<seq<Node>>, m: Graph, live: set<Node>) {
    && |pred| == |m.succ|
    && forall z :: z in live ==> z < |pred| && pred[z] == m.succ[z] && forall i :: 0 <= i < |pred[z]| ==>
      pred[z][i] in live
  }

  method BackwardsVisit(c: Pool, x: Node, ghost m: Graph, ghost t: Trav, ghost live: set<Node>)
    requires Holds(MirrorColumnsOf(c), m, c.exitBlock, t) && x < |m.succ| && x !in t.visited && x !in t.order
    requires Follows(c.pred, m, live) && x in live
    modifies c`backwardVisited, c`backwardNumber, c`backwardOrder
    ensures Holds(MirrorColumnsOf(c), m, c.exitBlock, VisitNode(m, t, x))
    decreases Nodes(m) - t.visited
  {
    hide Grows;
    EnterHolds(MirrorColumnsOf(c), m, c.exitBlock, t, x);
    c.backwardVisited := c.backwardVisited[x := true];
    ghost var t1 := t.(visited := t.visited + {x});
    ghost var r1 := VisitAll(m, t1, m.succ[x]);
    ghost var s := t1;
    GrowsRefl(t1);
    var i := 0;
    assert m.succ[x][0..] == m.succ[x];
    while i < |c.pred[x]|
      invariant Holds(MirrorColumnsOf(c), m, c.exitBlock, s)
      invariant Grows(t1, s) && t1.visited <= s.visited && x !in s.order
      invariant i <= |m.succ[x]| && VisitAll(m, s, m.succ[x][i..]) == r1
    {
      var p := c.pred[x][i];
      assert m.succ[x][i..][1..] == m.succ[x][i + 1..];
      if !c.backwardVisited[p] {
        assert m.succ[x][i..][0] == p && p !in s.visited;
        VisitNodeGrows(m, s, p);
        GrowsTrans(t1, s, VisitNode(m, s, p));
        NewIsNew(t1, VisitNode(m, s, p), x);
        BackwardsVisit(c, p, m, s, live);
        s := VisitNode(m, s, p);
      }
      i := i + 1;
    }
    assert m.succ[x][i..] == [];
    FinishHolds(MirrorColumnsOf(c), m, c.exitBlock, s, x);
    c.backwardNumber := c.backwardNumber[x := |c.backwardOrder|];
    c.backwardOrder := c.backwardOrder + [x];
  }

  lemma NewIsNew(t: Trav, r: Trav, x: Node)
    requires Grows(t, r) && x in t.visited && x !in t.order
    ensures x !in r.order
  {
    assert r.order == t.order + r.order[|t.order|..];
  }

  // ---------------------------------------------------------------- the mirrored graph

  /** `m` is `f` turned around: the exit block leads to the leaves, every other edge is reversed. */
  ghost predicate Mirrored(m: Graph, exit: Node, f: Flow, order: seq<Node>) {
    && |m.succ| == |f.g.succ| && exit < |m.succ| && exit !in order
    && (forall y: Node :: Edge(m, exit, y) <==> y in order && Leaf(f.g, y))
    && (forall x: Node, y: Node :: x != exit ==> (Edge(m, x, y) <==> Edge(f.g, y, x)))
  }

  function Reverse(p: seq<Node>): seq<Node> {
    if p == [] then [] else Reverse(p[1..]) + [p[0]]
  }

  lemma {:induction false} ReverseMembers(p: seq<Node>)
    ensures forall x :: x in Reverse(p) <==> x in p
  {
    if p != [] {
      ReverseMembers(p[1..]);
      assert p == [p[0]] + p[1..];
    }
  }

  /** A walk in one graph, read backwards, is a walk in the other. */
  lemma {:induction false} PathReverse(g: Graph, m: Graph, p: seq<Node>, a: Node, b: Node)
    requires Path(g, p, a, b) && |m.succ| == |g.succ|
    requires forall i :: 0 <= i < |p| - 1 && Edge(g, p[i], p[i + 1]) ==> Edge(m, p[i + 1], p[i])
    ensures Path(m, Reverse(p), b, a)
    decreases |p|
  {
    PathLast(g, p, a, b);
    if |p| == 1 {
      assert p == [a] && Reverse(p[1..]) == [];
    } else {
      var q := p[1..];
      forall i | 0 <= i < |q| - 1 && Edge(g, q[i], q[i + 1]) ensures Edge(m, q[i + 1], q[i]) {
        assert q[i] == p[i + 1] && q[i + 1] == p[i + 1 + 1];
      }
      PathReverse(g, m, q, p[1], b);
      assert Edge(m, p[0 + 1], p[0]);
      PathSnoc(m, Reverse(q), b, p[1], a);
    }
  }

  /** A walk in the flow graph from a live block is a walk of the mirrored graph, read backwards. */
  lemma ReverseToMirror(m: Graph, exit: Node, f: Flow, order: seq<Node>, p: seq<Node>, a: Node, b: Node)
    requires Mirrored(m, exit, f, order) && Numbered(f, order) && Path(f.g, p, a, b) && a in order
    ensures Path(m, Reverse(p), b, a) && b in order
  {
    forall i | 0 <= i < |p| - 1 && Edge(f.g, p[i], p[i + 1]) ensures Edge(m, p[i + 1], p[i]) {
      LiveEdge(f, p[i], p[i + 1]);
    }
    PathReverse(f.g, m, p, a, b);
    forall x: Node, y: Node | Edge(f.g, x, y) ensures y in order {
      LiveEdge(f, x, y);
    }
    PathStays(f.g, p, a, b, order);
  }

  /** The converse, for walks that do not start at the exit block. */
  lemma {:induction false} ReverseFromMirror(m: Graph, exit: Node, f: Flow, order: seq<Node>, p: seq<Node>, a: Node,
                                             b: Node)
    requires Mirrored(m, exit, f, order) && Numbered(f, order) && Path(m, p, a, b) && a in order
    ensures Path(f.g, Reverse(p), b, a) && b in order && exit !in p
    decreases |p|
  {
    PathLast(m, p, a, b);
    if |p| == 1 {
      assert p == [a] && Reverse(p[1..]) == [];
    } else {
      LiveEdge(f, p[1], a);
      ReverseFromMirror(m, exit, f, order, p[1..], p[1], b);
      PathSnoc(f.g, Reverse(p[1..]), b, p[1], a);
      assert p == [a] + p[1..];
    }
  }

  /** A numbering that the mirrored graph descends: the forward one, upside down. */
  ghost function Inverted(f: Flow, order: seq<Node>, exit: Node): seq<nat> {
    seq(|f.num|, x requires 0 <= x < |f.num| =>
      if x == exit then |order| + 1 else if f.num[x] < |order| then |order| - f.num[x] else 0)
  }

  lemma MirrorDescends(m: Graph, exit: Node, f: Flow, order: seq<Node>)
    requires Mirrored(m, exit, f, order) && Numbered(f, order)
    ensures Descending(m, Inverted(f, order, exit))
  {
    var inv := Inverted(f, order, exit);
    forall x: Node, y: Node | Edge(m, x, y) ensures y < |m.succ| && inv[x] > inv[y] {
      if x == exit {
        OrderedByNumber(f, order, y);
      } else {
        LiveEdge(f, y, x);
        OrderedByNumber(f, order, y);
        OrderedByNumber(f, order, x);
      }
    }
    forall x: Node | x < |m.succ| ensures InRange(m.succ[x], |m.succ|) {
      forall i | 0 <= i < |m.succ[x]| ensures m.succ[x][i] < |m.succ| {
        assert Edge(m, x, m.succ[x][i]);
      }
    }
  }

  /** A depth-first visit of an acyclic graph finds no back edge. */
  lemma NoBackEdges(g: Graph, num: seq<nat>, root: Node, x: Node, y: Node)
    requires Descending(g, num) && root < |g.succ|
    requires x in Order(g, root) && Edge(g, x, y)
    ensures Before(Order(g, root), y, x)
  {
    var order := Order(g, root);
    OrderFacts(g, root);
    if !Before(order, y, x) {
      var i, j := Index(order, x), Index(order, y);
      assert order[i..][j - i] == y;
      VisitNodeCycles(g, Start(), root, g, order, i);
      ReachDescends(g, num, y, x);
      assert false;
    }
  }

  /** The backward visit reaches every live block, so that it numbers the whole mirrored graph. */
  lemma MirrorFlow(m: Graph, exit: Node, f: Flow, order: seq<Node>, num: seq<nat>)
    requires Mirrored(m, exit, f, order) && Numbered(f, order)
    requires Closed(m) && |num| == |m.succ| && Numbers(num, Order(m, exit))
    ensures Numbered(Flow(m, exit, num), Order(m, exit))
    ensures forall x :: x in Order(m, exit) <==> x == exit || x in order
  {
    MirrorDescends(m, exit, f, order);
    var back := Order(m, exit);
    OrderFacts(m, exit);
    forall x | x in order ensures x in back {
      LiveInRange(f, x);
      var p, l := ReachesLeaf(f.g, f.num, x);
      ReverseToMirror(m, exit, f, order, p, x, l);
      assert Edge(m, exit, l);
      PathCons(m, exit, Reverse(p), l, x);
      var q := [exit] + Reverse(p);
      PathStays(m, q, exit, x, back);
    }
    forall x: Node, y: Node ensures Edge(m, x, y) <==> x in back && Edge(m, x, y) && Before(back, y, x) {
      if Edge(m, x, y) {
        if x != exit { LiveEdge(f, y, x); }
        NoBackEdges(m, Inverted(f, order, exit), exit, x, y);
      }
    }
    FlowIsOk(Flow(m, exit, num), m, back, exit);
    forall x | x in back ensures x == exit || x in order {
      var p :| Path(m, p, exit, x);
      if x != exit {
        var q, w := PathLastEdge(m, p, exit, x);
        if w != exit { LiveEdge(f, x, w); }
      }
    }
  }

  // ---------------------------------------------------------------- post-dominance

  /** `a` lies on every walk from `x` to a leaf. */
  ghost predicate PostDom(g: Graph, a: Node, x: Node) {
    forall p: seq<Node>, l: Node :: Path(g, p, x, l) && Leaf(g, l) ==> a in p
  }

  lemma PostDomRefl(g: Graph, x: Node)
    ensures PostDom(g, x, x)
  {
    forall p: seq<Node>, l: Node | Path(g, p, x, l) && Leaf(g, l) ensures x in p {
      PathLast(g, p, x, l);
    }
  }

  /** Post-dominance is dominance in the mirrored graph. */
  lemma PostDomIsMirrorDom(m: Graph, exit: Node, f: Flow, order: seq<Node>, num: seq<nat>, a: Node, x: Node)
    requires Mirrored(m, exit, f, order) && Numbered(f, order) && x in order && a != exit
    ensures PostDom(f.g, a, x) <==> Dom(Flow(m, exit, num), a, x)
  {
    var back := Flow(m, exit, num);
    if Dom(back, a, x) {
      forall p: seq<Node>, l: Node | Path(f.g, p, x, l) && Leaf(f.g, l) ensures a in p {
        ReverseToMirror(m, exit, f, order, p, x, l);
        assert Edge(m, exit, l);
        PathCons(m, exit, Reverse(p), l, x);
        ReverseMembers(p);
        assert a in [exit] + Reverse(p);
      }
    }
    if PostDom(f.g, a, x) {
      forall q: seq<Node> | Path(m, q, exit, x) ensures a in q {
        var p, l := q[1..], q[1];
        ReverseFromMirror(m, exit, f, order, p, l, x);
        ReverseMembers(p);
        assert q == [exit] + p;
      }
    }
  }

  // ---------------------------------------------------------------- the whole backward visit

  /** Every live block that no forward edge leaves is a leaf, not the end of an infinite loop. */
  ghost predicate EveryLoopExits(c: Pool)
    requires InRange(c.forwardOrder, |c.succ|) && |c.succBackEdge| == |c.succ|
    reads c`succ, c`succBackEdge, c`forwardOrder
  {
    forall x: Node :: x in c.forwardOrder && c.succ[x] == [] ==> c.succBackEdge[x] == None
  }

  /** A leaf is not the predecessor of anything, so no other leaf's visit has entered it. */
  lemma LeafStillNew(m: Graph, exit: Node, t: Trav, xs: seq<Node>, y: Node)
    requires Closed(m) && InRange(xs, |m.succ|)
    requires y !in t.visited && y !in xs
    requires forall x: Node :: Edge(m, x, y) ==> x in t.visited
    ensures y !in VisitAll(m, t, xs).visited
  {
    VisitAllGrows(m, t, xs);
    var r := VisitAll(m, t, xs);
    if y in r.visited {
      assert y in New(t, r);
      assert Keeps(m, m, r.order);
      VisitAllEnters(m, t, xs, y);
    }
  }

  /** A block that a visit enters is one of its roots or the successor of a block it enters. */
  lemma {:induction false} VisitAllEnters(m: Graph, t: Trav, xs: seq<Node>, y: Node)
    requires Closed(m) && InRange(xs, |m.succ|)
    requires y !in t.visited && y in VisitAll(m, t, xs).visited
    ensures y in xs || exists x: Node :: x !in t.visited && Edge(m, x, y)
    decreases Nodes(m) - t.visited, 1, xs
  {
    if xs[0] in t.visited {
      VisitAllEnters(m, t, xs[1..], y);
    } else {
      var s := VisitNode(m, t, xs[0]);
      if y in s.visited {
        if y != xs[0] {
          VisitAllEnters(m, t.(visited := t.visited + {xs[0]}), m.succ[xs[0]], y);
          assert y in m.succ[xs[0]] ==> Edge(m, xs[0], y);
        }
      } else {
        VisitAllEnters(m, s, xs[1..], y);
      }
    }
  }

  lemma {:induction false} VisitAllSnoc(m: Graph, t: Trav, xs: seq<Node>, y: Node)
    requires Closed(m) && InRange(xs, |m.succ|) && y < |m.succ| && y !in VisitAll(m, t, xs).visited
    ensures InRange(xs + [y], |m.succ|)
    ensures VisitAll(m, t, xs + [y]) == VisitNode(m, VisitAll(m, t, xs), y)
    decreases Nodes(m) - t.visited, 1, xs
  {
    if xs == [] {
      assert xs + [y] == [y];
      assert [y][1..] == [];
    } else {
      assert (xs + [y])[1..] == xs[1..] + [y];
      if xs[0] in t.visited {
        VisitAllSnoc(m, t, xs[1..], y);
      } else {
        VisitAllSnoc(m, VisitNode(m, t, xs[0]), xs[1..], y);
      }
    }
  }

  lemma OrderInRange(f: Flow, order: seq<Node>)
    requires Numbered(f, order)
    ensures InRange(order, |f.g.succ|) && |order| <= |f.g.succ|
  {
    forall i | 0 <= i < |order| ensures order[i] < |f.g.succ| {
      assert order[i] in order;
      LiveInRange(f, order[i]);
    }
    DistinctFits(order, |f.g.succ|);
  }

  lemma {:induction false} DistinctFits(s: seq<Node>, n: nat)
    requires Distinct(s) && InRange(s, n)
    ensures |s| <= n
    decreases n
  {
    if n == 0 {
      assert s == [];
    } else {
      var e := Erase(s, n - 1);
      EraseMembers(s, n - 1);
      forall i | 0 <= i < |e| ensures e[i] < n - 1 {
        assert e[i] in e;
        var j := Index(s, e[i]);
        assert s[j] < n;
      }
      EraseLength(s, n - 1);
      DistinctFits(e, n - 1);
    }
  }

  lemma {:induction false} EraseLength<T>(s: seq<T>, y: T)
    ensures |Erase(s, y)| == if y in s then |s| - 1 else |s|
  {
    if s != [] {
      EraseLength(s[1..], y);
      assert s == [s[0]] + s[1..];
    }
  }

  /** The mirrored graph of the pool's columns is the forward flow graph turned around. */
  lemma ColumnsMirrored(pred: seq<seq<Node>>, succ: seq<seq<Node>>, succBack: seq<Option<Node>>,
                        f: Flow, order: seq<Node>, exit: Node, leaves: seq<Node>)
    requires Numbered(f, order) && f.g == Restrict(succ, order) && Mirrors(pred, f.g, order)
    requires |succBack| == |succ| && InRange(order, |succ|) && exit < |succ| && exit !in order
    requires forall x: Node :: x in order && succ[x] == [] ==> succBack[x] == None
    requires leaves == LeafNodes(succ, succBack, order)
    ensures Mirrored(Mirror(pred, order, exit, leaves), exit, f, order)
    ensures Closed(Mirror(pred, order, exit, leaves)) && InRange(leaves, |succ|)
    ensures forall x: Node :: x < |pred| && x != exit ==> exit !in Mirror(pred, order, exit, leaves).succ[x]
  {
    LeafNodesMembers(succ, succBack, order);
    var m := Mirror(pred, order, exit, leaves);
    forall x: Node, y: Node | x != exit ensures Edge(m, x, y) <==> Edge(f.g, y, x) {
      if Edge(f.g, y, x) {
        LiveEdge(f, y, x);
      }
    }
    forall i | 0 <= i < |leaves| ensures leaves[i] < |succ| {
      assert leaves[i] in leaves;
    }
    forall x: Node | x < |m.succ| && x != exit ensures exit !in m.succ[x] && InRange(m.succ[x], |m.succ|) {
      if exit in m.succ[x] {
        assert Edge(m, x, exit);
        LiveEdge(f, exit, x);
      }
      forall i | 0 <= i < |m.succ[x]| ensures m.succ[x][i] < |m.succ| {
        assert Edge(m, x, m.succ[x][i]);
      }
    }
  }

  lemma {:induction false} LeafNodesDistinct(succ: seq<seq<Node>>, succBack: seq<Option<Node>>, order: seq<Node>)
    requires InRange(order, |succ|) && |succBack| == |succ| && Distinct(order)
    ensures Distinct(LeafNodes(succ, succBack, order))
  {
    if order != [] {
      DistinctSlice(order, 1, |order|);
      assert order[1..|order|] == order[1..] && order[..1] == [order[0]];
      LeafNodesDistinct(succ, succBack, order[1..]);
      LeafNodesMembers(succ, succBack, order[1..]);
      DistinctByPairs([order[0]]);
      if succ[order[0]] == [] && succBack[order[0]] == None {
        DistinctConcat([order[0]], LeafNodes(succ, succBack, order[1..]));
      }
    }
  }

  ghost function MirrorStart(exit: Node): Trav {
    Trav({exit}, [])
  }

  lemma MirrorOrder(m: Graph, exit: Node)
    requires Closed(m) && exit < |m.succ|
    ensures Order(m, exit) == VisitAll(m, MirrorStart(exit), m.succ[exit]).order + [exit]
  {
    assert Start().(visited := Start().visited + {exit}) == MirrorStart(exit);
  }

  method VisitLeaves(c: Pool, leaves: seq<Node>, ghost m: Graph, ghost live: set<Node>)
    requires c.Shape() && Holds(MirrorColumnsOf(c), m, c.exitBlock, MirrorStart(c.exitBlock))
             && m.succ[c.exitBlock] == leaves
    requires Follows(c.pred, m, live) && forall x :: x in leaves ==> x in live
    requires Distinct(leaves) && InRange(leaves, |m.succ|) && c.exitBlock !in leaves
    requires forall x: Node, y: Node :: y in leaves && Edge(m, x, y) ==> x == c.exitBlock
    modifies c`backwardVisited, c`backwardNumber, c`backwardOrder
    ensures Holds(MirrorColumnsOf(c), m, c.exitBlock, VisitAll(m, MirrorStart(c.exitBlock), leaves))
  {
    ghost var t := MirrorStart(c.exitBlock);
    var i := 0;
    assert leaves[..0] == [];
    while i < |leaves|
      invariant i <= |leaves| && InRange(leaves[..i], |m.succ|)
      invariant Holds(MirrorColumnsOf(c), m, c.exitBlock, VisitAll(m, t, leaves[..i]))
    {
      var l := leaves[i];
      assert l !in leaves[..i] by {
        DistinctSlice(leaves, i, i + 1);
        assert l in leaves[i..i + 1];
      }
      assert l in leaves;
      LeafStillNew(m, c.exitBlock, t, leaves[..i], l);
      VisitAllSnoc(m, t, leaves[..i], l);
      assert leaves[..i + 1] == leaves[..i] + [l];
      BackwardsVisit(c, l, m, VisitAll(m, t, leaves[..i]), live);
      i := i + 1;
    }
    assert leaves[..i] == leaves;
  }

  /** What the whole backward visit establishes, for the flow graph `f` of the forward visit. */
  ghost predicate MirrorNumbered(c: Pool, f: Flow)
    requires InRange(c.forwardOrder, |c.succ|) && |c.succBackEdge| == |c.succ|
    reads c`succ, c`succBackEdge, c`pred, c`forwardOrder, c`exitBlock, c`backwardNumber, c`backwardOrder
  {
    && Mirrored(Backward(c).g, c.exitBlock, f, c.forwardOrder)
    && Numbered(Backward(c), c.backwardOrder + [c.exitBlock])
    && c.exitBlock !in c.backwardOrder
  }

  ghost predicate Unset(v: seq<bool>, v0: seq<bool>, xs: seq<Node>) {
    |v| == |v0| && forall x: Node :: x < |v| ==> v[x] == (x !in xs && v0[x])
  }

  lemma UnsetStep(v: seq<bool>, v0: seq<bool>, xs: seq<Node>, x: Node)
    requires Unset(v, v0, xs) && x < |v|
    ensures Unset(v[x := false], v0, xs + [x])
  {}

  /** Clears what an earlier traversal left on the live blocks, and lists the leaves among them. */
  method CollectLeaves(c: Pool) returns (leafNodes: seq<Node>)
    requires c.Shape() && InRange(c.forwardOrder, |c.succ|)
    modifies c`backwardVisited, c`traversing
    ensures c.Shape() && Unset(c.backwardVisited, old(c.backwardVisited), c.forwardOrder)
    ensures leafNodes == LeafNodes(c.succ, c.succBackEdge, c.forwardOrder)
  {
    hide Unset;
    ghost var order := c.forwardOrder;
    ghost var visited0 := c.backwardVisited;
    leafNodes := [];
    var i := 0;
    assert order[..0] == [] && order[0..] == order;
    UnsetNone(visited0);
    while i < |c.forwardOrder|
      invariant i <= |order| && |c.backwardVisited| == |c.traversing| == |c.succ|
      invariant Unset(c.backwardVisited, visited0, order[..i])
      invariant leafNodes + LeafNodes(c.succ, c.succBackEdge, order[i..]) == LeafNodes(c.succ, c.succBackEdge, order)
    {
      var x := c.forwardOrder[i];
      assert order[i..][1..] == order[i + 1..] && order[i..][0] == x;
      assert order[..i + 1] == order[..i] + [x];
      UnsetStep(c.backwardVisited, visited0, order[..i], x);
      c.backwardVisited := c.backwardVisited[x := false];
      c.traversing := c.traversing[x := false];
      if c.succ[x] == [] && c.succBackEdge[x] == None {
        leafNodes := leafNodes + [x];
      }
      i := i + 1;
    }
    assert order[..i] == order && order[i..] == [];
  }

  lemma UnsetAll(v: seq<bool>, v0: seq<bool>, xs: seq<Node>)
    requires Unset(v, v0, xs) && forall x: Node :: x < |v0| ==> !v0[x]
    ensures |v| == |v0| && forall x: Node :: x < |v| ==> !v[x]
  {}

  lemma UnsetNone(v: seq<bool>)
    ensures Unset(v, v, [])
  {}

  /** Leaves are post-dominated by the exit block and nothing closer. */
  method ExitLeaves(c: Pool, leafNodes: seq<Node>)
    requires InRange(leafNodes, |c.immediatePostDominator|) && c.exitBlock < |c.immediatePostDominator|
    modifies c`immediatePostDominator
    ensures |c.immediatePostDominator| == old(|c.immediatePostDominator|)
    ensures c.immediatePostDominator[c.exitBlock] == Some(c.exitBlock)
    ensures forall x: Node :: x in leafNodes ==>
              x < |c.immediatePostDominator| && c.immediatePostDominator[x] == Some(c.exitBlock)
  {
    c.immediatePostDominator := c.immediatePostDominator[c.exitBlock := Some(c.exitBlock)];
    var i := 0;
    while i < |leafNodes|
      invariant i <= |leafNodes| && |c.immediatePostDominator| == old(|c.immediatePostDominator|)
      invariant c.immediatePostDominator[c.exitBlock] == Some(c.exitBlock)
      invariant forall x: Node :: x in leafNodes[..i] ==>
                  x < |c.immediatePostDominator| && c.immediatePostDominator[x] == Some(c.exitBlock)
    {
      assert leafNodes[..i + 1] == leafNodes[..i] + [leafNodes[i]];
      c.immediatePostDominator := c.immediatePostDominator[leafNodes[i] := Some(c.exitBlock)];
      i := i + 1;
    }
    assert leafNodes[..i] == leafNodes;
  }

  lemma MirrorReady(pred: seq<seq<Node>>, succ: seq<seq<Node>>, succBack: seq<Option<Node>>,
                    f: Flow, order: seq<Node>, exit: Node, leaves: seq<Node>, m: Graph)
    requires Numbered(f, order) && f.g == Restrict(succ, order) && Mirrors(pred, f.g, order)
    requires |succBack| == |succ| && InRange(order, |succ|) && exit < |succ| && exit !in order
    requires forall x: Node :: x in order && succ[x] == [] ==> succBack[x] == None
    requires leaves == LeafNodes(succ, succBack, order) && m == Mirror(pred, order, exit, leaves)
    ensures Mirrored(m, exit, f, order) && Closed(m) && |m.succ| == |pred|
    ensures Distinct(leaves) && InRange(leaves, |m.succ|) && exit !in leaves && m.succ[exit] == leaves
    ensures forall x :: x in leaves ==> x in order
    ensures forall x: Node, y: Node :: y in leaves && Edge(m, x, y) ==> x == exit
    ensures Follows(pred, m, set x | x in order)
    ensures forall x: Node :: x < |m.succ| && x != exit ==> exit !in m.succ[x]
  {
    ColumnsMirrored(pred, succ, succBack, f, order, exit, leaves);
    LeafNodesMembers(succ, succBack, order);
    LeafNodesDistinct(succ, succBack, order);
    forall x: Node, y: Node | y in leaves && Edge(m, x, y) ensures x == exit {
      assert x != exit ==> Edge(f.g, y, x);
    }
    forall z, i | z in order && z < |pred| && 0 <= i < |pred[z]| ensures pred[z][i] in order {
      assert pred[z][i] in pred[z];
      LiveEdge(f, pred[z][i], z);
    }
    forall z | z in order ensures z < |pred| {
      LiveInRange(f, z);
    }
  }

  /** Visits from every leaf, and numbers the exit block last. */
  method VisitFromExit(c: Pool, leafNodes: seq<Node>, ghost m: Graph, ghost live: set<Node>)
    requires c.Shape() && |m.succ| == |c.succ| && Holds(MirrorColumnsOf(c), m, c.exitBlock, MirrorStart(c.exitBlock))
    requires m.succ[c.exitBlock] == leafNodes
    requires Follows(c.pred, m, live) && forall x :: x in leafNodes ==> x in live
    requires Distinct(leafNodes) && InRange(leafNodes, |m.succ|) && c.exitBlock !in leafNodes
    requires forall x: Node, y: Node :: y in leafNodes && Edge(m, x, y) ==> x == c.exitBlock
    modifies c`backwardVisited, c`backwardNumber, c`backwardOrder
    ensures |c.backwardVisited| == |c.backwardNumber| == |m.succ|
    ensures Closed(m) && c.exitBlock !in c.backwardOrder && Order(m, c.exitBlock) == c.backwardOrder + [c.exitBlock]
    ensures Numbers(c.backwardNumber, c.backwardOrder + [c.exitBlock])
  {
    hide Follows;
    VisitLeaves(c, leafNodes, m, live);
    ExitHolds(MirrorColumnsOf(c), m, c.exitBlock);
    c.backwardNumber := c.backwardNumber[c.exitBlock := |c.backwardOrder|];
    c.backwardVisited := c.backwardVisited[c.exitBlock := true];
  }

  method BackwardsVisitAll(c: Pool, ghost f: Flow)
    requires c.Shape() && f == Forward(c) && Numbered(f, c.forwardOrder) && InRange(c.forwardOrder, |c.succ|)
    requires Mirrors(c.pred, f.g, c.forwardOrder) && c.exitBlock !in c.forwardOrder && EveryLoopExits(c)
    requires c.backwardOrder == [] && forall x: Node :: x < |c.succ| ==> !c.backwardVisited[x]
    modifies c`backwardVisited, c`traversing, c`backwardNumber, c`backwardOrder, c`immediatePostDominator
    ensures c.Shape() && MirrorNumbered(c, f)
    ensures c.immediatePostDominator[c.exitBlock] == Some(c.exitBlock)
    ensures forall x: Node :: x in c.forwardOrder && c.succ[x] == [] ==>
              c.immediatePostDominator[x] == Some(c.exitBlock)
  {
    hide Numbered, Mirrored, Mirrors, Follows, Restrict, Mirror, Holds, Numbers, Unset, LeafNodes;
    ghost var order := c.forwardOrder;
    ghost var leaves := LeafNodes(c.succ, c.succBackEdge, order);
    ghost var m := Backward(c).g;
    MirrorReady(c.pred, c.succ, c.succBackEdge, f, order, c.exitBlock, leaves, m);
    LeafNodesMembers(c.succ, c.succBackEdge, order);

    ghost var visited0 := c.backwardVisited;
    var leafNodes := CollectLeaves(c);
    UnsetAll(c.backwardVisited, visited0, order);
    StartHolds(MirrorColumnsOf(c), m, c.exitBlock);
    VisitFromExit(c, leafNodes, m, set x | x in order);
    ExitLeaves(c, leafNodes);
    MirrorFlow(m, c.exitBlock, f, order, c.backwardNumber);
  }

  lemma StartHolds(k: MirrorColumns, m: Graph, exit: Node)
    requires Closed(m) && |k.visited| == |k.num| == |m.succ| && k.order == []
    requires forall x: Node :: x < |k.visited| ==> !k.visited[x]
    requires forall x: Node :: x < |m.succ| && x != exit ==> exit !in m.succ[x]
    ensures Holds(k, m, exit, MirrorStart(exit))
  {}

  lemma ExitHolds(k: MirrorColumns, m: Graph, exit: Node)
    requires Closed(m) && exit < |m.succ| && Holds(k, m, exit, VisitAll(m, MirrorStart(exit), m.succ[exit]))
    ensures |k.num| == |m.succ| && exit !in k.order && Order(m, exit) == k.order + [exit]
    ensures Numbers(k.num[exit := |k.order|], k.order + [exit])
  {
    MirrorOrder(m, exit);
    VisitAllGrows(m, MirrorStart(exit), m.succ[exit]);
    NewIsNew(MirrorStart(exit), VisitAll(m, MirrorStart(exit), m.succ[exit]), exit);
    NumbersFinish(k.num, k.order, exit);
  }
}
