/** The depth-first visit that numbers the blocks and takes the back edges out of the graph, and the reset that puts
    them back. */
module Traversal {
  import opened Wrappers
  import opened Graphs
  import opened Lists
  import opened Dfs
  import opened NodePool
  import opened Dominance
  import opened FlowGraph

  function EraseEdge(xs: seq<Node>, edge: Option<Node>): seq<Node> {
    match edge
    case None => xs
    case Some(y) => Erase(xs, y)
  }

  /** The columns that the visit writes. */
  datatype Columns = Columns(
    succ: seq<seq<Node>>, pred: seq<seq<Node>>, succBack: seq<Option<Node>>, predBack: seq<Option<Node>>,
    visited: seq<bool>, traversing: seq<bool>, reachable: set<Node>, num: seq<nat>, order: seq<Node>)

  ghost function ColumnsOf(c: Pool): Columns
    reads c
  {
    Columns(c.succ, c.pred, c.succBackEdge, c.predBackEdge,
            c.visited, c.traversing, c.reachableNodes, c.forwardNumber, c.forwardOrder)
  }

  /** The visit flags, numbers and order are those of the traversal `t`. */
  ghost predicate Holds(k: Columns, g: Graph, t: Trav) {
    && Closed(g) && |k.succ| == |k.pred| == |k.visited| == |k.traversing| == |k.num| == |g.succ|
    && k.order == t.order
    && k.reachable == t.visited
    && (forall x :: x in t.order ==> x in t.visited)
    && (forall x :: x in t.visited ==> x < |g.succ|)
    && Flags(k.visited, k.traversing, t)
    && Numbers(k.num, t.order)
  }

  ghost predicate Flags(visited: seq<bool>, traversing: seq<bool>, t: Trav)
    requires |visited| == |traversing|
  {
    forall x: Node :: x < |visited| ==>
      (visited[x] <==> x in t.visited) && (traversing[x] <==> x in t.visited && x !in t.order)
  }

  /** A finished block has its back edge taken out of its list; every other block has its original list. */
  ghost predicate Erased(adj: seq<seq<Node>>, adj0: seq<seq<Node>>, back: seq<Option<Node>>, order: seq<Node>) {
    && |adj| == |adj0| == |back|
    && forall x: Node :: x < |adj| ==> adj[x] == if x in order then EraseEdge(adj0[x], back[x]) else adj0[x]
  }

  /** The column `back` records an edge between `x` and `y`. */
  ghost predicate Records(back: seq<Option<Node>>, x: Node, y: Node) {
    x < |back| && back[x] == Some(y)
  }

  /** The recorded back edges are back edges of the final order, and agree at both ends. */
  ghost predicate Sound(sb: seq<Option<Node>>, pb: seq<Option<Node>>, g: Graph, final: seq<Node>) {
    && |sb| == |pb| == |g.succ|
    && (forall x: Node, y: Node :: Records(sb, x, y) ==> BackEdge(g, final, x, y) && Records(pb, y, x))
    && (forall x: Node, y: Node :: Records(pb, y, x) ==> Records(sb, x, y))
  }

  /** Every edge from `x` to one of `ys` is either kept or recorded as its back edge. */
  ghost predicate Settled(back: Option<Node>, final: seq<Node>, x: Node, ys: seq<Node>) {
    forall i :: 0 <= i < |ys| ==> Before(final, ys[i], x) || back == Some(ys[i])
  }

  ghost predicate Complete(sb: seq<Option<Node>>, g: Graph, final: seq<Node>, order: seq<Node>) {
    |sb| == |g.succ| && forall x: Node :: x in order && x < |sb| ==> Settled(sb[x], final, x, g.succ[x])
  }

  lemma SettledNone(back: Option<Node>, final: seq<Node>, x: Node)
    ensures Settled(back, final, x, [])
  {}

  lemma SettledKept(back: Option<Node>, final: seq<Node>, x: Node, ys: seq<Node>, y: Node)
    requires Settled(back, final, x, ys) && Before(final, y, x)
    ensures Settled(back, final, x, ys + [y])
  {}

  lemma SettledBack(back: Option<Node>, final: seq<Node>, x: Node, ys: seq<Node>, y: Node)
    requires Settled(back, final, x, ys) && (back == None || back == Some(y))
    ensures Settled(Some(y), final, x, ys + [y])
  {}

  lemma SoundStep(sb: seq<Option<Node>>, pb: seq<Option<Node>>, g: Graph, final: seq<Node>, x: Node, y: Node)
    requires Sound(sb, pb, g, final) && SingleBackEdges(g, final)
    requires BackEdge(g, final, x, y) && x < |sb| && y < |pb|
    ensures sb[x] == None || sb[x] == Some(y)
    ensures pb[y] == None || pb[y] == Some(x)
    ensures Sound(sb[x := Some(y)], pb[y := Some(x)], g, final)
  {
    var sb', pb' := sb[x := Some(y)], pb[y := Some(x)];
    assert BackEdge(g, final, x, y);
    if sb[x].Some? {
      assert Records(sb, x, sb[x].value);
    }
    if pb[y].Some? {
      assert Records(pb, y, pb[y].value);
    }
    forall u: Node, v: Node | Records(sb', u, v) ensures BackEdge(g, final, u, v) && Records(pb', v, u) {
      if u != x { assert Records(sb, u, v); }
    }
    forall u: Node, v: Node | Records(pb', v, u) ensures Records(sb', u, v) {
      if v != y { assert Records(pb, v, u); }
    }
  }

  lemma StackIsLater(g: Graph, t: Trav, x: Node, y: Node, final: seq<Node>)
    requires Closed(g) && x < |g.succ| && x !in t.visited
    requires VisitNode(g, t, x).order <= final && Distinct(final)
    requires y == x || (y in t.visited && y !in t.order)
    ensures !Before(final, y, x) && x in final
  {
    var t1 := t.(visited := t.visited + {x});
    var r1 := VisitAll(g, t1, g.succ[x]);
    NewOfNode(g, t, x);
    VisitAllGrows(g, t1, g.succ[x]);
    assert final[|r1.order|] == x && final[..|r1.order|] == r1.order == t.order + New(t1, r1);
    BeforeAt(final, |r1.order|);
  }

  lemma FinishedIsEarlier(g: Graph, t: Trav, x: Node, y: Node, final: seq<Node>, m: Trav)
    requires Closed(g) && x < |g.succ| && x !in t.visited
    requires VisitNode(g, t, x).order <= final && Distinct(final) && y in m.order
    requires m.order <= VisitAll(g, t.(visited := t.visited + {x}), g.succ[x]).order
    ensures Before(final, y, x)
  {
    NewOfNode(g, t, x);
    var r1 := VisitAll(g, t.(visited := t.visited + {x}), g.succ[x]);
    assert final[|r1.order|] == x && final[..|r1.order|] == r1.order;
    BeforeAt(final, |r1.order|);
  }

  /** Everything the visit maintains between two of its steps. */
  ghost predicate State(k: Columns, g: Graph, pred0: seq<seq<Node>>, t: Trav, final: seq<Node>) {
    && Holds(k, g, t)
    && Erased(k.succ, g.succ, k.succBack, t.order)
    && Erased(k.pred, pred0, k.predBack, t.order)
    && Sound(k.succBack, k.predBack, g, final)
    && Complete(k.succBack, g, final, t.order)
  }

  ghost predicate Agree(a: seq<Option<Node>>, b: seq<Option<Node>>, on: set<Node>) {
    |a| == |b| && forall z: Node :: z in on && z < |a| ==> a[z] == b[z]
  }

  /** What a state says about the columns of one block. */
  lemma StateShape(k: Columns, g: Graph, pred0: seq<seq<Node>>, t: Trav, final: seq<Node>, x: Node)
    requires State(k, g, pred0, t, final)
    ensures Closed(g) && k.order == t.order
    ensures |k.succ| == |k.pred| == |k.visited| == |k.traversing| == |k.num| == |k.succBack| == |k.predBack| == |g.succ|
    ensures x in t.order ==> x in t.visited
    ensures x < |g.succ| ==>
              && (k.visited[x] <==> x in t.visited)
              && (k.traversing[x] <==> x in t.visited && x !in t.order)
              && (x !in t.order ==> k.succ[x] == g.succ[x])
  {}

  lemma EnterState(k: Columns, g: Graph, pred0: seq<seq<Node>>, t: Trav, final: seq<Node>, x: Node)
    requires State(k, g, pred0, t, final) && x < |g.succ| && x !in t.visited
    ensures State(k.(visited := k.visited[x := true], traversing := k.traversing[x := true],
                     reachable := k.reachable + {x}), g, pred0, t.(visited := t.visited + {x}), final)
  {}

  ghost function Recorded(k: Columns, x: Node, s: Node): Columns
    requires x < |k.succBack| && s < |k.predBack|
  {
    k.(succBack := k.succBack[x := Some(s)], predBack := k.predBack[s := Some(x)])
  }

  lemma RecordState(k: Columns, g: Graph, pred0: seq<seq<Node>>, m: Trav, final: seq<Node>, x: Node, s: Node)
    requires State(k, g, pred0, m, final) && SingleBackEdges(g, final)
    requires BackEdge(g, final, x, s) && x < |g.succ| && s < |g.succ| && x !in m.order && s !in m.order
    ensures k.succBack[x] == None || k.succBack[x] == Some(s)
    ensures k.predBack[s] == None || k.predBack[s] == Some(x)
    ensures State(Recorded(k, x, s), g, pred0, m, final)
  {
    SoundStep(k.succBack, k.predBack, g, final, x, s);
  }

  lemma FlagsFinish(visited: seq<bool>, traversing: seq<bool>, t: Trav, x: Node)
    requires |visited| == |traversing| && Flags(visited, traversing, t) && x < |visited| && x in t.visited
    ensures Flags(visited, traversing[x := false], t.(order := t.order + [x]))
  {}

  lemma NumbersFinish(num: seq<nat>, order: seq<Node>, x: Node)
    requires Numbers(num, order) && x < |num| && x !in order
    ensures Numbers(num[x := |order|], order + [x])
  {}

  lemma ErasedFinish(adj: seq<seq<Node>>, adj0: seq<seq<Node>>, back: seq<Option<Node>>, order: seq<Node>, x: Node)
    requires Erased(adj, adj0, back, order) && x < |adj| && x !in order
    ensures Erased(adj[x := EraseEdge(adj[x], back[x])], adj0, back, order + [x])
  {
    forall z: Node | z < |adj| ensures z in order + [x] <==> z in order || z == x {}
  }

  ghost function Finished(k: Columns, x: Node): Columns
    requires x < |k.succ| == |k.pred| == |k.succBack| == |k.predBack| == |k.traversing| == |k.num|
  {
    k.(succ := if k.succBack[x].Some? then k.succ[x := Erase(k.succ[x], k.succBack[x].value)] else k.succ,
       pred := if k.predBack[x].Some? then k.pred[x := Erase(k.pred[x], k.predBack[x].value)] else k.pred,
       traversing := k.traversing[x := false],
       num := k.num[x := |k.order|],
       order := k.order + [x])
  }

  lemma FinishState(k: Columns, g: Graph, pred0: seq<seq<Node>>, m: Trav, final: seq<Node>, x: Node)
    requires State(k, g, pred0, m, final) && x < |g.succ| && x in m.visited && x !in m.order
    requires Settled(k.succBack[x], final, x, g.succ[x])
    ensures State(Finished(k, x), g, pred0, m.(order := m.order + [x]), final)
  {
    FlagsFinish(k.visited, k.traversing, m, x);
    NumbersFinish(k.num, m.order, x);
    ErasedFinish(k.succ, g.succ, k.succBack, m.order, x);
    ErasedFinish(k.pred, pred0, k.predBack, m.order, x);
    assert k.succ[x := k.succ[x]] == k.succ && k.pred[x := k.pred[x]] == k.pred;
  }

  method Visit(c: Pool, x: Node, ghost g: Graph, ghost pred0: seq<seq<Node>>, ghost t: Trav, ghost final: seq<Node>)
    requires State(ColumnsOf(c), g, pred0, t, final) && x < |g.succ| && x !in t.visited
    requires VisitNode(g, t, x).order <= final && Distinct(final) && SingleBackEdges(g, final)
    modifies c`visited, c`traversing, c`reachableNodes, c`succ, c`pred, c`succBackEdge, c`predBackEdge,
             c`forwardNumber, c`forwardOrder
    ensures State(ColumnsOf(c), g, pred0, VisitNode(g, t, x), final)
    ensures Agree(old(c.succBackEdge), c.succBackEdge, t.visited)
    decreases Nodes(g) - t.visited, 0
  {
    hide State;
    StateShape(ColumnsOf(c), g, pred0, t, final, x);
    EnterState(ColumnsOf(c), g, pred0, t, final, x);
    c.visited := c.visited[x := true];
    c.traversing := c.traversing[x := true];
    c.reachableNodes := c.reachableNodes + {x};

    ghost var t1 := t.(visited := t.visited + {x});
    VisitSuccs(c, x, g, pred0, t, final);
    ghost var m := VisitAll(g, t1, g.succ[x]);
    NewOfNode(g, t, x);
    VisitAllGrows(g, t1, g.succ[x]);

    ghost var k := ColumnsOf(c);
    StateShape(k, g, pred0, m, final, x);
    FinishState(k, g, pred0, m, final, x);
    if c.succBackEdge[x].Some? {
      c.succ := c.succ[x := Erase(c.succ[x], c.succBackEdge[x].value)];
    }
    if c.predBackEdge[x].Some? {
      c.pred := c.pred[x := Erase(c.pred[x], c.predBackEdge[x].value)];
    }
    c.traversing := c.traversing[x := false];
    c.forwardNumber := c.forwardNumber[x := |c.forwardOrder|];
    c.forwardOrder := c.forwardOrder + [x];
    assert ColumnsOf(c) == Finished(k, x);
    assert VisitNode(g, t, x) == m.(order := m.order + [x]);
  }

  /** A block on the stack during the visit of `x` was on it before, or is `x`. */
  lemma StackOfGrows(t: Trav, x: Node, m: Trav, s: Node)
    requires Grows(t.(visited := t.visited + {x}), m) && s in m.visited && s !in m.order
    ensures s == x || (s in t.visited && s !in t.order)
  {
    assert m.order == t.order + m.order[|t.order|..];
  }

  /** The loop of `visit` over the successors of the block `x` it has just entered. */
  method VisitSuccs(c: Pool, x: Node, ghost g: Graph, ghost pred0: seq<seq<Node>>, ghost t: Trav,
                    ghost final: seq<Node>)
    requires x < |g.succ| && x !in t.visited && x !in t.order
    requires State(ColumnsOf(c), g, pred0, t.(visited := t.visited + {x}), final)
    requires VisitNode(g, t, x).order <= final && Distinct(final) && SingleBackEdges(g, final)
    modifies c`visited, c`traversing, c`reachableNodes, c`succ, c`pred, c`succBackEdge, c`predBackEdge,
             c`forwardNumber, c`forwardOrder
    ensures State(ColumnsOf(c), g, pred0, VisitAll(g, t.(visited := t.visited + {x}), g.succ[x]), final)
    ensures Settled(c.succBackEdge[x], final, x, g.succ[x])
    ensures Agree(old(c.succBackEdge), c.succBackEdge, t.visited)
    decreases Nodes(g) - (t.visited + {x}), 1
  {
    hide State, Grows, Settled, Before, Distinct, SingleBackEdges, VisitNode;
    ghost var t1 := t.(visited := t.visited + {x});
    StateShape(ColumnsOf(c), g, pred0, t1, final, x);
    ghost var r1 := VisitAll(g, t1, g.succ[x]);
    ghost var m := t1;
    GrowsRefl(t1);
    SettledNone(c.succBackEdge[x], final, x);
    assert g.succ[x][..0] == [];
    var i := 0;
    StateShape(ColumnsOf(c), g, pred0, t1, final, x);
    assert g.succ[x][0..] == g.succ[x];
    while i < |c.succ[x]|
      invariant State(ColumnsOf(c), g, pred0, m, final)
      invariant Grows(t1, m) && t1.visited <= m.visited && x !in m.order
      invariant |c.succ| == |c.succBackEdge| == |g.succ| && i <= |g.succ[x]| && c.succ[x] == g.succ[x]
      invariant VisitAll(g, m, g.succ[x][i..]) == r1
      invariant Settled(c.succBackEdge[x], final, x, g.succ[x][..i])
      invariant Agree(old(c.succBackEdge), c.succBackEdge, t.visited)
    {
      var s := c.succ[x][i];
      StateShape(ColumnsOf(c), g, pred0, m, final, s);
      assert g.succ[x][i..][1..] == g.succ[x][i + 1..];
      assert g.succ[x][..i + 1] == g.succ[x][..i] + [s];
      assert Edge(g, x, s);
      if c.traversing[s] {
        StackOfGrows(t, x, m, s);
        StackIsLater(g, t, x, s, final);
        ghost var k := ColumnsOf(c);
        RecordState(k, g, pred0, m, final, x, s);
        // Only one back edge out of a block, and only one into it, is supported.
        assert c.succBackEdge[x] == None || c.succBackEdge[x] == Some(s);
        c.succBackEdge := c.succBackEdge[x := Some(s)];
        assert c.predBackEdge[s] == None || c.predBackEdge[s] == Some(x);
        c.predBackEdge := c.predBackEdge[s := Some(x)];
        assert ColumnsOf(c) == Recorded(k, x, s);
        SettledBack(k.succBack[x], final, x, g.succ[x][..i], s);
      } else if !c.visited[s] {
        VisitOfSucc(g, t, x, m, g.succ[x][i..], final);
        Visit(c, s, g, pred0, m, final);
        m := VisitNode(g, m, s);
        StateShape(ColumnsOf(c), g, pred0, m, final, x);
        FinishedIsEarlier(g, t, x, s, final, m);
        SettledKept(c.succBackEdge[x], final, x, g.succ[x][..i], s);
      } else {
        VisitAllGrows(g, m, g.succ[x][i..]);
        FinishedIsEarlier(g, t, x, s, final, m);
        SettledKept(c.succBackEdge[x], final, x, g.succ[x][..i], s);
      }
      i := i + 1;
    }
    assert g.succ[x][i..] == [] && g.succ[x][..i] == g.succ[x];
  }

  lemma VisitOfSucc(g: Graph, t: Trav, x: Node, m: Trav, xs: seq<Node>, final: seq<Node>)
    requires Closed(g) && x < |g.succ| && x !in t.visited && VisitNode(g, t, x).order <= final
    requires InRange(xs, |g.succ|) && xs != [] && xs[0] !in m.visited
    requires Grows(t.(visited := t.visited + {x}), m) && x !in t.order
    requires VisitAll(g, m, xs) == VisitAll(g, t.(visited := t.visited + {x}), g.succ[x])
    ensures var m' := VisitNode(g, m, xs[0]);
            && m'.order <= final && xs[0] in m'.order && Grows(t.(visited := t.visited + {x}), m')
            && m'.order <= VisitAll(g, t.(visited := t.visited + {x}), g.succ[x]).order
            && x !in m'.order
  {
    var m' := VisitNode(g, m, xs[0]);
    assert m'.order == t.order + New(t, m') by {
      assert t.order <= m.order;
      VisitNodeGrows(g, m, xs[0]);
    }
    VisitNodeGrows(g, m, xs[0]);
    VisitNodeLast(g, m, xs[0]);
    NewOfAll(g, m, xs);
    NewOfNode(g, t, x);
    GrowsTrans(t.(visited := t.visited + {x}), m, m');
  }

  // ---------------------------------------------------------------- the graph the visit leaves

  ghost predicate AllDistinct(adj: seq<seq<Node>>) {
    forall x: Node :: x < |adj| ==> Distinct(adj[x])
  }

  /** A finished block keeps exactly its edges to earlier blocks. */
  lemma KeptEdges(k: Columns, g: Graph, pred0: seq<seq<Node>>, t: Trav, final: seq<Node>, x: Node, y: Node)
    requires State(k, g, pred0, t, final) && AllDistinct(g.succ)
    requires x in t.order && x < |g.succ|
    ensures y in k.succ[x] <==> Edge(g, x, y) && Before(final, y, x)
    ensures Records(k.succBack, x, y) <==> Edge(g, x, y) && !Before(final, y, x)
  {
    assert Settled(k.succBack[x], final, x, g.succ[x]);
    if k.succBack[x].Some? {
      var b := k.succBack[x].value;
      assert Records(k.succBack, x, b);
      EraseMembers(g.succ[x], b);
    }
    if Edge(g, x, y) {
      var i :| 0 <= i < |g.succ[x]| && g.succ[x][i] == y;
    }
    if Records(k.succBack, x, y) {
      assert BackEdge(g, final, x, y);
    }
  }

  ghost function Start(): Trav {
    Trav({}, [])
  }

  lemma OrderFacts(g: Graph, root: Node)
    requires Closed(g) && root < |g.succ|
    ensures Distinct(Order(g, root)) && root in Order(g, root)
    ensures VisitNode(g, Start(), root).visited == set x | x in Order(g, root)
    ensures forall x, y :: x in Order(g, root) && Edge(g, x, y) ==> y in Order(g, root)
  {
    var r := VisitNode(g, Start(), root);
    VisitNodeGrows(g, Start(), root);
    VisitNodeLast(g, Start(), root);
    VisitNodeCovers(g, Start(), root);
    assert r.order[0..] == r.order;
    assert New(Start(), r) == r.order;
  }

  /** What the visit leaves behind is an acyclic rooted graph, numbered so that every edge descends. */
  lemma VisitGivesFlow(k: Columns, g: Graph, pred0: seq<seq<Node>>, root: Node) returns (f: Flow)
    requires Closed(g) && root < |g.succ| && AllDistinct(g.succ)
    requires State(k, g, pred0, VisitNode(g, Start(), root), Order(g, root))
    ensures f == Flow(Restrict(k.succ, k.order), root, k.num) && Numbered(f, k.order) && k.order == Order(g, root)
    ensures forall x: Node, y: Node :: Edge(f.g, x, y) <==> x in k.order && Edge(g, x, y) && Before(k.order, y, x)
  {
    var t := VisitNode(g, Start(), root);
    var order := Order(g, root);
    OrderFacts(g, root);
    f := Flow(Restrict(k.succ, k.order), root, k.num);
    StateShape(k, g, pred0, t, order, root);
    forall x: Node, y: Node ensures Edge(f.g, x, y) <==> x in order && Edge(g, x, y) && Before(order, y, x) {
      if x in order && x < |g.succ| {
        KeptEdges(k, g, pred0, t, order, x, y);
      }
    }
    FlowIsOk(f, g, order, root);
  }

  lemma FlowIsOk(f: Flow, g: Graph, order: seq<Node>, root: Node)
    requires Closed(g) && root < |g.succ| && order == Order(g, root) && f.root == root
    requires |f.g.succ| == |f.num| == |g.succ| && Numbers(f.num, order)
    requires forall x: Node, y: Node :: Edge(f.g, x, y) <==> x in order && Edge(g, x, y) && Before(order, y, x)
    ensures Numbered(f, order)
  {
    OrderFacts(g, root);
    forall x: Node | x in order ensures Live(f, x) && x < |f.num| {
      assert Keeps(f.g, g, order);
      assert x in New(Start(), VisitNode(g, Start(), root));
      VisitNodeReaches(g, Start(), root, f.g, order, x);
      LiveInRange(f, x);
    }
    forall x: Node, y: Node | Edge(f.g, x, y) ensures y in order && f.num[x] > f.num[y] {
      assert order[Index(order, x)] == x && order[Index(order, y)] == y;
    }
    forall x: Node | x < |f.g.succ| ensures InRange(f.g.succ[x], |f.g.succ|) {
      forall i | 0 <= i < |f.g.succ[x]| ensures f.g.succ[x][i] < |f.g.succ| {
        assert Edge(f.g, x, f.g.succ[x][i]);
      }
    }
    forall x: Node | Live(f, x) ensures x in order {
      var p :| Path(f.g, p, root, x);
      PathStays(f.g, p, root, x, order);
    }
    forall x: Node, y: Node | Live(f, x) && Live(f, y) && x < |f.num| && y < |f.num| && f.num[x] == f.num[y]
      ensures x == y
    {
      assert order[Index(order, x)] == x && order[Index(order, y)] == y;
    }
  }

  lemma {:induction false} PathStays(g: Graph, p: seq<Node>, a: Node, b: Node, order: seq<Node>)
    requires Path(g, p, a, b) && a in order
    requires forall x: Node, y: Node :: x in order && Edge(g, x, y) ==> y in order
    ensures b in order
    decreases |p|
  {
    if |p| > 1 {
      PathStays(g, p[1..], p[1], b, order);
    }
  }

  // ---------------------------------------------------------------- entry points

  function AppendEdge(xs: seq<Node>, edge: Option<Node>): seq<Node> {
    match edge
    case None => xs
    case Some(y) => xs + [y]
  }

  /** The back edges of the first `n` blocks are back at the end of their lists. */
  ghost predicate Appended(adj: seq<seq<Node>>, adj0: seq<seq<Node>>, back: seq<Option<Node>>, n: nat) {
    && |adj| == |adj0| == |back|
    && forall x: Node :: x < |adj| ==> adj[x] == if x < n then AppendEdge(adj0[x], back[x]) else adj0[x]
  }

  ghost predicate Cleared(back: seq<Option<Node>>, back0: seq<Option<Node>>, n: nat) {
    && |back| == |back0|
    && forall x: Node :: x < |back| ==> back[x] == if x < n then None else back0[x]
  }

  function Filled<T>(n: nat, v: T): (r: seq<T>)
    ensures |r| == n && forall i :: 0 <= i < n ==> r[i] == v
  {
    seq(n, _ => v)
  }

  lemma AppendedStep(adj: seq<seq<Node>>, adj0: seq<seq<Node>>, back: seq<Option<Node>>, n: nat)
    requires Appended(adj, adj0, back, n) && n < |adj|
    ensures Appended(if back[n].Some? then adj[n := adj[n] + [back[n].value]] else adj, adj0, back, n + 1)
  {}

  lemma ClearedStep(back: seq<Option<Node>>, back0: seq<Option<Node>>, n: nat)
    requires Cleared(back, back0, n) && n < |back|
    ensures back[n] == back0[n] && Cleared(back[n := None], back0, n + 1)
  {}

  lemma NothingAppended(adj: seq<seq<Node>>, back: seq<Option<Node>>)
    requires |adj| == |back|
    ensures Appended(adj, adj, back, 0) && Cleared(back, back, 0)
  {}

  method RestoreBackEdges(c: Pool)
    requires |c.succ| == |c.pred| == |c.succBackEdge| == |c.predBackEdge|
    modifies c`succ, c`pred, c`succBackEdge, c`predBackEdge
    ensures |c.succ| == |c.pred| == old(|c.succ|)
    ensures Appended(c.succ, old(c.succ), old(c.succBackEdge), |c.succ|)
    ensures Appended(c.pred, old(c.pred), old(c.predBackEdge), |c.pred|)
    ensures Cleared(c.succBackEdge, old(c.succBackEdge), |c.succ|)
    ensures Cleared(c.predBackEdge, old(c.predBackEdge), |c.pred|)
  {
    hide Appended, Cleared;
    ghost var succ0, pred0, sb0, pb0 := c.succ, c.pred, c.succBackEdge, c.predBackEdge;
    NothingAppended(succ0, sb0);
    NothingAppended(pred0, pb0);
    var i := 0;
    while i < |c.succ|
      invariant i <= |c.succ| == |c.pred| == |c.succBackEdge| == |c.predBackEdge| == |succ0|
      invariant Appended(c.succ, succ0, sb0, i) && Appended(c.pred, pred0, pb0, i)
      invariant Cleared(c.succBackEdge, sb0, i) && Cleared(c.predBackEdge, pb0, i)
    {
      AppendedStep(c.succ, succ0, sb0, i);
      AppendedStep(c.pred, pred0, pb0, i);
      ClearedStep(c.succBackEdge, sb0, i);
      ClearedStep(c.predBackEdge, pb0, i);
      if c.succBackEdge[i].Some? {
        c.succ := c.succ[i := c.succ[i] + [c.succBackEdge[i].value]];
      }
      if c.predBackEdge[i].Some? {
        c.pred := c.pred[i := c.pred[i] + [c.predBackEdge[i].value]];
      }
      c.succBackEdge := c.succBackEdge[i := None];
      c.predBackEdge := c.predBackEdge[i := None];
      i := i + 1;
    }
  }

  /** Forgets the last traversal and puts the back edges back into the edge lists. */
  method ResetTraversal(c: Pool)
    requires c.Shape()
    modifies c`reachableNodes, c`forwardOrder, c`backwardOrder, c`visited, c`backwardVisited, c`traversing,
             c`immediateDominator, c`immediatePostDominator, c`succ, c`pred, c`succBackEdge, c`predBackEdge
    ensures c.Shape() && |c.succ| == old(|c.succ|)
    ensures c.reachableNodes == {} && c.forwardOrder == [] && c.backwardOrder == []
    ensures forall x: Node :: x < |c.succ| ==>
              && !c.visited[x] && !c.backwardVisited[x] && !c.traversing[x]
              && c.immediateDominator[x] == None && c.immediatePostDominator[x] == None
    ensures Appended(c.succ, old(c.succ), old(c.succBackEdge), |c.succ|)
    ensures Appended(c.pred, old(c.pred), old(c.predBackEdge), |c.pred|)
    ensures Cleared(c.succBackEdge, old(c.succBackEdge), |c.succ|)
    ensures Cleared(c.predBackEdge, old(c.predBackEdge), |c.pred|)
  {
    c.reachableNodes, c.forwardOrder, c.backwardOrder := {}, [], [];
    var n := |c.succ|;
    c.visited, c.backwardVisited, c.traversing := Filled(n, false), Filled(n, false), Filled(n, false);
    c.immediateDominator, c.immediatePostDominator := Filled(n, None), Filled(n, None);
    RestoreBackEdges(c);
  }

  /** The columns before a visit: nothing entered, no back edge taken out. */
  ghost predicate Unvisited(k: Columns) {
    && k.reachable == {} && k.order == []
    && |k.succ| == |k.pred| == |k.succBack| == |k.predBack| == |k.visited| == |k.traversing| == |k.num|
    && forall x: Node :: x < |k.succ| ==>
         !k.visited[x] && !k.traversing[x] && k.succBack[x] == None && k.predBack[x] == None
  }

  lemma StartState(k: Columns, root: Node)
    requires Unvisited(k) && Closed(Graph(k.succ)) && root < |k.succ|
    ensures State(k, Graph(k.succ), k.pred, Start(), Order(Graph(k.succ), root))
  {}

  /** Visits everything the entry block reaches, starting from cleared columns. */
  method VisitEntry(c: Pool)
    requires c.Shape() && Closed(Graph(c.succ)) && Unvisited(ColumnsOf(c))
    requires SingleBackEdges(Graph(c.succ), Order(Graph(c.succ), c.entryBlock))
    modifies c`visited, c`traversing, c`reachableNodes, c`succ, c`pred, c`succBackEdge, c`predBackEdge,
             c`forwardNumber, c`forwardOrder
    ensures var g := old(Graph(c.succ));
            State(ColumnsOf(c), g, old(c.pred), VisitNode(g, Start(), c.entryBlock), Order(g, c.entryBlock))
    ensures c.Shape()
  {
    hide State, SingleBackEdges;
    ghost var g := Graph(c.succ);
    OrderFacts(g, c.entryBlock);
    StartState(ColumnsOf(c), c.entryBlock);
    Visit(c, c.entryBlock, g, c.pred, Start(), Order(g, c.entryBlock));
    StateShape(ColumnsOf(c), g, old(c.pred), VisitNode(g, Start(), c.entryBlock), Order(g, c.entryBlock), 0);
  }

  /** The members of `xs` that `s` has, in their order. */
  function Within(xs: seq<Node>, s: set<Node>): seq<Node> {
    if xs == [] then []
    else if xs[0] in s then [xs[0]] + Within(xs[1..], s)
    else Within(xs[1..], s)
  }

  lemma {:induction false} WithinMembers(xs: seq<Node>, s: set<Node>)
    ensures forall x :: x in Within(xs, s) <==> x in xs && x in s
    ensures Distinct(xs) ==> Distinct(Within(xs, s))
  {
    if xs != [] {
      WithinMembers(xs[1..], s);
      assert xs == [xs[0]] + xs[1..];
      if Distinct(xs) {
        DistinctSlice(xs, 1, |xs|);
        assert xs[1..|xs|] == xs[1..] && xs[..1] == [xs[0]];
        DistinctByPairs([xs[0]]);
        if xs[0] in s {
          DistinctConcat([xs[0]], Within(xs[1..], s));
        }
      }
    }
  }

  /** Unreachable blocks must not be seen as predecessors. */
  method PruneDeadPreds(c: Pool)
    requires c.Shape() && Distinct(c.forwardOrder) && InRange(c.forwardOrder, |c.pred|)
    modifies c`pred
    ensures |c.pred| == old(|c.pred|)
    ensures forall x: Node :: x < |c.pred| ==>
              c.pred[x] == if x in c.forwardOrder then Within(old(c.pred[x]), c.reachableNodes) else old(c.pred[x])
  {
    var i := 0;
    while i < |c.forwardOrder|
      invariant i <= |c.forwardOrder| && |c.pred| == old(|c.pred|)
      invariant forall x: Node :: x < |c.pred| ==>
                  c.pred[x] == if x in c.forwardOrder[..i] then Within(old(c.pred[x]), c.reachableNodes)
                  else old(c.pred[x])
    {
      var x := c.forwardOrder[i];
      assert x !in c.forwardOrder[..i] by {
        DistinctSlice(c.forwardOrder, i, i + 1);
        assert x in c.forwardOrder[i..i + 1];
      }
      c.pred := c.pred[x := Within(c.pred[x], c.reachableNodes)];
      assert c.forwardOrder[..i + 1] == c.forwardOrder[..i] + [x];
      i := i + 1;
    }
    assert c.forwardOrder[..i] == c.forwardOrder;
  }

  /** The predecessor lists mirror the edges between the blocks of `order`, once each; what they say of
      other blocks is stale. */
  ghost predicate PredsOf(pred: seq<seq<Node>>, g: Graph, order: seq<Node>) {
    && |pred| == |g.succ|
    && AllDistinct(pred)
    && forall x: Node, y: Node :: x in order && y in order && y < |pred| ==> (x in pred[y] <==> Edge(g, x, y))
  }

  /** After pruning, the predecessor lists mirror the edges the visit kept. */
  lemma PrunedPredsMirror(k: Columns, g: Graph, pred0: seq<seq<Node>>, root: Node, f: Flow, pred: seq<seq<Node>>)
    requires Closed(g) && root < |g.succ| && AllDistinct(g.succ) && PredsOf(pred0, g, k.order)
    requires State(k, g, pred0, VisitNode(g, Start(), root), Order(g, root))
    requires k.order == Order(g, root) && |f.g.succ| == |g.succ|
    requires forall x: Node, y: Node :: Edge(f.g, x, y) <==> x in k.order && Edge(g, x, y) && Before(k.order, y, x)
    requires |pred| == |k.pred|
    requires forall x: Node :: x < |pred| && x in k.order ==> pred[x] == Within(k.pred[x], k.reachable)
    ensures Mirrors(pred, f.g, k.order)
  {
    OrderFacts(g, root);
    var order := k.order;
    var t := VisitNode(g, Start(), root);
    forall y: Node | y in order && y < |pred|
      ensures Distinct(pred[y]) && forall x: Node :: x in pred[y] <==> Edge(f.g, x, y)
    {
      WithinMembers(k.pred[y], k.reachable);
      assert k.pred[y] == EraseEdge(pred0[y], k.predBack[y]);
      if k.predBack[y].Some? {
        EraseMembers(pred0[y], k.predBack[y].value);
      }
      forall x: Node ensures x in pred[y] <==> Edge(f.g, x, y) {
        assert x in pred[y] <==> x in pred0[y] && !Records(k.predBack, y, x) && x in order;
        assert Records(k.predBack, y, x) <==> Records(k.succBack, x, y);
        if x in order && x < |g.succ| {
          KeptEdges(k, g, pred0, t, order, x, y);
        }
      }
    }
  }

  // ---------------------------------------------------------------- after the visit

  /** The recorded back edges join live blocks, and both ends agree on them. */
  ghost predicate BackEdgesInside(c: Pool)
    reads c`forwardOrder, c`predBackEdge, c`succBackEdge
  {
    && (forall x: Node, y: Node :: Records(c.predBackEdge, y, x) <==> Records(c.succBackEdge, x, y))
    && (forall x: Node, y: Node :: Records(c.succBackEdge, x, y) ==> x in c.forwardOrder && y in c.forwardOrder)
  }

  /** What the visit leaves behind, dead predecessors pruned. A block may have no edge but the one that goes back. */
  ghost predicate Traversed(c: Pool)
    reads c
  {
    && c.Shape() && InRange(c.forwardOrder, |c.succ|)
    && Numbered(Forward(c), c.forwardOrder)
    && Mirrors(c.pred, Forward(c).g, c.forwardOrder)
    && BackEdgesInside(c)
  }

  lemma TraversedNumbered(c: Pool)
    requires Traversed(c)
    ensures Numbered(Forward(c), c.forwardOrder) && c.Shape() && InRange(c.forwardOrder, |c.succ|)
    ensures |c.succBackEdge| == |c.succ|
  {}

  lemma SuccsOf(c: Pool, x: Node)
    requires Traversed(c) && x in c.forwardOrder
    ensures x < |c.succ| && forall j :: 0 <= j < |c.succ[x]| ==> c.succ[x][j] in c.forwardOrder
    ensures forall y: Node :: Edge(Forward(c).g, x, y) <==> y in c.succ[x]
  {
    LiveInRange(Forward(c), x);
    forall j | 0 <= j < |c.succ[x]| ensures c.succ[x][j] in c.forwardOrder {
      assert Edge(Forward(c).g, x, c.succ[x][j]);
      LiveEdge(Forward(c), x, c.succ[x][j]);
    }
  }
}
