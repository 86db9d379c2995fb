/** Depth-first numbering as a function of the graph.

    `VisitNode` is the specification of the structurizer's recursive `visit` and, over the
    mirrored graph, of its `backwards_visit`: the set of blocks entered so far and the post
    order so far. A block that is entered but not yet in the order is on the stack. */
module Dfs {
  import opened Graphs
  import opened Lists

  datatype Trav = Trav(visited: set<Node>, order: seq<Node>)

  ghost function Below(n: nat): (r: set<Node>)
    ensures forall x: Node :: x in r <==> x < n
  {
    if n == 0 then {} else Below(n - 1) + {n - 1}
  }

  ghost function Nodes(g: Graph): set<Node> {
    Below(|g.succ|)
  }

  ghost function VisitNode(g: Graph, t: Trav, x: Node): (r: Trav)
    requires Closed(g) && x < |g.succ| && x !in t.visited
    ensures t.visited + {x} <= r.visited
    decreases Nodes(g) - t.visited, 0
  {
    var r := VisitAll(g, t.(visited := t.visited + {x}), g.succ[x]);
    r.(order := r.order + [x])
  }

  ghost function VisitAll(g: Graph, t: Trav, xs: seq<Node>): (r: Trav)
    requires Closed(g) && InRange(xs, |g.succ|)
    ensures t.visited <= r.visited
    decreases Nodes(g) - t.visited, 1, xs
  {
    if xs == [] then t
    else if xs[0] in t.visited then VisitAll(g, t, xs[1..])
    else VisitAll(g, VisitNode(g, t, xs[0]), xs[1..])
  }

  /** The post order of a visit from `root`. */
  ghost function Order(g: Graph, root: Node): seq<Node>
    requires Closed(g) && root < |g.succ|
  {
    VisitNode(g, Trav({}, []), root).order
  }

  /** `y` finished before `x`. */
  ghost predicate Before(order: seq<Node>, y: Node, x: Node) {
    Index(order, y) < Index(order, x) < |order|
  }

  lemma BeforeAt(order: seq<Node>, i: nat)
    requires i < |order| && Distinct(order)
    ensures Index(order, order[i]) == i
    ensures forall y :: Before(order, y, order[i]) <==> y in order[..i]
  {
    var x := order[i];
    forall y ensures Before(order, y, x) <==> y in order[..i] {
      if Before(order, y, x) {
        assert order[..i][Index(order, y)] == y;
      }
      if y in order[..i] {
        var j :| 0 <= j < i && order[j] == y;
      }
    }
  }

  // ---------------------------------------------------------------- what one visit adds

  /** Going from `t` to `r` enters and finishes the same new blocks, each once. */
  ghost predicate Grows(t: Trav, r: Trav) {
    && t.order <= r.order
    && Distinct(r.order[|t.order|..])
    && (forall x :: x in r.order[|t.order|..] ==> x !in t.visited)
    && r.visited == t.visited + set x | x in r.order[|t.order|..]
  }

  lemma GrowsRefl(t: Trav)
    ensures Grows(t, t)
  {
    assert t.order[|t.order|..] == [];
  }

  lemma GrowsTrans(t: Trav, s: Trav, r: Trav)
    requires Grows(t, s) && Grows(s, r)
    ensures Grows(t, r)
  {
    var a, b := s.order[|t.order|..], r.order[|s.order|..];
    assert r.order[|t.order|..] == a + b;
    DistinctConcat(a, b);
  }

  lemma {:induction false} VisitNodeGrows(g: Graph, t: Trav, x: Node)
    requires Closed(g) && x < |g.succ| && x !in t.visited
    ensures Grows(t, VisitNode(g, t, x))
    decreases Nodes(g) - t.visited, 0
  {
    var t1 := t.(visited := t.visited + {x});
    var r1 := VisitAll(g, t1, g.succ[x]);
    VisitAllGrows(g, t1, g.succ[x]);
    var r := VisitNode(g, t, x);
    var a := r1.order[|t.order|..];
    assert r.order[|t.order|..] == a + [x];
    DistinctSnoc(a, x);
  }

  lemma {:induction false} VisitAllGrows(g: Graph, t: Trav, xs: seq<Node>)
    requires Closed(g) && InRange(xs, |g.succ|)
    ensures Grows(t, VisitAll(g, t, xs))
    ensures forall x :: x in xs ==> x in VisitAll(g, t, xs).visited
    decreases Nodes(g) - t.visited, 1, xs
  {
    if xs == [] {
    } else if xs[0] in t.visited {
      VisitAllGrows(g, t, xs[1..]);
    } else {
      var s := VisitNode(g, t, xs[0]);
      VisitNodeGrows(g, t, xs[0]);
      VisitAllGrows(g, s, xs[1..]);
      GrowsTrans(t, s, VisitAll(g, s, xs[1..]));
    }
  }

  /** The blocks finished between `t` and `r`. */
  ghost function New(t: Trav, r: Trav): seq<Node> {
    if |t.order| <= |r.order| then r.order[|t.order|..] else []
  }

  lemma NewOfNode(g: Graph, t: Trav, x: Node)
    requires Closed(g) && x < |g.succ| && x !in t.visited
    ensures var t1 := t.(visited := t.visited + {x});
            var r1 := VisitAll(g, t1, g.succ[x]);
            && t.order <= r1.order
            && VisitNode(g, t, x).order == r1.order + [x]
            && New(t, VisitNode(g, t, x)) == New(t1, r1) + [x]
            && forall z :: z in New(t1, r1) ==> z in r1.order
  {
    VisitAllGrows(g, t.(visited := t.visited + {x}), g.succ[x]);
  }

  lemma NewOfAll(g: Graph, t: Trav, xs: seq<Node>)
    requires Closed(g) && InRange(xs, |g.succ|) && xs != [] && xs[0] !in t.visited
    ensures var s := VisitNode(g, t, xs[0]);
            var r := VisitAll(g, s, xs[1..]);
            && t.order <= s.order <= r.order
            && New(t, r) == New(t, s) + New(s, r)
            && xs[0] in New(t, s)
  {
    VisitNodeGrows(g, t, xs[0]);
    VisitAllGrows(g, VisitNode(g, t, xs[0]), xs[1..]);
    NewOfNode(g, t, xs[0]);
  }

  lemma VisitNodeLast(g: Graph, t: Trav, x: Node)
    requires Closed(g) && x < |g.succ| && x !in t.visited
    ensures x in VisitNode(g, t, x).order
  {}

  // ---------------------------------------------------------------- edges of the new blocks

  /** Every edge out of a block finished between `t` and `r` leads to a block entered by then. */
  ghost predicate Covers(g: Graph, t: Trav, r: Trav)
    requires t.order <= r.order
  {
    forall x, y :: x in r.order[|t.order|..] && Edge(g, x, y) ==> y in r.visited
  }

  lemma {:induction false} VisitNodeCovers(g: Graph, t: Trav, x: Node)
    requires Closed(g) && x < |g.succ| && x !in t.visited
    ensures t.order <= VisitNode(g, t, x).order && Covers(g, t, VisitNode(g, t, x))
    decreases Nodes(g) - t.visited, 0
  {
    var t1 := t.(visited := t.visited + {x});
    VisitAllCovers(g, t1, g.succ[x]);
    VisitAllGrows(g, t1, g.succ[x]);
    var r1 := VisitAll(g, t1, g.succ[x]);
    assert VisitNode(g, t, x).order[|t.order|..] == r1.order[|t.order|..] + [x];
  }

  lemma {:induction false} VisitAllCovers(g: Graph, t: Trav, xs: seq<Node>)
    requires Closed(g) && InRange(xs, |g.succ|)
    ensures t.order <= VisitAll(g, t, xs).order && Covers(g, t, VisitAll(g, t, xs))
    decreases Nodes(g) - t.visited, 1, xs
  {
    if xs == [] {
    } else if xs[0] in t.visited {
      VisitAllCovers(g, t, xs[1..]);
    } else {
      var s := VisitNode(g, t, xs[0]);
      var r := VisitAll(g, s, xs[1..]);
      VisitNodeCovers(g, t, xs[0]);
      VisitAllCovers(g, s, xs[1..]);
      assert r.order[|t.order|..] == s.order[|t.order|..] + r.order[|s.order|..];
    }
  }

  /** `k` keeps at least the edges of `g` that lead to an earlier block of `order`. */
  ghost predicate Keeps(k: Graph, g: Graph, order: seq<Node>) {
    && |k.succ| == |g.succ|
    && forall x: Node, y: Node :: Edge(g, x, y) && Before(order, y, x) ==> Edge(k, x, y)
  }

  lemma FinishedBelow(done: seq<Node>, x: Node, final: seq<Node>, s: Node)
    requires done + [x] <= final && Distinct(final) && s in done
    ensures Before(final, s, x)
  {
    assert final[|done|] == x && final[..|done|] == done;
    BeforeAt(final, |done|);
  }

  /** Every block that a visit of `x` finishes is reached from `x` by kept edges. */
  lemma {:induction false} VisitNodeReaches(g: Graph, t: Trav, x: Node, k: Graph, final: seq<Node>, z: Node)
    requires Closed(g) && x < |g.succ| && x !in t.visited
    requires VisitNode(g, t, x).order <= final && Distinct(final) && Keeps(k, g, final)
    requires z in New(t, VisitNode(g, t, x))
    ensures Reach(k, x, z)
    decreases Nodes(g) - t.visited, 0
  {
    hide VisitNode, VisitAll, Grows, New, Distinct;
    var t1 := t.(visited := t.visited + {x});
    var r1 := VisitAll(g, t1, g.succ[x]);
    NewOfNode(g, t, x);
    if z in New(t1, r1) {
      var s := VisitAllReaches(g, t1, g.succ[x], k, final, z);
      assert s in r1.order;
      FinishedBelow(r1.order, x, final, s);
      assert Edge(g, x, s);
      ReachEdge(k, x, s, z);
    } else {
      ReachRefl(k, x);
    }
  }

  lemma {:induction false} VisitAllReaches(g: Graph, t: Trav, xs: seq<Node>, k: Graph, final: seq<Node>, z: Node)
    returns (s: Node)
    requires Closed(g) && InRange(xs, |g.succ|)
    requires VisitAll(g, t, xs).order <= final && Distinct(final) && Keeps(k, g, final)
    requires z in New(t, VisitAll(g, t, xs))
    ensures s in xs && s !in t.visited && s in VisitAll(g, t, xs).order && Reach(k, s, z)
    decreases Nodes(g) - t.visited, 1, xs
  {
    if xs[0] in t.visited {
      s := VisitAllReaches(g, t, xs[1..], k, final, z);
    } else {
      var m := VisitNode(g, t, xs[0]);
      NewOfAll(g, t, xs);
      if z in New(t, m) {
        VisitNodeReaches(g, t, xs[0], k, final, z);
        s := xs[0];
      } else {
        s := VisitAllReaches(g, m, xs[1..], k, final, z);
      }
    }
  }

  // ---------------------------------------------------------------- successors in turn

  lemma {:induction false} SkipsVisited(g: Graph, t: Trav, xs: seq<Node>, i: nat)
    requires Closed(g) && InRange(xs, |g.succ|) && i <= |xs| && forall k :: 0 <= k < i ==> xs[k] in t.visited
    ensures InRange(xs[i..], |g.succ|) && VisitAll(g, t, xs) == VisitAll(g, t, xs[i..])
    decreases i
  {
    if i > 0 {
      SkipsVisited(g, t, xs[1..], i - 1);
      assert xs[1..][i - 1..] == xs[i..];
    } else {
      assert xs[0..] == xs;
    }
  }

  /** The first successor that is not entered yet is finished before all that it does not lead to. */
  lemma FirstSuccessorFirst(g: Graph, t: Trav, x: Node, i: nat, z: Node)
    requires Closed(g) && x < |g.succ| && x !in t.visited && i < |g.succ[x]|
    requires Distinct(t.order) && forall y: Node :: y in t.order ==> y in t.visited
    requires g.succ[x][i] !in t.visited + {x} && forall k :: 0 <= k < i ==> g.succ[x][k] in t.visited + {x}
    requires var new' := New(t, VisitNode(g, t, x));
             g.succ[x][i] in new' && z in new' && Index(new', z) <= Index(new', g.succ[x][i])
    ensures Reach(g, g.succ[x][i], z)
  {
    hide VisitNode, VisitAll, Grows, New;
    var t1, first := t.(visited := t.visited + {x}), g.succ[x][i];
    var s, new' := VisitNode(g, t1, first), New(t, VisitNode(g, t, x));
    OwnFirst(g, t, x, i);
    var own := New(t1, s);
    assert new'[..|own|] == own && new'[|own| - 1] == own[|own| - 1];
    IndexIsFirst(new', |own| - 1);
    assert own[Index(new', z)] == z;
    VisitNodeGrows(g, t1, first);
    OrderStaysDistinct(t1, s);
    VisitNodeReaches(g, t1, first, g, s.order, z);
  }

  lemma {:induction false} IndexIsFirst(xs: seq<Node>, k: nat)
    requires k < |xs|
    ensures Index(xs, xs[k]) <= k
  {
    if k > 0 && xs[0] != xs[k] {
      IndexIsFirst(xs[1..], k - 1);
    }
  }

  lemma OwnFirst(g: Graph, t: Trav, x: Node, i: nat)
    requires Closed(g) && x < |g.succ| && x !in t.visited && i < |g.succ[x]|
    requires g.succ[x][i] !in t.visited + {x} && forall k :: 0 <= k < i ==> g.succ[x][k] in t.visited + {x}
    ensures var t1 := t.(visited := t.visited + {x});
            var own := New(t1, VisitNode(g, t1, g.succ[x][i]));
            own != [] && own <= New(t, VisitNode(g, t, x)) && own[|own| - 1] == g.succ[x][i]
  {
    hide VisitNode, Grows, New;
    var t1, xs := t.(visited := t.visited + {x}), g.succ[x][i..];
    SkipsVisited(g, t1, g.succ[x], i);
    NewOfNode(g, t, x);
    NewOfAll(g, t1, xs);
    NewOfNode(g, t1, xs[0]);
  }

  lemma OrderStaysDistinct(t: Trav, r: Trav)
    requires Grows(t, r) && Distinct(t.order) && forall y: Node :: y in t.order ==> y in t.visited
    ensures Distinct(r.order)
  {
    DistinctConcat(t.order, r.order[|t.order|..]);
    assert r.order == t.order + r.order[|t.order|..];
  }

  // ---------------------------------------------------------------- back edges

  /** An edge from `x` to a block that does not finish before it. */
  ghost predicate BackEdge(g: Graph, order: seq<Node>, x: Node, y: Node) {
    x in order && Edge(g, x, y) && !Before(order, y, x)
  }

  /** At most one back edge leaves, and at most one enters, each block. */
  ghost predicate SingleBackEdges(g: Graph, order: seq<Node>) {
    && (forall x: Node, y: Node, z: Node :: BackEdge(g, order, x, y) && BackEdge(g, order, x, z) ==> y == z)
    && (forall x: Node, y: Node, z: Node :: BackEdge(g, order, x, z) && BackEdge(g, order, y, z) ==> x == y)
  }

  /** The edges out of the i-th block of `order` that do not lead to an earlier block. */
  ghost predicate ClosesCycle(g: Graph, k: Graph, order: seq<Node>, i: nat)
    requires i < |order|
  {
    forall y :: Edge(g, order[i], y) && y in order[i..] ==> Reach(k, y, order[i])
  }

  lemma {:induction false} VisitNodeCycles(g: Graph, t: Trav, x: Node, k: Graph, final: seq<Node>, i: nat)
    requires Closed(g) && x < |g.succ| && x !in t.visited
    requires VisitNode(g, t, x).order <= final && Distinct(final) && Keeps(k, g, final)
    requires |t.order| <= i < |VisitNode(g, t, x).order|
    ensures ClosesCycle(g, k, VisitNode(g, t, x).order, i)
    decreases Nodes(g) - t.visited, 0
  {
    var t1 := t.(visited := t.visited + {x});
    var r1 := VisitAll(g, t1, g.succ[x]);
    var r := VisitNode(g, t, x);
    NewOfNode(g, t, x);
    assert r.order[i] == New(t, r)[i - |t.order|];
    VisitNodeReaches(g, t, x, k, final, r.order[i]);
    if i < |r1.order| {
      VisitAllCycles(g, t1, g.succ[x], k, final, i);
      assert r.order[i..] == r1.order[i..] + [x];
    } else {
      assert r.order[i..] == [x];
    }
  }

  lemma {:induction false} VisitAllCycles(g: Graph, t: Trav, xs: seq<Node>, k: Graph, final: seq<Node>, i: nat)
    requires Closed(g) && InRange(xs, |g.succ|)
    requires VisitAll(g, t, xs).order <= final && Distinct(final) && Keeps(k, g, final)
    requires |t.order| <= i < |VisitAll(g, t, xs).order|
    ensures ClosesCycle(g, k, VisitAll(g, t, xs).order, i)
    decreases Nodes(g) - t.visited, 1, xs
  {
    hide Keeps, Reach, Distinct, Index;
    if xs == [] {
    } else if xs[0] in t.visited {
      VisitAllCycles(g, t, xs[1..], k, final, i);
    } else {
      var s := VisitNode(g, t, xs[0]);
      var r := VisitAll(g, s, xs[1..]);
      NewOfAll(g, t, xs);
      if i < |s.order| {
        VisitNodeCycles(g, t, xs[0], k, final, i);
        VisitNodeCovers(g, t, xs[0]);
        VisitAllGrows(g, s, xs[1..]);
        assert r.order[i] == s.order[i] == New(t, s)[i - |t.order|];
        assert r.order[i..] == s.order[i..] + New(s, r);
      } else {
        VisitAllCycles(g, s, xs[1..], k, final, i);
      }
    }
  }
}
