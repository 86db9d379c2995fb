/** Merging several back edges to one block: what the next depth-first visit sees. */
module BackEdges {
  import opened Graphs
  import opened Lists
  import opened Dfs
  import Traversal

  /** Edges that were redirected, and where they lead now. */
  type Redirects = map<(Node, Node), Node>

  function Via(r: Redirects, n: Node, y: Node): Node {
    if (n, y) in r then r[(n, y)] else y
  }

  function ViaAll(r: Redirects, n: Node, xs: seq<Node>): (ys: seq<Node>)
    ensures |ys| == |xs|
  {
    if xs == [] then [] else [Via(r, n, xs[0])] + ViaAll(r, n, xs[1..])
  }

  lemma {:induction false} ViaAllAt(r: Redirects, n: Node, xs: seq<Node>, i: nat)
    requires i < |xs|
    ensures ViaAll(r, n, xs)[i] == Via(r, n, xs[i])
    decreases i
  {
    if i > 0 {
      ViaAllAt(r, n, xs[1..], i - 1);
    }
  }

  // ---------------------------------------------------------------- which edges are redirected

  /** At least two back edges lead to `h`. */
  ghost predicate TwoSources(g: Graph, order: seq<Node>, h: Node) {
    exists x: Node, y: Node :: x != y && BackEdge(g, order, x, h) && BackEdge(g, order, y, h)
  }

  /** The blocks of `done` that are the target of several back edges, in the order in which they finish. */
  ghost function Headers(g: Graph, order: seq<Node>, done: seq<Node>): (hs: seq<Node>)
    ensures forall h :: h in hs <==> h in done && TwoSources(g, order, h)
    ensures |hs| <= |done|
  {
    if done == [] then []
    else
      var before, h := done[..|done| - 1], done[|done| - 1];
      Headers(g, order, before) + (if TwoSources(g, order, h) then [h] else [])
  }

  /** Exactly the back edges to such blocks are redirected, to a new block for each of them. */
  ghost predicate MergesAll(r: Redirects, g: Graph, order: seq<Node>, done: seq<Node>) {
    var hs := Headers(g, order, done);
    forall x: Node, y: Node ::
      && ((x, y) in r <==> y in hs && BackEdge(g, order, x, y))
      && ((x, y) in r ==> r[(x, y)] == |g.succ| + Index(hs, y))
  }

  /** The graph with the merge blocks. */
  ghost predicate MergedGraph(g: Graph, g': Graph, r: Redirects, hs: seq<Node>) {
    && |g'.succ| == |g.succ| + |hs|
    && (forall x: Node :: x < |g.succ| ==> g'.succ[x] == ViaAll(r, x, g.succ[x]))
    && (forall j: nat :: j < |hs| ==> g'.succ[|g.succ| + j] == [hs[j]])
    && (forall j: nat :: j < |hs| ==> hs[j] < |g.succ|)
    && (forall x: Node, y: Node :: (x, y) in r ==> |g.succ| <= r[(x, y)] < |g'.succ| && hs[r[(x, y)] - |g.succ|] == y)
  }

  lemma MergedClosed(g: Graph, g': Graph, r: Redirects, hs: seq<Node>)
    requires Closed(g) && MergedGraph(g, g', r, hs)
    ensures Closed(g')
  {
    forall x: Node | x < |g'.succ| ensures InRange(g'.succ[x], |g'.succ|) {
      if x < |g.succ| {
        forall i | 0 <= i < |g'.succ[x]| ensures g'.succ[x][i] < |g'.succ| {
          ViaAllAt(r, x, g.succ[x], i);
          assert InRange(g.succ[x], |g.succ|);
        }
      } else {
        assert g'.succ[|g.succ| + (x - |g.succ|)] == [hs[x - |g.succ|]];
      }
    }
  }

  // ---------------------------------------------------------------- the same visit

  /** The old blocks of an order. */
  function Old(order: seq<Node>, base: nat): seq<Node> {
    if order == [] then []
    else Old(order[..|order| - 1], base) + (if order[|order| - 1] < base then [order[|order| - 1]] else [])
  }

  lemma OldSnoc(order: seq<Node>, base: nat, x: Node)
    ensures Old(order + [x], base) == Old(order, base) + if x < base then [x] else []
  {
    assert (order + [x])[..|order|] == order;
  }

  /** The visits agree on the old blocks, and no merge block is on the stack. */
  ghost predicate SameVisit(base: nat, t: Trav, t': Trav) {
    && (forall x: Node :: x < base ==> (x in t.visited <==> x in t'.visited))
    && Old(t'.order, base) == t.order
    && (forall m: Node :: m >= base ==> (m in t'.visited <==> m in t'.order))
  }

  /** Every redirected edge of the blocks finished since `lo` leads to a merge block that finished earlier. */
  ghost predicate MergedEarlier(r: Redirects, base: nat, order: seq<Node>, lo: nat) {
    forall i, y: Node :: lo <= i < |order| && order[i] < base && (order[i], y) in r ==> r[(order[i], y)] in order[..i]
  }

  lemma EarlierTrans(r: Redirects, base: nat, a: seq<Node>, b: seq<Node>, lo: nat)
    requires a <= b && MergedEarlier(r, base, a, lo) && MergedEarlier(r, base, b, |a|)
    ensures MergedEarlier(r, base, b, lo)
  {
    forall i, y: Node | lo <= i < |b| && b[i] < base && (b[i], y) in r ensures r[(b[i], y)] in b[..i] {
      if i < |a| {
        assert a[i] == b[i] && a[..i] == b[..i];
      }
    }
  }

  /** A merge block, met for the first time, is entered and left at once. */
  lemma MergeVisited(g: Graph, g': Graph, r: Redirects, hs: seq<Node>, t: Trav, t': Trav, m: Node)
    requires Closed(g) && Closed(g') && MergedGraph(g, g', r, hs) && SameVisit(|g.succ|, t, t')
    requires |g.succ| <= m < |g'.succ| && m !in t'.visited && hs[m - |g.succ|] in t.visited
    ensures VisitNode(g', t', m) == Trav(t'.visited + {m}, t'.order + [m])
    ensures SameVisit(|g.succ|, t, VisitNode(g', t', m))
            && MergedEarlier(r, |g.succ|, VisitNode(g', t', m).order, |t'.order|)
  {
    var h := hs[m - |g.succ|];
    assert g'.succ[|g.succ| + (m - |g.succ|)] == [h];
    var t1 := t'.(visited := t'.visited + {m});
    assert [h][1..] == [];
    assert VisitAll(g', t1, [h]) == t1;
    OldSnoc(t'.order, |g.succ|, m);
  }

  lemma {:induction false} SameNode(g: Graph, g': Graph, r: Redirects, hs: seq<Node>, final: seq<Node>, t: Trav,
                                    t': Trav, x: Node)
    requires Closed(g) && Closed(g') && MergedGraph(g, g', r, hs) && SameVisit(|g.succ|, t, t')
    requires x < |g.succ| && x !in t.visited && VisitNode(g, t, x).order <= final && Distinct(final)
    requires forall a: Node, b: Node :: (a, b) in r ==> BackEdge(g, final, a, b)
    ensures x !in t'.visited && SameVisit(|g.succ|, VisitNode(g, t, x), VisitNode(g', t', x))
    ensures t'.order <= VisitNode(g', t', x).order && MergedEarlier(r, |g.succ|, VisitNode(g', t', x).order, |t'.order|)
    decreases Nodes(g) - t.visited, 0
  {
    hide MergedGraph, SameVisit;
    AboutSame(|g.succ|, t, t', x);
    var t1, t1' := t.(visited := t.visited + {x}), t'.(visited := t'.visited + {x});
    MergedList(g, g', r, hs, x);
    NewOfNode(g, t, x);
    EnterSame(|g.succ|, t, t', x);
    EndsWith(g, t, x, final);
    SameList(g, g', r, hs, final, t1, t1', x, g.succ[x]);
    var r1, r1' := VisitAll(g, t1, g.succ[x]), VisitAll(g', t1', g'.succ[x]);
    LeaveSame(|g.succ|, r1, r1', x);
    VisitAllGrows(g', t1', g'.succ[x]);
    var all := VisitNode(g', t', x).order;
    assert all == r1'.order + [x];
    forall i, y: Node | |r1'.order| <= i < |all| && all[i] < |g.succ|
        && (all[i], y) in r ensures r[(all[i], y)] in all[..i] {
      assert i == |r1'.order| && all[..i] == r1'.order;
      assert BackEdge(g, final, x, y);
    }
    EarlierTrans(r, |g.succ|, r1'.order, all, |t'.order|);
  }

  lemma MergedList(g: Graph, g': Graph, r: Redirects, hs: seq<Node>, x: Node)
    requires MergedGraph(g, g', r, hs) && x < |g.succ|
    ensures x < |g'.succ| && g'.succ[x] == ViaAll(r, x, g.succ[x])
  {}

  lemma RedirectedEdge(g: Graph, g': Graph, r: Redirects, hs: seq<Node>, x: Node, y: Node)
    requires MergedGraph(g, g', r, hs) && (x, y) in r
    ensures |g.succ| <= r[(x, y)] < |g'.succ| && hs[r[(x, y)] - |g.succ|] == y && y < |g.succ|
  {}

  lemma AboutSame(base: nat, t: Trav, t': Trav, x: Node)
    requires SameVisit(base, t, t')
    ensures x < base ==> (x in t.visited <==> x in t'.visited)
    ensures x >= base ==> (x in t'.visited <==> x in t'.order)
  {}

  lemma EnterSame(base: nat, t: Trav, t': Trav, x: Node)
    requires SameVisit(base, t, t') && x < base
    ensures SameVisit(base, t.(visited := t.visited + {x}), t'.(visited := t'.visited + {x}))
  {}

  lemma LeaveSame(base: nat, t: Trav, t': Trav, x: Node)
    requires SameVisit(base, t, t') && x < base
    ensures SameVisit(base, t.(order := t.order + [x]), t'.(order := t'.order + [x]))
  {
    OldSnoc(t'.order, base, x);
  }

  lemma EndsWith(g: Graph, t: Trav, x: Node, final: seq<Node>)
    requires Closed(g) && x < |g.succ| && x !in t.visited && VisitNode(g, t, x).order <= final
    ensures VisitAll(g, t.(visited := t.visited + {x}), g.succ[x]).order + [x] <= final
  {}

  /** The target of a redirected edge has been entered by the time the edge is met. */
  lemma TargetEntered(g: Graph, r: Redirects, final: seq<Node>, t: Trav, x: Node, xs: seq<Node>)
    requires Closed(g) && InRange(xs, |g.succ|) && xs != [] && VisitAll(g, t, xs).order + [x] <= final
             && Distinct(final)
    requires BackEdge(g, final, x, xs[0])
    ensures xs[0] in t.visited
  {
    if xs[0] !in t.visited {
      NewOfAll(g, t, xs);
      VisitNodeLast(g, t, xs[0]);
      var all := VisitAll(g, t, xs).order;
      assert xs[0] in all && final[|all|] == x && final[..|all|] == all;
      BeforeAt(final, |all|);
    }
  }

  /** The merge blocks of the redirected edges of `xs` have finished. */
  ghost predicate MergesDone(r: Redirects, x: Node, xs: seq<Node>, order: seq<Node>) {
    forall i :: 0 <= i < |xs| && (x, xs[i]) in r ==> r[(x, xs[i])] in order
  }

  lemma {:induction false} SameList(g: Graph, g': Graph, r: Redirects, hs: seq<Node>, final: seq<Node>, t: Trav,
                                    t': Trav, x: Node, xs: seq<Node>)
    requires Closed(g) && Closed(g') && MergedGraph(g, g', r, hs) && SameVisit(|g.succ|, t, t')
    requires InRange(xs, |g.succ|) && InRange(ViaAll(r, x, xs), |g'.succ|)
    requires VisitAll(g, t, xs).order + [x] <= final && Distinct(final)
    requires forall a: Node, b: Node :: (a, b) in r ==> BackEdge(g, final, a, b)
    ensures var all := VisitAll(g', t', ViaAll(r, x, xs));
            && SameVisit(|g.succ|, VisitAll(g, t, xs), all)
            && t'.order <= all.order && MergedEarlier(r, |g.succ|, all.order, |t'.order|)
            && MergesDone(r, x, xs, all.order)
    decreases Nodes(g) - t.visited, 1, xs
  {
    hide MergedGraph, SameVisit, BackEdge;
    if xs != [] {
      var y, ys := xs[0], ViaAll(r, x, xs);
      assert ys[1..] == ViaAll(r, x, xs[1..]);
      AboutSame(|g.succ|, t, t', ys[0]);
      var s, s' := t, t';
      if (x, y) in r {
        TargetEntered(g, r, final, t, x, xs);
        RedirectedEdge(g, g', r, hs, x, y);
        if ys[0] !in t'.visited {
          MergeVisited(g, g', r, hs, t, t', ys[0]);
          s' := VisitNode(g', t', ys[0]);
        }
      } else if y !in t.visited {
        NewOfAll(g, t, xs);
        SameNode(g, g', r, hs, final, t, t', y);
        s, s' := VisitNode(g, t, y), VisitNode(g', t', y);
      }
      SameList(g, g', r, hs, final, s, s', x, xs[1..]);
      var all := VisitAll(g', s', ys[1..]);
      VisitAllGrows(g', s', ys[1..]);
      assert all == VisitAll(g', t', ys);
      if s'.order != t'.order {
        EarlierTrans(r, |g.succ|, s'.order, all.order, |t'.order|);
      }
      forall i | 0 <= i < |xs| && (x, xs[i]) in r ensures r[(x, xs[i])] in all.order {
        if i == 0 {
          AboutSame(|g.succ|, s, s', ys[0]);
          assert r[(x, y)] in s'.order && s'.order <= all.order;
        } else {
          assert xs[1..][i - 1] == xs[i];
        }
      }
    }
  }

  // ---------------------------------------------------------------- the next visit

  lemma {:induction false} OldMembers(order: seq<Node>, base: nat, x: Node)
    ensures x in Old(order, base) <==> x in order && x < base
  {
    if order != [] {
      var n := |order| - 1;
      OldMembers(order[..n], base, x);
      assert order == order[..n] + [order[n]];
    }
  }

  /** Leaving the merge blocks out keeps what finished before what. */
  lemma {:induction false} OldKeepsOrder(order: seq<Node>, base: nat, y: Node, x: Node)
    requires Distinct(order) && x < base && Before(Old(order, base), y, x)
    ensures Before(order, y, x)
  {
    var n := |order| - 1;
    var before, last := order[..n], order[n];
    assert order == before + [last];
    DistinctSlice(order, 0, n);
    assert order[0..n] == before;
    var kept, all := Old(before, base), Old(order, base);
    OldMembers(order, base, x);
    OldMembers(before, base, x);
    OldMembers(before, base, y);
    OldMembers(order, base, y);
    IndexPrefix(kept, all, y);
    IndexPrefix(kept, all, x);
    IndexPrefix(before, order, y);
    IndexPrefix(before, order, x);
    if x in before {
      OldKeepsOrder(before, base, y, x);
    } else {
      assert x == last && all == kept + [x] && x !in kept;
      assert Index(all, x) == |kept|;
      assert y in kept by { assert all[Index(all, y)] == y; }
    }
  }

  lemma {:induction false} IndexPrefix(a: seq<Node>, b: seq<Node>, x: Node)
    requires a <= b
    ensures x in a ==> Index(b, x) == Index(a, x)
    ensures x !in a ==> Index(b, x) >= |a|
  {
    if a != [] && a[0] != x {
      IndexPrefix(a[1..], b[1..], x);
    }
  }

  lemma {:induction false} HeadersDistinct(g: Graph, order: seq<Node>, done: seq<Node>)
    requires Distinct(done)
    ensures Distinct(Headers(g, order, done))
  {
    if done != [] {
      var n := |done| - 1;
      var before, h := done[..n], done[n];
      DistinctSlice(done, 0, n);
      assert done[0..n] == before;
      HeadersDistinct(g, order, before);
      assert h !in before by { assert h in done[n..] by { assert done[n..][0] == h; } }
      if TwoSources(g, order, h) {
        DistinctSnoc(Headers(g, order, before), h);
      }
    }
  }

  /** The old blocks finish in the same order as before. */
  lemma SameOrder(g: Graph, g': Graph, r: Redirects, hs: seq<Node>, root: Node)
    requires Closed(g) && root < |g.succ| && MergedGraph(g, g', r, hs)
    requires forall a: Node, b: Node :: (a, b) in r ==> BackEdge(g, Order(g, root), a, b)
    ensures Closed(g') && root < |g'.succ|
    ensures Old(Order(g', root), |g.succ|) == Order(g, root)
    ensures MergedEarlier(r, |g.succ|, Order(g', root), 0)
  {
    MergedClosed(g, g', r, hs);
    Traversal.OrderFacts(g, root);
    SameNode(g, g', r, hs, Order(g, root), Traversal.Start(), Traversal.Start(), root);
  }

  lemma MergeBefore(r: Redirects, base: nat, order: seq<Node>, x: Node, y: Node)
    requires Distinct(order) && x in order && x < base && (x, y) in r && MergedEarlier(r, base, order, 0)
    ensures Before(order, r[(x, y)], x)
  {
    var k := Index(order, x);
    assert order[k] == x;
    BeforeAt(order, k);
    assert r[(x, y)] in order[..k];
  }

  lemma TwoSourcesListed(g: Graph, root: Node, x: Node, y: Node, z: Node)
    requires Closed(g) && root < |g.succ| && x != y && BackEdge(g, Order(g, root), x, z)
             && BackEdge(g, Order(g, root), y, z)
    ensures z in Headers(g, Order(g, root), Order(g, root))
  {
    Traversal.OrderFacts(g, root);
    assert TwoSources(g, Order(g, root), z);
  }

  /** Where a back edge of the merged graph comes from. */
  lemma BackEdgeKinds(g: Graph, g': Graph, r: Redirects, root: Node, x: Node, z: Node)
    requires Closed(g) && root < |g.succ|
    requires MergesAll(r, g, Order(g, root), Order(g, root))
             && MergedGraph(g, g', r, Headers(g, Order(g, root), Order(g, root)))
    requires Closed(g') && root < |g'.succ| && BackEdge(g', Order(g', root), x, z)
    ensures var hs := Headers(g, Order(g, root), Order(g, root));
            if x >= |g.succ| then x - |g.succ| < |hs| && z == hs[x - |g.succ|]
            else BackEdge(g, Order(g, root), x, z) && z !in hs
  {
    var final, order := Order(g, root), Order(g', root);
    var hs := Headers(g, final, final);
    SameOrder(g, g', r, hs, root);
    Traversal.OrderFacts(g', root);
    if x >= |g.succ| {
      assert g'.succ[|g.succ| + (x - |g.succ|)] == [hs[x - |g.succ|]];
    } else {
      var i :| 0 <= i < |g'.succ[x]| && g'.succ[x][i] == z;
      var y := g.succ[x][i];
      ViaAllAt(r, x, g.succ[x], i);
      assert z == Via(r, x, y) && Edge(g, x, y);
      OldMembers(order, |g.succ|, x);
      if (x, y) in r {
        MergeBefore(r, |g.succ|, order, x, y);
      } else if Before(final, z, x) {
        OldKeepsOrder(order, |g.succ|, z, x);
      }
    }
  }

  /** In the merged graph every block is the target of at most one back edge. */
  lemma OneBackEdgeIn(g: Graph, g': Graph, r: Redirects, root: Node, x: Node, y: Node, z: Node)
    requires Closed(g) && root < |g.succ|
    requires MergesAll(r, g, Order(g, root), Order(g, root))
             && MergedGraph(g, g', r, Headers(g, Order(g, root), Order(g, root)))
    requires Closed(g') && root < |g'.succ| && BackEdge(g', Order(g', root), x, z)
             && BackEdge(g', Order(g', root), y, z)
    ensures x == y
  {
    hide MergesAll, MergedGraph;
    var final := Order(g, root);
    var hs := Headers(g, final, final);
    Traversal.OrderFacts(g, root);
    HeadersDistinct(g, final, final);
    BackEdgeKinds(g, g', r, root, x, z);
    BackEdgeKinds(g, g', r, root, y, z);
    if x >= |g.succ| && y >= |g.succ| {
      DistinctPair(hs, x - |g.succ|, y - |g.succ|);
    } else if x < |g.succ| && y < |g.succ| && x != y {
      TwoSourcesListed(g, root, x, y, z);
    }
  }
}
