/** Dominance frontiers and post-dominance frontiers. */
module Frontiers {
  import opened Wrappers
  import opened Graphs
  import opened Lists
  import opened Dominance
  import opened NodePool
  import opened FlowGraph
  import opened Backwards
  import opened Dominators

  /** The textbook dominance frontier: `n` dominates a predecessor of `y` but not strictly `y` itself. */
  ghost predicate Frontier(f: Flow, n: Node, y: Node) {
    !StrictDom(f, n, y) && exists x: Node :: Edge(f.g, x, y) && Dom(f, n, x)
  }

  /** The same relation for post-dominance, on the forward graph: some successor of `x` is post-dominated
      by `n`, but `x` is not strictly. */
  ghost predicate PostFrontier(g: Graph, n: Node, x: Node) {
    !(n != x && PostDom(g, n, x)) && exists s: Node :: Edge(g, x, s) && PostDom(g, n, s)
  }

  /** The child of `n` in the dominator tree above `x`. */
  lemma {:induction false} ChildAbove(f: Flow, idom: seq<Option<Node>>, n: Node, x: Node) returns (ch: Node)
    requires Ok(f) && IdomCorrect(f, idom) && Live(f, x) && x < |f.num| && StrictDom(f, n, x) && n < |f.num|
    ensures Live(f, ch) && ImmediateDom(f, n, ch) && Dom(f, ch, x)
    decreases f.num[f.root] as int - f.num[x]
  {
    RootIsHighest(f, x);
    ChainStep(f, idom, 0, x);
    DomByChain(f, idom, n, x);
    var d := idom[x].value;
    if d == n {
      ch := x;
      DomRefl(f, x);
    } else {
      ch := ChildAbove(f, idom, n, d);
      DomTrans(f, ch, d, x);
    }
  }

  /** A successor of `n` is in its frontier unless `n` is its immediate dominator. */
  lemma LocalFrontier(f: Flow, n: Node, y: Node)
    requires Ok(f) && Edge(f.g, n, y)
    ensures Frontier(f, n, y) <==> !ImmediateDom(f, n, y)
  {
    LiveEdge(f, n, y);
    DomRefl(f, n);
    if StrictDom(f, n, y) {
      NotRoot(f, n, y);
      forall a: Node | StrictDom(f, a, y) ensures Dom(f, a, n) {
        StrictDomByPreds(f, a, y);
      }
    }
  }

  lemma NotRoot(f: Flow, x: Node, y: Node)
    requires Ok(f) && Edge(f.g, x, y)
    ensures y != f.root
  {
    LiveEdge(f, x, y);
    RootIsHighest(f, x);
  }

  /** What a child of `n` in the dominator tree passes up to it. */
  lemma FrontierUp(f: Flow, n: Node, ch: Node, y: Node)
    requires Ok(f) && Live(f, ch) && ImmediateDom(f, n, ch) && Frontier(f, ch, y) && !Dom(f, n, y)
    ensures Frontier(f, n, y)
  {
    var x :| Edge(f.g, x, y) && Dom(f, ch, x);
    DomTrans(f, n, ch, x);
  }

  /** Everything in the frontier of `n` is local or comes up from a child. */
  lemma FrontierFromChild(f: Flow, idom: seq<Option<Node>>, n: Node, y: Node) returns (ch: Node)
    requires Ok(f) && IdomCorrect(f, idom) && Live(f, n) && n < |f.num|
    requires Frontier(f, n, y) && !(Edge(f.g, n, y) && !ImmediateDom(f, n, y))
    ensures Live(f, ch) && ImmediateDom(f, n, ch) && Frontier(f, ch, y) && !Dom(f, n, y)
  {
    if Edge(f.g, n, y) { LocalFrontier(f, n, y); }
    var x :| Edge(f.g, x, y) && Dom(f, n, x);
    LiveEdge(f, x, y);
    LiveInRange(f, x);
    ch := ChildAbove(f, idom, n, x);
    if StrictDom(f, ch, y) {
      DomTrans(f, n, ch, y);
      ImmediateDomLower(f, n, ch);
      DomNumber(f, ch, y);
    }
    if n == y {
      DomNumber(f, n, x);
      ReachDescends(f.g, f.num, n, x);
    }
  }

  /** A frontier block is live and is not dominated, so passing it up tests nothing it should keep. */
  lemma FrontierLive(f: Flow, n: Node, y: Node)
    requires Ok(f) && Frontier(f, n, y)
    ensures Live(f, y) && y < |f.num| && y != f.root
  {
    var x :| Edge(f.g, x, y) && Dom(f, n, x);
    LiveEdge(f, x, y);
    LiveInRange(f, y);
    NotRoot(f, x, y);
  }

  // ---------------------------------------------------------------- the invariant of the passes

  /** What `n` has been passed by those of its children that are numbered below `i`. */
  ghost predicate FromChildren(f: Flow, i: nat, n: Node, y: Node) {
    exists ch: Node :: ch < |f.num| && f.num[ch] < i && PassesUp(f, n, ch, y)
  }

  ghost predicate PassesUp(f: Flow, n: Node, ch: Node, y: Node) {
    Live(f, ch) && ImmediateDom(f, n, ch) && Frontier(f, ch, y) && !Dom(f, n, y)
  }

  /** The frontier of `n` when the pass has done the blocks numbered below `i`. */
  ghost predicate FrontierSoFar(f: Flow, i: nat, n: Node, y: Node) {
    n < |f.num| && if f.num[n] < i then Frontier(f, n, y) else FromChildren(f, i, n, y)
  }

  ghost predicate Holding(f: Flow, df: seq<Node>, i: nat, n: Node) {
    Distinct(df) && forall y: Node :: y in df <==> FrontierSoFar(f, i, n, y)
  }

  ghost predicate PassInvariant(f: Flow, df: seq<seq<Node>>, list: seq<Node>, i: nat) {
    |df| == |f.num| && forall n: Node :: n in list && n < |df| ==> Holding(f, df[n], i, n)
  }

  /** One step of the pass: local edges first, then what goes up to the immediate dominator. */
  ghost predicate Stepped(f: Flow, idom: seq<Option<Node>>, df: seq<seq<Node>>, df': seq<seq<Node>>, n: Node)
    requires n < |idom| == |df| && idom[n].Some?
  {
    var d := idom[n].value;
    && |df'| == |df|
    && (forall m: Node :: m < |df| && Distinct(df[m]) ==> Distinct(df'[m]))
    && (forall m: Node :: m < |df| && m != n && m != d ==> df'[m] == df[m])
    && (forall y: Node :: y in df'[n] <==> y in df[n] || (Edge(f.g, n, y) && !ImmediateDom(f, n, y)))
    && (d < |df| && d != n ==> forall y: Node :: y in df'[d] <==>
          y in df[d] || (f.g.succ != [] && n < |f.g.succ| && f.g.succ[n] != [] && y in df'[n] && !Dom(f, d, y)))
  }

  lemma CompleteAtTurn(f: Flow, idom: seq<Option<Node>>, n: Node, y: Node)
    requires Ok(f) && IdomCorrect(f, idom) && Live(f, n) && n < |f.num|
    ensures Frontier(f, n, y) <==> FromChildren(f, f.num[n], n, y) || (Edge(f.g, n, y) && !ImmediateDom(f, n, y))
  {
    if FromChildren(f, f.num[n], n, y) {
      var ch: Node :| ch < |f.num| && f.num[ch] < f.num[n] && PassesUp(f, n, ch, y);
      FrontierUp(f, n, ch, y);
    }
    if Edge(f.g, n, y) { LocalFrontier(f, n, y); }
    if Frontier(f, n, y) && !(Edge(f.g, n, y) && !ImmediateDom(f, n, y)) {
      var ch := FrontierFromChild(f, idom, n, y);
      ImmediateDomLower(f, n, ch);
      assert PassesUp(f, n, ch, y);
    }
  }

  /** A block that nothing leaves has an empty frontier. */
  lemma NoSuccNoFrontier(f: Flow, n: Node, y: Node)
    requires Ok(f) && n < |f.g.succ| && f.g.succ[n] == []
    ensures !Frontier(f, n, y)
  {
    if Frontier(f, n, y) {
      var x :| Edge(f.g, x, y) && Dom(f, n, x);
      LiveEdge(f, x, y);
      DomNumber(f, n, x);
      if x != n {
        var s := ReachFirst(f.g, n, x);
      }
    }
  }

  lemma ChildrenGrow(f: Flow, idom: seq<Option<Node>>, i: nat, n: Node, m: Node, y: Node)
    requires Ok(f) && IdomCorrect(f, idom) && Live(f, n) && n < |f.num| && f.num[n] == i
    requires n < |idom|
    ensures FromChildren(f, i + 1, m, y) <==> FromChildren(f, i, m, y) || PassesUp(f, m, n, y)
    ensures n != f.root && idom[n] != Some(m) ==> !PassesUp(f, m, n, y)
    ensures n == f.root ==> !PassesUp(f, m, n, y)
  {
    assert HasIdom(f, idom, n);
    if n != f.root && ImmediateDom(f, m, n) {
      ImmediateDomUnique(f, m, idom[n].value, n);
    }
    if n == f.root && ImmediateDom(f, m, n) {
      ImmediateDomLower(f, m, n);
    }
    if FromChildren(f, i + 1, m, y) {
      var ch: Node :| ch < |f.num| && f.num[ch] < i + 1 && PassesUp(f, m, ch, y);
      if f.num[ch] == i && ch != n {
        NumbersDiffer(f, ch, n);
      }
    }
  }

  lemma PassStep(f: Flow, idom: seq<Option<Node>>, df: seq<seq<Node>>, df': seq<seq<Node>>, list: seq<Node>, i: nat,
                 n: Node)
    requires Ok(f) && IdomCorrect(f, idom) && PassInvariant(f, df, list, i)
    requires forall m :: m in list ==> Live(f, m)
    requires n in list && n < |f.num| && f.num[n] == i && n < |idom| && idom[n].Some?
    requires Stepped(f, idom, df, df', n)
    ensures PassInvariant(f, df', list, i + 1)
  {
    assert HasIdom(f, idom, n);
    var d := idom[n].value;
    forall m: Node | m in list && m < |df'| ensures Holding(f, df'[m], i + 1, m) {
      assert Holding(f, df[m], i, m);
      forall y: Node ensures y in df'[m] <==> FrontierSoFar(f, i + 1, m, y) {
        ChildrenGrow(f, idom, i, n, m, y);
        assert y in df[m] <==> FrontierSoFar(f, i, m, y);
        if m == n {
          CompleteAtTurn(f, idom, n, y);
        } else {
          NumbersDiffer(f, m, n);
          if m == d {
            ChainStep(f, idom, 0, n);
            assert Holding(f, df[n], i, n);
            assert y in df[n] <==> FrontierSoFar(f, i, n, y);
            CompleteAtTurn(f, idom, n, y);
            if f.g.succ[n] == [] { NoSuccNoFrontier(f, n, y); }
          }
        }
      }
    }
  }

  // ---------------------------------------------------------------- the two passes

  /** Whether `df` after the first `k` successors relates to `df0` as one step of the pass should. */
  ghost predicate Partly(f: Flow, df0: seq<seq<Node>>, df: seq<seq<Node>>, n: Node, d: Node, ys: seq<Node>) {
    && |df| == |df0|
    && (forall m: Node :: m < |df| && Distinct(df0[m]) ==> Distinct(df[m]))
    && (forall m: Node :: m < |df| && m != n && m != d ==> df[m] == df0[m])
    && (n < |df| ==> forall y: Node :: y in df[n] <==> y in df0[n] || (y in ys && !ImmediateDom(f, n, y)))
    && (d < |df| && d != n && n < |df| ==>
          forall y: Node :: y in df[d] <==> y in df0[d] || (ys != [] && y in df[n] && !Dom(f, d, y)))
  }

  ghost predicate AllLive(f: Flow, ys: seq<Node>) {
    forall y: Node :: y in ys ==> Live(f, y)
  }

  /** The frontier lists as they change while `n` passes the first of its own up to `d`. */
  ghost predicate Passing(f: Flow, df0: seq<seq<Node>>, df: seq<seq<Node>>, n: Node, d: Node, ys: seq<Node>) {
    && |df| == |df0| && n < |df| && d < |df|
    && (forall m: Node :: m < |df| && Distinct(df0[m]) ==> Distinct(df[m]))
    && (forall m: Node :: m < |df| && m != d ==> df[m] == df0[m])
    && (forall y: Node :: y in df[d] <==> y in df0[d] || (y in ys && !Dom(f, d, y)))
  }

  lemma PassingOne(f: Flow, df0: seq<seq<Node>>, df: seq<seq<Node>>, n: Node, d: Node, ys: seq<Node>, y: Node,
                   push: bool)
    requires Passing(f, df0, df, n, d, ys) && (push <==> !Dom(f, d, y) && y !in df[d])
    ensures Passing(f, df0, if push then df[d := df[d] + [y]] else df, n, d, ys + [y])
  {
    if push && Distinct(df[d]) {
      DistinctSnoc(df[d], y);
    }
  }

  /** A member of the pass's own frontier list is only pushed where it is not already. */
  lemma PartlyOne(f: Flow, df0: seq<seq<Node>>, df: seq<seq<Node>>, df': seq<seq<Node>>, df'': seq<seq<Node>>,
                  n: Node, d: Node, ys: seq<Node>, y: Node)
    requires Partly(f, df0, df, n, d, ys) && n < |df| && d < |df|
    requires df' == if !ImmediateDom(f, n, y) && y !in df[n] then df[n := df[n] + [y]] else df
    requires Passing(f, df', df'', n, d, df'[n])
    requires d == n ==> forall z: Node :: Dom(f, d, z)
    ensures Partly(f, df0, df'', n, d, ys + [y])
  {
    if y !in df[n] && Distinct(df[n]) {
      DistinctSnoc(df[n], y);
    }
    if d == n {
      assert df''[n] == df'[n] || forall z: Node :: z in df''[n] <==> z in df'[n];
    }
  }

  lemma PartlyIsStep(f: Flow, idom: seq<Option<Node>>, df0: seq<seq<Node>>, df: seq<seq<Node>>, n: Node, ys: seq<Node>)
    requires n < |idom| == |df0| == |f.g.succ| && idom[n].Some? && idom[n].value < |df0|
    requires Partly(f, df0, df, n, idom[n].value, ys)
    requires (forall y: Node :: y in ys <==> Edge(f.g, n, y)) && (ys == [] <==> f.g.succ[n] == [])
    ensures Stepped(f, idom, df0, df, n)
  {}

  /** The inner loop of `recompute_dominance_frontier`: passes the frontier of `n` up to `d`. */
  method PassUp(c: Pool, n: Node, d: Node)
    requires c.Shape() && Ok(Forward(c)) && IdomCorrect(Forward(c), c.immediateDominator)
    requires n < |c.succ| && d < |c.succ| && AllLive(Forward(c), c.dominanceFrontier[n])
    requires d == n ==> forall z: Node :: Dom(Forward(c), d, z)
    modifies c`dominanceFrontier
    ensures c.Shape()
    ensures Passing(Forward(c), old(c.dominanceFrontier), c.dominanceFrontier, n, d, old(c.dominanceFrontier[n]))
  {
    hide Ok, IdomFrom, Dom, Passing, Distinct;
    ghost var f := Forward(c);
    ghost var df0 := c.dominanceFrontier;
    var frontier := c.dominanceFrontier[n];
    PassingNone(f, df0, n, d);
    var j := 0;
    while j < |frontier|
      invariant j <= |frontier| && |c.dominanceFrontier| == |df0|
      invariant Passing(f, df0, c.dominanceFrontier, n, d, frontier[..j])
    {
      var y := frontier[j];
      assert y in frontier;
      var dominated := Dominates(c, d, y);
      PassingOne(f, df0, c.dominanceFrontier, n, d, frontier[..j], y, !dominated && y !in c.dominanceFrontier[d]);
      assert frontier[..j + 1] == frontier[..j] + [y];
      if !dominated && y !in c.dominanceFrontier[d] {
        c.dominanceFrontier := c.dominanceFrontier[d := c.dominanceFrontier[d] + [y]];
      }
      j := j + 1;
    }
    assert frontier[..j] == frontier;
  }

  lemma PassingNone(f: Flow, df: seq<seq<Node>>, n: Node, d: Node)
    requires n < |df| && d < |df|
    ensures Passing(f, df, df, n, d, [])
  {}

  lemma PartlyNone(f: Flow, df: seq<seq<Node>>, n: Node, d: Node)
    ensures Partly(f, df, df, n, d, [])
  {}

  /** The stored immediate dominator of a successor is `n` exactly when `n` is the immediate dominator. */
  lemma IdomOfSucc(f: Flow, idom: seq<Option<Node>>, n: Node, s: Node)
    requires Ok(f) && IdomCorrect(f, idom) && Edge(f.g, n, s)
    ensures s < |idom| && (idom[s] == Some(n) <==> ImmediateDom(f, n, s)) && Live(f, s)
  {
    LiveEdge(f, n, s);
    LiveInRange(f, s);
    NotRoot(f, n, s);
    assert HasIdom(f, idom, s);
    if ImmediateDom(f, n, s) {
      ImmediateDomUnique(f, n, idom[s].value, s);
    }
  }

  /** The frontier of `n` holds live blocks only, before its turn and while it is built. */
  lemma InvariantLive(f: Flow, df: seq<seq<Node>>, list: seq<Node>, i: nat, n: Node)
    requires Ok(f) && PassInvariant(f, df, list, i) && n in list && n < |df|
    ensures AllLive(f, df[n]) && Distinct(df[n])
  {
    assert Holding(f, df[n], i, n);
    forall y: Node | y in df[n] ensures Live(f, y) {
      assert FrontierSoFar(f, i, n, y);
      if f.num[n] < i {
        FrontierLive(f, n, y);
      } else {
        var ch: Node :| ch < |f.num| && f.num[ch] < i && PassesUp(f, n, ch, y);
        FrontierLive(f, ch, y);
      }
    }
  }

  lemma RootDominatesAll(f: Flow, d: Node)
    requires d == f.root
    ensures forall z: Node :: Dom(f, d, z)
  {
    forall z: Node ensures Dom(f, d, z) {
      RootDominates(f, z);
    }
  }

  /** `recompute_dominance_frontier`. */
  method RecomputeDominanceFrontier(c: Pool, n: Node)
    requires c.Shape() && Ok(Forward(c)) && IdomCorrect(Forward(c), c.immediateDominator)
    requires n in c.forwardOrder && n < |c.succ| && Live(Forward(c), n) && AllLive(Forward(c), c.dominanceFrontier[n])
    modifies c`dominanceFrontier
    ensures c.Shape() && c.immediateDominator[n].Some?
    ensures Stepped(Forward(c), c.immediateDominator, old(c.dominanceFrontier), c.dominanceFrontier, n)
  {
    hide Ok, IdomFrom, Dom, Passing, Distinct, Live, Partly, Stepped, ImmediateDom, Restrict;
    ghost var f := Forward(c);
    ghost var df0 := c.dominanceFrontier;
    ChainStep(f, c.immediateDominator, 0, n);
    var d := c.immediateDominator[n].value;
    if d == n { RootDominatesAll(f, d); }
    SuccIsEdge(c.succ, c.forwardOrder, n);
    PartlyNone(f, df0, n, d);
    var i := 0;
    while i < |c.succ[n]|
      invariant i <= |c.succ[n]| && |c.dominanceFrontier| == |df0|
      invariant Partly(f, df0, c.dominanceFrontier, n, d, c.succ[n][..i])
      invariant AllLive(f, c.dominanceFrontier[n])
    {
      var s := c.succ[n][i];
      assert Edge(f.g, n, s);
      IdomOfSucc(f, c.immediateDominator, n, s);
      ghost var df := c.dominanceFrontier;
      if c.immediateDominator[s] != Some(n) && s !in c.dominanceFrontier[n] {
        c.dominanceFrontier := c.dominanceFrontier[n := c.dominanceFrontier[n] + [s]];
      }
      ghost var df' := c.dominanceFrontier;
      PassUp(c, n, d);
      PartlyOne(f, df0, df, df', c.dominanceFrontier, n, d, c.succ[n][..i], s);
      PassingLive(f, df', c.dominanceFrontier, n, d);
      assert c.succ[n][..i + 1] == c.succ[n][..i] + [s];
      i := i + 1;
    }
    assert c.succ[n][..i] == c.succ[n];
    PartlyIsStep(f, c.immediateDominator, df0, c.dominanceFrontier, n, c.succ[n]);
  }

  lemma PassingLive(f: Flow, df: seq<seq<Node>>, df': seq<seq<Node>>, n: Node, d: Node)
    requires n < |df| && Passing(f, df, df', n, d, df[n]) && AllLive(f, df[n])
    ensures |df'| == |df| && AllLive(f, df'[n])
  {}

  lemma SuccIsEdge(succ: seq<seq<Node>>, order: seq<Node>, n: Node)
    requires n in order && n < |succ|
    ensures |Restrict(succ, order).succ| == |succ| && Restrict(succ, order).succ[n] == succ[n]
  {}

  /** Every live block's list holds exactly its textbook dominance frontier, once each. */
  ghost predicate FrontiersExact(c: Pool)
    reads c`succ, c`forwardOrder, c`entryBlock, c`forwardNumber, c`dominanceFrontier
  {
    forall n: Node :: n in c.forwardOrder ==>
      && n < |c.dominanceFrontier| && Distinct(c.dominanceFrontier[n])
      && forall y: Node :: y in c.dominanceFrontier[n] <==> Frontier(Forward(c), n, y)
  }

  /** `compute_dominance_frontier`: every list ends up holding exactly the textbook frontier, once each. */
  method ComputeDominanceFrontier(c: Pool)
    requires c.Shape() && Numbered(Forward(c), c.forwardOrder) && IdomCorrect(Forward(c), c.immediateDominator)
    requires InRange(c.forwardOrder, |c.succ|)
    modifies c`dominanceFrontier
    ensures c.Shape() && FrontiersExact(c)
  {
    hide Ok, IdomFrom, Restrict, PassInvariant, Stepped, Frontier, Dom, ImmediateDom, Live;
    ghost var f := Forward(c);
    ClearFrontiers(c);
    StartInvariant(f, c.dominanceFrontier, c.forwardOrder);
    var i := 0;
    while i < |c.forwardOrder|
      invariant i <= |c.forwardOrder| && c.Shape()
      invariant PassInvariant(f, c.dominanceFrontier, c.forwardOrder, i)
    {
      var n := c.forwardOrder[i];
      assert n in c.forwardOrder;
      InvariantLive(f, c.dominanceFrontier, c.forwardOrder, i, n);
      ghost var df := c.dominanceFrontier;
      RecomputeDominanceFrontier(c, n);
      PassStep(f, c.immediateDominator, df, c.dominanceFrontier, c.forwardOrder, i, n);
      i := i + 1;
    }
    PassDone(f, c.dominanceFrontier, c.forwardOrder, |c.forwardOrder|);
  }

  method ClearFrontiers(c: Pool)
    requires c.Shape() && InRange(c.forwardOrder, |c.succ|)
    modifies c`dominanceFrontier
    ensures c.Shape() && forall x: Node :: x in c.forwardOrder ==> c.dominanceFrontier[x] == []
  {
    var i := 0;
    while i < |c.forwardOrder|
      invariant i <= |c.forwardOrder| && |c.dominanceFrontier| == |c.succ|
      invariant forall x: Node :: x in c.forwardOrder[..i] ==> c.dominanceFrontier[x] == []
    {
      assert c.forwardOrder[..i + 1] == c.forwardOrder[..i] + [c.forwardOrder[i]];
      c.dominanceFrontier := c.dominanceFrontier[c.forwardOrder[i] := []];
      i := i + 1;
    }
    assert c.forwardOrder[..i] == c.forwardOrder;
  }

  lemma StartInvariant(f: Flow, df: seq<seq<Node>>, list: seq<Node>)
    requires |df| == |f.num| && forall x: Node :: x in list ==> x < |df| && df[x] == []
    ensures PassInvariant(f, df, list, 0)
  {
    forall n: Node | n in list && n < |df| ensures Holding(f, df[n], 0, n) {
      assert forall y: Node :: !FromChildren(f, 0, n, y);
    }
  }

  lemma PassDone(f: Flow, df: seq<seq<Node>>, list: seq<Node>, i: nat)
    requires PassInvariant(f, df, list, i)
    requires forall n: Node :: n in list ==> n < |df| && f.num[n] < i
    ensures forall n: Node :: n in list ==> Distinct(df[n]) && forall y: Node :: y in df[n] <==> Frontier(f, n, y)
  {
    forall n: Node | n in list ensures Distinct(df[n]) && forall y: Node :: y in df[n] <==> Frontier(f, n, y) {
      assert Holding(f, df[n], i, n);
      forall y: Node ensures y in df[n] <==> Frontier(f, n, y) {
        assert y in df[n] <==> FrontierSoFar(f, i, n, y);
      }
    }
  }

  // ---------------------------------------------------------------- post-dominance

  method PassPostUp(c: Pool, n: Node, d: Node)
    requires c.Shape() && InRange(c.forwardOrder, |c.succ|)
    requires Ok(Backward(c)) && IdomCorrect(Backward(c), c.immediatePostDominator)
    requires n < |c.succ| && d < |c.succ| && AllLive(Backward(c), c.postDominanceFrontier[n])
    requires d == n ==> forall z: Node :: Dom(Backward(c), d, z)
    modifies c`postDominanceFrontier
    ensures c.Shape()
    ensures Passing(Backward(c), old(c.postDominanceFrontier), c.postDominanceFrontier, n, d,
                    old(c.postDominanceFrontier[n]))
  {
    hide Ok, IdomFrom, Dom, Passing, Distinct;
    ghost var f := Backward(c);
    ghost var df0 := c.postDominanceFrontier;
    var frontier := c.postDominanceFrontier[n];
    PassingNone(f, df0, n, d);
    var j := 0;
    while j < |frontier|
      invariant j <= |frontier| && |c.postDominanceFrontier| == |df0|
      invariant Passing(f, df0, c.postDominanceFrontier, n, d, frontier[..j])
    {
      var y := frontier[j];
      assert y in frontier;
      var dominated := PostDominates(c, d, y);
      PassingOne(f, df0, c.postDominanceFrontier, n, d, frontier[..j], y,
                 !dominated && y !in c.postDominanceFrontier[d]);
      assert frontier[..j + 1] == frontier[..j] + [y];
      if !dominated && y !in c.postDominanceFrontier[d] {
        c.postDominanceFrontier := c.postDominanceFrontier[d := c.postDominanceFrontier[d] + [y]];
      }
      j := j + 1;
    }
    assert frontier[..j] == frontier;
  }

  /** `recompute_post_dominance_frontier`. */
  method RecomputePostDominanceFrontier(c: Pool, n: Node)
    requires c.Shape() && InRange(c.forwardOrder, |c.succ|)
    requires Ok(Backward(c)) && IdomCorrect(Backward(c), c.immediatePostDominator)
    requires n in c.forwardOrder && n != c.exitBlock && n < |c.succ| && Live(Backward(c), n)
    requires AllLive(Backward(c), c.postDominanceFrontier[n])
    modifies c`postDominanceFrontier
    ensures c.Shape() && c.immediatePostDominator[n].Some?
    ensures Stepped(Backward(c), c.immediatePostDominator, old(c.postDominanceFrontier), c.postDominanceFrontier, n)
  {
    hide Ok, IdomFrom, Dom, Passing, Distinct, Live, Partly, Stepped, ImmediateDom, Mirror;
    ghost var f := Backward(c);
    ghost var df0 := c.postDominanceFrontier;
    ChainStep(f, c.immediatePostDominator, 0, n);
    var d := c.immediatePostDominator[n].value;
    if d == n { RootDominatesAll(f, d); }
    PredIsEdge(c.pred, c.forwardOrder, c.exitBlock, LeafNodes(c.succ, c.succBackEdge, c.forwardOrder), n);
    PartlyNone(f, df0, n, d);
    var i := 0;
    while i < |c.pred[n]|
      invariant i <= |c.pred[n]| && |c.postDominanceFrontier| == |df0|
      invariant Partly(f, df0, c.postDominanceFrontier, n, d, c.pred[n][..i])
      invariant AllLive(f, c.postDominanceFrontier[n])
    {
      var p := c.pred[n][i];
      assert Edge(f.g, n, p);
      IdomOfSucc(f, c.immediatePostDominator, n, p);
      ghost var df := c.postDominanceFrontier;
      if c.immediatePostDominator[p] != Some(n) && p !in c.postDominanceFrontier[n] {
        c.postDominanceFrontier := c.postDominanceFrontier[n := c.postDominanceFrontier[n] + [p]];
      }
      ghost var df' := c.postDominanceFrontier;
      PassPostUp(c, n, d);
      PartlyOne(f, df0, df, df', c.postDominanceFrontier, n, d, c.pred[n][..i], p);
      PassingLive(f, df', c.postDominanceFrontier, n, d);
      assert c.pred[n][..i + 1] == c.pred[n][..i] + [p];
      i := i + 1;
    }
    assert c.pred[n][..i] == c.pred[n];
    PartlyIsStep(f, c.immediatePostDominator, df0, c.postDominanceFrontier, n, c.pred[n]);
  }

  lemma PredIsEdge(pred: seq<seq<Node>>, order: seq<Node>, exit: Node, leaves: seq<Node>, n: Node)
    requires n in order && n != exit && n < |pred|
    ensures |Mirror(pred, order, exit, leaves).succ| == |pred| && Mirror(pred, order, exit, leaves).succ[n] == pred[n]
  {}

  method ClearPostFrontiers(c: Pool)
    requires c.Shape() && InRange(c.backwardOrder, |c.succ|)
    modifies c`postDominanceFrontier
    ensures c.Shape() && forall x: Node :: x in c.backwardOrder ==> c.postDominanceFrontier[x] == []
  {
    var i := 0;
    while i < |c.backwardOrder|
      invariant i <= |c.backwardOrder| && |c.postDominanceFrontier| == |c.succ|
      invariant forall x: Node :: x in c.backwardOrder[..i] ==> c.postDominanceFrontier[x] == []
    {
      assert c.backwardOrder[..i + 1] == c.backwardOrder[..i] + [c.backwardOrder[i]];
      c.postDominanceFrontier := c.postDominanceFrontier[c.backwardOrder[i] := []];
      i := i + 1;
    }
    assert c.backwardOrder[..i] == c.backwardOrder;
  }

  /** The frontiers of the mirrored graph are the textbook post-dominance frontiers of the forward graph. */
  lemma FrontierIsPostFrontier(b: Flow, f: Flow, order: seq<Node>, n: Node, x: Node)
    requires Ok(b) && Mirrored(b.g, b.root, f, order) && Numbered(f, order) && n in order
    ensures Frontier(b, n, x) <==> x in order && PostFrontier(f.g, n, x)
  {
    var exit := b.root;
    if Frontier(b, n, x) {
      var s :| Edge(b.g, s, x) && Dom(b, n, s);
      if s == exit {
        LiveRoot(b);
        RootDominates(b, n);
        DomAntisym(b, n, exit);
      }
      LiveEdge(f, x, s);
      PostDomIsMirrorDom(b.g, exit, f, order, b.num, n, s);
      PostDomIsMirrorDom(b.g, exit, f, order, b.num, n, x);
    }
    if x in order && PostFrontier(f.g, n, x) {
      var s :| Edge(f.g, x, s) && PostDom(f.g, n, s);
      LiveEdge(f, x, s);
      assert Edge(b.g, s, x);
      PostDomIsMirrorDom(b.g, exit, f, order, b.num, n, s);
      PostDomIsMirrorDom(b.g, exit, f, order, b.num, n, x);
    }
  }

  /** Every live block's list holds exactly its textbook post-dominance frontier, once each. */
  ghost predicate PostFrontiersExact(c: Pool)
    reads c`succ, c`forwardOrder, c`entryBlock, c`forwardNumber, c`postDominanceFrontier
  {
    forall n: Node :: n in c.forwardOrder ==>
      && n < |c.postDominanceFrontier| && Distinct(c.postDominanceFrontier[n])
      && forall x: Node :: x in c.postDominanceFrontier[n] <==> x in c.forwardOrder && PostFrontier(Forward(c).g, n, x)
  }

  /** `compute_post_dominance_frontier`: exactly the textbook post-dominance frontiers, once each. */
  method ComputePostDominanceFrontier(c: Pool)
    requires c.Shape() && InRange(c.forwardOrder, |c.succ|) && Numbered(Forward(c), c.forwardOrder)
    requires MirrorNumbered(c, Forward(c)) && IdomCorrect(Backward(c), c.immediatePostDominator)
    modifies c`postDominanceFrontier
    ensures c.Shape() && PostFrontiersExact(c)
  {
    hide Ok, IdomFrom, Restrict, Mirror, PassInvariant, Stepped, Frontier, PostFrontier, Dom, ImmediateDom, Live,
        Mirrored;
    ghost var f := Backward(c);
    BackwardMembers(c);
    ClearPostFrontiers(c);
    StartInvariant(f, c.postDominanceFrontier, c.backwardOrder);
    var i := 0;
    while i < |c.backwardOrder|
      invariant i <= |c.backwardOrder| && c.Shape()
      invariant PassInvariant(f, c.postDominanceFrontier, c.backwardOrder, i)
    {
      var n := c.backwardOrder[i];
      assert n in c.backwardOrder;
      InvariantLive(f, c.postDominanceFrontier, c.backwardOrder, i, n);
      ghost var df := c.postDominanceFrontier;
      RecomputePostDominanceFrontier(c, n);
      PassStep(f, c.immediatePostDominator, df, c.postDominanceFrontier, c.backwardOrder, i, n);
      i := i + 1;
    }
    PassDone(f, c.postDominanceFrontier, c.backwardOrder, |c.backwardOrder|);
    forall n: Node, x: Node | n in c.forwardOrder
      ensures Frontier(f, n, x) <==> x in c.forwardOrder && PostFrontier(Forward(c).g, n, x)
    {
      FrontierIsPostFrontier(f, Forward(c), c.forwardOrder, n, x);
    }
  }

  /** The backward order lists the same blocks as the forward order. */
  lemma BackwardMembers(c: Pool)
    requires c.Shape() && InRange(c.forwardOrder, |c.succ|) && Numbered(Forward(c), c.forwardOrder)
    requires MirrorNumbered(c, Forward(c))
    ensures InRange(c.backwardOrder, |c.succ|)
    ensures forall x :: x in c.backwardOrder <==> x in c.forwardOrder
    ensures forall x :: x in c.backwardOrder ==> Live(Backward(c), x) && x != c.exitBlock
    ensures forall i :: 0 <= i < |c.backwardOrder| ==> c.backwardNumber[c.backwardOrder[i]] == i
    ensures forall x :: x in c.backwardOrder ==> x < |c.succ| && c.backwardNumber[x] < |c.backwardOrder|
  {
    forall x | x in c.forwardOrder ensures x in c.backwardOrder && Live(Backward(c), x) && x != c.exitBlock {
      MirrorLive(c, x);
    }
    forall i | 0 <= i < |c.backwardOrder|
      ensures c.backwardOrder[i] in c.forwardOrder && c.backwardOrder[i] < |c.succ|
              && c.backwardNumber[c.backwardOrder[i]] == i
    {
      MirrorMembers(c, c.backwardOrder[i], i);
    }
    forall x | x in c.backwardOrder ensures x in c.forwardOrder {
      assert c.backwardOrder[Index(c.backwardOrder, x)] == x;
    }
  }
}
