/** "Is there a path that avoids this block?", answered from post-dominance frontiers. */
module PathQuery {
  import opened Wrappers
  import opened Graphs
  import opened Lists
  import opened Dominance
  import opened NodePool
  import opened FlowGraph
  import opened Traversal
  import opened Backwards
  import opened Dominators
  import opened Frontiers
  import opened Reachability

  /** Forward and backward flow graphs of the same pool, and the order both number. */
  ghost predicate Paired(f: Flow, b: Flow, order: seq<Node>) {
    Numbered(f, order) && Ok(b) && Mirrored(b.g, b.root, f, order)
  }

  lemma {:induction false} LaterPath(f: Flow, b: Flow, order: seq<Node>, p: seq<Node>, x: Node, y: Node)
    requires Paired(f, b, order) && x in order && Path(f.g, p, x, y)
    ensures y in order && x < |b.num| && y < |b.num| && b.num[x] <= b.num[y] && (x != y ==> b.num[x] < b.num[y])
    decreases |p|
  {
    LiveInRange(f, x);
    if |p| > 1 {
      LiveEdge(f, x, p[1]);
      assert Edge(b.g, p[1], x);
      LaterPath(f, b, order, p[1..], p[1], y);
    }
  }

  /** Backward numbers grow along forward paths. */
  lemma Later(f: Flow, b: Flow, order: seq<Node>, x: Node, y: Node)
    requires Paired(f, b, order) && x in order && Reach(f.g, x, y)
    ensures y in order && x < |b.num| && y < |b.num|
    ensures b.num[x] <= b.num[y] && (x != y ==> b.num[x] < b.num[y])
  {
    var p :| Path(f.g, p, x, y);
    LaterPath(f, b, order, p, x, y);
  }

  /** The last block not post-dominated by `d`, on the way from `x` to `d`, is in the frontier of `d`. */
  lemma {:induction false} LastNotPostDominated(g: Graph, p: seq<Node>, x: Node, d: Node) returns (v: Node)
    requires Path(g, p, x, d) && !PostDom(g, d, x)
    ensures PostFrontier(g, d, v) && Reach(g, x, v) && Reach(g, v, d) && v != d
    decreases |p|
  {
    PostDomRefl(g, d);
    PathLast(g, p, x, d);
    var s := p[1];
    assert Edge(g, x, s) && Path(g, p[1..], s, d);
    if PostDom(g, d, s) {
      v := x;
      ReachRefl(g, x);
    } else {
      v := LastNotPostDominated(g, p[1..], s, d);
      ReachEdge(g, x, s, v);
    }
  }

  /** The frontiers worth looking at: all of them, or those that `from` reaches. */
  ghost predicate Wanted(g: Graph, from: Option<Node>, x: Node) {
    from.None? || Reach(g, from.value, x)
  }

  /** Every frontier of a promoted block is promoted or waiting. */
  ghost predicate FrontiersKnown(g: Graph, from: Option<Node>, promoted: set<Node>, waiting: seq<Node>) {
    forall p: Node, x: Node :: p in promoted && PostFrontier(g, p, x) && Wanted(g, from, x) ==>
      x in promoted || x in waiting
  }

  /** With the latest frontiers resolved first, a later block that no promoted block post-dominates
      reaches no promoted block at all. */
  lemma {:induction false} PromotedUnreachable(f: Flow, b: Flow, order: seq<Node>, from: Option<Node>,
                                               promoted: set<Node>, waiting: seq<Node>, s: Node, p: Node)
    requires Paired(f, b, order) && s in order && p in promoted && Wanted(f.g, from, s)
    requires forall x: Node :: x in promoted ==> x in order
    requires FrontiersKnown(f.g, from, promoted, waiting)
    requires forall x: Node :: x in promoted ==> !PostDom(f.g, x, s)
    requires s < |b.num| && forall x: Node :: x in waiting ==> x < |b.num| && b.num[x] < b.num[s]
    ensures !Reach(f.g, s, p)
    decreases if p < |b.num| then b.num[p] else 0
  {
    if Reach(f.g, s, p) {
      var q :| Path(f.g, q, s, p);
      var v := LastNotPostDominated(f.g, q, s, p);
      Later(f, b, order, s, v);
      Later(f, b, order, v, p);
      if from.Some? {
        ReachTrans(f.g, from.value, s, v);
      }
      assert Wanted(f.g, from, v);
      assert v in promoted;
      PromotedUnreachable(f, b, order, from, promoted, waiting, s, v);
      assert false;
    }
  }

  /** A block whose every way to `end` leads through `stop`. */
  ghost predicate MustPass(g: Graph, stop: Node, end: Node, x: Node) {
    !ReachAvoiding(g, x, end, stop)
  }

  /** A promoted block is a stand-in for `stop`: it leads there, and cannot avoid it on the way to `end`. */
  ghost predicate StandIn(g: Graph, stop: Node, end: Node, x: Node) {
    Reach(g, x, stop) && MustPass(g, stop, end, x)
  }

  /** What a stand-in post-dominates must pass `stop` too. */
  lemma StandInCovers(f: Flow, stop: Node, end: Node, p: Node, x: Node)
    requires Ok(f) && Reach(f.g, stop, end) && stop != end
    requires StandIn(f.g, stop, end, p) && PostDom(f.g, p, x)
    ensures MustPass(f.g, stop, end, x)
  {
    if ReachAvoiding(f.g, x, end, stop) {
      var q :| Path(f.g, q, x, end) && stop !in q;
      PathLast(f.g, q, x, end);
      var r, l := ReachesLeaf(f.g, f.num, end);
      PathJoin(f.g, q, x, end, r, l);
      assert p in q + r[1..];
      if p in q {
        var q1, q2 := PathSplit(f.g, q, x, end, p);
      } else {
        var r1, r2 := PathSplit(f.g, r, end, l, p);
        ReachTrans(f.g, end, p, stop);
        ReachDescends(f.g, f.num, end, stop);
        ReachDescends(f.g, f.num, stop, end);
      }
      assert false;
    }
  }

  /** A frontier is promoted when each successor cannot reach `end` or is covered by a stand-in. */
  lemma Promote(f: Flow, stop: Node, end: Node, promoted: set<Node>, x: Node)
    requires Ok(f) && Reach(f.g, stop, end) && stop != end
    requires forall p: Node :: p in promoted ==> StandIn(f.g, stop, end, p)
    requires Reach(f.g, x, stop) && x != stop
    requires forall s: Node :: Edge(f.g, x, s) && Reach(f.g, s, end) ==>
               exists p: Node :: p in promoted && PostDom(f.g, p, s)
    ensures StandIn(f.g, stop, end, x)
  {
    if ReachAvoiding(f.g, x, end, stop) {
      var q :| Path(f.g, q, x, end) && stop !in q;
      if |q| == 1 {
        ReachDescends(f.g, f.num, x, stop);
        ReachDescends(f.g, f.num, stop, end);
      } else {
        var s := q[1];
        assert Edge(f.g, x, s) && Path(f.g, q[1..], s, end);
        assert Reach(f.g, s, end);
        var p: Node :| p in promoted && PostDom(f.g, p, s);
        StandInCovers(f, stop, end, p, s);
        assert ReachAvoiding(f.g, s, end, stop);
      }
      assert false;
    }
  }

  /** A frontier block leads to the block it is a frontier of, so it is a way to `stop`. */
  lemma FrontierLeadsTo(f: Flow, stop: Node, end: Node, p: Node, x: Node)
    requires Ok(f) && StandIn(f.g, stop, end, p) && PostFrontier(f.g, p, x)
    ensures Reach(f.g, x, stop) && x != stop && x != p && Reach(f.g, x, p)
  {
    var s :| Edge(f.g, x, s) && PostDom(f.g, p, s);
    LiveEdge(f, x, s);
    LiveInRange(f, s);
    var q, l := ReachesLeaf(f.g, f.num, s);
    PathReach(f.g, q, s, l, p);
    ReachEdge(f.g, x, s, p);
    ReachTrans(f.g, x, p, stop);
    ReachTrans(f.g, s, p, stop);
    ReachDescends(f.g, f.num, s, stop);
    ReachDescends(f.g, f.num, s, p);
  }

  /** What a query from any block gives once a frontier has an uncovered successor. */
  lemma UncoveredAvoids(f: Flow, stop: Node, end: Node, x: Node, s: Node)
    requires Edge(f.g, x, s) && Reach(f.g, s, end) && !Reach(f.g, s, stop) && x != stop
    ensures ReachAvoiding(f.g, x, end, stop)
  {
    var q :| Path(f.g, q, s, end);
    if stop in q {
      PathReach(f.g, q, s, end, stop);
    }
    PathCons(f.g, x, q, s, end);
    assert stop !in [x] + q;
  }

  // ---------------------------------------------------------------- the worklist

  /** The analyses of the forward graph are exact: the visit, dominators and reachability. */
  ghost predicate ForwardAnalysed(c: Pool)
    reads c
  {
    Traversed(c) && IdomCorrect(Forward(c), c.immediateDominator) && ReachabilityBuilt(c)
  }

  /** All the analyses that the queries consult are exact. */
  ghost predicate Analysed(c: Pool)
    reads c
  {
    && ForwardAnalysed(c) && c.exitBlock !in c.forwardOrder
    && MirrorNumbered(c, Forward(c))
    && IdomCorrect(Backward(c), c.immediatePostDominator)
    && FrontiersExact(c) && PostFrontiersExact(c)
  }

  lemma AnalysedIsForward(c: Pool)
    requires Analysed(c)
    ensures ForwardAnalysed(c) && Traversed(c)
  {}

  /** `CFGNode::post_dominates` between live blocks, in terms of walks to a leaf. */
  method LivePostDominates(c: Pool, self: Node, start: Node) returns (r: bool)
    requires Analysed(c) && self in c.forwardOrder && start in c.forwardOrder
    ensures r <==> PostDom(Forward(c).g, self, start)
  {
    MirrorLive(c, start);
    r := PostDominates(c, self, start);
    PostDomIsMirrorDom(Backward(c).g, c.exitBlock, Forward(c), c.forwardOrder, c.backwardNumber, self, start);
  }

  /** Whether some promoted block post-dominates `s`; the set is searched in any order. */
  method CoveredByPromoted(c: Pool, promoted: set<Node>, s: Node) returns (r: bool)
    requires Analysed(c) && s in c.forwardOrder && forall p: Node :: p in promoted ==> p in c.forwardOrder
    ensures r <==> exists p: Node :: p in promoted && PostDom(Forward(c).g, p, s)
  {
    hide Analysed, PostDom;
    var rest := promoted;
    r := false;
    while rest != {} && !r
      invariant rest <= promoted
      invariant r ==> exists p: Node :: p in promoted && PostDom(Forward(c).g, p, s)
      invariant !r ==> forall p: Node :: p in promoted && p !in rest ==> !PostDom(Forward(c).g, p, s)
      decreases rest, !r
    {
      var p: Node :| p in rest;
      r := LivePostDominates(c, p, s);
      rest := rest - {p};
    }
  }

  /** A successor from which `end` is still open: it reaches `end` and nothing promoted post-dominates it. */
  ghost predicate Open(g: Graph, promoted: set<Node>, end: Node, s: Node) {
    Reach(g, s, end) && forall p: Node :: p in promoted ==> !PostDom(g, p, s)
  }

  lemma OpenIff(g: Graph, promoted: set<Node>, end: Node, s: Node)
    ensures Open(g, promoted, end, s) <==> Reach(g, s, end) && !exists p: Node :: p in promoted && PostDom(g, p, s)
  {}

  /** Looks for an open successor of `x`. */
  method FindOpenSuccessor(c: Pool, promoted: set<Node>, end: Node, x: Node) returns (found: bool, ghost s: Node)
    requires Analysed(c) && x in c.forwardOrder && end in c.forwardOrder
    requires forall p: Node :: p in promoted ==> p in c.forwardOrder
    ensures found ==> Edge(Forward(c).g, x, s) && Open(Forward(c).g, promoted, end, s)
    ensures !found ==> forall y: Node :: Edge(Forward(c).g, x, y) ==> !Open(Forward(c).g, promoted, end, y)
  {
    hide Analysed, ForwardAnalysed, Traversed, PostDom, Reach, Restrict, Open, Edge;
    AnalysedIsForward(c);
    SuccsOf(c, x);
    ghost var g := Forward(c).g;
    found, s := false, x;
    var i := 0;
    while i < |c.succ[x]| && !found
      invariant i <= |c.succ[x]|
      invariant found ==> s in c.succ[x] && Open(g, promoted, end, s)
      invariant !found ==> forall j :: 0 <= j < i ==> !Open(g, promoted, end, c.succ[x][j])
    {
      var y := c.succ[x][i];
      var promote := true;
      var reaches := QueryLive(c, y, end);
      if reaches {
        promote := CoveredByPromoted(c, promoted, y);
      }
      OpenIff(g, promoted, end, y);
      found, s := !promote, y;
      i := i + 1;
    }
  }

  /** `query_reachability` between live blocks. */
  method QueryLive(c: Pool, from: Node, to: Node) returns (r: bool)
    requires Analysed(c) && from in c.forwardOrder && to in c.forwardOrder
    ensures r <==> Reach(Forward(c).g, from, to)
  {
    r := QueryReachability(c, from, to);
  }

  /** Keeps the frontiers that `from` reaches, if it is given. */
  method FilterWanted(c: Pool, from: Option<Node>, waiting: seq<Node>) returns (kept: seq<Node>)
    requires Analysed(c) && (from.Some? ==> from.value in c.forwardOrder)
    requires forall x: Node :: x in waiting ==> x in c.forwardOrder
    ensures forall x: Node :: x in kept <==> x in waiting && Wanted(Forward(c).g, from, x)
  {
    hide Analysed, Reach;
    if from.None? {
      return waiting;
    }
    kept := [];
    var i := 0;
    while i < |waiting|
      invariant i <= |waiting|
      invariant forall x: Node :: x in kept <==> x in waiting[..i] && Wanted(Forward(c).g, from, x)
    {
      assert waiting[i] in waiting && waiting[..i + 1] == waiting[..i] + [waiting[i]];
      var r := QueryLive(c, from.value, waiting[i]);
      if r {
        kept := kept + [waiting[i]];
      }
      i := i + 1;
    }
    assert waiting[..i] == waiting;
  }

  /** Ascending by `num`, so that equal blocks can only be one entry. */
  ghost predicate Ascending(num: seq<nat>, xs: seq<Node>) {
    && InRange(xs, |num|)
    && forall i, j :: 0 <= i < j < |xs| ==> num[xs[i]] < num[xs[j]]
  }

  /** `std::sort` by number followed by `std::unique`. */
  method SortUnique(num: seq<nat>, xs: seq<Node>) returns (ys: seq<Node>)
    requires InRange(xs, |num|)
    requires forall x: Node, y: Node :: x in xs && y in xs && num[x] == num[y] ==> x == y
    ensures Ascending(num, ys) && forall x: Node :: x in ys <==> x in xs
  {
    ys := [];
    var i := 0;
    while i < |xs|
      invariant i <= |xs| && Ascending(num, ys)
      invariant forall x: Node :: x in ys <==> x in xs[..i]
    {
      var x := xs[i];
      assert xs[..i + 1] == xs[..i] + [x];
      var k := 0;
      while k < |ys| && num[ys[k]] < num[x]
        invariant k <= |ys| && forall j :: 0 <= j < k ==> num[ys[j]] < num[x]
      {
        k := k + 1;
      }
      if k == |ys| || num[ys[k]] != num[x] {
        ys := ys[..k] + [x] + ys[k..];
      } else {
        assert ys[k] in ys && ys[k] in xs[..i] && x in xs;
      }
      i := i + 1;
    }
    assert xs[..i] == xs;
  }

  /** The waiting frontiers that matter, sorted by backward number without repetition. */
  method FilterAndSort(c: Pool, from: Option<Node>, waiting: seq<Node>) returns (sorted: seq<Node>)
    requires Analysed(c) && (from.Some? ==> from.value in c.forwardOrder)
    requires forall x: Node :: x in waiting ==> x in c.forwardOrder
    ensures forall x: Node :: x in sorted <==> x in waiting && Wanted(Forward(c).g, from, x)
    ensures Ascending(c.backwardNumber, sorted)
  {
    hide Analysed, Wanted;
    var kept := FilterWanted(c, from, waiting);
    InRangeOf(c, kept);
    sorted := SortUnique(c.backwardNumber, kept);
  }

  /** What the worklist maintains. */
  ghost predicate Worklist(f: Flow, order: seq<Node>, stop: Node, end: Node, from: Option<Node>,
                           promoted: set<Node>, waiting: seq<Node>) {
    && stop in promoted
    && (forall p: Node :: p in promoted ==> p in order && StandIn(f.g, stop, end, p))
    && (forall x: Node :: x in waiting ==> x in order && Reach(f.g, x, stop) && x != stop)
    && FrontiersKnown(f.g, from, promoted, waiting)
  }

  lemma StopStandsIn(g: Graph, stop: Node, end: Node)
    requires stop < |g.succ|
    ensures StandIn(g, stop, end, stop)
  {
    ReachRefl(g, stop);
    forall p: seq<Node> | Path(g, p, stop, end) ensures stop in p {
      PathLast(g, p, stop, end);
    }
  }

  /** The list of frontiers of `n`, as the analysis stored it. */
  ghost predicate FrontierList(g: Graph, order: seq<Node>, n: Node, df: seq<Node>) {
    forall x: Node :: x in df <==> x in order && PostFrontier(g, n, x)
  }

  lemma FrontierListOf(c: Pool, n: Node)
    requires Analysed(c) && n in c.forwardOrder
    ensures n < |c.postDominanceFrontier| && FrontierList(Forward(c).g, c.forwardOrder, n, c.postDominanceFrontier[n])
  {
    LiveInRange(Forward(c), n);
  }

  lemma FrontierInOrder(f: Flow, order: seq<Node>, n: Node, x: Node)
    requires Numbered(f, order) && PostFrontier(f.g, n, x)
    ensures x in order
  {
    var s :| Edge(f.g, x, s) && PostDom(f.g, n, s);
    LiveEdge(f, x, s);
  }

  lemma WorklistStart(f: Flow, order: seq<Node>, stop: Node, end: Node, from: Option<Node>, df: seq<Node>)
    requires Numbered(f, order) && stop in order && FrontierList(f.g, order, stop, df)
    ensures Worklist(f, order, stop, end, from, {stop}, df)
  {
    LiveInRange(f, stop);
    StopStandsIn(f.g, stop, end);
    forall x: Node | x in df ensures Reach(f.g, x, stop) && x != stop {
      FrontierLeadsTo(f, stop, end, stop, x);
    }
    forall x: Node | PostFrontier(f.g, stop, x) ensures x in df {
      FrontierInOrder(f, order, stop, x);
    }
  }

  lemma WorklistFilter(f: Flow, order: seq<Node>, stop: Node, end: Node, from: Option<Node>,
                       promoted: set<Node>, waiting: seq<Node>, kept: seq<Node>)
    requires Worklist(f, order, stop, end, from, promoted, waiting)
    requires forall x: Node :: x in kept <==> x in waiting && Wanted(f.g, from, x)
    ensures Worklist(f, order, stop, end, from, promoted, kept)
  {}

  lemma WorklistPromote(f: Flow, order: seq<Node>, stop: Node, end: Node, from: Option<Node>,
                        promoted: set<Node>, waiting: seq<Node>, rest: seq<Node>, x: Node, df: seq<Node>)
    requires Numbered(f, order) && Reach(f.g, stop, end) && stop != end
    requires Worklist(f, order, stop, end, from, promoted, waiting)
    requires waiting == rest + [x] && FrontierList(f.g, order, x, df)
    requires forall s: Node :: Edge(f.g, x, s) ==> !Open(f.g, promoted, end, s)
    ensures Worklist(f, order, stop, end, from, promoted + {x}, rest + df)
  {
    hide Numbers, StandIn, PostFrontier, Reach, PostDom, Distinct;
    assert x in waiting;
    Promote(f, stop, end, promoted, x);
    forall y: Node | y in df ensures Reach(f.g, y, stop) && y != stop {
      FrontierLeadsTo(f, stop, end, x, y);
    }
    forall y: Node | PostFrontier(f.g, x, y) ensures y in df {
      FrontierInOrder(f, order, x, y);
    }
  }

  /** An open successor of the latest waiting frontier shows that the frontier avoids `stop`. */
  lemma WorklistFound(f: Flow, b: Flow, order: seq<Node>, stop: Node, end: Node, from: Option<Node>,
                      promoted: set<Node>, waiting: seq<Node>, x: Node, s: Node)
    requires Paired(f, b, order) && Worklist(f, order, stop, end, from, promoted, waiting)
    requires x in waiting && Wanted(f.g, from, x) && Edge(f.g, x, s) && Open(f.g, promoted, end, s)
    requires forall y: Node :: y in waiting ==> y < |b.num| && x < |b.num| && b.num[y] <= b.num[x]
    ensures ReachAvoiding(f.g, x, end, stop)
  {
    LiveEdge(f, x, s);
    LiveInRange(f, s);
    ReachRefl(f.g, s);
    ReachEdge(f.g, x, s, s);
    Later(f, b, order, x, s);
    ReachDescends(f.g, f.num, x, s);
    if from.Some? { ReachTrans(f.g, from.value, x, s); }
    PromotedUnreachable(f, b, order, from, promoted, waiting, s, stop);
    UncoveredAvoids(f, stop, end, x, s);
  }

  /** And that no later block does. */
  lemma LatestFound(f: Flow, b: Flow, order: seq<Node>, stop: Node, end: Node, from: Option<Node>,
                    promoted: set<Node>, waiting: seq<Node>, x: Node, y: Node)
    requires Paired(f, b, order) && Worklist(f, order, stop, end, from, promoted, waiting)
    requires Reach(f.g, stop, end) && stop != end && x in order
    requires forall z: Node :: z in waiting ==> z < |b.num| && x < |b.num| && b.num[z] <= b.num[x]
    requires y in order && Wanted(f.g, from, y) && Reach(f.g, y, stop) && ReachAvoiding(f.g, y, end, stop)
    ensures x < |b.num| && y < |b.num| && b.num[y] <= b.num[x]
  {
    hide ReachAvoiding;
    ReachRefl(f.g, y) by { LiveInRange(f, y); }
    ReachRefl(f.g, x) by { LiveInRange(f, x); }
    Later(f, b, order, y, y);
    Later(f, b, order, x, x);
    if b.num[y] > b.num[x] {
      if p: Node :| p in promoted && PostDom(f.g, p, y) {
        StandInCovers(f, stop, end, p, y);
      } else {
        PromotedUnreachable(f, b, order, from, promoted, waiting, y, stop);
      }
      assert false;
    }
  }

  /** With nothing left to look at, nothing wanted avoids `stop`. */
  lemma WorklistDone(f: Flow, b: Flow, order: seq<Node>, stop: Node, end: Node, from: Option<Node>,
                     promoted: set<Node>, x: Node)
    requires Paired(f, b, order) && Worklist(f, order, stop, end, from, promoted, [])
    requires Reach(f.g, stop, end) && stop != end
    requires x in order && Wanted(f.g, from, x) && Reach(f.g, x, stop) && x != stop
    ensures MustPass(f.g, stop, end, x)
  {
    Later(f, b, order, x, stop);
    if forall p: Node :: p in promoted ==> !PostDom(f.g, p, x) {
      PromotedUnreachable(f, b, order, from, promoted, [], x, stop);
    }
    var p: Node :| p in promoted && PostDom(f.g, p, x);
    StandInCovers(f, stop, end, p, x);
  }

  lemma AnalysedPair(c: Pool)
    requires Analysed(c)
    ensures Paired(Forward(c), Backward(c), c.forwardOrder)
  {}

  /** A list sorted by number ends in its latest block. */
  lemma AscendingLast(num: seq<nat>, xs: seq<Node>)
    requires Ascending(num, xs) && xs != []
    ensures forall x: Node :: x in xs ==> x < |num| && xs[|xs| - 1] < |num| && num[x] <= num[xs[|xs| - 1]]
    ensures forall x: Node :: x in xs[..|xs| - 1] ==> x < |num| && num[x] < num[xs[|xs| - 1]]
  {}

  lemma OrderNumbers(c: Pool)
    requires Analysed(c)
    ensures forall x: Node :: x in c.forwardOrder ==> x < |c.backwardNumber| && c.backwardNumber[x] < |c.backwardOrder|
    ensures forall x: Node, y: Node ::
              (x in c.forwardOrder && y in c.forwardOrder && x < |c.backwardNumber| && y < |c.backwardNumber|
               && c.backwardNumber[x] == c.backwardNumber[y]) ==>
                x == y
  {
    BackwardMembers(c);
    forall x: Node, y: Node | x in c.forwardOrder && y in c.forwardOrder && x < |c.backwardNumber|
    && y < |c.backwardNumber| && x != y
      ensures c.backwardNumber[x] != c.backwardNumber[y]
    {
      NumbersDiffer(Backward(c), x, y);
    }
  }

  /** The frontiers of `x` are numbered below it. */
  lemma FrontierEarlier(f: Flow, b: Flow, order: seq<Node>, stop: Node, end: Node, x: Node, y: Node)
    requires Paired(f, b, order) && x in order && PostFrontier(f.g, x, y) && StandIn(f.g, stop, end, x)
    ensures y in order && y < |b.num| && x < |b.num| && b.num[y] < b.num[x]
  {
    FrontierInOrder(f, order, x, y);
    FrontierLeadsTo(f, stop, end, x, y);
    Later(f, b, order, y, x);
  }

  /** Every waiting block is numbered below `bound`. */
  ghost predicate Bounded(num: seq<nat>, waiting: seq<Node>, bound: nat) {
    forall x: Node :: x in waiting ==> x < |num| && num[x] < bound
  }

  lemma BoundedStep(f: Flow, b: Flow, order: seq<Node>, stop: Node, end: Node, from: Option<Node>,
                    promoted: set<Node>, sorted: seq<Node>, df: seq<Node>)
    requires Paired(f, b, order) && sorted != [] && Ascending(b.num, sorted)
    requires Worklist(f, order, stop, end, from, promoted, sorted[..|sorted| - 1] + df)
    requires sorted[|sorted| - 1] in promoted && FrontierList(f.g, order, sorted[|sorted| - 1], df)
    ensures sorted[|sorted| - 1] < |b.num|
    ensures Bounded(b.num, sorted[..|sorted| - 1] + df, b.num[sorted[|sorted| - 1]])
  {
    var x := sorted[|sorted| - 1];
    AscendingLast(b.num, sorted);
    assert x in sorted;
    forall y: Node | y in df ensures y < |b.num| && b.num[y] < b.num[x] {
      FrontierEarlier(f, b, order, stop, end, x, y);
    }
  }

  /** `get_post_dominance_frontier_with_cfg_subset_that_reaches`: the last block, among those that `from`
      reaches if it is given, that leads to `node` and can also reach `mustReach` around it; nothing if
      there is none. */
  method GetPostDominanceFrontierThatReaches(c: Pool, node: Node, mustReach: Node, from: Option<Node>)
    returns (r: Option<Node>)
    requires Analysed(c) && node in c.forwardOrder && mustReach in c.forwardOrder && node != mustReach
    requires from.Some? ==> from.value in c.forwardOrder
    requires Reach(Forward(c).g, node, mustReach)
    ensures r.Some? ==>
              && r.value in c.forwardOrder && Wanted(Forward(c).g, from, r.value)
              && Reach(Forward(c).g, r.value, node) && r.value != node
              && ReachAvoiding(Forward(c).g, r.value, mustReach, node)
    ensures r.Some? ==> forall x: Node ::
              (x in c.forwardOrder && Wanted(Forward(c).g, from, x) && Reach(Forward(c).g, x, node)
               && ReachAvoiding(Forward(c).g, x, mustReach, node)) ==>
                x < |c.backwardNumber| && r.value < |c.backwardNumber|
                && c.backwardNumber[x] <= c.backwardNumber[r.value]
                && (Reach(Forward(c).g, r.value, x) ==> x == r.value)
    ensures r.None? ==> forall x: Node ::
              x in c.forwardOrder && Wanted(Forward(c).g, from, x) && Reach(Forward(c).g, x, node) && x != node ==>
                MustPass(Forward(c).g, node, mustReach, x)
  {
    hide Analysed, Worklist, Paired, FrontierList, Reach, ReachAvoiding, MustPass, Wanted, Open, Numbered, Ascending,
        Bounded;
    AnalysedNumbered(c);
    AnalysedPair(c);
    ghost var f, b, order := Forward(c), Backward(c), c.forwardOrder;
    OrderNumbers(c);
    FrontierListOf(c, node);
    var promoted: set<Node> := {node};
    var waiting := c.postDominanceFrontier[node];
    WorklistStart(f, order, node, mustReach, from, waiting);
    WorklistBlocks(f, order, node, mustReach, from, promoted, waiting);
    ghost var bound: nat := |c.backwardOrder|;
    BoundedAll(c, waiting);
    while waiting != []
      invariant Worklist(f, order, node, mustReach, from, promoted, waiting)
      invariant Bounded(c.backwardNumber, waiting, bound)
      decreases bound
    {
      WorklistBlocks(f, order, node, mustReach, from, promoted, waiting);
      var sorted := FilterAndSort(c, from, waiting);
      WorklistFilter(f, order, node, mustReach, from, promoted, waiting, sorted);
      BoundedSubset(c.backwardNumber, waiting, sorted, bound);
      waiting := sorted;
      if waiting == [] {
        break;
      }
      AscendingLast(c.backwardNumber, sorted);

      var frontier := waiting[|waiting| - 1];
      assert frontier in sorted;
      var found, s := FindOpenSuccessor(c, promoted, mustReach, frontier);
      if found {
        WorklistFound(f, b, order, node, mustReach, from, promoted, waiting, frontier, s);
        forall x: Node | x in order && Wanted(f.g, from, x) && Reach(f.g, x, node)
                         && ReachAvoiding(f.g, x, mustReach, node)
          ensures x < |b.num| && frontier < |b.num| && b.num[x] <= b.num[frontier]
          ensures Reach(f.g, frontier, x) ==> x == frontier
        {
          LatestFound(f, b, order, node, mustReach, from, promoted, waiting, frontier, x);
          if Reach(f.g, frontier, x) {
            Later(f, b, order, frontier, x);
          }
        }
        return Some(frontier);
      }
      FrontierListOf(c, frontier);
      ghost var rest := sorted[..|sorted| - 1];
      assert sorted == rest + [frontier];
      WorklistPromote(f, order, node, mustReach, from, promoted, sorted, rest, frontier,
                      c.postDominanceFrontier[frontier]);
      promoted := promoted + {frontier};
      waiting := waiting[..|waiting| - 1] + c.postDominanceFrontier[frontier];
      BoundedStep(f, b, order, node, mustReach, from, promoted, sorted, c.postDominanceFrontier[frontier]);
      BoundedMember(c.backwardNumber, sorted, frontier, bound);
      bound := c.backwardNumber[frontier];
    }
    forall x: Node | x in c.forwardOrder && Wanted(f.g, from, x) && Reach(f.g, x, node) && x != node
      ensures MustPass(f.g, node, mustReach, x)
    {
      WorklistDone(f, b, order, node, mustReach, from, promoted, x);
    }
    r := None;
  }

  lemma AnalysedNumbered(c: Pool)
    requires Analysed(c)
    ensures Numbered(Forward(c), c.forwardOrder) && c.Shape() && InRange(c.forwardOrder, |c.succ|)
    ensures |c.succBackEdge| == |c.succ|
  {}

  lemma WorklistBlocks(f: Flow, order: seq<Node>, stop: Node, end: Node, from: Option<Node>, promoted: set<Node>,
                       waiting: seq<Node>)
    requires Worklist(f, order, stop, end, from, promoted, waiting)
    ensures forall p: Node :: p in promoted ==> p in order
    ensures forall x: Node :: x in waiting ==> x in order && Reach(f.g, x, stop) && x != stop
  {}

  lemma InRangeOf(c: Pool, xs: seq<Node>)
    requires Analysed(c) && forall x: Node :: x in xs ==> x in c.forwardOrder
    ensures InRange(xs, |c.backwardNumber|)
    ensures forall x: Node, y: Node ::
              (x in xs && y in xs && x < |c.backwardNumber| && y < |c.backwardNumber|
               && c.backwardNumber[x] == c.backwardNumber[y]) ==>
                x == y
  {
    OrderNumbers(c);
    forall i | 0 <= i < |xs| ensures xs[i] < |c.backwardNumber| {
      assert xs[i] in xs;
    }
  }

  lemma BoundedAll(c: Pool, xs: seq<Node>)
    requires Analysed(c) && forall x: Node :: x in xs ==> x in c.forwardOrder
    ensures Bounded(c.backwardNumber, xs, |c.backwardOrder|)
  {
    OrderNumbers(c);
  }

  lemma BoundedSubset(num: seq<nat>, xs: seq<Node>, ys: seq<Node>, bound: nat)
    requires Bounded(num, xs, bound) && forall x: Node :: x in ys ==> x in xs
    ensures Bounded(num, ys, bound)
  {}

  lemma BoundedMember(num: seq<nat>, xs: seq<Node>, x: Node, bound: nat)
    requires Bounded(num, xs, bound) && x in xs
    ensures x < |num| && num[x] < bound
  {}

  // ---------------------------------------------------------------- the query

  /** Whether `to` is reached from `from`, counting the back edge into `to` when `to` dominates `from`. */
  ghost predicate ReachesThroughBackEdge(c: Pool, from: Node, to: Node)
    reads c
  {
    if Dom(Forward(c), to, from) then
      to < |c.predBackEdge| && c.predBackEdge[to].Some? && Reach(Forward(c).g, from, c.predBackEdge[to].value)
    else
      Reach(Forward(c).g, from, to)
  }

  /** `query_reachability_through_back_edges`. */
  method QueryReachabilityThroughBackEdges(c: Pool, from: Node, to: Node) returns (r: bool)
    requires Analysed(c) && from in c.forwardOrder && to in c.forwardOrder
    ensures r <==> ReachesThroughBackEdge(c, from, to)
  {
    AnalysedTarget(c, to);
    var dominated := Dominates(c, to, from);
    if dominated {
      if c.predBackEdge[to].None? {
        return false;
      }
      r := QueryLive(c, from, c.predBackEdge[to].value);
    } else {
      r := QueryLive(c, from, to);
    }
  }

  /** The block the path query really aims for: a loop header that is only reached around the loop
      stands for the block at the other end of its back edge. */
  ghost function Target(c: Pool, start: Node, end: Node, stop: Node): Node
    reads c
  {
    if end < |c.predBackEdge| && c.predBackEdge[end].Some?
      && !Reach(Forward(c).g, stop, end) && !Reach(Forward(c).g, start, end)
    then c.predBackEdge[end].value
    else end
  }

  /** A walk to a frontier that leads on to `stop` has not met `stop` yet. */
  lemma ReachesFrontierFirst(f: Flow, start: Node, x: Node, stop: Node)
    requires Ok(f) && Reach(f.g, start, x) && Reach(f.g, x, stop) && x != stop
    ensures ReachAvoiding(f.g, start, x, stop)
  {
    var p :| Path(f.g, p, start, x);
    if stop in p {
      PathReach(f.g, p, start, x, stop);
      ReachDescends(f.g, f.num, stop, x);
      ReachDescends(f.g, f.num, x, stop);
    }
  }

  /** When `stop` is not between `start` and `end`, every way avoids it. */
  lemma NothingBetween(g: Graph, start: Node, end: Node, stop: Node)
    requires Reach(g, start, end) && !(Reach(g, start, stop) && Reach(g, stop, end))
    ensures ReachAvoiding(g, start, end, stop)
  {
    var p :| Path(g, p, start, end);
    if stop in p {
      PathReach(g, p, start, end, stop);
    }
  }

  /** `exists_path_in_cfg_without_intermediate_node`. Unless `end` is a loop header, the answer is
      exactly whether some forward path from `start` to `end` avoids `stop`. */
  method ExistsPathWithoutIntermediateNode(c: Pool, start: Node, end: Node, stop: Node) returns (r: bool)
    requires Analysed(c) && start in c.forwardOrder && end in c.forwardOrder && stop in c.forwardOrder
    requires start != end && start != stop && stop != Target(c, start, end, stop)
    ensures end < |c.predBackEdge|
    ensures c.predBackEdge[end].None? ==> (r <==> ReachAvoiding(Forward(c).g, start, end, stop))
    ensures var e := Target(c, start, end, stop);
            r <==> if Reach(Forward(c).g, start, e) && Reach(Forward(c).g, start, stop) && Reach(Forward(c).g, stop, e)
                   then ReachAvoiding(Forward(c).g, start, e, stop)
                   else ReachesThroughBackEdge(c, start, e)
  {
    hide Analysed, Reach, ReachAvoiding, Dom, Ok;
    AnalysedNumbered(c);
    ghost var f := Forward(c);
    AnalysedTarget(c, end);
    var e := end;
    if c.predBackEdge[end].Some? {
      var stopReaches := QueryLive(c, stop, end);
      var startReaches := QueryLive(c, start, end);
      if !stopReaches && !startReaches {
        e := c.predBackEdge[end].value;
      }
    }
    var toEnd := QueryLive(c, start, e);
    var toStop := QueryLive(c, start, stop);
    var stopToEnd := QueryLive(c, stop, e);
    if toEnd && toStop && stopToEnd {
      var frontier := GetPostDominanceFrontierThatReaches(c, stop, e, Some(start));
      r := frontier.Some?;
      if r {
        ReachesFrontierFirst(f, start, frontier.value, stop);
        AvoidingJoin(f.g, start, frontier.value, e, stop);
      } else {
        LiveInRange(f, start);
        ReachRefl(f.g, start);
        assert Wanted(f.g, Some(start), start);
      }
    } else {
      r := QueryReachabilityThroughBackEdges(c, start, e);
      if c.predBackEdge[end].None? {
        NoBackEdgeInto(f, start, end, stop);
      }
    }
  }

  lemma AnalysedTarget(c: Pool, end: Node)
    requires Analysed(c) && end in c.forwardOrder
    ensures end < |c.predBackEdge|
    ensures c.predBackEdge[end].Some? ==> c.predBackEdge[end].value in c.forwardOrder
  {
    if end < |c.predBackEdge| && c.predBackEdge[end].Some? {
      assert Records(c.predBackEdge, end, c.predBackEdge[end].value);
    }
    LiveInRange(Forward(c), end);
  }

  lemma NoBackEdgeInto(f: Flow, start: Node, end: Node, stop: Node)
    requires Ok(f) && Live(f, start) && start != end
    requires !(Reach(f.g, start, end) && Reach(f.g, start, stop) && Reach(f.g, stop, end))
    ensures ReachAvoiding(f.g, start, end, stop) <==> !Dom(f, end, start) && Reach(f.g, start, end)
  {
    if Reach(f.g, start, end) {
      NothingBetween(f.g, start, end, stop);
      if Dom(f, end, start) {
        DomNumber(f, end, start);
        ReachDescends(f.g, f.num, start, end);
      }
    }
  }
}
