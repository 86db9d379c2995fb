/** Sinking values into the one block that reads them: the pass. */
module SinkPass {
  import opened Wrappers
  import opened Graphs
  import opened Lists
  import opened IR
  import opened TailSplit
  import opened Sinking
  import SSA

  /** OpControlBarrier and OpMemoryBarrier. */
  const CONTROL_BARRIER: nat := 224
  const MEMORY_BARRIER: nat := 225

  predicate IsBarrier(op: Op) {
    op.op == CONTROL_BARRIER || op.op == MEMORY_BARRIER
  }

  // ---------------------------------------------------------------- the function

  /** What the analyses say: predecessors along forward edges, back edges, and immediate dominators where they are
      obvious; `order` is the forward post order. */
  ghost predicate Charted(p: seq<IRBlock>, pred: seq<seq<Node>>, predBack: seq<Option<Node>>, idom: seq<Node>,
                           live: set<Node>, entry: Node, order: seq<Node>) {
    && LiveSet(p, live) && entry in live && |pred| == |predBack| == |idom| == |p|
    && Distinct(order) && (forall b: Node :: b in live <==> b in order)
    && (forall b: Node :: b in live ==>
          Reach(FlowOf(p), entry, b) && ChartedAt(p, pred, predBack, idom, live, order, b))
    && (forall a: Node, b: Node :: a in live && b in live && Dominating(FlowOf(p), entry, a, b) ==>
          Index(order, a) >= Index(order, b))
  }

  ghost predicate ChartedAt(p: seq<IRBlock>, pred: seq<seq<Node>>, predBack: seq<Option<Node>>, idom: seq<Node>,
                             live: set<Node>, order: seq<Node>, b: Node)
    requires LiveSet(p, live) && b < |pred| == |predBack| == |idom| == |p|
  {
    && (forall f: Node :: f in live && b in Targets(p[f].terminator) ==> f in pred[b] || predBack[b] == Some(f))
    && (forall f: Node :: f in pred[b] ==> f in live && Index(order, b) < Index(order, f))
    && (|pred[b]| == 1 ==> idom[b] == pred[b][0])
  }

  // ---------------------------------------------------------------- is the way from the source clear?

  /** The only way to the target from the source, all of it below the source. */
  ghost predicate ChainOf(p: seq<IRBlock>, live: set<Node>, order: seq<Node>, source: Node, target: Node,
                          chain: seq<Node>) {
    && chain != [] && chain[|chain| - 1] == target && target !in chain[..|chain| - 1]
    && OnlyWay(p, live, source, chain)
    && forall b: Node :: b in chain ==> b in live && Index(order, b) < Index(order, source)
  }

  ghost predicate NoBarrier(b: IRBlock) {
    forall i :: 0 <= i < |b.operations| ==> !IsBarrier(b.operations[i])
  }

  /** A block with one way in: the way is its only predecessor, which every dominator of the block dominates too. */
  lemma OneWayIn(p: seq<IRBlock>, pred: seq<seq<Node>>, predBack: seq<Option<Node>>, idom: seq<Node>, live: set<Node>,
                 entry: Node, order: seq<Node>, src: Node, x: Node)
    requires Charted(p, pred, predBack, idom, live, entry, order) && x in live && src in live && src != x
             && Dominating(FlowOf(p), entry, src, x)
    requires |pred[x]| <= 1 && predBack[x].None?
    ensures |pred[x]| == 1 && x != entry
    ensures var f := pred[x][0];
            && f in live && Index(order, x) < Index(order, f) && idom[x] == f && OnlyWay(p, live, f, [x])
            && Dominating(FlowOf(p), entry, src, f) && Dominating(FlowOf(p), entry, f, x)
            && forall b: Node :: Dominating(FlowOf(p), entry, b, x) && b != x ==> Dominating(FlowOf(p), entry, b, f)
  {
    hide LiveSet, Dominating, Targets;
    AboutLiveSet(p, live);
    assert ChartedAt(p, pred, predBack, idom, live, order, x);
    var f := LastStep(p, live, entry, src, x);
    assert f in pred[x];
    assert pred[x] == [f];
    forall g: Node | g in live && g < |p| && x in Targets(p[g].terminator) ensures g == f {
      assert g in pred[x];
    }
    assert EntersOnlyFrom(p, live, x, f);
    forall b: Node | Dominating(FlowOf(p), entry, b, x) && b != x ensures Dominating(FlowOf(p), entry, b, f) {
      DominatesPred(p, live, entry, b, f, x);
    }
    PredDominates(p, live, entry, f, x);
  }

  lemma PredDominates(p: seq<IRBlock>, live: set<Node>, entry: Node, f: Node, x: Node)
    requires LiveSet(p, live) && entry in live && x in live && x != entry && EntersOnlyFrom(p, live, x, f)
    ensures Dominating(FlowOf(p), entry, f, x)
  {
    var w := FlowOf(p);
    forall r: seq<Node> | Path(w, r, entry, x) ensures f in r {
      var q, y := PathLastEdge(w, r, entry, x);
      PathInLive(p, live, q, entry, y);
      PathLast(w, q, entry, y);
      assert y == f;
    }
  }

  lemma AboutLiveSet(p: seq<IRBlock>, live: set<Node>)
    requires LiveSet(p, live)
    ensures forall b: Node :: b in live ==> b < |p|
  {}

  lemma OnlyEntry(w: Graph, entry: Node, src: Node)
    requires Dominating(w, entry, src, entry) && entry < |w.succ|
    ensures src == entry
  {
    assert Path(w, [entry], entry, entry);
    assert src in [entry];
  }

  lemma LastStep(p: seq<IRBlock>, live: set<Node>, entry: Node, src: Node, x: Node) returns (f: Node)
    requires LiveSet(p, live) && entry in live && x in live && src != x && Dominating(FlowOf(p), entry, src, x)
             && Reach(FlowOf(p), entry, x)
    ensures f in live && x in Targets(p[f].terminator) && x != entry
  {
    var w := FlowOf(p);
    var r :| Path(w, r, entry, x);
    if x == entry {
      OnlyEntry(w, entry, src);
    }
    var q, y := PathLastEdge(w, r, entry, x);
    PathInLive(p, live, q, entry, y);
    f := y;
  }

  lemma {:induction false} PathInLive(p: seq<IRBlock>, live: set<Node>, q: seq<Node>, a: Node, b: Node)
    requires LiveSet(p, live) && a in live && Path(FlowOf(p), q, a, b)
    ensures b in live
    decreases |q|
  {
    if |q| > 1 {
      assert q[1] in Targets(p[a].terminator);
      PathInLive(p, live, q[1..], q[1], b);
    }
  }

  lemma DominatesPred(p: seq<IRBlock>, live: set<Node>, entry: Node, src: Node, f: Node, x: Node)
    requires LiveSet(p, live) && f in live && x in live && x in Targets(p[f].terminator) && src != x
             && Dominating(FlowOf(p), entry, src, x)
    ensures Dominating(FlowOf(p), entry, src, f)
  {
    hide Path, Targets, LiveSet, FlowOf;
    var w := FlowOf(p);
    IsFlowEdge(p, live, f, x);
    forall r: seq<Node> | Path(w, r, entry, f) ensures src in r {
      PathSnoc(w, r, entry, f, x);
      assert src in r + [x];
    }
  }

  lemma IsFlowEdge(p: seq<IRBlock>, live: set<Node>, f: Node, x: Node)
    requires LiveSet(p, live) && f in live && x in live && x in Targets(p[f].terminator)
    ensures Edge(FlowOf(p), f, x) && x < |FlowOf(p).succ|
  {}

  lemma ChainGrows(p: seq<IRBlock>, live: set<Node>, order: seq<Node>, f: Node, x: Node, target: Node, chain: seq<Node>)
    requires ChainOf(p, live, order, x, target, chain) && OnlyWay(p, live, f, [x]) && x in live
             && Index(order, x) < Index(order, f)
    ensures ChainOf(p, live, order, f, target, [x] + chain)
  {
    hide EntersOnlyFrom;
    var all := [x] + chain;
    assert all[..|all| - 1] == [x] + chain[..|chain| - 1] && target in chain;
    assert EntersOnlyFrom(p, live, [x][0], WayIn(f, [x], 0));
    forall i | 0 <= i < |all| ensures EntersOnlyFrom(p, live, all[i], WayIn(f, all, i)) {
      if i > 0 {
        assert all[i] == chain[i - 1];
        assert EntersOnlyFrom(p, live, chain[i - 1], WayIn(x, chain, i - 1));
      }
    }
  }

  /** `b` is below the source, and on every way to the target. */
  ghost predicate OnTheWay(p: seq<IRBlock>, entry: Node, source: Node, b: Node, target: Node) {
    Dominating(FlowOf(p), entry, source, b) && Dominating(FlowOf(p), entry, b, target)
  }

  /** Nothing about the block keeps an operation from moving past it, or into it if it is the target. */
  ghost predicate MayPass(p: seq<IRBlock>, pred: seq<seq<Node>>, predBack: seq<Option<Node>>, target: Node, b: Node) {
    b < |p| == |pred| == |predBack| && |pred[b]| <= 1 && predBack[b].None? && (b == target || NoBarrier(p[b]))
  }

  /** All blocks that are on every way from the source to the target may be passed. */
  ghost predicate ClearWay(p: seq<IRBlock>, pred: seq<seq<Node>>, predBack: seq<Option<Node>>, live: set<Node>,
                           entry: Node, source: Node, target: Node) {
    forall b: Node ::
      b in live && b != source && Dominating(FlowOf(p), entry, source, b) && Dominating(FlowOf(p), entry, b, target) ==>
        MayPass(p, pred, predBack, target, b)
  }

  lemma Antisymmetric(p: seq<IRBlock>, pred: seq<seq<Node>>, predBack: seq<Option<Node>>, idom: seq<Node>,
                      live: set<Node>, entry: Node, order: seq<Node>, a: Node, b: Node)
    requires Charted(p, pred, predBack, idom, live, entry, order) && a in live && b in live
    requires Dominating(FlowOf(p), entry, a, b) && Dominating(FlowOf(p), entry, b, a)
    ensures a == b
  {
    hide Dominating, LiveSet, ChartedAt, Reach;
    assert order[Index(order, a)] == order[Index(order, b)];
  }

  /** `path_is_reorderable`: the walk up from `dst0` ends at `src`, or at something that must not be passed. */
  method PathIsReorderable(p: seq<IRBlock>, pred: seq<seq<Node>>, predBack: seq<Option<Node>>, idom: seq<Node>,
                           postDominates: (Node, Node) -> bool, src: Node, dst0: Node, ghost live: set<Node>,
                           ghost entry: Node, ghost order: seq<Node>)
    returns (r: bool, ghost chain: seq<Node>)
    requires Charted(p, pred, predBack, idom, live, entry, order)
    requires src in live && dst0 in live && src != dst0 && Dominating(FlowOf(p), entry, src, dst0)
    ensures r ==> !postDominates(dst0, src) && ChainOf(p, live, order, src, dst0, chain) && entry !in chain
    ensures r ==> forall b: Node :: b in chain ==> OnTheWay(p, entry, src, b, dst0)
    ensures r <==> !postDominates(dst0, src) && ClearWay(p, pred, predBack, live, entry, src, dst0)
  {
    hide Charted, ChartedAt, OnlyWay, Dominating, FlowOf, ChainOf;
    DominatesItself(FlowOf(p), entry, dst0);
    chain := [];
    ChartedSizes(p, pred, predBack, idom, live, entry, order);
    if postDominates(dst0, src) || predBack[dst0].Some? || |pred[dst0]| > 1 {
      return false, chain;
    }
    OneWayIn(p, pred, predBack, idom, live, entry, order, src, dst0);
    var dst := idom[dst0];
    chain := [dst0];
    ChainStarts(p, live, order, dst, dst0);
    while src != dst
      invariant Dominating(FlowOf(p), entry, dst, dst0) && dst != dst0
      invariant forall b: Node ::
                  b in live && Dominating(FlowOf(p), entry, b, dst0) && !Dominating(FlowOf(p), entry, b, dst) ==>
                    MayPass(p, pred, predBack, dst0, b)
      invariant dst in live && Dominating(FlowOf(p), entry, src, dst)
      invariant ChainOf(p, live, order, dst, dst0, chain) && entry !in chain
      invariant forall b: Node :: b in chain ==> OnTheWay(p, entry, src, b, dst0)
      decreases |order| - Index(order, dst)
    {
      if |pred[dst]| > 1 || predBack[dst].Some? {
        return false, chain;
      }
      var ops := p[dst].operations;
      for k := 0 to |ops|
        invariant forall i :: 0 <= i < k ==> !IsBarrier(ops[i])
      {
        if IsBarrier(ops[k]) {
          return false, chain;
        }
      }
      OneWayIn(p, pred, predBack, idom, live, entry, order, src, dst);
      DominatesThrough(FlowOf(p), entry, pred[dst][0], dst, dst0);
      ChainGrows(p, live, order, pred[dst][0], dst, dst0, chain);
      chain := [dst] + chain;
      dst := pred[dst][0];
    }
    forall b: Node | b in live && b != src && Dominating(FlowOf(p), entry, src, b)
                     && Dominating(FlowOf(p), entry, b, dst0) ensures MayPass(p, pred, predBack, dst0, b) {
      if Dominating(FlowOf(p), entry, b, src) {
        Antisymmetric(p, pred, predBack, idom, live, entry, order, b, src);
      }
    }
    r := true;
  }

  lemma ChainStarts(p: seq<IRBlock>, live: set<Node>, order: seq<Node>, f: Node, x: Node)
    requires OnlyWay(p, live, f, [x]) && x in live && Index(order, x) < Index(order, f)
    ensures ChainOf(p, live, order, f, x, [x])
  {}

  lemma ChartedSizes(p: seq<IRBlock>, pred: seq<seq<Node>>, predBack: seq<Option<Node>>, idom: seq<Node>,
                      live: set<Node>, entry: Node, order: seq<Node>)
    requires Charted(p, pred, predBack, idom, live, entry, order)
    ensures |pred| == |predBack| == |idom| == |p| && forall b: Node :: b in live ==> b < |p|
  {}

  // ---------------------------------------------------------------- moving keeps the form

  ghost predicate IdsApart(ops: seq<Op>) {
    forall i, j :: 0 <= i < j < |ops| && ops[i].id != 0 ==> ops[i].id != ops[j].id
  }

  lemma WithoutAt<T>(xs: seq<T>, at: nat, i: nat)
    requires at < |xs| && i < |xs| - 1
    ensures Removed(xs, at)[i] == xs[if i < at then i else i + 1]
  {}

  lemma WithoutDefines(ops: seq<Op>, at: nat, x: Id)
    requires at < |ops| && IdsApart(ops) && ops[at].id != 0
    ensures DefinesOp(Removed(ops, at), x) <==> DefinesOp(ops, x) && x != ops[at].id
  {
    var rest := Removed(ops, at);
    if DefinesOp(rest, x) {
      var i :| 0 <= i < |rest| && rest[i].id == x;
      WithoutAt(ops, at, i);
    }
    if DefinesOp(ops, x) && x != ops[at].id {
      var i :| 0 <= i < |ops| && ops[i].id == x;
      WithoutAt(ops, at, if i < at then i else i - 1);
      assert rest[if i < at then i else i - 1].id == x;
    }
  }

  lemma WithoutReads(ops: seq<Op>, at: nat, x: Id)
    requires at < |ops| && ReadsOp(Removed(ops, at), x)
    ensures ReadsOp(ops, x)
  {
    var rest := Removed(ops, at);
    var i :| 0 <= i < |rest| && UsesId(rest[i], x);
    WithoutAt(ops, at, i);
  }

  lemma ConsDefines(op: Op, ops: seq<Op>, x: Id)
    ensures DefinesOp([op] + ops, x) <==> DefinesOp(ops, x) || (x == op.id && x != 0)
  {
    var all := [op] + ops;
    assert all[0] == op;
    if DefinesOp(ops, x) {
      var i :| 0 <= i < |ops| && ops[i].id == x;
      assert all[i + 1].id == x;
    }
    if DefinesOp(all, x) {
      var i :| 0 <= i < |all| && all[i].id == x;
      assert all[i] == if i == 0 then op else ops[i - 1];
    }
  }

  lemma ConsReads(op: Op, ops: seq<Op>, x: Id)
    ensures ReadsOp([op] + ops, x) <==> UsesId(op, x) || ReadsOp(ops, x)
  {
    var all := [op] + ops;
    assert all[0] == op;
    if ReadsOp(ops, x) {
      var i :| 0 <= i < |ops| && UsesId(ops[i], x);
      assert all[i + 1] == ops[i];
    }
    if ReadsOp(all, x) {
      var i :| 0 <= i < |all| && UsesId(all[i], x);
      assert all[i] == if i == 0 then op else ops[i - 1];
    }
  }

  lemma AboutInOrder(b: IRBlock)
    requires InOrder(b)
    ensures IdsApart(b.operations) && forall i :: 0 <= i < |b.operations| && b.operations[i].id != 0 ==>
              !DefinesPhi(b, b.operations[i].id)
  {}

  /** The moved value has a new home; all others keep theirs. */
  lemma MovedDefines(p: seq<IRBlock>, live: set<Node>, entry: Node, mv: Move, b: Node, x: Id)
    requires SSA.WellFormed(p, live, entry) && InBounds(p, mv) && MovedOp(p, mv).id != 0 && mv.source in live
             && mv.target in live && b in live
    ensures b < |p| && (Defines(Sunk(p, mv)[b], x) <==>
                          if x == MovedOp(p, mv).id then b == mv.target else Defines(p[b], x))
  {
    hide DefinesOp, InOrder;
    var v := MovedOp(p, mv).id;
    assert InOrder(p[mv.source]);
    AboutInOrder(p[mv.source]);
    OpDefines(p[mv.source], mv.at);
    assert p[mv.source].operations[mv.at].id == v && !DefinesPhi(p[mv.source], v);
    WithoutDefines(p[mv.source].operations, mv.at, x);
    ConsDefines(MovedOp(p, mv), p[mv.target].operations, x);
    if x == v && Defines(p[b], v) {
      assert b == mv.source;
    }
  }

  lemma OpDefines(b: IRBlock, i: nat)
    requires i < |b.operations| && b.operations[i].id != 0
    ensures DefinesOp(b.operations, b.operations[i].id) && Defines(b, b.operations[i].id)
  {}

  lemma MovedReads(p: seq<IRBlock>, mv: Move, b: Node, x: Id)
    requires InBounds(p, mv) && b < |p| && Reads(Sunk(p, mv)[b], x)
    ensures Reads(p[b], x) || (b == mv.target && UsesId(MovedOp(p, mv), x))
  {
    hide ReadsOp;
    if b == mv.source && ReadsOp(Removed(p[b].operations, mv.at), x) {
      WithoutReads(p[b].operations, mv.at, x);
    }
    ConsReads(MovedOp(p, mv), p[mv.target].operations, x);
  }

  lemma MovedFlow(p: seq<IRBlock>, mv: Move)
    requires InBounds(p, mv)
    ensures FlowOf(Sunk(p, mv)) == FlowOf(p)
    ensures forall b: Node :: b < |p| ==> Sunk(p, mv)[b].phi == p[b].phi && Sunk(p, mv)[b].terminator == p[b].terminator
  {}

  /** Every definition dominates the blocks that read it, not counting PHIs. */
  ghost predicate ReadsDominated(p: seq<IRBlock>, live: set<Node>, entry: Node)
    requires LiveSet(p, live)
  {
    forall b: Node, d: Node, x: Id :: b in live && d in live && Reads(p[b], x) && Defines(p[d], x) ==>
      Dominating(FlowOf(p), entry, d, b)
  }

  lemma FormDominates(p: seq<IRBlock>, live: set<Node>, entry: Node)
    requires LiveSet(p, live) && SSA.Form(p, live, entry)
    ensures ReadsDominated(p, live, entry)
  {
    hide Dominating, Defines;
    forall b: Node, d: Node, x: Id | b in live && d in live && Reads(p[b], x)
        && Defines(p[d], x) ensures Dominating(FlowOf(p), entry, d, b) {
      if ReadsOp(p[b].operations, x) {
        var i :| 0 <= i < |p[b].operations| && UsesId(p[b].operations[i], x);
      }
    }
  }

  /** After a move, too, each value has one definition, and it dominates the reads. */
  lemma MovedForm(p: seq<IRBlock>, live: set<Node>, entry: Node, movable: nat -> bool, mv: Move)
    requires SSA.WellFormed(p, live, entry) && Sinkable(p, live, entry, movable, mv)
             && Dominating(FlowOf(p), entry, mv.source, mv.target)
    ensures LiveSet(Sunk(p, mv), live) && SSA.Form(Sunk(p, mv), live, entry)
  {
    hide Dominating, Defines, Sunk, Reads, UsesId, Targets, InOrder;
    var q, v := Sunk(p, mv), MovedOp(p, mv).id;
    MovedFlow(p, mv);
    FormDominates(p, live, entry);
    forall b: Node, x: Id | b in live ensures b < |p|
        && (Defines(q[b], x) <==> if x == v then b == mv.target else Defines(p[b], x)) {
      MovedDefines(p, live, entry, mv, b, x);
    }
    forall b: Node, d: Node, x: Id | b in live && d in live && Reads(q[b], x)
        && Defines(q[d], x) ensures Dominating(FlowOf(p), entry, d, b) {
      MovedReadDominated(p, live, entry, movable, mv, b, d, x);
    }
    DominatedIsForm(p, q, live, entry, movable, mv);
  }

  /** One read after the move. */
  lemma MovedReadDominated(p: seq<IRBlock>, live: set<Node>, entry: Node, movable: nat -> bool, mv: Move, b: Node,
                           d: Node, x: Id)
    requires SSA.WellFormed(p, live, entry) && Sinkable(p, live, entry, movable, mv)
             && Dominating(FlowOf(p), entry, mv.source, mv.target)
    requires b in live && d in live && b < |p| && d < |p| && Reads(Sunk(p, mv)[b], x) && Defines(Sunk(p, mv)[d], x)
    ensures Dominating(FlowOf(p), entry, d, b)
  {
    hide Defines, Sunk, Reads, Dominating, InOrder, OnlyWay, LeavesAlone, RestLeavesAlone;
    FormDominates(p, live, entry);
    MovedDefines(p, live, entry, mv, d, x);
    MovedReads(p, mv, b, x);
    SinkableAt(p, live, entry, movable, mv, b);
    if x == MovedOp(p, mv).id {
      assert b == mv.target && d == mv.target;
      DominatesItself(FlowOf(p), entry, b);
    } else if !Reads(p[b], x) {
      OpReads(p[mv.source], mv.at, x);
      assert Dominating(FlowOf(p), entry, d, mv.source);
      DominatesThrough(FlowOf(p), entry, d, mv.source, mv.target);
    }
  }

  lemma OpReads(b: IRBlock, i: nat, x: Id)
    requires i < |b.operations| && UsesId(b.operations[i], x)
    ensures Reads(b, x)
  {
    assert ReadsOp(b.operations, x);
  }

  lemma DominatesThrough(w: Graph, entry: Node, a: Node, b: Node, c: Node)
    requires Dominating(w, entry, a, b) && Dominating(w, entry, b, c)
    ensures Dominating(w, entry, a, c)
  {
    forall r: seq<Node> | Path(w, r, entry, c) ensures a in r {
      var r1, r2 := PathSplit(w, r, entry, c, b);
    }
  }

  lemma DominatedIsForm(p: seq<IRBlock>, q: seq<IRBlock>, live: set<Node>, entry: Node, movable: nat -> bool, mv: Move)
    requires SSA.WellFormed(p, live, entry) && Sinkable(p, live, entry, movable, mv) && q == Sunk(p, mv)
             && FlowOf(q) == FlowOf(p)
    requires forall b: Node :: b < |p| ==> q[b].phi == p[b].phi && q[b].terminator == p[b].terminator
    requires forall b: Node, x: Id :: b in live ==>
               b < |p| && (Defines(q[b], x) <==> if x == MovedOp(p, mv).id then b == mv.target else Defines(p[b], x))
    requires forall b: Node, d: Node, x: Id :: b in live && d in live && Reads(q[b], x) && Defines(q[d], x) ==>
               Dominating(FlowOf(p), entry, d, b)
    ensures LiveSet(q, live) && SSA.Form(q, live, entry)
  {
    hide Dominating, Defines, Sunk, Targets, InOrder, OnlyWay, LeavesAlone, RestLeavesAlone, InBounds;
    AboutReadOnly(p, live, entry, movable, mv);
    forall b: Node, i, x: Id | b in live && 0 <= i < |q[b].operations|
        && UsesId(q[b].operations[i], x) ensures Reads(q[b], x) {
      OpReads(q[b], i, x);
    }
    assert LiveSet(q, live);
  }

  lemma AboutReadOnly(p: seq<IRBlock>, live: set<Node>, entry: Node, movable: nat -> bool, mv: Move)
    requires Sinkable(p, live, entry, movable, mv)
    ensures InBounds(p, mv) && LiveSet(p, live) && NotInPhis(p, live, MovedOp(p, mv).id)
  {}

  /** Inside the source nothing that was left needs the moved value. */
  lemma SourceInOrder(b: IRBlock, at: nat)
    requires InOrder(b) && at < |b.operations| && b.operations[at].id != 0 && !Reads(b, b.operations[at].id)
    ensures InOrder(b.(operations := Removed(b.operations, at)))
  {
    var ops, rest, v := b.operations, Removed(b.operations, at), b.operations[at].id;
    var r := b.(operations := rest);
    forall i | 0 <= i < |rest| ensures rest[i] == ops[if i < at then i else i + 1] {
      WithoutAt(ops, at, i);
    }
    forall i, x: Id | 0 <= i < |rest| && UsesId(rest[i], x) && Defines(r, x) ensures DefinesPhi(r, x)
        || DefinesOp(rest[..i], x) {
      var j := if i < at then i else i + 1;
      assert UsesId(ops[j], x);
      AboutInOrder(b);
      WithoutDefines(ops, at, x);
      if !DefinesPhi(b, x) {
        assert DefinesOp(ops[..j], x);
        PrefixWithout(ops, at, i, x);
      }
    }
  }

  lemma PrefixWithout(ops: seq<Op>, at: nat, i: nat, x: Id)
    requires at < |ops| && i < |ops| - 1 && DefinesOp(ops[..if i < at then i else i + 1], x) && x != ops[at].id
    ensures DefinesOp(Removed(ops, at)[..i], x)
  {
    var j := if i < at then i else i + 1;
    var k :| 0 <= k < j && ops[..j][k].id == x;
    var l := if k < at then k else k - 1;
    assert k != at;
    WithoutAt(ops, at, l);
    assert Removed(ops, at)[..i][l].id == x;
  }

  /** In the target the moved value comes first, and nothing that it needs is made there. */
  lemma TargetInOrder(b: IRBlock, op: Op)
    requires InOrder(b) && op.id != 0 && LeavesAlone(b, op) && !UsesId(op, op.id)
    ensures InOrder(b.(operations := [op] + b.operations))
  {
    var all := [op] + b.operations;
    var r := b.(operations := all);
    LeftAlone(b, op);
    forall i | 0 < i < |all| ensures all[i] == b.operations[i - 1] {}
    assert all[0] == op;
    forall i | 0 <= i < |all| && all[i].id != 0 ensures !DefinesPhi(r, all[i].id) {
      if i == 0 {
        assert !DefinesPhi(b, op.id);
      }
    }
    forall i, x: Id | 0 <= i < |all| && UsesId(all[i], x) && Defines(r, x) ensures DefinesPhi(r, x)
        || DefinesOp(all[..i], x) {
      ConsDefines(op, b.operations, x);
      if i == 0 {
        assert !Defines(b, x);
      } else if !DefinesPhi(b, x) {
        assert all[..i] == [op] + b.operations[..i - 1];
        ConsDefines(op, b.operations[..i - 1], x);
      }
    }
  }

  /** A move keeps the whole function well formed. */
  lemma MoveKeepsForm(p: seq<IRBlock>, live: set<Node>, entry: Node, movable: nat -> bool, mv: Move)
    requires SSA.WellFormed(p, live, entry) && Sinkable(p, live, entry, movable, mv)
             && Dominating(FlowOf(p), entry, mv.source, mv.target)
    ensures SSA.WellFormed(Sunk(p, mv), live, entry)
  {
    hide Dominating, InOrder, OnlyWay, RestLeavesAlone, LeavesAlone;
    MovedForm(p, live, entry, movable, mv);
    SinkableAt(p, live, entry, movable, mv, mv.source);
    SinkableAt(p, live, entry, movable, mv, mv.target);
    SourceInOrder(p[mv.source], mv.at);
    TargetInOrder(p[mv.target], MovedOp(p, mv));
  }
}
