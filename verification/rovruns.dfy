/** One lock for the whole shader: when every run takes it once and releases it once, loops or not. */
module RovRuns {
  import opened Graphs
  import opened IR
  import opened Dominance
  import opened FlowGraph
  import opened Backwards
  import opened Cycles
  import opened Rov

  // ---------------------------------------------------------------- runs and regions

  predicate Locks(blocks: seq<IRBlock>, x: Node) {
    x < |blocks| && HasOp(blocks[x].operations, BEGIN)
  }

  /** The operations executed along a walk. */
  ghost function TraceOf(blocks: seq<IRBlock>, p: seq<Node>): seq<Op> {
    if p == [] then [] else (if p[0] < |blocks| then blocks[p[0]].operations else []) + TraceOf(blocks, p[1..])
  }

  /** Every complete run takes the lock once, then releases it once, and makes its accesses in between. */
  ghost predicate LockedOnce(g: Graph, blocks: seq<IRBlock>, entry: Node, rov: Op -> bool) {
    forall p: seq<Node>, l: Node :: Path(g, p, entry, l) && Leaf(g, l) ==>
      Scan(rov, TraceOf(blocks, p), Unlocked) == Released
  }

  /** A place to take the lock and a place to release it: `i` and then `d` are on every complete run,
      and every block with accesses lies between them. */
  ghost predicate Region(f: Flow, order: seq<Node>, blocks: seq<IRBlock>, i: Node, d: Node) {
    && i in order && d in order && PostDom(f.g, i, f.root) && PostDom(f.g, d, i)
    && forall x: Node :: x in order && Locks(blocks, x) ==> Dom(f, i, x) && PostDom(f.g, d, x)
  }

  ghost predicate HasRegion(f: Flow, order: seq<Node>, blocks: seq<IRBlock>) {
    exists i: Node, d: Node :: Region(f, order, blocks, i, d)
  }

  /** What becomes of the operations of a block, if it is the first of the region, or the last. */
  function RegionOps(ops: seq<Op>, first: bool, last: bool): seq<Op> {
    var locks := HasOp(ops, BEGIN);
    var begin := if !locks then ops else if first then KeepFirstBegin(ops) else Without(ops, BEGIN);
    var scrubbed := if !locks then begin else if last then KeepLastEnd(begin) else Without(begin, END);
    var taken := if first && !locks then scrubbed + [Op(BEGIN, 0, [])] else scrubbed;
    if last && !locks then [Op(END, 0, [])] + taken else taken
  }

  /** A post-dominator is reached. */
  lemma PostDomReached(f: Flow, order: seq<Node>, d: Node, x: Node)
    requires Numbered(f, order) && x in order && PostDom(f.g, d, x)
    ensures Reach(f.g, x, d) && d in order && x < |f.num| && d < |f.num| && f.num[x] >= f.num[d]
    ensures f.num[x] == f.num[d] ==> x == d
  {
    LiveInRange(f, x);
    var p, l := ReachesLeaf(f.g, f.num, x);
    PathReach(f.g, p, x, l, d);
    ReachDescends(f.g, f.num, x, d);
    ReachTrans(f.g, f.root, x, d);
  }

  /** A block on every run that precedes an access dominates what post-dominates the access. */
  lemma EntryDominatesExit(f: Flow, order: seq<Node>, i: Node, d: Node, r: Node)
    requires Numbered(f, order) && i in order && r in order
    requires PostDom(f.g, i, f.root) && Dom(f, i, r) && PostDom(f.g, d, r)
    ensures Dom(f, i, d)
  {
    DomNumber(f, i, r);
    PostDomReached(f, order, d, r);
    var q, l := ReachesLeaf(f.g, f.num, d);
    forall p: seq<Node> | Path(f.g, p, f.root, d) ensures i in p {
      PathJoin(f.g, p, f.root, d, q, l);
      assert i in p + q[1..];
      if i in q {
        PathReach(f.g, q, d, l, i);
        ReachDescends(f.g, f.num, d, i);
        PathLast(f.g, p, f.root, d);
      }
    }
  }

  // ---------------------------------------------------------------- one block

  lemma OpenedAtEnd(rov: Op -> bool, ops: seq<Op>)
    requires Scan(rov, ops, Unlocked) == Unlocked
    ensures Scan(rov, ops + [Op(BEGIN, 0, [])], Unlocked) == Held
  {
    ScanConcat(rov, ops, [Op(BEGIN, 0, [])], Unlocked);
  }

  lemma ClosedAtStart(rov: Op -> bool, ops: seq<Op>)
    requires Scan(rov, ops, Released) == Released
    ensures Scan(rov, [Op(END, 0, [])] + ops, Held) == Released
  {
    ScanConcat(rov, [Op(END, 0, [])], ops, Held);
  }

  lemma HasEndToo(rov: Op -> bool, ops: seq<Op>)
    requires Bracketed(rov, ops, false) && HasOp(ops, BEGIN)
    ensures HasOp(ops, END)
  {
    if !HasOp(ops, END) {
      BeginNeedsEnd(rov, ops, false);
    }
  }

  /** One block moves the phase on exactly as its place in the region says. */
  lemma BlockPhase(rov: Op -> bool, ops: seq<Op>, first: bool, last: bool, ph: Phase)
    requires Bracketed(rov, ops, false) && (first && last ==> HasOp(ops, BEGIN))
    requires first ==> ph == Unlocked
    requires !first && (last || HasOp(ops, BEGIN)) ==> ph == Held
    ensures Scan(rov, RegionOps(ops, first, last), ph) == if last then Released else if first then Held else ph
  {
    hide HasOp, Scan, Without, KeepFirstBegin, KeepLastEnd, Bracketed;
    if HasOp(ops, BEGIN) {
      if first && last {
        ScrubbedOnly(rov, ops);
      } else if first {
        ScrubbedFirst(rov, ops);
      } else if last {
        HasEndToo(rov, ops);
        ScrubbedLast(rov, ops, false);
      } else {
        ScrubbedInside(rov, ops);
      }
    } else {
      PlainScan(rov, ops, ph);
      PlainScan(rov, ops, Released);
      if first {
        OpenedAtEnd(rov, ops);
      } else if last {
        ClosedAtStart(rov, ops);
      }
    }
  }

  // ---------------------------------------------------------------- a region off all cycles

  /** How far the lock has come when a run has been through the blocks `p`. */
  ghost function PhaseAfter(p: seq<Node>, i: Node, d: Node): Phase {
    if i !in p then Unlocked else if d !in p then Held else Released
  }

  lemma ReachInWhole(f: Flow, w: Graph, x: Node, y: Node)
    requires Backed(f, w) && Reach(f.g, x, y)
    ensures Reach(w, x, y)
  {
    var p :| Path(f.g, p, x, y);
    WalkInWhole(f, w, p, x, y);
  }

  /** What dominates the k-th block of a run has been passed by then. */
  lemma PassedBy(f: Flow, w: Graph, a: Node, p: seq<Node>, l: Node, k: nat)
    requires Backed(f, w) && Path(w, p, f.root, l) && k < |p| && Dom(f, a, p[k])
    ensures a == p[k] || a in p[..k]
  {
    DominatesInWhole(f, w, a, p[k]);
    PathPrefix(w, p, f.root, l, k);
    assert p[..k + 1] == p[..k] + [p[k]];
  }

  /** On a run, the ends of the region come once each and in their order, and the accesses in between. */
  lemma Places(f: Flow, w: Graph, order: seq<Node>, blocks: seq<IRBlock>, i: Node, d: Node, p: seq<Node>, l: Node,
               k: nat)
    requires Numbered(f, order) && Backed(f, w) && Region(f, order, blocks, i, d) && Dom(f, i, d)
    requires !OnCycle(w, i) && !OnCycle(w, d) && Path(w, p, f.root, l) && k < |p|
    ensures p[k] in order && p[k] < |f.g.succ|
    ensures p[k] == i ==> i !in p[..k]
    ensures p[k] == d ==> d !in p[..k] && (d != i ==> i in p[..k])
    ensures d in p[..k] ==> i in p[..k]
    ensures Locks(blocks, p[k]) ==> (p[k] != i ==> i in p[..k]) && d !in p[..k]
  {
    hide Numbered, Backed, PostDom, Dom, Path, OnCycle, HasOp;
    var x := p[k];
    OnlyLive(f, w, order, p, l, x);
    ReachRefl(w, x);
    if i in p[..k] && x == i {
      MetAgain(w, p, f.root, l, i, k);
    }
    if d in p[..k] && (x == d || Locks(blocks, x)) {
      if x != d {
        PostDomReached(f, order, d, x);
        ReachInWhole(f, w, x, d);
      }
      MetAgain(w, p, f.root, l, d, k);
      assert false;
    }
    if x == d {
      PassedBy(f, w, i, p, l, k);
    }
    if d in p[..k] {
      var j :| 0 <= j < k && p[j] == d;
      PassedBy(f, w, i, p, l, j);
      assert p[..k] == p[..j] + p[j..k] && p[j] in p[j..k];
    }
    if Locks(blocks, x) {
      PassedBy(f, w, i, p, l, k);
    }
  }

  lemma OnlyLive(f: Flow, w: Graph, order: seq<Node>, p: seq<Node>, l: Node, x: Node)
    requires Numbered(f, order) && Backed(f, w) && Path(w, p, f.root, l) && x in p
    ensures x in order && x < |f.g.succ| == |w.succ|
  {
    LiveRoot(f);
    StaysLive(f, w, p, f.root, l);
    LiveInRange(f, x);
  }

  lemma {:induction false} TraceConcat(blocks: seq<IRBlock>, p: seq<Node>, q: seq<Node>)
    ensures TraceOf(blocks, p + q) == TraceOf(blocks, p) + TraceOf(blocks, q)
  {
    if p == [] {
      assert p + q == q;
    } else {
      assert (p + q)[1..] == p[1..] + q;
      TraceConcat(blocks, p[1..], q);
    }
  }

  /** `after` is `blocks` with the lock of the region from `i` to `d`. */
  ghost predicate Bracketing(order: seq<Node>, blocks: seq<IRBlock>, after: seq<IRBlock>, i: Node, d: Node,
                             rov: Op -> bool) {
    && |after| == |blocks|
    && forall y: Node :: y in order && y < |blocks| ==>
         && Bracketed(rov, blocks[y].operations, false)
         && after[y].operations == RegionOps(blocks[y].operations, y == i, y == d)
  }

  lemma {:induction false} RunPhase(f: Flow, w: Graph, order: seq<Node>, blocks: seq<IRBlock>, after: seq<IRBlock>,
                                    i: Node, d: Node, rov: Op -> bool, p: seq<Node>, l: Node, k: nat)
    requires Numbered(f, order) && Backed(f, w) && Region(f, order, blocks, i, d) && Dom(f, i, d)
    requires (i == d ==> Locks(blocks, i)) && Bracketing(order, blocks, after, i, d, rov) && |blocks| == |f.g.succ|
    requires !OnCycle(w, i) && !OnCycle(w, d) && Path(w, p, f.root, l) && k <= |p|
    ensures Scan(rov, TraceOf(after, p[..k]), Unlocked) == PhaseAfter(p[..k], i, d)
    decreases k
  {
    hide Numbered, Backed, Region, Dom, Path, OnCycle, HasOp, RegionOps, Bracketed, Scan;
    if k == 0 {
      NothingScanned(rov, after);
    } else {
      var x := p[k - 1];
      RunPhase(f, w, order, blocks, after, i, d, rov, p, l, k - 1);
      Places(f, w, order, blocks, i, d, p, l, k - 1);
      assert p[..k] == p[..k - 1] + [x];
      TraceConcat(after, p[..k - 1], [x]);
      OneTraced(after, x);
      ScanConcat(rov, TraceOf(after, p[..k - 1]), after[x].operations, Unlocked);
      BlockPhase(rov, blocks[x].operations, x == i, x == d, PhaseAfter(p[..k - 1], i, d));
    }
  }

  lemma NothingScanned(rov: Op -> bool, after: seq<IRBlock>)
    ensures Scan(rov, TraceOf(after, []), Unlocked) == Unlocked
  {}

  lemma OneTraced(blocks: seq<IRBlock>, x: Node)
    requires x < |blocks|
    ensures TraceOf(blocks, [x]) == blocks[x].operations
  {
    assert TraceOf(blocks, [x][1..]) == [];
  }

  /** A block that post-dominates the root is on every complete run, also on those through loops. */
  lemma OnEveryRun(f: Flow, w: Graph, a: Node, p: seq<Node>, l: Node)
    requires Backed(f, w) && PostDom(f.g, a, f.root) && Path(w, p, f.root, l) && Leaf(w, l)
    ensures a in p
  {
    if a !in p {
      LeafOfForward(f, w, l);
      var q := ForwardWalk(f, w, p, l, a);
    }
  }

  lemma LeafOfForward(f: Flow, w: Graph, l: Node)
    requires Backed(f, w)
    ensures Leaf(w, l) ==> Leaf(f.g, l)
  {
    if l < |f.g.succ| && f.g.succ[l] != [] {
      assert Edge(f.g, l, f.g.succ[l][0]);
    }
  }

  lemma RegionOnRuns(f: Flow, order: seq<Node>, blocks: seq<IRBlock>, i: Node, d: Node)
    requires Region(f, order, blocks, i, d)
    ensures PostDom(f.g, i, f.root) && PostDom(f.g, d, f.root)
  {
    forall p: seq<Node>, l: Node | Path(f.g, p, f.root, l) && Leaf(f.g, l) ensures d in p {
      var _, q := PathSplit(f.g, p, f.root, l, i);
    }
  }

  /** Bracketing a region whose ends are on no cycle makes every run take and release the lock once. */
  lemma RegionLocksOnce(f: Flow, w: Graph, order: seq<Node>, blocks: seq<IRBlock>, after: seq<IRBlock>, i: Node,
                        d: Node, rov: Op -> bool, r: Node)
    requires Numbered(f, order) && Backed(f, w) && Region(f, order, blocks, i, d) && r in order && Locks(blocks, r)
    requires Bracketing(order, blocks, after, i, d, rov) && |blocks| == |f.g.succ|
    requires !OnCycle(w, i) && !OnCycle(w, d)
    ensures LockedOnce(w, after, f.root, rov)
  {
    hide Numbered, Backed, PostDom, Dom, Path, OnCycle, HasOp, RegionOps, Bracketed, Scan, Bracketing;
    EntryDominatesExit(f, order, i, d, r);
    if i == d {
      OnePlace(f, order, i, r);
    }
    RegionOnRuns(f, order, blocks, i, d);
    forall p: seq<Node>, l: Node | Path(w, p, f.root, l) && Leaf(w, l)
      ensures Scan(rov, TraceOf(after, p), Unlocked) == Released
    {
      OnEveryRun(f, w, i, p, l);
      OnEveryRun(f, w, d, p, l);
      RunPhase(f, w, order, blocks, after, i, d, rov, p, l, |p|);
      assert p[..|p|] == p;
    }
  }

  lemma OnePlace(f: Flow, order: seq<Node>, i: Node, r: Node)
    requires Numbered(f, order) && r in order && Dom(f, i, r) && PostDom(f.g, i, r)
    ensures i == r
  {
    DomNumber(f, i, r);
    PostDomReached(f, order, i, r);
  }

  // ---------------------------------------------------------------- an end on a cycle

  ghost function Rank(ph: Phase): nat {
    match ph
    case Unlocked => 0
    case Held => 1
    case Released => 2
    case Broken => 3
  }

  /** Phases never go back, and a second begin or a second end breaks the run. */
  lemma {:induction false} ScanRises(rov: Op -> bool, ops: seq<Op>, ph: Phase)
    ensures Rank(Scan(rov, ops, ph)) >= Rank(ph)
    ensures HasOp(ops, BEGIN) ==> Rank(Scan(rov, ops, ph)) >= if Rank(ph) >= 1 then 3 else 1
    ensures HasOp(ops, END) ==> Rank(Scan(rov, ops, ph)) >= if Rank(ph) >= 2 then 3 else 2
    decreases |ops|
  {
    if ops != [] {
      HasOpCons(ops, BEGIN);
      HasOpCons(ops, END);
      ScanRises(rov, ops[1..], After(rov, ops[0], ph));
    }
  }

  lemma HasOpConcat(a: seq<Op>, b: seq<Op>, code: nat)
    ensures HasOp(a + b, code) <==> HasOp(a, code) || HasOp(b, code)
  {
    if k :| 0 <= k < |a + b| && (a + b)[k].op == code {
      assert if k < |a| then a[k].op == code else b[k - |a|].op == code;
    }
    if k :| 0 <= k < |a| && a[k].op == code {
      assert (a + b)[k] == a[k];
    }
    if k :| 0 <= k < |b| && b[k].op == code {
      assert (a + b)[|a| + k] == b[k];
    }
  }

  lemma TwiceBreaks(rov: Op -> bool, a: seq<Op>, b: seq<Op>, c: seq<Op>, code: nat)
    requires (code == BEGIN || code == END) && HasOp(a, code) && HasOp(b, code)
    ensures Scan(rov, a + b + c, Unlocked) == Broken
  {
    ScanConcat(rov, a + b, c, Unlocked);
    ScanConcat(rov, a, b, Unlocked);
    ScanRises(rov, a, Unlocked);
    ScanRises(rov, b, Scan(rov, a, Unlocked));
    ScanRises(rov, c, Scan(rov, a + b, Unlocked));
  }

  lemma {:induction false} TraceHas(blocks: seq<IRBlock>, p: seq<Node>, x: Node, code: nat)
    requires x in p && x < |blocks| && HasOp(blocks[x].operations, code)
    ensures HasOp(TraceOf(blocks, p), code)
    decreases |p|
  {
    var here := if p[0] < |blocks| then blocks[p[0]].operations else [];
    if p[0] != x {
      assert p == [p[0]] + p[1..];
      TraceHas(blocks, p[1..], x, code);
    }
    HasOpConcat(here, TraceOf(blocks, p[1..]), code);
  }

  /** Control gets from `x` to the end of some run. */
  ghost predicate Ends(w: Graph, x: Node) {
    exists l: Node :: Reach(w, x, l) && Leaf(w, l)
  }

  /** A complete run that comes twice to a block on a cycle. */
  lemma TwiceThrough(f: Flow, w: Graph, x: Node) returns (p: seq<Node>, round: seq<Node>, q: seq<Node>, l: Node)
    requires Backed(f, w) && Live(f, x) && OnCycle(w, x) && Ends(w, x)
    ensures |round| > 0 && |q| > 0 && x in p && x in round[1..]
    ensures Path(w, p + round[1..] + q[1..], f.root, l) && Leaf(w, l)
  {
    hide OnCycle, Backed, Path;
    p :| Path(f.g, p, f.root, x);
    WalkInWhole(f, w, p, f.root, x);
    round := CycleWalk(w, x);
    l :| Reach(w, x, l) && Leaf(w, l);
    q :| Path(w, q, x, l);
    PathJoin(w, p, f.root, x, round, x);
    PathJoin(w, p + round[1..], f.root, x, q, l);
    PathLast(w, p, f.root, x);
    PathEnds(w, round, x, x);
    PathEnds(w, q, x, l);
  }

  /** If a block on a cycle takes the lock, or releases it, some complete run does so twice. */
  lemma CycleLocksTwice(f: Flow, w: Graph, blocks: seq<IRBlock>, x: Node, code: nat, rov: Op -> bool)
    requires Backed(f, w) && Live(f, x) && OnCycle(w, x) && Ends(w, x) && x < |blocks|
    requires (code == BEGIN || code == END) && HasOp(blocks[x].operations, code)
    ensures !LockedOnce(w, blocks, f.root, rov)
  {
    hide HasOp, OnCycle, Backed, Live, Path, Scan, TraceOf, Ends;
    var p, round, q, l := TwiceThrough(f, w, x);
    TraceConcat(blocks, p, round[1..]);
    TraceConcat(blocks, p + round[1..], q[1..]);
    TraceHas(blocks, p, x, code);
    TraceHas(blocks, round[1..], x, code);
    TwiceBreaks(rov, TraceOf(blocks, p), TraceOf(blocks, round[1..]), TraceOf(blocks, q[1..]), code);
  }

  lemma {:induction false} KeepFirstHas(ops: seq<Op>, code: nat)
    ensures HasOp(KeepFirstBegin(ops), code) <==> HasOp(ops, code)
  {
    if ops != [] {
      HasOpCons(ops, code);
      HasOpCons(KeepFirstBegin(ops), code);
      if ops[0].op == BEGIN {
        assert KeepFirstBegin(ops)[1..] == Without(ops[1..], BEGIN);
        WithoutHas(ops[1..], BEGIN, code);
      } else {
        assert KeepFirstBegin(ops)[1..] == KeepFirstBegin(ops[1..]);
        KeepFirstHas(ops[1..], code);
      }
    }
  }

  lemma {:induction false} KeepLastHas(ops: seq<Op>, code: nat)
    ensures HasOp(KeepLastEnd(ops), code) <==> HasOp(ops, code)
  {
    if ops != [] {
      HasOpCons(ops, code);
      KeepLastHas(ops[1..], code);
      if !(ops[0].op == END && HasOp(ops[1..], END)) {
        assert KeepLastEnd(ops)[1..] == KeepLastEnd(ops[1..]);
        HasOpCons(KeepLastEnd(ops), code);
      }
    }
  }

  /** The ends of a region take and release the lock. */
  lemma EndsLock(ops: seq<Op>, first: bool, last: bool, rov: Op -> bool)
    requires Bracketed(rov, ops, false)
    ensures HasOp(RegionOps(ops, first, last), BEGIN) <==> first
    ensures HasOp(RegionOps(ops, first, last), END) <==> last
  {
    hide HasOp, Without, KeepFirstBegin, KeepLastEnd, Bracketed;
    if HasOp(ops, BEGIN) {
      HasEndToo(rov, ops);
      var begin := if first then KeepFirstBegin(ops) else Without(ops, BEGIN);
      KeepFirstHas(ops, BEGIN);
      KeepFirstHas(ops, END);
      WithoutHas(ops, BEGIN, BEGIN);
      WithoutHas(ops, BEGIN, END);
      KeepLastHas(begin, BEGIN);
      KeepLastHas(begin, END);
      WithoutHas(begin, END, BEGIN);
      WithoutHas(begin, END, END);
    } else {
      PlainScan(rov, ops, Held);
      var begin, end := Op(BEGIN, 0, []), Op(END, 0, []);
      OneHas(begin);
      OneHas(end);
      HasOpConcat(ops, [begin], BEGIN);
      var taken := if first then ops + [begin] else ops;
      HasOpConcat(ops, [begin], END);
      HasOpConcat([end], taken, END);
      HasOpConcat([end], taken, BEGIN);
    }
  }

  lemma OneHas(op: Op)
    ensures forall code: nat :: HasOp([op], code) <==> code == op.op
  {
    assert [op][0].op == op.op;
  }

  // ---------------------------------------------------------------- nothing else changes

  lemma {:induction false} WithoutTwice(ops: seq<Op>, code: nat)
    ensures Without(Without(ops, code), code) == Without(ops, code)
  {
    if ops != [] {
      WithoutTwice(ops[1..], code);
    }
  }

  lemma {:induction false} WithoutCommutes(ops: seq<Op>, a: nat, b: nat)
    ensures Without(Without(ops, a), b) == Without(Without(ops, b), a)
  {
    if ops != [] {
      WithoutCommutes(ops[1..], a, b);
    }
  }

  lemma {:induction false} KeepFirstRest(ops: seq<Op>)
    ensures Without(KeepFirstBegin(ops), BEGIN) == Without(ops, BEGIN)
  {
    if ops != [] {
      if ops[0].op == BEGIN {
        assert KeepFirstBegin(ops)[1..] == Without(ops[1..], BEGIN);
        WithoutTwice(ops[1..], BEGIN);
      } else {
        KeepFirstRest(ops[1..]);
      }
    }
  }

  lemma {:induction false} KeepLastRest(ops: seq<Op>)
    ensures Without(KeepLastEnd(ops), END) == Without(ops, END)
  {
    if ops != [] {
      KeepLastRest(ops[1..]);
    }
  }

  /** The other operations stay, in order. */
  lemma RestKept(ops: seq<Op>, first: bool, last: bool)
    ensures Without(Without(RegionOps(ops, first, last), BEGIN), END) == Without(Without(ops, BEGIN), END)
  {
    var locks := HasOp(ops, BEGIN);
    var begin := if first then KeepFirstBegin(ops) else Without(ops, BEGIN);
    if locks {
      KeepFirstRest(ops);
      WithoutTwice(ops, BEGIN);
      assert Without(begin, BEGIN) == Without(ops, BEGIN);
      KeepLastRest(begin);
      WithoutTwice(begin, END);
      var scrubbed := if last then KeepLastEnd(begin) else Without(begin, END);
      WithoutCommutes(scrubbed, BEGIN, END);
      WithoutCommutes(begin, BEGIN, END);
    } else {
      WithoutConcat(ops, [Op(BEGIN, 0, [])], BEGIN);
      assert Without([Op(BEGIN, 0, [])], BEGIN) == [];
      var taken := if first then ops + [Op(BEGIN, 0, [])] else ops;
      assert Without(taken, BEGIN) == Without(ops, BEGIN);
      WithoutConcat([Op(END, 0, [])], taken, BEGIN);
      WithoutConcat([Op(END, 0, [])], Without(taken, BEGIN), END);
      assert Without([Op(END, 0, [])], BEGIN) == [Op(END, 0, [])] && Without([Op(END, 0, [])], END) == [];
      assert [] + Without(Without(taken, BEGIN), END) == Without(Without(ops, BEGIN), END);
    }
  }
}
