/** The pass that leaves every block the target of at most one back edge. */
module BackEdgePass {
  import opened Wrappers
  import opened Graphs
  import opened Lists
  import opened Dfs
  import opened IR
  import opened TailSplit
  import opened BlockPool
  import opened Rewiring
  import opened Gates
  import opened BackEdges
  import Traversal

  // ---------------------------------------------------------------- redirected blocks

  function ViaCases(r: Redirects, n: Node, cases: seq<Case>): seq<Case> {
    if cases == [] then [] else [cases[0].(node := Via(r, n, cases[0].node))] + ViaCases(r, n, cases[1..])
  }

  function ViaTerminator(r: Redirects, n: Node, t: Terminator): Terminator {
    match t
    case Branch(a) => Branch(Via(r, n, a))
    case Condition(id, a, b) => Condition(id, Via(r, n, a), Via(r, n, b))
    case Switch(id, cases) => Switch(id, ViaCases(r, n, cases))
    case _ => t
  }

  lemma {:induction false} ViaCaseTargets(r: Redirects, n: Node, cases: seq<Case>)
    ensures CaseTargets(ViaCases(r, n, cases)) == ViaAll(r, n, CaseTargets(cases))
  {
    if cases != [] {
      ViaCaseTargets(r, n, cases[1..]);
      assert CaseTargets(cases)[1..] == CaseTargets(cases[1..]);
      assert ViaCases(r, n, cases)[1..] == ViaCases(r, n, cases[1..]);
    }
  }

  lemma ViaTargets(r: Redirects, n: Node, t: Terminator)
    ensures Targets(ViaTerminator(r, n, t)) == ViaAll(r, n, Targets(t))
  {
    match t
    case Branch(a) => assert ViaAll(r, n, [a]) == [Via(r, n, a)];
    case Condition(_, a, b) => assert [a, b][1..] == [b] && ViaAll(r, n, [b]) == [Via(r, n, b)];
    case Switch(_, cases) => ViaCaseTargets(r, n, cases);
    case _ =>
  }

  /** What one more redirected edge does to the lists. */
  ghost predicate OneMore(r: Redirects, base: nat, n: Node, h: Node, m: Node) {
    h < base <= m && (n, h) !in r && forall a: Node, b: Node :: (a, b) in r ==> r[(a, b)] >= base
  }

  lemma {:induction false} ViaNext(r: Redirects, base: nat, n: Node, h: Node, m: Node, xs: seq<Node>)
    requires OneMore(r, base, n, h, m) && Distinct(xs) && InRange(xs, base)
    ensures ReplaceFirst(ViaAll(r, n, xs), h, m) == ViaAll(r[(n, h) := m], n, xs)
    ensures h in xs ==> h in ViaAll(r, n, xs)
  {
    if xs != [] {
      var ys := ViaAll(r, n, xs);
      assert ys[1..] == ViaAll(r, n, xs[1..]);
      DistinctSlice(xs, 1, |xs|);
      assert xs[1..|xs|] == xs[1..] && xs == [xs[0]] + xs[1..];
      assert InRange(xs[1..], base);
      ViaNext(r, base, n, h, m, xs[1..]);
      if xs[0] == h {
        assert h !in xs[1..] by { assert xs[..1] == [h]; }
        NotAmong(r, n, h, m, xs[1..]);
      }
    }
  }

  lemma {:induction false} NotAmong(r: Redirects, n: Node, h: Node, m: Node, xs: seq<Node>)
    requires h !in xs
    ensures ViaAll(r[(n, h) := m], n, xs) == ViaAll(r, n, xs)
  {
    if xs != [] {
      NotAmong(r, n, h, m, xs[1..]);
    }
  }

  lemma {:induction false} ViaNextCases(r: Redirects, base: nat, n: Node, h: Node, m: Node, cases: seq<Case>)
    requires OneMore(r, base, n, h, m) && InRange(CaseTargets(cases), base)
    ensures RetargetedCases(ViaCases(r, n, cases), h, m) == ViaCases(r[(n, h) := m], n, cases)
  {
    if cases != [] {
      assert CaseTargets(cases)[1..] == CaseTargets(cases[1..]) && CaseTargets(cases)[0] == cases[0].node;
      assert ViaCases(r, n, cases)[1..] == ViaCases(r, n, cases[1..]);
      ViaNextCases(r, base, n, h, m, cases[1..]);
    }
  }

  lemma ViaNextTerminator(r: Redirects, base: nat, n: Node, h: Node, m: Node, t: Terminator)
    requires OneMore(r, base, n, h, m) && InRange(Targets(t), base)
    ensures Retargeted(ViaTerminator(r, n, t), h, m) == ViaTerminator(r[(n, h) := m], n, t)
  {
    match t
    case Branch(a) => assert Targets(t)[0] == a;
    case Condition(_, a, b) => assert Targets(t)[0] == a && Targets(t)[1] == b;
    case Switch(_, cases) => ViaNextCases(r, base, n, h, m, cases);
    case _ =>
  }

  /** The old blocks, apart from where they branch, are as they were. */
  ghost predicate RedirectedFrom(p: Links, v: Links, r: Redirects) {
    && Shaped(p) && Shaped(v) && |p.blocks| <= |v.blocks|
    && forall n: Node :: n < |p.blocks| ==> RedirectedAt(p, v, r, n)
  }

  ghost predicate RedirectedAt(p: Links, v: Links, r: Redirects, n: Node)
    requires Shaped(p) && Shaped(v) && n < |p.blocks| <= |v.blocks|
  {
    && v.blocks[n] == p.blocks[n].(terminator := ViaTerminator(r, n, p.blocks[n].terminator))
    && v.succ[n] == ViaAll(r, n, p.succ[n]) && v.succBack[n].None?
  }

  /** The merge blocks follow, one for each header. */
  ghost predicate MergeBlocks(p: Links, v: Links, hs: seq<Node>) {
    && Shaped(p) && Shaped(v) && |p.blocks| + |hs| <= |v.blocks|
    && forall j: nat :: j < |hs| ==> MergeBlockAt(v, |p.blocks| + j, hs[j])
  }

  ghost predicate MergeBlockAt(v: Links, n: Node, h: Node)
    requires Shaped(v) && n < |v.blocks|
  {
    v.blocks[n] == IRBlock([], [], Branch(h)) && v.succ[n] == [h]
  }

  /** The function to rewrite: consistent lists, no recorded back edges, and nothing branches to the entry, as
      LLVM promises of a function's entry block. */
  ghost predicate Mergeable(p: Links, live: set<Node>, root: Node) {
    && Wired(p, live) && Closed(Graph(p.succ)) && root < |p.blocks| && Traversal.AllDistinct(p.succ)
    && (forall b: Node :: b < |p.blocks| ==> p.succBack[b].None?)
    && (forall b: Node :: b in live <==> b in Order(Graph(p.succ), root))
    && (forall b: Node :: b < |p.blocks| && b in live ==> root !in p.succ[b])
  }

  lemma MergeableAt(p: Links, live: set<Node>, root: Node, n: Node)
    requires Mergeable(p, live, root) && n in live
    ensures n < |p.blocks| && Distinct(p.succ[n]) && InRange(p.succ[n], |p.blocks|)
            && InRange(Targets(p.blocks[n].terminator), |p.blocks|)
    ensures forall t: Node :: t in Targets(p.blocks[n].terminator) ==> t in p.succ[n]
    ensures forall t: Node :: t in p.succ[n] ==> t in live
  {
    assert WiredAt(p, n);
    Traversal.OrderFacts(Graph(p.succ), root);
    var ts := Targets(p.blocks[n].terminator);
    forall i | 0 <= i < |ts| ensures ts[i] < |p.blocks| {
      assert ts[i] in ts && ts[i] in p.succ[n];
    }
    forall t: Node | t in p.succ[n] ensures t in live {
      assert Edge(Graph(p.succ), n, t);
    }
  }

  /** One more branch retargeted. */
  lemma RedirectedNext(p: Links, live: set<Node>, root: Node, v: Links, r: Redirects, n: Node, h: Node, m: Node)
    requires Mergeable(p, live, root) && RedirectedFrom(p, v, r) && n in live && h in p.succ[n]
             && OneMore(r, |p.blocks|, n, h, m) && m < |v.blocks|
    ensures h in v.succ[n] && RedirectedFrom(p, Retarget(v, n, h, m), r[(n, h) := m])
  {
    hide Mergeable, Retargeted, ReplaceFirst, Erase, AdoptPred, OneMore, ViaTerminator, ViaAll;
    MergeableAt(p, live, root, n);
    assert RedirectedAt(p, v, r, n);
    ViaNext(r, |p.blocks|, n, h, m, p.succ[n]);
    ViaNextTerminator(r, |p.blocks|, n, h, m, p.blocks[n].terminator);
    var w, r' := Retarget(v, n, h, m), r[(n, h) := m];
    forall b: Node | b < |p.blocks| ensures RedirectedAt(p, w, r', b) {
      assert RedirectedAt(p, v, r, b);
      if b != n {
        OtherBlock(r, n, h, m, b, p.succ[b], p.blocks[b].terminator);
      }
    }
  }

  lemma {:induction false} OtherAll(r: Redirects, n: Node, h: Node, m: Node, b: Node, xs: seq<Node>)
    requires b != n
    ensures ViaAll(r[(n, h) := m], b, xs) == ViaAll(r, b, xs)
  {
    if xs != [] {
      OtherAll(r, n, h, m, b, xs[1..]);
    }
  }

  lemma {:induction false} OtherCases(r: Redirects, n: Node, h: Node, m: Node, b: Node, cases: seq<Case>)
    requires b != n
    ensures ViaCases(r[(n, h) := m], b, cases) == ViaCases(r, b, cases)
  {
    if cases != [] {
      OtherCases(r, n, h, m, b, cases[1..]);
    }
  }

  lemma OtherBlock(r: Redirects, n: Node, h: Node, m: Node, b: Node, xs: seq<Node>, t: Terminator)
    requires b != n
    ensures ViaAll(r[(n, h) := m], b, xs) == ViaAll(r, b, xs)
    ensures ViaTerminator(r[(n, h) := m], b, t) == ViaTerminator(r, b, t)
  {
    OtherAll(r, n, h, m, b, xs);
    if t.Switch? {
      OtherCases(r, n, h, m, b, t.cases);
    }
  }

  // ---------------------------------------------------------------- one merge block

  /** The live blocks and the merge blocks. */
  ghost function Alive(p: Links, v: Links, live: set<Node>): set<Node> {
    live + set n | n in Between(|p.blocks|, |v.blocks|)
  }

  /** Some of the back edges to `x`, those of `done`, already lead to its merge block `m`. */
  ghost predicate Merging(p: Links, live: set<Node>, root: Node, v: Links, r: Redirects, hs: seq<Node>, x: Node,
                          m: Node, done: seq<Node>, parent: Node) {
    && Mergeable(p, live, root) && RedirectedFrom(p, v, r) && MergeBlocks(p, v, hs) && Wired(v, Alive(p, v, live))
    && m == |p.blocks| + |hs| == |v.blocks| - 1 && v.succ[m] == [] && v.blocks[m].phi == []
    && v.blocks[m].operations == []
    && RedirectsUpTo(r, |p.blocks|, x, m, done)
    && x in live && x !in hs && parent in live && parent !in done && parent < |p.blocks| && x in p.succ[parent]
  }

  ghost predicate RedirectsUpTo(r: Redirects, base: nat, x: Node, m: Node, done: seq<Node>) {
    && (forall a: Node, b: Node :: (a, b) in r ==> base <= r[(a, b)] <= m && (r[(a, b)] == m <==> b == x))
    && (forall a: Node :: (a, x) in r <==> a in done)
  }

  lemma {:induction false} ViaMembers(r: Redirects, base: nat, n: Node, xs: seq<Node>, x: Node, m: Node,
                                      done: seq<Node>)
    requires RedirectsUpTo(r, base, x, m, done) && n !in done && InRange(xs, base) && base <= m && x < base
    ensures m !in ViaAll(r, n, xs)
    ensures x in xs ==> x in ViaAll(r, n, xs)
  {
    if xs != [] {
      assert ViaAll(r, n, xs)[1..] == ViaAll(r, n, xs[1..]);
      assert InRange(xs[1..], base);
      ViaMembers(r, base, n, xs[1..], x, m, done);
      assert xs[0] < base;
    }
  }

  /** What retargeting one more source needs, and what it gives. */
  lemma MergeNext(p: Links, live: set<Node>, root: Node, v: Links, r: Redirects, hs: seq<Node>, x: Node, m: Node,
                  done: seq<Node>, parent: Node, n: Node)
    requires Merging(p, live, root, v, r, hs, x, m, done, parent)
    requires n in live && n < |p.blocks| && n !in done && x in p.succ[n] && n != parent
    ensures x != m && x < |v.blocks| && m < |v.blocks| && n < |v.blocks| && x in v.succ[n] && n in v.pred[x]
            && m !in v.succ[n] && n !in v.pred[m]
    ensures Merging(p, live, root, Retarget(v, n, x, m), r[(n, x) := m], hs, x, m, done + [n], parent)
  {
    hide Mergeable, Wired, RedirectedAt, Retargeted, ReplaceFirst, Erase, AdoptPred, MergeBlockAt, ViaAll, Distinct;
    MergeableAt(p, live, root, n);
    MergeableAt(p, live, root, parent);
    MergeableAt(p, live, root, x);
    var s := Alive(p, v, live);
    ViaMembers(r, |p.blocks|, n, p.succ[n], x, m, done);
    ViaMembers(r, |p.blocks|, parent, p.succ[parent], x, m, done);
    ColumnAt(p, v, r, n);
    ColumnAt(p, v, r, parent);
    SuccKnows(v, s, n, x);
    SuccKnows(v, s, parent, x);
    NotKnown(v, s, n, m);
    StillEntered(v, x, n, parent, s);
    RetargetWired(v, s, n, x, m);
    RedirectedNext(p, live, root, v, r, n, x, m);
    var w := Retarget(v, n, x, m);
    forall j: nat | j < |hs| ensures MergeBlockAt(w, |p.blocks| + j, hs[j]) {
      assert MergeBlockAt(v, |p.blocks| + j, hs[j]);
      SameMergeBlock(v, n, x, m, |p.blocks| + j, hs[j]);
    }
  }

  lemma SameMergeBlock(v: Links, n: Node, x: Node, m: Node, b: Node, h: Node)
    requires Shaped(v) && n < |v.blocks| && x < |v.blocks| && m < |v.blocks| && b < |v.blocks| && b != n
             && MergeBlockAt(v, b, h)
    ensures MergeBlockAt(Retarget(v, n, x, m), b, h)
  {}

  lemma ColumnAt(p: Links, v: Links, r: Redirects, n: Node)
    requires RedirectedFrom(p, v, r) && n < |p.blocks|
    ensures v.succ[n] == ViaAll(r, n, p.succ[n])
  {
    assert RedirectedAt(p, v, r, n);
  }

  lemma StillEntered(v: Links, x: Node, n: Node, parent: Node, s: set<Node>)
    requires Wired(v, s) && x < |v.blocks| && parent in v.pred[x] && parent != n
    ensures Erase(v.pred[x], n) != []
  {
    assert PredsSound(v, x);
    EraseMembers(v.pred[x], n);
  }

  /** A new block is there, and no edge leads to it yet. */
  lemma MergeStart(p: Links, live: set<Node>, root: Node, v: Links, r: Redirects, hs: seq<Node>, x: Node, parent: Node)
    requires Mergeable(p, live, root) && RedirectedFrom(p, v, r) && MergeBlocks(p, v, hs)
             && Wired(v, Alive(p, v, live)) && |v.blocks| == |p.blocks| + |hs|
    requires forall a: Node, b: Node :: (a, b) in r ==> |p.blocks| <= r[(a, b)] < |v.blocks| && b in hs
    requires x in live && x !in hs && parent in live && parent < |p.blocks| && x in p.succ[parent]
    ensures Merging(p, live, root, Created(v, None), r, hs, x, |v.blocks|, [], parent)
  {
    hide Mergeable, Wired;
    var w, s := Created(v, None), Alive(p, v, live);
    CreatedWired(v, s, None);
    AliveNext(p, v, w, live);
    forall n: Node | n < |p.blocks| ensures RedirectedAt(p, w, r, n) {
      assert RedirectedAt(p, v, r, n);
    }
    forall j: nat | j < |hs| ensures MergeBlockAt(w, |p.blocks| + j, hs[j]) {
      assert MergeBlockAt(v, |p.blocks| + j, hs[j]);
    }
  }

  lemma AliveNext(p: Links, v: Links, w: Links, live: set<Node>)
    requires |p.blocks| <= |v.blocks| && |w.blocks| == |v.blocks| + 1
    ensures Alive(p, w, live) == Alive(p, v, live) + {|v.blocks|}
  {
    forall n: Node ensures n in Alive(p, w, live) <==> n in Alive(p, v, live) + {|v.blocks|} {
      BetweenRange(|p.blocks|, |v.blocks|, n);
      BetweenRange(|p.blocks|, |w.blocks|, n);
    }
  }

  /** The merge block itself branches to the header. */
  ghost function Merged(v: Links, m: Node, x: Node): Links
    requires Shaped(v) && m < |v.blocks| && x < |v.blocks|
  {
    var w := WithBranch(v, m, x);
    w.(blocks := w.blocks[m := w.blocks[m].(terminator := Branch(x))])
  }

  lemma MergeEnd(p: Links, live: set<Node>, root: Node, v: Links, r: Redirects, hs: seq<Node>, x: Node, m: Node,
                 done: seq<Node>, parent: Node)
    requires Merging(p, live, root, v, r, hs, x, m, done, parent)
    ensures m < |v.blocks| && x < |v.blocks|
    ensures var w := Merged(v, m, x);
            && RedirectedFrom(p, w, r) && MergeBlocks(p, w, hs + [x]) && Wired(w, Alive(p, w, live))
            && |w.blocks| == |p.blocks| + |hs| + 1
  {
    hide Mergeable, Wired, WiredAt, PredsSound;
    MergeableAt(p, live, root, x);
    var s := Alive(p, v, live);
    BetweenRange(|p.blocks|, |v.blocks|, m);
    WithBranchWired(v, s, m, x);
    var u, w := WithBranch(v, m, x), Merged(v, m, x);
    TerminatorWired(u, s, m, v.blocks[m].(terminator := Branch(x)));
    forall n: Node | n < |p.blocks| ensures RedirectedAt(p, w, r, n) {
      assert RedirectedAt(p, v, r, n);
    }
    forall j: nat | j < |hs + [x]| ensures MergeBlockAt(w, |p.blocks| + j, (hs + [x])[j]) {
      if j < |hs| {
        assert MergeBlockAt(v, |p.blocks| + j, hs[j]);
      }
    }
  }

  /** Sends all of `sources`, which branch back to `x`, through a new block. */
  method MergeSources(f: Blocks, x: Node, sources: seq<Node>, ghost p: Links, ghost live: set<Node>, ghost root: Node,
                      ghost r0: Redirects, ghost hs: seq<Node>, ghost parent: Node)
    returns (ghost r: Redirects)
    requires f.Valid() && Mergeable(p, live, root) && RedirectedFrom(p, f.View(), r0) && MergeBlocks(p, f.View(), hs)
    requires Wired(f.View(), Alive(p, f.View(), live)) && |f.blocks| == |p.blocks| + |hs|
    requires forall a: Node, b: Node :: (a, b) in r0 ==> |p.blocks| <= r0[(a, b)] < |f.blocks| && b in hs
    requires x in live && x !in hs && parent in live && parent < |p.blocks| && x in p.succ[parent] && parent !in sources
    requires Distinct(sources) && forall n: Node :: n in sources ==> n in live && n < |p.blocks| && x in p.succ[n]
    modifies f
    ensures f.Valid() && f.nextId == old(f.nextId) && |f.blocks| == old(|f.blocks|) + 1
    ensures RedirectedFrom(p, f.View(), r) && MergeBlocks(p, f.View(), hs + [x])
            && Wired(f.View(), Alive(p, f.View(), live))
    ensures forall a: Node, b: Node :: (a, b) in r <==> (a, b) in r0 || (b == x && a in sources)
    ensures forall a: Node, b: Node :: (a, b) in r ==> r[(a, b)] == if b == x then old(|f.blocks|) else r0[(a, b)]
  {
    hide Mergeable, RedirectedFrom, MergeBlocks, Wired, Merging, Retargeted, ReplaceFirst, Erase, AdoptPred, Distinct;
    MergeStart(p, live, root, f.View(), r0, hs, x, parent);
    r := r0;
    var m := f.CreateNode();
    assert f.View() == Created(old(f.View()), None);
    var i := 0;
    while i < |sources|
      invariant i <= |sources| && f.Valid() && f.nextId == old(f.nextId) && |f.blocks| == m + 1
      invariant Merging(p, live, root, f.View(), r, hs, x, m, sources[..i], parent)
      invariant forall a: Node, b: Node :: (a, b) in r <==> (a, b) in r0 || (b == x && a in sources[..i])
      invariant forall a: Node, b: Node :: (a, b) in r ==> r[(a, b)] == if b == x then m else r0[(a, b)]
    {
      var n := sources[i];
      DistinctNext(sources, i);
      assert n in sources;
      MergeNext(p, live, root, f.View(), r, hs, x, m, sources[..i], parent, n);
      f.RetargetBranch(n, x, m);
      r := r[(n, x) := m];
      i := i + 1;
    }
    assert sources[..i] == sources;
    MergeEnd(p, live, root, f.View(), r, hs, x, m, sources, parent);
    ghost var v := f.View();
    AboutMerging(p, live, root, v, r, hs, x, m, sources, parent);
    f.succ := f.succ[m := f.succ[m] + [x]];
    f.blocks := f.blocks[m := f.blocks[m].(terminator := Branch(x))];
    f.AddBranch(m, x);
    assert f.View() == Merged(v, m, x);
  }

  lemma AboutMerging(p: Links, live: set<Node>, root: Node, v: Links, r: Redirects, hs: seq<Node>, x: Node, m: Node,
                     done: seq<Node>, parent: Node)
    requires Merging(p, live, root, v, r, hs, x, m, done, parent)
    ensures Shaped(v) && m < |v.blocks| && v.succ[m] == []
  {}

  // ---------------------------------------------------------------- the analysis visit

  /** The visit's marks on the blocks. */
  class Walk {
    var visited: seq<bool>
    var traversing: seq<bool>
    var fakePred: seq<seq<Node>>
    var reachable: set<Node>

    /** What `reset_traversal` leaves. */
    constructor (n: nat)
      ensures |visited| == |traversing| == |fakePred| == n && reachable == {}
      ensures forall i :: 0 <= i < n ==> !visited[i] && !traversing[i] && fakePred[i] == []
    {
      visited, traversing := seq(n, _ => false), seq(n, _ => false);
      fakePred, reachable := seq(n, _ => []), {};
    }

    function Snapshot(): Marks
      reads this
    {
      Marks(visited, traversing, fakePred, reachable)
    }

    method Grow()
      modifies `visited, `traversing, `fakePred
      ensures visited == old(visited) + [false] && traversing == old(traversing) + [false]
              && fakePred == old(fakePred) + [[]]
    {
      visited, traversing, fakePred := visited + [false], traversing + [false], fakePred + [[]];
    }
  }

  datatype Marks = Marks(visited: seq<bool>, traversing: seq<bool>, fakePred: seq<seq<Node>>, reachable: set<Node>)

  ghost predicate Flagged(k: Marks, t: Trav, base: nat, n: nat) {
    && |k.visited| == |k.traversing| == |k.fakePred| == n && base <= n && k.reachable == t.visited
    && (forall x: Node :: x in t.order ==> x in t.visited) && (forall x: Node :: x in t.visited ==> x < base)
    && (forall x: Node :: x < base ==>
          (k.visited[x] <==> x in t.visited) && (k.traversing[x] <==> x in t.visited && x !in t.order))
    && (forall h: Node :: h < base ==> SourcesOk(k.fakePred[h], t, h))
  }

  ghost predicate SourcesOk(sources: seq<Node>, t: Trav, h: Node) {
    && Distinct(sources) && (forall n: Node :: n in sources ==> n in t.visited) && (h !in t.visited ==> sources == [])
  }

  /** Every edge of a finished block leads to one already entered. */
  ghost predicate Explored(g: Graph, t: Trav) {
    forall x: Node, y: Node :: x in t.order && Edge(g, x, y) ==> y in t.visited
  }

  /** Everything that the visit maintains between two of its steps. */
  ghost predicate State(p: Links, live: set<Node>, root: Node, v: Links, k: Marks, t: Trav, r: Redirects)
    requires Mergeable(p, live, root)
  {
    var g := GraphOf(p);
    var final := Order(g, root);
    var hs := Headers(g, final, t.order);
    && RedirectedFrom(p, v, r) && MergeBlocks(p, v, hs) && |v.blocks| == |p.blocks| + |hs|
    && Wired(v, Alive(p, v, live))
    && MergesAll(r, g, final, t.order) && Flagged(k, t, |p.blocks|, |v.blocks|) && Explored(g, t)
  }

  /** The back edges out of the blocks of `new'`, and those from `x` to blocks of `done`, have been recorded
      at their targets. */
  ghost predicate Pushed(was: seq<seq<Node>>, now: seq<seq<Node>>, base: nat, g: Graph, final: seq<Node>,
                         new': seq<Node>, x: Node, done: seq<Node>) {
    && base <= |was| && base <= |now|
    && forall h: Node, n: Node :: h < base ==>
         (n in now[h] <==>
            || n in was[h]
            || (n in new' && BackEdge(g, final, n, h))
            || (n == x && h in done && BackEdge(g, final, x, h)))
  }

  lemma PushedStart(was: seq<seq<Node>>, base: nat, g: Graph, final: seq<Node>, x: Node)
    requires base <= |was|
    ensures Pushed(was, was, base, g, final, [], x, [])
  {}

  /** A whole visit of a successor that is no back edge. */
  lemma PushedVisit(was: seq<seq<Node>>, mid: seq<seq<Node>>, now: seq<seq<Node>>, base: nat, g: Graph,
                    final: seq<Node>, a: seq<Node>, b: seq<Node>, x: Node, done: seq<Node>, s: Node)
    requires Pushed(was, mid, base, g, final, a, x, done) && Pushed(mid, now, base, g, final, b, s, [])
             && !BackEdge(g, final, x, s)
    ensures Pushed(was, now, base, g, final, a + b, x, done + [s])
  {
    hide BackEdge;
  }

  lemma PushedSkip(was: seq<seq<Node>>, now: seq<seq<Node>>, base: nat, g: Graph, final: seq<Node>, a: seq<Node>,
                   x: Node, done: seq<Node>, s: Node)
    requires Pushed(was, now, base, g, final, a, x, done) && !BackEdge(g, final, x, s)
    ensures Pushed(was, now, base, g, final, a, x, done + [s])
  {
    hide BackEdge;
  }

  lemma PushedBack(was: seq<seq<Node>>, now: seq<seq<Node>>, base: nat, g: Graph, final: seq<Node>, a: seq<Node>,
                   x: Node, done: seq<Node>, s: Node)
    requires Pushed(was, now, base, g, final, a, x, done) && BackEdge(g, final, x, s) && s < base
    ensures Pushed(was, now[s := now[s] + [x]], base, g, final, a, x, done + [s])
  {
    hide BackEdge;
  }

  lemma PushedLeave(was: seq<seq<Node>>, now: seq<seq<Node>>, base: nat, g: Graph, final: seq<Node>, a: seq<Node>,
                    x: Node, xs: seq<Node>)
    requires Pushed(was, now, base, g, final, a, x, xs) && forall y: Node :: Edge(g, x, y) ==> y in xs
    ensures Pushed(was, now, base, g, final, a + [x], x, [])
  {}

  /** What the state says about one block. */
  lemma StateAt(p: Links, live: set<Node>, root: Node, v: Links, k: Marks, t: Trav, r: Redirects, x: Node)
    requires Mergeable(p, live, root) && State(p, live, root, v, k, t, r)
    ensures Shaped(p) && Shaped(v) && |p.blocks| <= |v.blocks|
            && |k.visited| == |k.traversing| == |k.fakePred| == |v.blocks|
    ensures x < |p.blocks| ==>
              (k.visited[x] <==> x in t.visited) && (k.traversing[x] <==> x in t.visited && x !in t.order)
    ensures (x in t.order ==> x in t.visited) && (x in t.visited ==> x < |p.blocks|)
    ensures x < |p.blocks| ==> SourcesOk(k.fakePred[x], t, x)
  {}

  ghost function Entered(k: Marks, x: Node): Marks
    requires x < |k.visited| == |k.traversing|
  {
    k.(visited := k.visited[x := true], traversing := k.traversing[x := true], reachable := k.reachable + {x})
  }

  lemma EnterState(p: Links, live: set<Node>, root: Node, v: Links, k: Marks, t: Trav, r: Redirects, x: Node)
    requires Mergeable(p, live, root) && State(p, live, root, v, k, t, r) && x < |p.blocks| && x !in t.visited
    ensures |p.blocks| <= |k.visited| == |k.traversing| == |k.fakePred|
    ensures k.fakePred[x] == []
    ensures State(p, live, root, v, Entered(k, x), t.(visited := t.visited + {x}), r)
  {
    hide RedirectedFrom, MergeBlocks, Wired, MergesAll, Distinct;
  }

  lemma PushState(p: Links, live: set<Node>, root: Node, v: Links, k: Marks, t: Trav, r: Redirects, x: Node, s: Node)
    requires Mergeable(p, live, root) && State(p, live, root, v, k, t, r) && s < |p.blocks| <= |k.fakePred|
             && x !in k.fakePred[s] && x in t.visited && s in t.visited
    ensures State(p, live, root, v, k.(fakePred := k.fakePred[s := k.fakePred[s] + [x]]), t, r)
  {
    hide RedirectedFrom, MergeBlocks, Wired, MergesAll, Distinct;
    assert SourcesOk(k.fakePred[s], t, s);
    DistinctSnoc(k.fakePred[s], x);
  }

  /** An unfinished block still has its own successors. */
  lemma Untouched(p: Links, live: set<Node>, root: Node, v: Links, k: Marks, t: Trav, r: Redirects, x: Node)
    requires Mergeable(p, live, root) && State(p, live, root, v, k, t, r) && x < |p.blocks| && x !in t.order
             && t.order <= Order(GraphOf(p), root)
    ensures x < |v.succ| && v.succ[x] == p.succ[x] && forall h: Node :: (x, h) !in r
  {
    var g, final := GraphOf(p), Order(GraphOf(p), root);
    Traversal.OrderFacts(g, root);
    forall h: Node | (x, h) in r ensures false {
      FinishedFirst(final, t.order, h, x);
    }
    assert RedirectedAt(p, v, r, x);
    NothingRedirected(r, x, p.succ[x]);
  }

  lemma FinishedFirst(final: seq<Node>, done: seq<Node>, h: Node, x: Node)
    requires done <= final && Distinct(final) && h in done && x in final && x !in done
    ensures Before(final, h, x)
  {
    IndexPrefix(done, final, h);
    IndexPrefix(done, final, x);
    assert final[Index(final, x)] == x;
  }

  lemma {:induction false} NothingRedirected(r: Redirects, x: Node, xs: seq<Node>)
    requires forall h: Node :: (x, h) !in r
    ensures ViaAll(r, x, xs) == xs
  {
    if xs != [] {
      NothingRedirected(r, x, xs[1..]);
    }
  }

  /** The back edges to `x` come from `x` itself and from what the visit of `x` finished. */
  lemma SourcesFound(g: Graph, root: Node, t: Trav, x: Node, n: Node)
    requires Closed(g) && root < |g.succ| && x < |g.succ| && x !in t.visited && Explored(g, t)
    requires VisitNode(g, t, x).order <= Order(g, root) && BackEdge(g, Order(g, root), n, x)
    ensures n == x || n in New(t.(visited := t.visited + {x}), VisitAll(g, t.(visited := t.visited + {x}), g.succ[x]))
  {
    hide VisitNode, VisitAll, New;
    var final := Order(g, root);
    Traversal.OrderFacts(g, root);
    var i := FinishedAt(g, t, x, final);
    BeforeAt(final, i);
    if n != x {
      assert Index(final, n) < i;
      assert n in final[..i] by { assert final[..i][Index(final, n)] == n; }
    }
  }

  lemma FinishedAt(g: Graph, t: Trav, x: Node, final: seq<Node>) returns (i: nat)
    requires Closed(g) && x < |g.succ| && x !in t.visited && VisitNode(g, t, x).order <= final
    ensures i < |final| && final[i] == x
    ensures final[..i] == t.order + New(t.(visited := t.visited + {x}),
                                        VisitAll(g, t.(visited := t.visited + {x}), g.succ[x]))
  {
    NewOfNode(g, t, x);
    i := |VisitAll(g, t.(visited := t.visited + {x}), g.succ[x]).order|;
  }

  lemma GraphFacts(p: Links, live: set<Node>, root: Node)
    requires Mergeable(p, live, root)
    ensures |GraphOf(p).succ| == |p.blocks| && Closed(GraphOf(p)) && root < |p.blocks|
  {}

  /** The flags once `x` is finished; `n` is the number of blocks by then. */
  lemma FinishFlags(k: Marks, t: Trav, base: nat, n: nat, x: Node)
    requires Flagged(k, t, base, n) && x in t.visited && x < base
    ensures x < |k.traversing|
    ensures Flagged(k.(traversing := k.traversing[x := false]), t.(order := t.order + [x]), base, n)
  {
    hide Distinct;
    forall h: Node | h < base ensures SourcesOk(k.fakePred[h], t.(order := t.order + [x]), h) {
      assert SourcesOk(k.fakePred[h], t, h);
    }
  }

  lemma GrowFlags(k: Marks, t: Trav, base: nat, n: nat)
    requires Flagged(k, t, base, n)
    ensures Flagged(Marks(k.visited + [false], k.traversing + [false], k.fakePred + [[]], k.reachable), t, base, n + 1)
  {
    hide SourcesOk;
  }

  lemma HeadersNext(g: Graph, final: seq<Node>, done: seq<Node>, x: Node)
    ensures TwoSources(g, final, x) ==> Headers(g, final, done + [x]) == Headers(g, final, done) + [x]
    ensures !TwoSources(g, final, x) ==> Headers(g, final, done + [x]) == Headers(g, final, done)
  {
    assert (done + [x])[..|done|] == done;
  }

  lemma ExploredNext(g: Graph, t: Trav, x: Node)
    requires Explored(g, t) && forall y: Node :: Edge(g, x, y) ==> y in t.visited
    ensures Explored(g, t.(order := t.order + [x]))
  {}

  /** Finishing a block that at most one back edge leads to. */
  lemma FinishPlain(p: Links, live: set<Node>, root: Node, v: Links, k: Marks, t: Trav, r: Redirects, x: Node)
    requires Mergeable(p, live, root) && State(p, live, root, v, k, t, r) && x in t.visited && x !in t.order
    requires !TwoSources(GraphOf(p), Order(GraphOf(p), root), x)
             && forall y: Node :: Edge(GraphOf(p), x, y) ==> y in t.visited
    ensures x < |k.traversing|
            && State(p, live, root, v, k.(traversing := k.traversing[x := false]), t.(order := t.order + [x]), r)
  {
    hide RedirectedFrom, MergeBlocks, Wired, Flagged, TwoSources, Explored, Mergeable;
    GraphFacts(p, live, root);
    var g := GraphOf(p);
    HeadersNext(g, Order(g, root), t.order, x);
    StateAt(p, live, root, v, k, t, r, x);
    FinishFlags(k, t, |p.blocks|, |v.blocks|, x);
    ExploredNext(g, t, x);
  }

  /** Which edges are redirected once those to `x` are. */
  lemma MergesNext(r0: Redirects, r: Redirects, g: Graph, final: seq<Node>, done: seq<Node>, x: Node,
                   sources: seq<Node>)
    requires MergesAll(r0, g, final, done) && x !in done && TwoSources(g, final, x)
             && forall n: Node :: n in sources <==> BackEdge(g, final, n, x)
    requires forall a: Node, b: Node :: (a, b) in r <==> (a, b) in r0 || (b == x && a in sources)
    requires forall a: Node, b: Node :: (a, b) in r ==>
               r[(a, b)] == if b == x then |g.succ| + |Headers(g, final, done)| else r0[(a, b)]
    ensures MergesAll(r, g, final, done + [x])
  {
    hide BackEdge, TwoSources;
    HeadersNext(g, final, done, x);
    var hs := Headers(g, final, done);
    forall a: Node, b: Node
      ensures ((a, b) in r <==> b in hs + [x] && BackEdge(g, final, a, b))
              && ((a, b) in r ==> r[(a, b)] == |g.succ| + Index(hs + [x], b))
    {
      IndexPrefix(hs, hs + [x], b);
    }
  }

  lemma FinishMerged(p: Links, live: set<Node>, root: Node, v: Links, k: Marks, t: Trav, r0: Redirects, x: Node,
                     w: Links, r: Redirects)
    requires Mergeable(p, live, root) && State(p, live, root, v, k, t, r0) && x in t.visited && x !in t.order
    requires TwoSources(GraphOf(p), Order(GraphOf(p), root), x)
             && forall y: Node :: Edge(GraphOf(p), x, y) ==> y in t.visited
    requires x < |k.fakePred| && forall n: Node :: n in k.fakePred[x] <==>
               BackEdge(GraphOf(p), Order(GraphOf(p), root), n, x)
    requires RedirectedFrom(p, w, r) && Wired(w, Alive(p, w, live)) && |w.blocks| == |v.blocks| + 1
    requires MergeBlocks(p, w, Headers(GraphOf(p), Order(GraphOf(p), root), t.order) + [x])
    requires forall a: Node, b: Node :: (a, b) in r <==> (a, b) in r0 || (b == x && a in k.fakePred[x])
    requires forall a: Node, b: Node :: (a, b) in r ==> r[(a, b)] == if b == x then |v.blocks| else r0[(a, b)]
    ensures x < |k.traversing|
    ensures State(p, live, root, w,
                  Marks(k.visited + [false], k.traversing[x := false] + [false], k.fakePred + [[]], k.reachable),
                  t.(order := t.order + [x]), r)
  {
    hide RedirectedFrom, MergeBlocks, Wired, Flagged, TwoSources, Explored, BackEdge, MergesAll, Mergeable;
    GraphFacts(p, live, root);
    var g := GraphOf(p);
    HeadersNext(g, Order(g, root), t.order, x);
    StateAt(p, live, root, v, k, t, r0, x);
    FinishFlags(k, t, |p.blocks|, |v.blocks|, x);
    GrowFlags(k.(traversing := k.traversing[x := false]), t.(order := t.order + [x]), |p.blocks|, |v.blocks|);
    ExploredNext(g, t, x);
    MergesNext(r0, r, g, Order(g, root), t.order, x, k.fakePred[x]);
  }


  /** Where the visit stands when it looks at the successor number `i` of `x`. */
  ghost predicate Midway(g: Graph, t: Trav, x: Node, m: Trav, i: nat)
    requires Closed(g) && x < |g.succ|
  {
    var t1 := t.(visited := t.visited + {x});
    i <= |g.succ[x]| && Grows(t1, m) && t1.visited <= m.visited
    && VisitAll(g, m, g.succ[x][i..]) == VisitAll(g, t1, g.succ[x])
  }

  lemma MidwayStart(g: Graph, t: Trav, x: Node)
    requires Closed(g) && x < |g.succ|
    ensures Midway(g, t, x, t.(visited := t.visited + {x}), 0)
            && New(t.(visited := t.visited + {x}), t.(visited := t.visited + {x})) == []
  {
    GrowsRefl(t.(visited := t.visited + {x}));
    assert g.succ[x][0..] == g.succ[x];
  }

  lemma MidwayEnd(g: Graph, t: Trav, x: Node, m: Trav)
    requires Closed(g) && x < |g.succ| && Midway(g, t, x, m, |g.succ[x]|)
    ensures m == VisitAll(g, t.(visited := t.visited + {x}), g.succ[x])
  {}

  /** A successor that has been entered. */
  lemma MidwaySkip(g: Graph, t: Trav, x: Node, m: Trav, i: nat, final: seq<Node>)
    requires Closed(g) && x < |g.succ| && x !in t.visited && x !in t.order && Midway(g, t, x, m, i) && i < |g.succ[x]|
             && g.succ[x][i] in m.visited
    requires VisitNode(g, t, x).order <= final && Distinct(final) && forall y: Node :: y in t.order ==> y in t.visited
    ensures Midway(g, t, x, m, i + 1)
    ensures BackEdge(g, final, x, g.succ[x][i]) <==> g.succ[x][i] !in m.order
  {
    var s := g.succ[x][i];
    assert g.succ[x][i..][1..] == g.succ[x][i + 1..];
    assert Edge(g, x, s);
    if s in m.order {
      VisitAllGrows(g, m, g.succ[x][i..]);
      Traversal.FinishedIsEarlier(g, t, x, s, final, m);
    } else {
      Traversal.StackOfGrows(t, x, m, s);
      Traversal.StackIsLater(g, t, x, s, final);
    }
  }

  lemma VisitFirst(g: Graph, m: Trav, xs: seq<Node>)
    requires Closed(g) && InRange(xs, |g.succ|) && xs != [] && xs[0] !in m.visited
    ensures VisitAll(g, m, xs) == VisitAll(g, VisitNode(g, m, xs[0]), xs[1..])
  {}

  lemma NewSum(t: Trav, m: Trav, r: Trav)
    requires t.order <= m.order <= r.order
    ensures New(t, r) == New(t, m) + New(m, r)
  {}

  /** A successor that has not been entered. */
  lemma MidwayVisit(g: Graph, t: Trav, x: Node, m: Trav, i: nat, final: seq<Node>)
    requires Closed(g) && x < |g.succ| && x !in t.visited && x !in t.order && Midway(g, t, x, m, i) && i < |g.succ[x]|
             && g.succ[x][i] !in m.visited
    requires VisitNode(g, t, x).order <= final && Distinct(final)
    ensures g.succ[x][i] < |g.succ|
    ensures var m' := VisitNode(g, m, g.succ[x][i]);
            && m'.order <= final && Midway(g, t, x, m', i + 1)
            && New(t.(visited := t.visited + {x}), m') == New(t.(visited := t.visited + {x}), m) + New(m, m')
            && !BackEdge(g, final, x, g.succ[x][i])
  {
    hide VisitNode, VisitAll, New, BackEdge;
    var s := g.succ[x][i];
    assert InRange(g.succ[x], |g.succ|);
    assert g.succ[x][i..][1..] == g.succ[x][i + 1..];
    VisitFirst(g, m, g.succ[x][i..]);
    Traversal.VisitOfSucc(g, t, x, m, g.succ[x][i..], final);
    VisitNodeGrows(g, m, s);
    NewSum(t.(visited := t.visited + {x}), m, VisitNode(g, m, s));
    Traversal.FinishedIsEarlier(g, t, x, s, final, VisitNode(g, m, s));
    NotBack(g, final, x, s);
  }

  /** `x` is not yet recorded at the target of its successor number `i`. */
  lemma NotYetRecorded(was: seq<seq<Node>>, now: seq<seq<Node>>, base: nat, g: Graph, final: seq<Node>, t: Trav,
                       x: Node, m: Trav, i: nat)
    requires Closed(g) && x < |g.succ| && Midway(g, t, x, m, i) && i < |g.succ[x]| && Distinct(g.succ[x])
             && g.succ[x][i] < base
    requires Pushed(was, now, base, g, final, New(t.(visited := t.visited + {x}), m), x, g.succ[x][..i])
             && x !in was[g.succ[x][i]]
    ensures x !in now[g.succ[x][i]]
  {
    hide BackEdge;
    DistinctSlice(g.succ[x], 0, i);
    assert g.succ[x][0..i] == g.succ[x][..i]
           && g.succ[x][i] in g.succ[x][i..] by { assert g.succ[x][i..][0] == g.succ[x][i]; }
  }

  /** A block on the stack, from whose list the block being visited was found. */
  ghost predicate EnteredFrom(p: Links, live: set<Node>, t: Trav, x: Node, parent: Node) {
    parent in live && parent < |p.succ| && parent in t.visited && parent !in t.order && x in p.succ[parent]
  }

  /** The loop of `visit_for_back_edge_analysis` over the successors of the block that it has just entered. */
  method VisitSuccs(f: Blocks, c: Walk, x: Node, ghost p: Links, ghost live: set<Node>, ghost root: Node,
                    ghost t: Trav, ghost r0: Redirects)
    returns (ghost r: Redirects)
    requires f.Valid() && Mergeable(p, live, root) && x < |p.blocks| && x in live && x !in t.visited && x !in t.order
    requires State(p, live, root, f.View(), c.Snapshot(), t.(visited := t.visited + {x}), r0)
    requires forall y: Node :: y in t.order ==> y in t.visited
    requires |p.blocks| == |GraphOf(p).succ| && VisitNode(GraphOf(p), t, x).order <= Order(GraphOf(p), root)
    requires forall h: Node :: h < |p.blocks| <= |c.fakePred| ==> x !in c.fakePred[h]
    modifies f, c
    ensures f.Valid() && f.nextId == old(f.nextId)
    ensures State(p, live, root, f.View(), c.Snapshot(),
                  VisitAll(GraphOf(p), t.(visited := t.visited + {x}), GraphOf(p).succ[x]), r)
    ensures var t1 := t.(visited := t.visited + {x});
            Pushed(old(c.fakePred), c.fakePred, |p.blocks|, GraphOf(p), Order(GraphOf(p), root),
                   New(t1, VisitAll(GraphOf(p), t1, GraphOf(p).succ[x])), x, GraphOf(p).succ[x])
    decreases Nodes(GraphOf(p)) - (t.visited + {x}), 1
  {
    hide State, Midway, Pushed, Mergeable, BackEdge, Grows, VisitNode, VisitAll, New, Distinct;
    GraphFacts(p, live, root);
    ghost var g, final := GraphOf(p), Order(GraphOf(p), root);
    Traversal.OrderFacts(g, root);
    SuccFacts(p, live, root, x);
    ghost var t1 := t.(visited := t.visited + {x});
    ghost var was := c.fakePred;
    ghost var m := t1;
    r := r0;
    MidwayStart(g, t, x);
    StateAt(p, live, root, f.View(), c.Snapshot(), m, r, x);
    PushedStart(was, |p.blocks|, g, final, x);
    assert g.succ[x][..0] == [];
    var i := 0;
    MidwayAt(g, t, x, m, i, final);
    Untouched(p, live, root, f.View(), c.Snapshot(), m, r, x);
    while i < |f.succ[x]|
      invariant f.Valid() && f.nextId == old(f.nextId) && x < |f.succ| && f.succ[x] == g.succ[x] && i <= |g.succ[x]|
      invariant State(p, live, root, f.View(), c.Snapshot(), m, r) && Midway(g, t, x, m, i)
      invariant Pushed(was, c.fakePred, |p.blocks|, g, final, New(t1, m), x, g.succ[x][..i])
    {
      var s: Node := f.succ[x][i];
      StateAt(p, live, root, f.View(), c.Snapshot(), m, r, s);
      assert g.succ[x][..i + 1] == g.succ[x][..i] + [s];
      MidwayAt(g, t, x, m, i, final);
      if c.traversing[s] {
        MidwaySkip(g, t, x, m, i, final);
        NotYetRecorded(was, c.fakePred, |p.blocks|, g, final, t, x, m, i);
        PushedBack(was, c.fakePred, |p.blocks|, g, final, New(t1, m), x, g.succ[x][..i], s);
        PushState(p, live, root, f.View(), c.Snapshot(), m, r, x, s);
        c.fakePred := c.fakePred[s := c.fakePred[s] + [x]];
      } else if !c.visited[s] {
        ghost var mid := c.fakePred;
        MidwayVisit(g, t, x, m, i, final);
        assert s in p.succ[x];
        r := VisitForBackEdgeAnalysis(f, c, s, p, live, root, m, r, x);
        PushedVisit(was, mid, c.fakePred, |p.blocks|, g, final, New(t1, m), New(m, VisitNode(g, m, s)), x,
                    g.succ[x][..i], s);
        m := VisitNode(g, m, s);
      } else {
        MidwaySkip(g, t, x, m, i, final);
        PushedSkip(was, c.fakePred, |p.blocks|, g, final, New(t1, m), x, g.succ[x][..i], s);
      }
      i := i + 1;
      MidwayAt(g, t, x, m, i, final);
      Untouched(p, live, root, f.View(), c.Snapshot(), m, r, x);
    }
    assert g.succ[x][..i] == g.succ[x];
    MidwayEnd(g, t, x, m);
  }

  lemma SuccFacts(p: Links, live: set<Node>, root: Node, x: Node)
    requires Mergeable(p, live, root) && x < |p.blocks|
    ensures x < |p.succ| && Distinct(p.succ[x]) && forall i :: 0 <= i < |p.succ[x]| ==> p.succ[x][i] < |p.blocks|
  {
    assert InRange(GraphOf(p).succ[x], |p.blocks|);
  }

  /** The block under visit stays on the stack, and what is finished is a prefix of the whole order. */
  lemma MidwayAt(g: Graph, t: Trav, x: Node, m: Trav, i: nat, final: seq<Node>)
    requires Closed(g) && x < |g.succ| && x !in t.visited && x !in t.order && Midway(g, t, x, m, i)
             && VisitNode(g, t, x).order <= final
    ensures x in m.visited && x !in m.order && m.order <= final && m.visited >= t.visited + {x}
  {
    hide VisitNode, VisitAll;
    NewOfNode(g, t, x);
    VisitAllGrows(g, m, g.succ[x][i..]);
    assert m.order == t.order + m.order[|t.order|..];
  }

  lemma EntersLive(p: Links, live: set<Node>, root: Node, t: Trav, x: Node)
    requires Mergeable(p, live, root) && x < |p.blocks| && x !in t.visited
    requires |p.blocks| == |GraphOf(p).succ| && VisitNode(GraphOf(p), t, x).order <= Order(GraphOf(p), root)
    ensures x in live
  {
    hide Wired;
    VisitNodeLast(GraphOf(p), t, x);
  }

  /** What the state says about a block that has not been entered. */
  lemma BeforeEntry(p: Links, live: set<Node>, root: Node, v: Links, k: Marks, t: Trav, r: Redirects, x: Node)
    requires Mergeable(p, live, root) && State(p, live, root, v, k, t, r) && x < |p.blocks| && x !in t.visited
    ensures |p.blocks| <= |k.fakePred| && k.fakePred[x] == [] && forall h: Node :: h < |p.blocks| ==>
              x !in k.fakePred[h]
    ensures x !in t.order && Explored(GraphOf(p), t) && forall y: Node :: y in t.order ==> y in t.visited
  {
    forall h: Node | h < |p.blocks| ensures x !in k.fakePred[h] {
      assert SourcesOk(k.fakePred[h], t, h);
    }
    assert SourcesOk(k.fakePred[x], t, x);
  }

  /** Once all successors have been looked at, all back edges to the block are known. */
  lemma AfterSuccs(p: Links, live: set<Node>, root: Node, t: Trav, x: Node, was: seq<seq<Node>>, now: seq<seq<Node>>,
                   r1: Trav)
    requires Mergeable(p, live, root) && x < |p.blocks| && x !in t.visited && x !in t.order
             && Explored(GraphOf(p), t)
    requires |p.blocks| == |GraphOf(p).succ| && VisitNode(GraphOf(p), t, x).order <= Order(GraphOf(p), root)
    requires r1 == VisitAll(GraphOf(p), t.(visited := t.visited + {x}), GraphOf(p).succ[x])
    requires Pushed(was, now, |p.blocks|, GraphOf(p), Order(GraphOf(p), root),
                    New(t.(visited := t.visited + {x}), r1), x, GraphOf(p).succ[x])
    requires was[x] == []
    ensures forall n: Node :: n in now[x] <==> BackEdge(GraphOf(p), Order(GraphOf(p), root), n, x)
    ensures VisitNode(GraphOf(p), t, x) == r1.(order := r1.order + [x]) && x in r1.visited && x !in r1.order
    ensures forall y: Node :: Edge(GraphOf(p), x, y) ==> y in r1.visited
    ensures Pushed(was, now, |p.blocks|, GraphOf(p), Order(GraphOf(p), root),
                   New(t, VisitNode(GraphOf(p), t, x)), x, [])
  {
    hide BackEdge, Mergeable, Distinct;
    GraphFacts(p, live, root);
    var g, final := GraphOf(p), Order(GraphOf(p), root);
    var t1 := t.(visited := t.visited + {x});
    NewOfNode(g, t, x);
    VisitAllGrows(g, t1, g.succ[x]);
    assert r1.order == t.order + New(t1, r1);
    SuccessorIsEdge(g, final, x);
    forall n: Node ensures n in now[x] <==> BackEdge(g, final, n, x) {
      if BackEdge(g, final, n, x) {
        SourcesFound(g, root, t, x, n);
      }
    }
    PushedLeave(was, now, |p.blocks|, g, final, New(t1, r1), x, g.succ[x]);
  }

  lemma SuccessorIsEdge(g: Graph, final: seq<Node>, x: Node)
    requires x < |g.succ|
    ensures forall y: Node :: Edge(g, x, y) <==> y in g.succ[x]
    ensures BackEdge(g, final, x, x) ==> x in g.succ[x]
  {}

  lemma InLive(p: Links, live: set<Node>, root: Node, x: Node)
    requires Mergeable(p, live, root)
    ensures x in live <==> x in Order(GraphOf(p), root)
  {}

  /** What merging the back edges to `x` relies on. */
  lemma StateMerge(p: Links, live: set<Node>, root: Node, v: Links, k: Marks, t: Trav, r1: Trav, r: Redirects, x: Node,
                   parent: Node)
    requires Mergeable(p, live, root) && State(p, live, root, v, k, r1, r) && x < |p.blocks| <= |k.fakePred|
             && x in live && x !in r1.order
    requires x !in t.visited && |p.blocks| == |GraphOf(p).succ|
    requires VisitNode(GraphOf(p), t, x).order == r1.order + [x] && r1.order + [x] <= Order(GraphOf(p), root)
    requires forall n: Node :: n in k.fakePred[x] <==> BackEdge(GraphOf(p), Order(GraphOf(p), root), n, x)
    requires |k.fakePred[x]| >= 2 && (x == root || EnteredFrom(p, live, t, x, parent))
    ensures var hs := Headers(GraphOf(p), Order(GraphOf(p), root), r1.order);
            && RedirectedFrom(p, v, r) && MergeBlocks(p, v, hs) && |v.blocks| == |p.blocks| + |hs|
            && Wired(v, Alive(p, v, live))
            && (forall a: Node, b: Node :: (a, b) in r ==> |p.blocks| <= r[(a, b)] < |v.blocks| && b in hs)
            && x !in hs && parent in live && parent < |p.blocks| && x in p.succ[parent] && parent !in k.fakePred[x]
    ensures Distinct(k.fakePred[x]) && forall n: Node :: n in k.fakePred[x] ==>
              n in live && n < |p.blocks| && x in p.succ[n]
    ensures TwoSources(GraphOf(p), Order(GraphOf(p), root), x)
  {
    hide RedirectedFrom, MergeBlocks, Wired, Mergeable, Distinct, BackEdge, Explored, Before;
    GraphFacts(p, live, root);
    var g, final := GraphOf(p), Order(GraphOf(p), root);
    var sources := k.fakePred[x];
    Traversal.OrderFacts(g, root);
    assert SourcesOk(sources, r1, x);
    forall n: Node | n in sources ensures n in live && n < |p.blocks| && x in p.succ[n] {
      AboutBackEdge(p, live, root, n, x);
    }
    TwoOfList(sources);
    assert sources[0] in sources && sources[1] in sources && sources[0] != sources[1];
    RootHasNone(p, live, root, sources[0]);
    assert x != root;
    InLive(p, live, root, parent);
    NotFinished(g, t, x, r1, parent);
    FinishedFirst(final, r1.order + [x], x, parent);
    NotBack(g, final, parent, x);
    assert MergesAll(r, g, final, r1.order);
  }

  lemma TwoOfList(xs: seq<Node>)
    requires Distinct(xs) && |xs| >= 2
    ensures xs[0] != xs[1]
  {
    DistinctPair(xs, 0, 1);
  }

  lemma NotBack(g: Graph, final: seq<Node>, x: Node, y: Node)
    requires Before(final, y, x)
    ensures !BackEdge(g, final, x, y)
  {}

  lemma AboutBackEdge(p: Links, live: set<Node>, root: Node, n: Node, x: Node)
    requires Mergeable(p, live, root) && BackEdge(GraphOf(p), Order(GraphOf(p), root), n, x)
    ensures n in live && n < |p.blocks| && n < |p.succ| && x in p.succ[n]
  {}

  lemma RootHasNone(p: Links, live: set<Node>, root: Node, n: Node)
    requires Mergeable(p, live, root) && n in live && n < |p.blocks|
    ensures n < |p.succ| && root !in p.succ[n]
  {}

  lemma NotFinished(g: Graph, t: Trav, x: Node, r1: Trav, parent: Node)
    requires Closed(g) && x < |g.succ| && x !in t.visited && VisitNode(g, t, x).order == r1.order + [x]
    requires parent in t.visited && parent !in t.order
    ensures parent !in r1.order + [x]
  {
    VisitNodeGrows(g, t, x);
    var all := VisitNode(g, t, x).order;
    assert all == t.order + all[|t.order|..];
  }

  lemma FewSources(g: Graph, final: seq<Node>, sources: seq<Node>, x: Node)
    requires |sources| < 2 && forall n: Node :: n in sources <==> BackEdge(g, final, n, x)
    ensures !TwoSources(g, final, x)
  {
    hide BackEdge;
  }

  lemma PushedGrow(was: seq<seq<Node>>, now: seq<seq<Node>>, grown: seq<seq<Node>>, base: nat, g: Graph,
                   final: seq<Node>, new': seq<Node>, x: Node)
    requires Pushed(was, now, base, g, final, new', x, []) && now <= grown
    ensures Pushed(was, grown, base, g, final, new', x, [])
  {
    hide BackEdge;
  }

  /** `visit_for_back_edge_analysis`. */
  method VisitForBackEdgeAnalysis(f: Blocks, c: Walk, x: Node, ghost p: Links, ghost live: set<Node>, ghost root: Node,
                                  ghost t: Trav, ghost r0: Redirects, ghost parent: Node)
    returns (ghost r: Redirects)
    requires f.Valid() && Mergeable(p, live, root) && x < |p.blocks| && x !in t.visited
    requires State(p, live, root, f.View(), c.Snapshot(), t, r0)
    requires |p.blocks| == |GraphOf(p).succ| && VisitNode(GraphOf(p), t, x).order <= Order(GraphOf(p), root)
    requires x == root || EnteredFrom(p, live, t, x, parent)
    modifies f, c
    ensures f.Valid() && f.nextId == old(f.nextId)
    ensures State(p, live, root, f.View(), c.Snapshot(), VisitNode(GraphOf(p), t, x), r)
    ensures Pushed(old(c.fakePred), c.fakePred, |p.blocks|, GraphOf(p), Order(GraphOf(p), root),
                   New(t, VisitNode(GraphOf(p), t, x)), x, [])
    decreases Nodes(GraphOf(p)) - t.visited, 0
  {
    hide State, Pushed, Mergeable, BackEdge, Grows, VisitAll, New, Distinct, SourcesOk;
    GraphFacts(p, live, root);
    ghost var g, final := GraphOf(p), Order(GraphOf(p), root);
    StateAt(p, live, root, f.View(), c.Snapshot(), t, r0, x);
    EnterState(p, live, root, f.View(), c.Snapshot(), t, r0, x);
    BeforeEntry(p, live, root, f.View(), c.Snapshot(), t, r0, x);
    EntersLive(p, live, root, t, x);
    c.visited := c.visited[x := true];
    c.traversing := c.traversing[x := true];
    c.reachable := c.reachable + {x};
    ghost var t1 := t.(visited := t.visited + {x});
    ghost var r1 := VisitAll(g, t1, g.succ[x]);
    ghost var was := c.fakePred;
    r := VisitSuccs(f, c, x, p, live, root, t, r0);
    ghost var k := c.Snapshot();
    StateAt(p, live, root, f.View(), k, r1, r, x);
    AfterSuccs(p, live, root, t, x, was, k.fakePred, r1);
    c.traversing := c.traversing[x := false];
    if |c.fakePred[x]| >= 2 {
      ghost var v := f.View();
      StateMerge(p, live, root, v, k, t, r1, r, x, parent);
      c.Grow();
      ghost var hs := Headers(g, final, r1.order);
      ghost var rr := r;
      r := MergeSources(f, x, c.fakePred[x], p, live, root, rr, hs, parent);
      FinishMerged(p, live, root, v, k, r1, rr, x, f.View(), r);
    } else {
      FewSources(g, final, k.fakePred[x], x);
      FinishPlain(p, live, root, f.View(), k, r1, r, x);
    }
    assert c.fakePred[..|k.fakePred|] == k.fakePred;
    PushedGrow(was, k.fakePred, c.fakePred, |p.blocks|, g, final, New(t, VisitNode(g, t, x)), x);
  }

  // ---------------------------------------------------------------- the pass

  lemma {:induction false} ViaNothingCases(n: Node, cases: seq<Case>)
    ensures ViaCases(map[], n, cases) == cases
  {
    if cases != [] {
      ViaNothingCases(n, cases[1..]);
    }
  }

  lemma StartOfPass(p: Links, live: set<Node>, root: Node, k: Marks)
    requires Mergeable(p, live, root) && |k.visited| == |k.traversing| == |k.fakePred| == |p.blocks|
             && k.reachable == {}
    requires forall i :: 0 <= i < |p.blocks| ==> !k.visited[i] && !k.traversing[i] && k.fakePred[i] == []
    ensures State(p, live, root, p, k, Traversal.Start(), map[])
  {
    hide WiredAt, PredsSound;
    forall n: Node | n < |p.blocks| ensures RedirectedAt(p, p, map[], n) {
      NothingRedirected(map[], n, p.succ[n]);
      if p.blocks[n].terminator.Switch? {
        ViaNothingCases(n, p.blocks[n].terminator.cases);
      }
    }
    assert Alive(p, p, live) == live;
    forall h: Node | h < |p.blocks| ensures SourcesOk(k.fakePred[h], Traversal.Start(), h) {
      DistinctByPairs(k.fakePred[h]);
    }
  }

  /** A redirected edge leads to a merge block for its old target. */
  lemma RedirectedTo(p: Links, live: set<Node>, root: Node, v: Links, r: Redirects, a: Node, b: Node)
    requires Mergeable(p, live, root)
             && MergesAll(r, GraphOf(p), Order(GraphOf(p), root), Order(GraphOf(p), root)) && (a, b) in r
    requires MergeBlocks(p, v, Headers(GraphOf(p), Order(GraphOf(p), root), Order(GraphOf(p), root)))
    ensures b < |p.blocks| <= r[(a, b)] < |v.blocks| && MergeBlockAt(v, r[(a, b)], b)
    ensures var hs := Headers(GraphOf(p), Order(GraphOf(p), root), Order(GraphOf(p), root));
            r[(a, b)] - |p.blocks| < |hs| && hs[r[(a, b)] - |p.blocks|] == b
  {
    hide Mergeable, MergesAll, MergeBlocks, MergeBlockAt, Headers;
    GraphFacts(p, live, root);
    var g, final := GraphOf(p), Order(GraphOf(p), root);
    var hs := Headers(g, final, final);
    MergesAt(r, g, final, final, a, b);
    InLive(p, live, root, b);
    LiveBelow(p, live, root, b);
    MergeBlocksAt(p, v, hs, Index(hs, b));
  }

  lemma MergesAt(r: Redirects, g: Graph, final: seq<Node>, done: seq<Node>, a: Node, b: Node)
    requires MergesAll(r, g, final, done) && (a, b) in r
    ensures b in done && b in Headers(g, final, done) && r[(a, b)] == |g.succ| + Index(Headers(g, final, done), b)
  {
    hide BackEdge;
  }

  lemma MergeBlocksAt(p: Links, v: Links, hs: seq<Node>, j: nat)
    requires MergeBlocks(p, v, hs) && j < |hs|
    ensures Shaped(v) && |p.blocks| + j < |v.blocks| && MergeBlockAt(v, |p.blocks| + j, hs[j])
  {}

  lemma HeaderIsOld(p: Links, live: set<Node>, root: Node, h: Node)
    requires Mergeable(p, live, root)
             && h in Headers(GraphOf(p), Order(GraphOf(p), root), Order(GraphOf(p), root))
    ensures h < |p.blocks|
  {
    LiveBelow(p, live, root, h);
  }

  /** The redirected edges and the merge blocks make up the new graph. */
  lemma GraphAfter(p: Links, live: set<Node>, root: Node, v: Links, r: Redirects)
    requires Mergeable(p, live, root) && RedirectedFrom(p, v, r)
             && MergesAll(r, GraphOf(p), Order(GraphOf(p), root), Order(GraphOf(p), root))
    requires MergeBlocks(p, v, Headers(GraphOf(p), Order(GraphOf(p), root), Order(GraphOf(p), root)))
    requires |v.blocks| == |p.blocks| + |Headers(GraphOf(p), Order(GraphOf(p), root),
                                                 Order(GraphOf(p), root))|
    ensures MergedGraph(GraphOf(p), GraphOf(v), r,
                        Headers(GraphOf(p), Order(GraphOf(p), root), Order(GraphOf(p), root)))
  {
    hide Mergeable, MergesAll, MergeBlocks, BackEdge, ViaAll, ViaTerminator, TwoSources, RedirectedAt, Headers;
    GraphFacts(p, live, root);
    var g, final := GraphOf(p), Order(GraphOf(p), root);
    var hs := Headers(g, final, final);
    forall x: Node, y: Node | (x, y) in r ensures |g.succ| <= r[(x, y)] < |v.blocks| && hs[r[(x, y)] - |g.succ|] == y {
      RedirectedTo(p, live, root, v, r, x, y);
    }
    forall x: Node | x < |g.succ| ensures v.succ[x] == ViaAll(r, x, g.succ[x]) {
      ColumnAt(p, v, r, x);
    }
    forall j: nat | j < |hs| ensures v.succ[|g.succ| + j] == [hs[j]] && hs[j] < |g.succ| {
      MergeBlocksAt(p, v, hs, j);
      assert hs[j] in hs;
      HeaderIsOld(p, live, root, hs[j]);
    }
  }

  lemma LiveBelow(p: Links, live: set<Node>, root: Node, n: Node)
    requires Mergeable(p, live, root) && n in live
    ensures n < |p.blocks|
  {}

  /** Every branch still leads where it led, at most by way of a merge block. */
  lemma MergedLeads(p: Links, live: set<Node>, root: Node, v: Links, r: Redirects, env: Env)
    requires Mergeable(p, live, root) && RedirectedFrom(p, v, r)
             && MergesAll(r, GraphOf(p), Order(GraphOf(p), root), Order(GraphOf(p), root))
    requires MergeBlocks(p, v, Headers(GraphOf(p), Order(GraphOf(p), root), Order(GraphOf(p), root)))
    ensures Leads(p.blocks, v.blocks, live, env)
  {
    hide Mergeable, MergesAll, MergeBlocks, MergeBlockAt, ViaAll, ViaTerminator, SlotLeads;
    GraphFacts(p, live, root);
    forall b: Node | b in live ensures b < |p.blocks| && LeadsAt(p.blocks, v.blocks, env, b) {
      MergeableAt(p, live, root, b);
      assert RedirectedAt(p, v, r, b);
      var was := Targets(p.blocks[b].terminator);
      ViaTargets(r, b, p.blocks[b].terminator);
      forall k | 0 <= k < |was| ensures SlotLeads(v.blocks, |p.blocks|, env, b, ViaAll(r, b, was)[k], was[k]) {
        ViaAllAt(r, b, was, k);
        if (b, was[k]) in r {
          RedirectedTo(p, live, root, v, r, b, was[k]);
          ThroughMerge(v, |p.blocks|, env, b, r[(b, was[k])], was[k]);
        } else {
          AtOnce(v, |p.blocks|, env, b, was[k]);
        }
      }
    }
  }

  lemma AtOnce(v: Links, base: nat, env: Env, b: Node, t: Node)
    requires t < base
    ensures SlotLeads(v.blocks, base, env, b, t, t)
  {}

  lemma ThroughMerge(v: Links, base: nat, env: Env, b: Node, m: Node, h: Node)
    requires Shaped(v) && base <= m < |v.blocks| && MergeBlockAt(v, m, h) && h < base
    ensures SlotLeads(v.blocks, base, env, b, m, h)
  {
    assert Land(v.blocks, base, env, m, h, HOPS - 1) == Some(h);
  }

  /** Control does not leave the live blocks. */
  lemma MergeableIsLive(p: Links, live: set<Node>, root: Node)
    requires Mergeable(p, live, root)
    ensures LiveSet(p.blocks, live)
  {
    forall b: Node, t: Node | b in live ensures b < |p.blocks| && (t in Targets(p.blocks[b].terminator) ==> t in live) {
      MergeableAt(p, live, root, b);
    }
  }

  /** No block is the target of two back edges. */
  ghost predicate OneBackEdgeInto(g: Graph, root: Node)
    requires Closed(g) && root < |g.succ|
  {
    forall x: Node, y: Node, z: Node :: BackEdge(g, Order(g, root), x, z) && BackEdge(g, Order(g, root), y, z) ==>
      x == y
  }

  /** `rewrite_multiple_back_edges`, after `reset_traversal`. */
  method RewriteMultipleBackEdges(f: Blocks, root: Node, ghost live: set<Node>) returns (ghost r: Redirects)
    requires f.Valid() && Mergeable(f.View(), live, root)
    modifies f
    ensures f.Valid() && f.nextId == old(f.nextId)
    ensures Closed(GraphOf(f.View())) && root < |f.succ| && OneBackEdgeInto(GraphOf(f.View()), root)
    ensures Closed(GraphOf(old(f.View()))) && root < |old(f.succ)|
    ensures Old(Order(GraphOf(f.View()), root), |old(f.blocks)|) == Order(GraphOf(old(f.View())), root)
    ensures var p := old(f.View());
            && RedirectedFrom(p, f.View(), r)
            && MergesAll(r, GraphOf(p), Order(GraphOf(p), root), Order(GraphOf(p), root))
            && Wired(f.View(), Alive(p, f.View(), live)) && forall env: Env :: SameVisits(p.blocks, f.blocks, live, env)
    ensures var g, order := GraphOf(old(f.View())), Order(GraphOf(old(f.View())), root);
            && MergedGraph(g, GraphOf(f.View()), r, Headers(g, order, order))
            && forall x: Node, y: Node :: (x, y) in r <==>
                 BackEdge(g, order, x, y) && exists z: Node :: z != x && BackEdge(g, order, z, y)
  {
    hide Mergeable, Wired, RedirectedFrom, MergeBlocks, MergesAll, Pushed, BackEdge, Leads, SameVisits, LiveSet,
        MergedGraph;
    ghost var p := f.View();
    GraphFacts(p, live, root);
    ghost var g := GraphOf(p);
    var c := new Walk(|f.blocks|);
    StartOfPass(p, live, root, c.Snapshot());
    r := VisitForBackEdgeAnalysis(f, c, root, p, live, root, Traversal.Start(), map[], root);
    GraphAfter(p, live, root, f.View(), r);
    ghost var hs := Headers(g, Order(g, root), Order(g, root));
    MergedClosed(g, GraphOf(f.View()), r, hs);
    AllRedirectedAreBack(r, g, root);
    RedirectedIff(r, g, root);
    SameOrder(g, GraphOf(f.View()), r, hs, root);
    forall x: Node, y: Node, z: Node
      | BackEdge(GraphOf(f.View()), Order(GraphOf(f.View()), root), x, z)
      && BackEdge(GraphOf(f.View()), Order(GraphOf(f.View()), root), y, z)
      ensures x == y
    {
      OneBackEdgeIn(g, GraphOf(f.View()), r, root, x, y, z);
    }
    MergeableIsLive(p, live, root);
    forall env: Env ensures SameVisits(p.blocks, f.blocks, live, env) {
      MergedLeads(p, live, root, f.View(), r, env);
      LeadsKeepsVisits(p.blocks, f.blocks, live, env);
    }
  }

  /** Where there is a second back edge to the same block, and nowhere else. */
  lemma RedirectedIff(r: Redirects, g: Graph, root: Node)
    requires Closed(g) && root < |g.succ| && MergesAll(r, g, Order(g, root), Order(g, root))
    ensures forall x: Node, y: Node :: (x, y) in r <==>
              BackEdge(g, Order(g, root), x, y) && exists z: Node :: z != x && BackEdge(g, Order(g, root), z, y)
  {
    hide BackEdge, Order;
    var order := Order(g, root);
    BackEdgesListed(g, root);
    forall x: Node, y: Node ensures (x, y) in r <==>
          BackEdge(g, order, x, y) && exists z: Node :: z != x && BackEdge(g, order, z, y) {
      if BackEdge(g, order, x, y) && TwoSources(g, order, y) {
        var a: Node, b: Node :| a != b && BackEdge(g, order, a, y) && BackEdge(g, order, b, y);
        assert a != x || b != x;
      }
    }
  }

  lemma BackEdgesListed(g: Graph, root: Node)
    requires Closed(g) && root < |g.succ|
    ensures forall x: Node, y: Node :: BackEdge(g, Order(g, root), x, y) ==> y in Order(g, root)
  {
    hide Order;
    Traversal.OrderFacts(g, root);
  }

  lemma AllRedirectedAreBack(r: Redirects, g: Graph, root: Node)
    requires Closed(g) && root < |g.succ| && MergesAll(r, g, Order(g, root), Order(g, root))
    ensures forall a: Node, b: Node :: (a, b) in r ==> BackEdge(g, Order(g, root), a, b)
  {}
}
