/** Giving each predecessor of a block a new block of its own, between the two. */
module Splitting {
  import opened Wrappers
  import opened Graphs
  import opened Lists
  import opened IR
  import opened TailSplit
  import opened BlockPool

  /** `brk` after every target's predecessors. */
  function WithPred(pred: seq<seq<Node>>, targets: seq<Node>, brk: Node): (r: seq<seq<Node>>)
    ensures |r| == |pred|
  {
    seq(|pred|, b requires 0 <= b < |pred| => if b in targets then pred[b] + [brk] else pred[b])
  }

  lemma AddedTo(pred: seq<seq<Node>>, targets: seq<Node>, i: nat, brk: Node, was: seq<seq<Node>>)
    requires Distinct(targets) && i < |targets| && targets[i] < |was| && pred == WithPred(was, targets[..i], brk)
    requires forall b: Node :: b < |was| ==> brk !in was[b]
    ensures pred[targets[i] := AddUnique(pred[targets[i]], brk)] == WithPred(was, targets[..i + 1], brk)
  {
    DistinctSlice(targets, 0, i);
    assert targets[0..i] == targets[..i] && targets[..i + 1] == targets[..i] + [targets[i]];
    assert targets[i] in targets[i..] by { assert targets[i..][0] == targets[i]; }
  }

  lemma AddedSucc(targets: seq<Node>, i: nat)
    requires Distinct(targets) && i < |targets|
    ensures AddUnique(targets[..i], targets[i]) == targets[..i + 1]
  {
    DistinctSlice(targets, 0, i);
    assert targets[0..i] == targets[..i] && targets[..i + 1] == targets[..i] + [targets[i]];
    assert targets[i] in targets[i..] by { assert targets[i..][0] == targets[i]; }
  }

  /** `CFGNode::add_branch` from `brk` to each target. */
  method AddBranches(f: Blocks, brk: Node, targets: seq<Node>)
    requires f.Valid() && brk < |f.blocks| && f.succ[brk] == [] && brk !in targets
    requires Distinct(targets) && InRange(targets, |f.blocks|) && NoNumberAbove(f.pred, brk)
    modifies f`succ, f`pred
    ensures f.Valid() && f.succ == old(f.succ)[brk := targets] && f.pred == WithPred(old(f.pred), targets, brk)
  {
    ghost var was := f.pred;
    var i := 0;
    assert f.pred == WithPred(was, targets[..0], brk);
    while i < |targets|
      invariant i <= |targets| && f.Valid()
      invariant f.succ == old(f.succ)[brk := targets[..i]]
      invariant f.pred == WithPred(was, targets[..i], brk)
    {
      AddedTo(f.pred, targets, i, brk, was);
      AddedSucc(targets, i);
      f.AddBranch(brk, targets[i]);
      i := i + 1;
    }
    assert targets[..|targets|] == targets;
  }

  /** A new block `brk` between `x` and `n`, with the edges of `n`. */
  function Inserted(p: Links, n: Node, x: Node, made: IRBlock, node: IRBlock): (r: Links)
    requires Shaped(p) && n < |p.blocks| && x < |p.blocks|
    ensures Shaped(r) && |r.blocks| == |p.blocks| + 1
  {
    var brk := |p.blocks|;
    Links(p.blocks[x := p.blocks[x].(terminator := Retargeted(p.blocks[x].terminator, n, brk))][n := node] + [made],
          p.succ[x := ReplaceFirst(p.succ[x], n, brk)] + [p.succ[n]],
          WithPred(p.pred, p.succ[n], brk)[n := Erase(p.pred[n], x)] + [[x]],
          p.succBack + [None], p.predBack + [None])
  }

  lemma PredAfter(pred: seq<seq<Node>>, targets: seq<Node>, n: Node, x: Node, brk: Node)
    requires n < |pred| == brk && n !in targets && InRange(targets, brk)
    ensures WithPred(pred + [[]], targets, brk)[n] == pred[n] && WithPred(pred + [[]], targets, brk)[brk] == []
    ensures WithPred(pred + [[]], targets, brk)[n := Erase(pred[n], x)][brk := [x]] == WithPred(pred, targets,
            brk)[n := Erase(pred[n], x)] + [[x]]
  {
    assert WithPred(pred + [[]], targets, brk)[brk := [x]] == WithPred(pred, targets, brk) + [[x]];
  }

  lemma AdoptFirst(from: Node, dead: bool, x: Node)
    ensures AdoptPred([], from, dead, x) == [x]
  {}

  /** Create, branch on, take over: a new block `brk` between `x` and `n`, which branches wherever `n` does. */
  method InsertBefore(f: Blocks, n: Node, x: Node) returns (brk: Node)
    requires f.Valid() && n < |f.blocks| && x < |f.blocks| && n != x
    requires Distinct(f.succ[n]) && n !in f.succ[n] && NoNumberAbove(f.pred, |f.blocks|)
             && NoNumberAbove(f.succ, |f.blocks|)
    requires n in f.succ[x] && x in f.pred[n]
    modifies f
    ensures f.Valid() && f.nextId == old(f.nextId) && brk == old(|f.blocks|)
    ensures f.View() == Inserted(old(f.View()), n, x, IRBlock([], [], old(f.blocks[n].terminator)), old(f.blocks[n]))
  {
    hide WithPred, ReplaceFirst, Erase, Retargeted, AddUnique, AdoptPred, Distinct;
    ghost var p := f.View();
    var targets := f.succ[n];
    assert InRange(targets, |f.blocks|) && InRange(f.succ[x], |f.blocks|);
    PredAfter(p.pred, targets, n, x, |f.blocks|);
    AdoptFirst(n, Erase(f.pred[n], x) == [] && f.predBackEdge[n].None?, x);
    brk := f.CreateNode();
    f.blocks := f.blocks[brk := f.blocks[brk].(terminator := f.blocks[n].terminator)];
    AddBranches(f, brk, targets);
    assert x in f.pred[n] by { assert f.pred[n] == p.pred[n]; }
    f.RetargetBranch(x, n, brk);
    assert f.View() == Inserted(p, n, x, IRBlock([], [], p.blocks[n].terminator), p.blocks[n]);
  }

  lemma {:induction false} EraseInRange(xs: seq<Node>, y: Node, bound: nat)
    requires InRange(xs, bound)
    ensures InRange(Erase(xs, y), bound)
  {
    if xs != [] {
      assert forall k :: 0 <= k < |xs[1..]| ==> xs[1..][k] == xs[k + 1];
      EraseInRange(xs[1..], y, bound);
    }
  }

  lemma RetargetedInRange(pred: seq<seq<Node>>, n: Node, x: Node, brk: Node)
    requires n < |pred| == brk && x < brk && NoNumberAbove(pred, brk)
    ensures NoNumberAbove((pred + [[]])[n := Erase(pred[n], x)][brk := [x]], brk)
  {
    EraseInRange(pred[n], x, brk);
  }

  lemma PredAfterRetarget(pred: seq<seq<Node>>, targets: seq<Node>, n: Node, x: Node, brk: Node)
    requires n < |pred| == brk && n !in targets && InRange(targets, brk)
    ensures WithPred((pred + [[]])[n := Erase(pred[n], x)][brk := [x]], targets, brk) == WithPred(pred, targets,
            brk)[n := Erase(pred[n], x)] + [[x]]
  {}

  /** Create, take over, branch on: as above, but `x` is redirected before the new block has successors. */
  method SpliceBefore(f: Blocks, n: Node, x: Node) returns (brk: Node)
    requires f.Valid() && n < |f.blocks| && x < |f.blocks| && n != x
    requires Distinct(f.succ[n]) && n !in f.succ[n] && NoNumberAbove(f.pred, |f.blocks|)
             && NoNumberAbove(f.succ, |f.blocks|)
    requires n in f.succ[x] && x in f.pred[n]
    modifies f
    ensures f.Valid() && f.nextId == old(f.nextId) && brk == old(|f.blocks|)
    ensures f.View() == Inserted(old(f.View()), n, x, IRBlock([], [], Unreachable), old(f.blocks[n]))
  {
    hide WithPred, ReplaceFirst, Erase, Retargeted, AddUnique, AdoptPred, Distinct;
    ghost var p := f.View();
    var targets := f.succ[n];
    assert InRange(targets, |f.blocks|) && InRange(f.succ[x], |f.blocks|);
    PredAfterRetarget(p.pred, targets, n, x, |f.blocks|);
    RetargetedInRange(p.pred, n, x, |f.blocks|);
    AdoptFirst(n, Erase(f.pred[n], x) == [] && f.predBackEdge[n].None?, x);
    brk := f.CreateNode();
    f.RetargetBranch(x, n, brk);
    AddBranches(f, brk, targets);
    assert f.View() == Inserted(p, n, x, IRBlock([], [], Unreachable), p.blocks[n]);
  }

  // ---------------------------------------------------------------- one predecessor after the other

  /** What the edge lists must satisfy before `n` is split. */
  ghost predicate Cuttable(p: Links, n: Node) {
    && Shaped(p) && n < |p.blocks|
    && Distinct(p.pred[n]) && Distinct(p.succ[n]) && n !in p.pred[n] && n !in p.succ[n]
    && NoNumberAbove(p.pred, |p.blocks|) && NoNumberAbove(p.succ, |p.blocks|)
    && (forall x: Node :: x in p.pred[n] ==> x < |p.blocks| && Distinct(p.succ[x]) && n in p.succ[x])
  }

  /** Block `b` once the first predecessors have their blocks `made`, which follow the old ones. */
  ghost function BlockAfter(p: Links, n: Node, made: seq<IRBlock>, node: IRBlock, b: Node): IRBlock
    requires Shaped(p) && n < |p.blocks| && |made| <= |p.pred[n]| && b < |p.blocks| + |made|
  {
    var preds, base := p.pred[n], |p.blocks|;
    if b >= base then made[b - base]
    else if b == n then node
    else if Index(preds, b) < |made|
    then p.blocks[b].(terminator := Retargeted(p.blocks[b].terminator, n, base + Index(preds, b)))
    else p.blocks[b]
  }

  ghost function SuccAfter(p: Links, n: Node, j: nat, b: Node): seq<Node>
    requires Shaped(p) && n < |p.blocks| && j <= |p.pred[n]| && b < |p.blocks| + j
  {
    if b >= |p.blocks| then p.succ[n]
    else if Index(p.pred[n], b) < j then ReplaceFirst(p.succ[b], n, |p.blocks| + Index(p.pred[n], b))
    else p.succ[b]
  }

  function PredsAfter(p: Links, n: Node, j: nat, b: Node): seq<Node>
    requires Shaped(p) && n < |p.blocks| && j <= |p.pred[n]| && b < |p.blocks| + j
  {
    if b >= |p.blocks| then [p.pred[n][b - |p.blocks|]]
    else if b == n then p.pred[n][j..]
    else if b in p.succ[n] then p.pred[b] + Fresh(|p.blocks|, j)
    else p.pred[b]
  }

  /** The first predecessors have the blocks `made`, and `n` itself has become `node`. */
  ghost predicate Cut(p: Links, q: Links, n: Node, made: seq<IRBlock>, node: IRBlock)
    requires Shaped(p) && n < |p.blocks| && |made| <= |p.pred[n]|
  {
    var j := |made|;
    && Shaped(q) && |q.blocks| == |p.blocks| + j
    && (forall b: Node :: b < |q.blocks| ==> q.blocks[b] == BlockAfter(p, n, made, node, b))
    && (forall b: Node :: b < |q.blocks| ==> q.succ[b] == SuccAfter(p, n, j, b))
    && (forall b: Node :: b < |q.blocks| ==> q.pred[b] == PredsAfter(p, n, j, b))
    && q.succBack == p.succBack + Nones(j) && q.predBack == p.predBack + Nones(j)
  }

  function Nones(j: nat): (r: seq<Option<Node>>)
    ensures |r| == j
  {
    seq(j, i requires 0 <= i < j => None)
  }

  lemma IndexAt(preds: seq<Node>, j: nat)
    requires Distinct(preds) && j < |preds|
    ensures Index(preds, preds[j]) == j
  {}

  lemma {:induction false} ReplaceFirstInRange(xs: seq<Node>, from: Node, to: Node, bound: nat)
    requires InRange(xs, bound) && to < bound
    ensures InRange(ReplaceFirst(xs, from, to), bound)
  {
    if xs != [] {
      assert forall k :: 0 <= k < |xs[1..]| ==> xs[1..][k] == xs[k + 1];
      ReplaceFirstInRange(xs[1..], from, to, bound);
    }
  }

  lemma ListsInRange(p: Links, n: Node, j: nat, b: Node)
    requires Cuttable(p, n) && j <= |p.pred[n]| && b < |p.blocks| + j
    ensures InRange(PredsAfter(p, n, j, b), |p.blocks| + j) && InRange(SuccAfter(p, n, j, b), |p.blocks| + j)
  {
    var base := |p.blocks|;
    assert InRange(p.pred[n], base) && InRange(p.succ[n], base);
    if b < base {
      assert InRange(p.pred[b], base) && InRange(p.succ[b], base);
      if Index(p.pred[n], b) < j {
        ReplaceFirstInRange(p.succ[b], n, base + Index(p.pred[n], b), base + j);
      }
    }
  }

  /** What one round needs of the blocks that the rounds before it left. */
  lemma ReadyForNext(p: Links, q: Links, n: Node, made: seq<IRBlock>, node: IRBlock)
    requires Cuttable(p, n) && |made| < |p.pred[n]| && Cut(p, q, n, made, node)
    ensures var x := p.pred[n][|made|];
            && n < |q.blocks| && x < |p.blocks| <= |q.blocks| && n != x && q.succ[n] == p.succ[n] && n in q.succ[x]
            && x in q.pred[n]
            && Distinct(p.succ[n]) && n !in p.succ[n] && x in p.pred[n] && q.blocks[n] == node
            && |q.blocks| == |p.blocks| + |made|
            && NoNumberAbove(q.pred, |q.blocks|) && NoNumberAbove(q.succ, |q.blocks|)
  {
    var preds, base, x, j := p.pred[n], |p.blocks|, p.pred[n][|made|], |made|;
    assert x in preds;
    IndexAt(preds, j);
    assert q.blocks[n] == BlockAfter(p, n, made, node, n) && q.succ[n] == SuccAfter(p, n, j, n)
           && q.succ[x] == SuccAfter(p, n, j, x);
    assert q.pred[n] == PredsAfter(p, n, j, n) && preds[j..][0] == x;
    forall b: Node | b < |q.blocks| ensures InRange(q.pred[b], |q.blocks|) && InRange(q.succ[b], |q.blocks|) {
      ListsInRange(p, n, j, b);
    }
  }

  lemma BlocksStep(p: Links, q: Links, n: Node, made: seq<IRBlock>, node: IRBlock, new': IRBlock, node': IRBlock,
                   b: Node)
    requires Cuttable(p, n) && |made| < |p.pred[n]| && Cut(p, q, n, made, node) && b < |p.blocks| + |made| + 1
    ensures p.pred[n][|made|] < |p.blocks|
    ensures Inserted(q, n, p.pred[n][|made|], new', node').blocks[b] == BlockAfter(p, n, made + [new'], node', b)
  {
    hide Retargeted, ReplaceFirst, WithPred, Erase;
    var preds, base, x, j := p.pred[n], |p.blocks|, p.pred[n][|made|], |made|;
    assert x in preds;
    IndexAt(preds, j);
    assert q.blocks[n] == BlockAfter(p, n, made, node, n) && q.blocks[x] == BlockAfter(p, n, made, node, x);
    if b < base && Index(preds, b) == j {
      assert preds[j] == b;
    }
  }

  lemma SuccStep(p: Links, q: Links, n: Node, made: seq<IRBlock>, node: IRBlock, new': IRBlock, node': IRBlock, b: Node)
    requires Cuttable(p, n) && |made| < |p.pred[n]| && Cut(p, q, n, made, node) && b < |p.blocks| + |made| + 1
    ensures p.pred[n][|made|] < |p.blocks|
    ensures Inserted(q, n, p.pred[n][|made|], new', node').succ[b] == SuccAfter(p, n, |made| + 1, b)
  {
    hide Retargeted, ReplaceFirst, WithPred, Erase;
    var preds, base, x, j := p.pred[n], |p.blocks|, p.pred[n][|made|], |made|;
    assert x in preds;
    IndexAt(preds, j);
    assert q.succ[n] == SuccAfter(p, n, j, n) && q.succ[x] == SuccAfter(p, n, j, x);
    if b < base && Index(preds, b) == j {
      assert preds[j] == b;
    }
  }

  lemma PredsStep(p: Links, q: Links, n: Node, made: seq<IRBlock>, node: IRBlock, new': IRBlock, node': IRBlock,
                  b: Node)
    requires Cuttable(p, n) && |made| < |p.pred[n]| && Cut(p, q, n, made, node) && b < |p.blocks| + |made| + 1
    ensures p.pred[n][|made|] < |p.blocks|
    ensures Inserted(q, n, p.pred[n][|made|], new', node').pred[b] == PredsAfter(p, n, |made| + 1, b)
  {
    hide Retargeted, ReplaceFirst;
    var preds, base, x, j := p.pred[n], |p.blocks|, p.pred[n][|made|], |made|;
    assert x in preds;
    assert q.succ[n] == SuccAfter(p, n, j, n) == p.succ[n] && q.pred[n] == PredsAfter(p, n, j, n);
    assert preds[j..][0] == x && preds[j..][1..] == preds[j + 1..];
    assert InRange(p.succ[n], base);
    if b < base && b in p.succ[n] && b != n {
      assert Fresh(base, j) + [base + j] == Fresh(base, j + 1);
      assert p.pred[b] + Fresh(base, j) + [base + j] == p.pred[b] + Fresh(base, j + 1);
    }
  }

  lemma AboutCuttable(p: Links, n: Node)
    requires Cuttable(p, n)
    ensures Shaped(p) && n < |p.blocks| && Distinct(p.succ[n]) && n !in p.succ[n]
  {}

  lemma CutStep(p: Links, q: Links, n: Node, made: seq<IRBlock>, node: IRBlock, new': IRBlock, node': IRBlock)
    requires Cuttable(p, n) && |made| < |p.pred[n]| && Cut(p, q, n, made, node)
    ensures p.pred[n][|made|] < |p.blocks|
            && Cut(p, Inserted(q, n, p.pred[n][|made|], new', node'), n, made + [new'], node')
  {
    hide Cuttable, BlockAfter, SuccAfter, PredsAfter;
    var j := |made|;
    AboutCuttable(p, n);
    BlocksStep(p, q, n, made, node, new', node', 0);
    var r := Inserted(q, n, p.pred[n][j], new', node');
    forall b: Node | b < |r.blocks|
      ensures r.blocks[b] == BlockAfter(p, n, made + [new'], node', b) && r.succ[b] == SuccAfter(p, n, j + 1, b)
              && r.pred[b] == PredsAfter(p, n, j + 1, b)
    {
      BlocksStep(p, q, n, made, node, new', node', b);
      SuccStep(p, q, n, made, node, new', node', b);
      PredsStep(p, q, n, made, node, new', node', b);
    }
    assert Nones(j) + [None] == Nones(j + 1);
    assert p.succBack + Nones(j) + [None] == p.succBack + Nones(j + 1)
           && p.predBack + Nones(j) + [None] == p.predBack + Nones(j + 1);
  }

  lemma CutStart(p: Links, n: Node)
    requires Cuttable(p, n)
    ensures Cut(p, p, n, [], p.blocks[n])
  {
    assert Fresh(|p.blocks|, 0) == [] && p.succBack + Nones(0) == p.succBack && p.predBack + Nones(0) == p.predBack;
  }

  // ---------------------------------------------------------------- the graph afterwards

  /** The live blocks once `n` is gone and `k` new ones have come. */
  ghost function LiveAfter(p: Links, n: Node, live: set<Node>, k: nat): set<Node> {
    live - {n} + set b | b in Fresh(|p.blocks|, k)
  }

  lemma FreshMembers(base: Node, k: nat, b: Node)
    ensures b in Fresh(base, k) <==> base <= b < base + k
  {
    if base <= b < base + k {
      assert Fresh(base, k)[b - base] == b;
    }
  }

  lemma FreshAt(base: Node, k: nat, i: nat)
    requires i < k
    ensures Fresh(base, k)[i] == base + i
  {}

  lemma DistinctFresh(base: Node, k: nat)
    ensures Distinct(Fresh(base, k))
  {
    DistinctByPairs(Fresh(base, k));
  }

  lemma ErasedPreds(preds: seq<Node>, base: Node, k: nat, n: Node)
    requires Distinct(preds) && InRange(preds, base) && n < base
    ensures Distinct(Erase(preds + Fresh(base, k), n))
    ensures forall f: Node :: f in Erase(preds + Fresh(base, k), n) <==> (f in preds && f != n) || base <= f < base + k
  {
    DistinctFresh(base, k);
    forall f: Node ensures f in Fresh(base, k) <==> base <= f < base + k {
      FreshMembers(base, k, f);
    }
    DistinctConcat(preds, Fresh(base, k));
    EraseMembers(preds + Fresh(base, k), n);
  }

  /** A live block with no back edge in or out. */
  ghost predicate Detachable(p: Links, live: set<Node>, n: Node) {
    Linked(p, live) && n in live && n !in Targets(p.blocks[n].terminator) && p.succBack[n].None? && p.predBack[n].None?
  }

  lemma DetachableIsCuttable(p: Links, live: set<Node>, n: Node)
    requires Detachable(p, live, n)
    ensures Cuttable(p, n)
  {
    assert LinkedAt(p, live, n);
    forall x: Node | x in p.pred[n] ensures x < |p.blocks| && Distinct(p.succ[x]) && n in p.succ[x] {
      assert LinkedAt(p, live, x);
    }
  }

  /** The edges once every predecessor of `n` has its own block, and `n` is nobody's predecessor. */
  ghost predicate Rewired(p: Links, q: Links, n: Node)
    requires Shaped(p) && n < |p.blocks|
  {
    var k, base := |p.pred[n]|, |p.blocks|;
    && Shaped(q) && |q.blocks| == base + k
    && (forall b: Node :: b < base && b != n ==>
          q.blocks[b].terminator == if b in p.pred[n]
          then Retargeted(p.blocks[b].terminator, n, base + Index(p.pred[n], b)) else p.blocks[b].terminator)
    && (forall b: Node :: base <= b < base + k ==> Targets(q.blocks[b].terminator) == Targets(p.blocks[n].terminator))
    && (forall b: Node :: b < |q.blocks| ==> q.succ[b] == SuccAfter(p, n, k, b))
    && (forall b: Node :: b < |q.blocks| ==>
          q.pred[b] == if b in p.succ[n] then Erase(PredsAfter(p, n, k, b), n) else PredsAfter(p, n, k, b))
    && q.succBack == p.succBack + Nones(k) && q.predBack == p.predBack + Nones(k)
  }

  /** Where a successor list entry `t` of `b` comes from. */
  ghost predicate NowLeads(p: Links, n: Node, b: Node, was: bool, t: Node)
    requires Shaped(p) && n < |p.blocks|
  {
    (was && t != n) || (b in p.pred[n] && t == |p.blocks| + Index(p.pred[n], b))
  }

  lemma RewiredAt(p: Links, q: Links, live: set<Node>, n: Node, b: Node)
    requires Detachable(p, live, n) && Rewired(p, q, n) && b in live && b != n
    ensures Shaped(p) && Shaped(q) && n < |p.blocks| && b < |p.blocks| <= |q.blocks|
    ensures q.succ[b] == if b in p.pred[n] then ReplaceFirst(p.succ[b], n, |p.blocks| + Index(p.pred[n], b))
            else p.succ[b]
    ensures q.blocks[b].terminator == if b in p.pred[n]
            then Retargeted(p.blocks[b].terminator, n, |p.blocks| + Index(p.pred[n], b)) else p.blocks[b].terminator
    ensures Distinct(p.succ[b]) && InRange(p.succ[b], |p.blocks|)
    ensures n in p.succ[b] <==> b in p.pred[n]
    ensures n in Targets(p.blocks[b].terminator) <==> b in p.pred[n]
  {
    hide Detachable, Rewired, Targets, Retargeted, ReplaceFirst, Distinct;
    LeadsBefore(p, live, n, b);
    LeadsAfter(p, q, n, b);
  }

  lemma LeadsBefore(p: Links, live: set<Node>, n: Node, b: Node)
    requires Detachable(p, live, n) && b in live && b != n
    ensures Shaped(p) && n < |p.blocks| && b < |p.blocks|
    ensures Distinct(p.succ[b]) && InRange(p.succ[b], |p.blocks|)
    ensures n in p.succ[b] <==> b in p.pred[n]
    ensures n in Targets(p.blocks[b].terminator) <==> b in p.pred[n]
  {
    hide Targets, Distinct;
    assert LinkedAt(p, live, b) && LinkedAt(p, live, n);
  }

  lemma LeadsAfter(p: Links, q: Links, n: Node, b: Node)
    requires Shaped(p) && n < |p.blocks| && Rewired(p, q, n) && b < |p.blocks| && b != n
    ensures Shaped(q) && |p.blocks| <= |q.blocks|
    ensures q.succ[b] == if b in p.pred[n] then ReplaceFirst(p.succ[b], n, |p.blocks| + Index(p.pred[n], b))
            else p.succ[b]
    ensures q.blocks[b].terminator == if b in p.pred[n]
            then Retargeted(p.blocks[b].terminator, n, |p.blocks| + Index(p.pred[n], b)) else p.blocks[b].terminator
  {
    hide Targets, Retargeted, ReplaceFirst, PredsAfter, Erase;
    assert q.succ[b] == SuccAfter(p, n, |p.pred[n]|, b);
  }

  lemma OldBlockLeads(p: Links, q: Links, live: set<Node>, n: Node, b: Node, t: Node)
    requires Detachable(p, live, n) && Rewired(p, q, n) && b in live && b != n
    ensures t in q.succ[b] <==> NowLeads(p, n, b, t in p.succ[b], t)
    ensures t in Targets(q.blocks[b].terminator) <==> NowLeads(p, n, b, t in Targets(p.blocks[b].terminator), t)
    ensures Distinct(q.succ[b])
  {
    hide Detachable, Rewired, Targets, Retargeted, ReplaceFirst, Distinct;
    RewiredAt(p, q, live, n, b);
    if b in p.pred[n] {
      ReplaceFirstMembers(p.succ[b], n, |p.blocks| + Index(p.pred[n], b));
      RetargetedTargets(p.blocks[b].terminator, n, |p.blocks| + Index(p.pred[n], b));
    }
  }

  lemma OldBlockFrom(p: Links, q: Links, live: set<Node>, n: Node, b: Node, f: Node)
    requires Detachable(p, live, n) && Rewired(p, q, n) && b in live && b != n
    ensures f in q.pred[b] <==>
              (f in p.pred[b] && f != n) || (b in p.succ[n] && |p.blocks| <= f < |p.blocks| + |p.pred[n]|)
    ensures Distinct(q.pred[b])
  {
    assert LinkedAt(p, live, b) && LinkedAt(p, live, n);
    if b in p.succ[n] {
      ErasedPreds(p.pred[b], |p.blocks|, |p.pred[n]|, n);
    }
  }

  lemma AboutDetachable(p: Links, q: Links, live: set<Node>, n: Node, b: Node)
    requires Detachable(p, live, n) && Rewired(p, q, n) && b in live
    ensures Shaped(p) && Shaped(q) && n < |p.blocks| && n in live
            && b < |p.blocks| <= |q.blocks| == |p.blocks| + |p.pred[n]|
    ensures LinkedAt(p, live, b) && LinkedAt(p, live, n)
    ensures q.succBack[b] == p.succBack[b] && q.predBack[b] == p.predBack[b]
    ensures p.succBack[b] != Some(n) && p.predBack[b] != Some(n)
    ensures InRange(p.succ[b], |p.blocks|) && InRange(p.pred[b], |p.blocks|)
    ensures p.succBack[b].Some? ==> p.succBack[b].value in live && p.succBack[b].value < |p.blocks|
    ensures forall t: Node :: t in Targets(p.blocks[b].terminator) ==> t in live
  {
    assert LinkedAt(p, live, n);
    var s := p.succBack[b];
    if s.Some? {
      assert s.value in Targets(p.blocks[b].terminator);
    }
  }

  lemma NewBlockFacts(p: Links, q: Links, live: set<Node>, n: Node, c: Node)
    requires Detachable(p, live, n) && Rewired(p, q, n) && |p.blocks| <= c < |p.blocks| + |p.pred[n]|
    ensures c < |q.blocks| && q.succ[c] == p.succ[n] && q.pred[c] == [p.pred[n][c - |p.blocks|]] && q.succBack[c].None?
            && q.predBack[c].None?
    ensures Targets(q.blocks[c].terminator) == Targets(p.blocks[n].terminator)
    ensures c !in p.succ[n]
  {
    assert q.succ[c] == SuccAfter(p, n, |p.pred[n]|, c);
    assert InRange(p.succ[n], |p.blocks|);
  }

  lemma LiveAfterMembers(p: Links, n: Node, live: set<Node>, b: Node)
    requires Shaped(p) && n < |p.blocks|
    ensures b in LiveAfter(p, n, live, |p.pred[n]|) <==>
              (b in live && b != n) || |p.blocks| <= b < |p.blocks| + |p.pred[n]|
  {
    FreshMembers(|p.blocks|, |p.pred[n]|, b);
  }

  /** The edge lists of a block other than `n` still mirror each other. */
  lemma OldBlockLinked(p: Links, q: Links, live: set<Node>, n: Node, b: Node)
    requires Detachable(p, live, n) && Rewired(p, q, n) && b in live && b != n
    ensures b < |q.blocks| && Shaped(q) && LinkedAt(q, LiveAfter(p, n, live, |p.pred[n]|), b)
    ensures forall t: Node :: t in Targets(q.blocks[b].terminator) ==> t in LiveAfter(p, n, live, |p.pred[n]|)
  {
    hide Detachable, Rewired, Targets, Distinct, LiveAfter;
    AboutDetachable(p, q, live, n, b);
    var k, base := |p.pred[n]|, |p.blocks|;
    var live' := LiveAfter(p, n, live, k);
    forall t: Node
      ensures t in Targets(q.blocks[b].terminator) <==> t in q.succ[b] || q.succBack[b] == Some(t)
      ensures t in q.succ[b] ==> q.succBack[b] != Some(t)
      ensures t in Targets(q.blocks[b].terminator) ==> t in live'
    {
      OldBlockLeads(p, q, live, n, b, t);
      LiveAfterMembers(p, n, live, t);
    }
    forall f: Node
      ensures f in q.pred[b] <==> f in live' && f < |q.blocks| && b in q.succ[f]
      ensures q.predBack[b] == Some(f) <==> f in live' && f < |q.blocks| && q.succBack[f] == Some(b)
    {
      OldBlockFrom(p, q, live, n, b, f);
      LiveAfterMembers(p, n, live, f);
      if f in live && f != n {
        AboutDetachable(p, q, live, n, f);
        OldBlockLeads(p, q, live, n, f, b);
      } else if base <= f < base + k {
        NewBlockFacts(p, q, live, n, f);
      }
    }
    OldBlockLeads(p, q, live, n, b, b);
    OldBlockFrom(p, q, live, n, b, b);
  }

  /** The edge lists of a new block mirror those of its predecessor and of `n`'s successors. */
  lemma NewBlockLinked(p: Links, q: Links, live: set<Node>, n: Node, c: Node)
    requires Detachable(p, live, n) && Rewired(p, q, n) && |p.blocks| <= c < |p.blocks| + |p.pred[n]|
    ensures c < |q.blocks| && Shaped(q) && LinkedAt(q, LiveAfter(p, n, live, |p.pred[n]|), c)
    ensures forall t: Node :: t in Targets(q.blocks[c].terminator) ==> t in LiveAfter(p, n, live, |p.pred[n]|)
  {
    hide Detachable, Rewired, Targets, Distinct, LiveAfter;
    AboutDetachableNode(p, live, n);
    AboutDetachable(p, q, live, n, n);
    NewBlockFacts(p, q, live, n, c);
    var k, base := |p.pred[n]|, |p.blocks|;
    var live' := LiveAfter(p, n, live, k);
    var x := p.pred[n][c - base];
    forall t: Node | t in Targets(q.blocks[c].terminator) ensures t in live' {
      LiveAfterMembers(p, n, live, t);
    }
    forall f: Node
      ensures f in q.pred[c] <==> f in live' && f < |q.blocks| && c in q.succ[f]
      ensures q.predBack[c] == Some(f) <==> f in live' && f < |q.blocks| && q.succBack[f] == Some(c)
    {
      LiveAfterMembers(p, n, live, f);
      if f in live && f != n {
        AboutDetachable(p, q, live, n, f);
        OldBlockLeads(p, q, live, n, f, c);
        ServedOnce(p.pred[n], f, c - base);
        if c in p.succ[f] {
          assert false;
        }
        if q.succBack[f] == Some(c) {
          AboutDetachable(p, q, live, n, c);
          assert false;
        }
      } else if base <= f < base + k {
        NewBlockFacts(p, q, live, n, f);
      }
    }
    SingletonDistinct(x);
  }

  lemma SingletonDistinct(x: Node)
    ensures Distinct([x])
  {}

  lemma ServedOnce(preds: seq<Node>, f: Node, i: nat)
    requires Distinct(preds) && i < |preds|
    ensures f in preds && Index(preds, f) == i <==> preds[i] == f
  {}

  lemma AboutDetachableNode(p: Links, live: set<Node>, n: Node)
    requires Detachable(p, live, n)
    ensures Shaped(p) && n < |p.blocks| && n in live && n !in Targets(p.blocks[n].terminator) && p.succBack[n].None?
            && p.predBack[n].None?
  {}

  lemma StillInRange(p: Links, q: Links, live: set<Node>, n: Node)
    requires Detachable(p, live, n) && Rewired(p, q, n)
    ensures NoNumberAbove(q.succ, |q.blocks|) && NoNumberAbove(q.pred, |q.blocks|)
  {
    hide Detachable, SuccAfter, PredsAfter, Erase;
    AboutDetachableNode(p, live, n);
    DetachableIsCuttable(p, live, n);
    var k := |p.pred[n]|;
    forall b: Node | b < |q.blocks| ensures InRange(q.succ[b], |q.blocks|) && InRange(q.pred[b], |q.blocks|) {
      ListsInRange(p, n, k, b);
      EraseInRange(PredsAfter(p, n, k, b), n, |q.blocks|);
    }
  }

  /** A block that can be split: it keeps its ids to itself, has several predecessors, and no back edge in or out. */
  ghost predicate Separable(p: Links, live: set<Node>, n: Node, bound: Id) {
    && Linked(p, live) && Splittable(p.blocks, live, n, bound)
    && |p.pred[n]| > 1 && p.succBack[n].None? && p.predBack[n].None?
  }

  lemma SeparableIsDetachable(p: Links, live: set<Node>, n: Node, bound: Id)
    requires Separable(p, live, n, bound)
    ensures Detachable(p, live, n) && Linked(p, live)
  {
    hide Linked, InOrder, Local, IdsBelow;
  }

  /** A live block with an edge to `n` is one of its predecessors. */
  lemma EdgeIsPred(p: Links, live: set<Node>, n: Node, bound: Id, b: Node)
    requires Separable(p, live, n, bound) && b in live
    ensures n in Targets(p.blocks[b].terminator) <==> b in p.pred[n]
    ensures n in p.succ[b] <==> b in p.pred[n]
  {
    assert LinkedAt(p, live, b) && LinkedAt(p, live, n);
  }

  lemma AboutSeparable(p: Links, live: set<Node>, n: Node, bound: Id)
    requires Separable(p, live, n, bound)
    ensures Shaped(p) && n < |p.blocks| && LiveSet(p.blocks, live) && n in live && InOrder(p.blocks[n])
    ensures n !in p.succ[n] && InRange(p.succ[n], |p.blocks|)
    ensures forall b: Node :: b in live ==> b < |p.blocks|
    ensures forall b: Node :: b in p.pred[n] ==> b in live && b != n
  {
    hide InOrder, Local, IdsBelow;
    assert LinkedAt(p, live, n);
  }

  lemma AboutSuccessor(p: Links, live: set<Node>, n: Node, bound: Id, b: Node)
    requires Separable(p, live, n, bound) && b in live
    ensures b in Targets(p.blocks[n].terminator) <==> b in p.succ[n]
    ensures b in p.succ[n] <==> n in p.pred[b]
    ensures p.predBack[b] != Some(n) && Distinct(p.pred[b]) && InRange(p.pred[b], |p.blocks|)
    ensures forall f: Node :: p.predBack[b] == Some(f) ==> f < |p.blocks|
    ensures forall i :: 0 <= i < |p.blocks[b].phi| ==> PhiMatches(p.blocks[b].phi[i].incoming, p.pred[b], p.predBack[b])
  {
    assert LinkedAt(p, live, b) && LinkedAt(p, live, n) && PhisMatch(p, b);
  }

  lemma AboutEdge(p: Links, live: set<Node>, n: Node, bound: Id, b: Node, f: Node)
    requires Separable(p, live, n, bound) && b in live && f in live && b in Targets(p.blocks[f].terminator)
    ensures f in p.pred[b] || p.predBack[b] == Some(f)
  {
    assert LinkedAt(p, live, b) && LinkedAt(p, live, f);
  }

  lemma AtLeastOne(p: Links, live: set<Node>, n: Node, bound: Id)
    requires Separable(p, live, n, bound)
    ensures p.pred[n] != []
  {}
}
