/** The blocks of a function while they are being rewritten. */
module BlockPool {
  import opened Wrappers
  import opened Graphs
  import opened Lists
  import opened IR
  import opened TailSplit

  function AddUnique(xs: seq<Node>, x: Node): seq<Node> {
    if x in xs then xs else xs + [x]
  }

  /** The `j` numbers from `base` on. */
  function Fresh(base: Node, j: nat): (r: seq<Node>)
    ensures |r| == j
  {
    seq(j, i requires 0 <= i < j => base + i)
  }

  /** Replaces the first occurrence of `from`. */
  function ReplaceFirst(xs: seq<Node>, from: Node, to: Node): (r: seq<Node>)
    ensures |r| == |xs|
  {
    if xs == [] then []
    else if xs[0] == from then [to] + xs[1..]
    else [xs[0]] + ReplaceFirst(xs[1..], from, to)
  }

  /** `to`'s predecessor list after `retarget_branch_pre_traversal`: the new predecessor takes the place of
      a block that has just become unreachable, or goes to the end. */
  function AdoptPred(preds: seq<Node>, old': Node, oldIsDead: bool, x: Node): seq<Node> {
    if oldIsDead && old' in preds then ReplaceFirst(preds, old', x) else AddUnique(preds, x)
  }

  /** What the blocks say about each other. */
  datatype Links = Links(blocks: seq<IRBlock>, succ: seq<seq<Node>>, pred: seq<seq<Node>>,
                         succBack: seq<Option<Node>>, predBack: seq<Option<Node>>)

  /** `n` is no longer a predecessor of the targets. */
  function PredsWithout(pred: seq<seq<Node>>, targets: seq<Node>, n: Node): (r: seq<seq<Node>>)
    ensures |r| == |pred|
  {
    seq(|pred|, b requires 0 <= b < |pred| => if b in targets then Erase(pred[b], n) else pred[b])
  }

  class Blocks {
    var blocks: seq<IRBlock>
    var succ: seq<seq<Node>>
    var pred: seq<seq<Node>>
    var succBackEdge: seq<Option<Node>>
    var predBackEdge: seq<Option<Node>>
    var nextId: Id

    constructor (v: Links, next: Id)
      ensures View() == v && nextId == next
    {
      blocks, succ, pred := v.blocks, v.succ, v.pred;
      succBackEdge, predBackEdge, nextId := v.succBack, v.predBack, next;
    }

    ghost predicate Valid()
      reads this
    {
      |blocks| == |succ| == |pred| == |succBackEdge| == |predBackEdge|
    }

    function View(): Links
      reads this
    {
      Links(blocks, succ, pred, succBackEdge, predBackEdge)
    }

    /** `CFGNodePool::create_node`. */
    method CreateNode() returns (n: Node)
      requires Valid()
      modifies this
      ensures Valid() && n == old(|blocks|) && nextId == old(nextId)
      ensures blocks == old(blocks) + [IRBlock([], [], Unreachable)]
      ensures succ == old(succ) + [[]] && pred == old(pred) + [[]]
      ensures succBackEdge == old(succBackEdge) + [None] && predBackEdge == old(predBackEdge) + [None]
    {
      n := |blocks|;
      blocks := blocks + [IRBlock([], [], Unreachable)];
      succ, pred := succ + [[]], pred + [[]];
      succBackEdge, predBackEdge := succBackEdge + [None], predBackEdge + [None];
    }

    /** `CFGNode::add_branch`. */
    method AddBranch(from: Node, to: Node)
      requires Valid() && from < |blocks| && to < |blocks|
      modifies `succ, `pred
      ensures Valid()
      ensures succ == old(succ)[from := AddUnique(old(succ[from]), to)]
      ensures pred == old(pred)[to := AddUnique(old(pred[to]), from)]
    {
      succ := succ[from := AddUnique(succ[from], to)];
      pred := pred[to := AddUnique(pred[to], from)];
    }

    /** `CFGNode::retarget_branch`, apart from the incremental dominator updates. */
    method RetargetBranch(x: Node, toPrev: Node, toNext: Node)
      requires Valid() && x < |blocks| && toPrev < |blocks| && toNext < |blocks| && toPrev != toNext
      requires toPrev in succ[x] && x in pred[toPrev] && toNext !in succ[x] && x !in pred[toNext]
      modifies `blocks, `succ, `pred
      ensures Valid()
      ensures blocks == old(blocks)[x :=
                                    old(blocks[x]).(terminator :=
                                                    Retargeted(old(blocks[x].terminator), toPrev, toNext))]
      ensures succ == old(succ)[x := ReplaceFirst(old(succ[x]), toPrev, toNext)]
      ensures var left := Erase(old(pred[toPrev]), x);
              pred == old(pred)[toPrev := left][toNext :=
                                                AdoptPred(old(pred[toNext]), toPrev,
                                                          left == [] && old(predBackEdge[toPrev]).None?, x)]
    {
      pred := pred[toPrev := Erase(pred[toPrev], x)];
      succ := succ[x := ReplaceFirst(succ[x], toPrev, toNext)];
      pred := pred[toNext := AdoptPred(pred[toNext], toPrev, pred[toPrev] == [] && predBackEdge[toPrev].None?, x)];
      blocks := blocks[x := blocks[x].(terminator := Retargeted(blocks[x].terminator, toPrev, toNext))];
    }
  }

  // ---------------------------------------------------------------- incoming lists

  predicate HasBlock(incoming: seq<IncomingValue>, b: Node) {
    exists i :: 0 <= i < |incoming| && incoming[i].block == b
  }

  /** No block has two entries. */
  ghost predicate OnePerBlock(incoming: seq<IncomingValue>) {
    forall i, j :: 0 <= i < j < |incoming| ==> incoming[i].block != incoming[j].block
  }

  lemma {:induction false} IncomingAt(incoming: seq<IncomingValue>, i: nat)
    requires OnePerBlock(incoming) && i < |incoming|
    ensures IncomingFrom(incoming, incoming[i].block) == incoming[i].id
    decreases i
  {
    if i > 0 {
      var rest := incoming[1..];
      assert rest[i - 1] == incoming[i];
      assert forall k :: 0 <= k < |rest| ==> rest[k] == incoming[k + 1];
      IncomingAt(rest, i - 1);
    }
  }

  lemma {:induction false} IncomingNone(incoming: seq<IncomingValue>, b: Node)
    requires !HasBlock(incoming, b)
    ensures IncomingFrom(incoming, b) == 0
  {
    if incoming != [] {
      assert forall k :: 0 <= k < |incoming[1..]| ==> incoming[1..][k] == incoming[k + 1];
      IncomingNone(incoming[1..], b);
    }
  }

  lemma {:induction false} IncomingConcat(xs: seq<IncomingValue>, ys: seq<IncomingValue>, b: Node)
    ensures IncomingFrom(xs + ys, b) == if HasBlock(xs, b) then IncomingFrom(xs, b) else IncomingFrom(ys, b)
  {
    if xs == [] {
      assert xs + ys == ys;
    } else {
      assert (xs + ys)[1..] == xs[1..] + ys;
      IncomingConcat(xs[1..], ys, b);
      if HasBlock(xs[1..], b) {
        var k :| 0 <= k < |xs[1..]| && xs[1..][k].block == b;
        assert xs[k + 1].block == b;
      }
      if HasBlock(xs, b) && xs[0].block != b {
        var k :| 0 <= k < |xs| && xs[k].block == b;
        assert xs[1..][k - 1].block == b;
      }
    }
  }

  /** The entries of `pred` now belong to `brk`. */
  function MovedIncoming(incoming: seq<IncomingValue>, pred: Node, brk: Node): (r: seq<IncomingValue>)
    ensures |r| == |incoming|
  {
    seq(|incoming|, i requires 0 <= i < |incoming| => if incoming[i].block == pred
        then IncomingValue(brk, incoming[i].id) else incoming[i])
  }

  function MovedPhis(phis: seq<PHI>, pred: Node, brk: Node): (r: seq<PHI>)
    ensures |r| == |phis|
  {
    seq(|phis|, i requires 0 <= i < |phis| => PHI(phis[i].id, MovedIncoming(phis[i].incoming, pred, brk)))
  }

  method MovePhis(phis0: seq<PHI>, from: Node, to: Node) returns (phis: seq<PHI>)
    ensures phis == MovedPhis(phis0, from, to)
  {
    phis := phis0;
    for i := 0 to |phis0|
      invariant |phis| == |phis0|
      invariant forall k :: 0 <= k < |phis| ==>
                  phis[k] == if k < i then PHI(phis0[k].id, MovedIncoming(phis0[k].incoming, from, to)) else phis0[k]
    {
      var incoming := phis[i].incoming;
      for j := 0 to |incoming|
        invariant |incoming| == |phis0[i].incoming|
        invariant forall k :: 0 <= k < |incoming| ==>
                    incoming[k] == if k < j && phis0[i].incoming[k].block == from
                    then IncomingValue(to, phis0[i].incoming[k].id) else phis0[i].incoming[k]
      {
        if incoming[j].block == from {
          incoming := incoming[j := IncomingValue(to, incoming[j].id)];
        }
      }
      assert incoming == MovedIncoming(phis0[i].incoming, from, to);
      phis := phis[i := phis[i].(incoming := incoming)];
    }
    assert phis == MovedPhis(phis0, from, to);
  }

  /** Takes out the first entry for `b`. */
  function EraseBlock(incoming: seq<IncomingValue>, b: Node): seq<IncomingValue> {
    if incoming == [] then []
    else if incoming[0].block == b then incoming[1..]
    else [incoming[0]] + EraseBlock(incoming[1..], b)
  }

  lemma {:induction false} EraseBlockFacts(incoming: seq<IncomingValue>, b: Node, f: Node)
    requires f != b
    ensures IncomingFrom(EraseBlock(incoming, b), f) == IncomingFrom(incoming, f)
    ensures HasBlock(EraseBlock(incoming, b), f) <==> HasBlock(incoming, f)
  {
    if incoming != [] {
      var rest := incoming[1..];
      EraseBlockFacts(rest, b, f);
      assert HasBlock(incoming, f) <==> incoming[0].block == f || HasBlock(rest, f) by {
        HasBlockCons(incoming, f);
      }
      if incoming[0].block != b {
        var e := EraseBlock(incoming, b);
        assert e[1..] == EraseBlock(rest, b);
        HasBlockCons(e, f);
      }
    }
  }

  lemma HasBlockCons(incoming: seq<IncomingValue>, f: Node)
    requires incoming != []
    ensures HasBlock(incoming, f) <==> incoming[0].block == f || HasBlock(incoming[1..], f)
  {
    if HasBlock(incoming, f) && incoming[0].block != f {
      var k :| 0 <= k < |incoming| && incoming[k].block == f;
      assert incoming[1..][k - 1].block == f;
    }
    if HasBlock(incoming[1..], f) {
      var k :| 0 <= k < |incoming[1..]| && incoming[1..][k].block == f;
      assert incoming[k + 1].block == f;
    }
  }

  lemma {:induction false} EraseAt(incoming: seq<IncomingValue>, n: Node, i: nat)
    requires i < |incoming| && incoming[i].block == n && forall k :: 0 <= k < i ==> incoming[k].block != n
    ensures EraseBlock(incoming, n) == incoming[..i] + incoming[i + 1..]
    ensures IncomingFrom(incoming, n) == incoming[i].id
    decreases i
  {
    if i > 0 {
      var rest := incoming[1..];
      assert forall k :: 0 <= k < |rest| ==> rest[k] == incoming[k + 1];
      EraseAt(rest, n, i - 1);
      assert [incoming[0]] + (rest[..i - 1] + rest[i..]) == incoming[..i] + incoming[i + 1..];
    }
  }

  lemma EraseBlockOne(incoming: seq<IncomingValue>, b: Node)
    requires OnePerBlock(incoming) && HasBlock(incoming, b)
    ensures OnePerBlock(EraseBlock(incoming, b)) && !HasBlock(EraseBlock(incoming, b), b)
  {
    hide EraseBlock;
    var i :| 0 <= i < |incoming| && incoming[i].block == b;
    EraseAt(incoming, b, i);
    var r := incoming[..i] + incoming[i + 1..];
    forall k | 0 <= k < |r| ensures r[k] == incoming[if k < i then k else k + 1] {}
  }

  lemma HasBlockConcat(xs: seq<IncomingValue>, ys: seq<IncomingValue>, f: Node)
    ensures HasBlock(xs + ys, f) <==> HasBlock(xs, f) || HasBlock(ys, f)
  {
    if HasBlock(xs, f) {
      var k :| 0 <= k < |xs| && xs[k].block == f;
      assert (xs + ys)[k].block == f;
    }
    if HasBlock(ys, f) {
      var k :| 0 <= k < |ys| && ys[k].block == f;
      assert (xs + ys)[|xs| + k].block == f;
    }
  }

  lemma OnePerBlockConcat(xs: seq<IncomingValue>, ys: seq<IncomingValue>)
    requires OnePerBlock(xs) && OnePerBlock(ys) && forall f: Node :: HasBlock(xs, f) ==> !HasBlock(ys, f)
    ensures OnePerBlock(xs + ys)
  {
    forall i, j | 0 <= i < j < |xs + ys| ensures (xs + ys)[i].block != (xs + ys)[j].block {
      if i < |xs| <= j {
        assert HasBlock(xs, xs[i].block) && HasBlock(ys, ys[j - |xs|].block);
      }
    }
  }

  /** Replacing the entry of `n` by entries for other blocks. */
  lemma ReplacedEntry(incoming: seq<IncomingValue>, n: Node, passed: seq<IncomingValue>, f: Node)
    requires OnePerBlock(incoming) && HasBlock(incoming, n) && f != n
    ensures IncomingFrom(EraseBlock(incoming, n) + passed, f) == if HasBlock(incoming, f)
            then IncomingFrom(incoming, f) else IncomingFrom(passed, f)
    ensures HasBlock(EraseBlock(incoming, n) + passed, f) <==> HasBlock(incoming, f) || HasBlock(passed, f)
  {
    EraseBlockFacts(incoming, n, f);
    IncomingConcat(EraseBlock(incoming, n), passed, f);
    HasBlockConcat(EraseBlock(incoming, n), passed, f);
  }

  /** If the PHI had one entry for each predecessor, it has one for each new predecessor. */
  lemma ReplacedMatches(incoming: seq<IncomingValue>, n: Node, passed: seq<IncomingValue>, preds: seq<Node>,
                        back: Option<Node>, new': seq<Node>)
    requires PhiMatches(incoming, preds, back) && n in preds && back != Some(n) && n !in new'
    requires OnePerBlock(passed) && forall f: Node :: HasBlock(passed, f) <==> f in new'
    requires forall f: Node :: f in new' ==> f !in preds && back != Some(f)
    ensures OnePerBlock(EraseBlock(incoming, n) + passed)
    ensures forall f: Node :: HasBlock(EraseBlock(incoming, n) + passed, f) <==>
              (f in preds && f != n) || f in new' || back == Some(f)
  {
    hide OnePerBlock, EraseBlock;
    var rest := EraseBlock(incoming, n);
    assert HasBlock(incoming, n);
    EraseBlockOne(incoming, n);
    forall f: Node ensures HasBlock(rest + passed, f) <==> (f in preds && f != n) || f in new' || back == Some(f) {
      if f != n {
        ReplacedEntry(incoming, n, passed, f);
      } else {
        HasBlockConcat(rest, passed, n);
      }
    }
    forall f: Node | HasBlock(rest, f) ensures !HasBlock(passed, f) {
      EraseBlockFacts(incoming, n, f);
    }
    OnePerBlockConcat(rest, passed);
  }

  // ---------------------------------------------------------------- consistency

  /** The graph of the edge lists. */
  function GraphOf(v: Links): Graph {
    Graph(v.succ)
  }

  ghost predicate Shaped(v: Links) {
    |v.blocks| == |v.succ| == |v.pred| == |v.succBack| == |v.predBack|
  }

  ghost predicate NoNumberAbove(lists: seq<seq<Node>>, bound: nat) {
    forall b: Node :: b < |lists| ==> InRange(lists[b], bound)
  }

  /** The edge lists of `b` mirror each other, and its terminator has those edges and its back edge. */
  ghost predicate LinkedAt(v: Links, live: set<Node>, b: Node)
    requires Shaped(v) && b < |v.blocks|
  {
    && Distinct(v.succ[b]) && Distinct(v.pred[b])
    && (forall t: Node :: t in Targets(v.blocks[b].terminator) <==> t in v.succ[b] || v.succBack[b] == Some(t))
    && (forall t: Node :: t in v.succ[b] ==> v.succBack[b] != Some(t))
    && (forall f: Node :: f in v.pred[b] <==> f in live && f < |v.blocks| && b in v.succ[f])
    && (forall f: Node :: v.predBack[b] == Some(f) <==> f in live && f < |v.blocks| && v.succBack[f] == Some(b))
  }

  /** One incoming value for each predecessor, and for nothing else. */
  ghost predicate PhiMatches(incoming: seq<IncomingValue>, preds: seq<Node>, back: Option<Node>) {
    && OnePerBlock(incoming)
    && forall f: Node :: HasBlock(incoming, f) <==> f in preds || back == Some(f)
  }

  ghost predicate PhisMatch(v: Links, b: Node)
    requires Shaped(v) && b < |v.blocks|
  {
    forall i :: 0 <= i < |v.blocks[b].phi| ==> PhiMatches(v.blocks[b].phi[i].incoming, v.pred[b], v.predBack[b])
  }

  /** The graph and the PHIs of the live blocks are well formed. */
  ghost predicate Linked(v: Links, live: set<Node>) {
    && Shaped(v) && LiveSet(v.blocks, live) && NoNumberAbove(v.succ, |v.blocks|) && NoNumberAbove(v.pred, |v.blocks|)
    && (forall b: Node :: b in live ==> b < |v.blocks|)
    && forall b: Node :: b in live ==> LinkedAt(v, live, b) && PhisMatch(v, b)
  }

  lemma {:induction false} ReplaceFirstMembers(xs: seq<Node>, from: Node, to: Node)
    requires Distinct(xs) && to !in xs
    ensures Distinct(ReplaceFirst(xs, from, to))
    ensures forall t: Node :: t in ReplaceFirst(xs, from, to) <==> (t in xs && t != from) || (t == to && from in xs)
  {
    if xs != [] {
      DistinctSlice(xs, 1, |xs|);
      assert xs[1..|xs|] == xs[1..] && xs == [xs[0]] + xs[1..] && xs[..1] == [xs[0]];
      DistinctByPairs([to]);
      DistinctByPairs([xs[0]]);
      if xs[0] == from {
        DistinctConcat([to], xs[1..]);
      } else {
        ReplaceFirstMembers(xs[1..], from, to);
        DistinctConcat([xs[0]], ReplaceFirst(xs[1..], from, to));
      }
    }
  }

  lemma {:induction false} RetargetedCaseTargets(cases: seq<Case>, from: Node, to: Node)
    ensures forall t: Node :: t in CaseTargets(RetargetedCases(cases, from, to)) <==>
              (t in CaseTargets(cases) && t != from) || (t == to && from in CaseTargets(cases))
  {
    if cases != [] {
      RetargetedCaseTargets(cases[1..], from, to);
    }
  }

  lemma RetargetedTargets(term: Terminator, from: Node, to: Node)
    ensures forall t: Node :: t in Targets(Retargeted(term, from, to)) <==>
              (t in Targets(term) && t != from) || (t == to && from in Targets(term))
  {
    if term.Switch? {
      RetargetedCaseTargets(term.cases, from, to);
    }
  }
}
