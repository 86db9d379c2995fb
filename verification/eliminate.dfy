/** Splitting a block that only merges values, so that each predecessor branches on by itself. */
module Eliminate {
  import opened Wrappers
  import opened Graphs
  import opened Lists
  import opened IR
  import opened TailSplit
  import opened BlockPool
  import opened Splitting

  // ---------------------------------------------------------------- the pieces of one split

  /** The value of each PHI on the edge from `pred`. */
  function PhiRemap(phis: seq<PHI>, pred: Node): map<Id, Id> {
    if phis == [] then map[] else PhiRemap(phis[1..], pred)[phis[0].id := IncomingFrom(phis[0].incoming, pred)]
  }

  /** No PHI value is the id of another PHI of the block: such values only travel round loops. */
  ghost predicate Resolved(phis: seq<PHI>, pred: Node) {
    && (forall i, j :: 0 <= i < j < |phis| ==> phis[i].id != phis[j].id)
    && (forall i :: 0 <= i < |phis| ==> OnePerBlock(phis[i].incoming) && HasBlock(phis[i].incoming, pred))
    && (forall i, j :: 0 <= i < |phis| && 0 <= j < |phis| ==> phis[j].id != IncomingFrom(phis[i].incoming, pred))
  }

  lemma {:induction false} PhiRemapAt(phis: seq<PHI>, pred: Node, i: nat)
    requires i < |phis| && forall a, b :: 0 <= a < b < |phis| ==> phis[a].id != phis[b].id
    ensures phis[i].id in PhiRemap(phis, pred)
            && PhiRemap(phis, pred)[phis[i].id] == IncomingFrom(phis[i].incoming, pred)
    decreases i
  {
    if i > 0 {
      assert forall k :: 0 <= k < |phis[1..]| ==> phis[1..][k] == phis[k + 1];
      PhiRemapAt(phis[1..], pred, i - 1);
    }
  }

  lemma {:induction false} PhiRemapDomain(phis: seq<PHI>, pred: Node, id: Id)
    ensures id in PhiRemap(phis, pred) <==> exists i :: 0 <= i < |phis| && phis[i].id == id
  {
    if phis != [] {
      PhiRemapDomain(phis[1..], pred, id);
      if id in PhiRemap(phis[1..], pred) {
        var k :| 0 <= k < |phis[1..]| && phis[1..][k].id == id;
        assert phis[k + 1].id == id;
      }
      if k :| 0 <= k < |phis| && phis[k].id == id && k > 0 {
        assert phis[1..][k - 1].id == id;
      }
    }
  }

  /** The id that the branch condition becomes. */
  function CondAfter(phis: seq<PHI>, pred: Node, i: nat, cond: Id): Id
    requires i <= |phis|
  {
    if i == 0 then cond
    else
      var was := CondAfter(phis, pred, i - 1, cond);
      if phis[i - 1].id == was then IncomingFrom(phis[i - 1].incoming, pred) else was
  }

  lemma {:induction false} CondIsRenamed(phis: seq<PHI>, pred: Node, i: nat, cond: Id)
    requires i <= |phis| && Resolved(phis, pred)
    ensures CondAfter(phis, pred, i, cond) ==
              if exists k :: 0 <= k < i && phis[k].id == cond then Renamed(PhiRemap(phis, pred), cond) else cond
  {
    if i > 0 {
      CondIsRenamed(phis, pred, i - 1, cond);
      if k :| 0 <= k < i - 1 && phis[k].id == cond {
        PhiRemapAt(phis, pred, k);
      } else if phis[i - 1].id == cond {
        PhiRemapAt(phis, pred, i - 1);
      }
    }
  }

  /** Moves the entries of `pred` to `brk`, in place, and resolves the branch condition on the way. */
  method MoveIncoming(phis0: seq<PHI>, pred: Node, brk: Node, cond0: Id) returns (phis: seq<PHI>, cond: Id)
    requires Resolved(phis0, pred)
    ensures phis == MovedPhis(phis0, pred, brk)
    ensures cond == Renamed(PhiRemap(phis0, pred), cond0)
  {
    phis, cond := phis0, cond0;
    var i := 0;
    while i < |phis|
      invariant i <= |phis| == |phis0|
      invariant forall k :: 0 <= k < i ==> phis[k] == PHI(phis0[k].id, MovedIncoming(phis0[k].incoming, pred, brk))
      invariant forall k :: i <= k < |phis| ==> phis[k] == phis0[k]
      invariant cond == CondAfter(phis0, pred, i, cond0)
    {
      ghost var was := phis0[i].incoming;
      ghost var before := cond;
      var j := 0;
      var incoming := phis[i].incoming;
      while j < |incoming|
        invariant j <= |incoming| == |was|
        invariant forall k :: 0 <= k < j ==>
                    incoming[k] == if was[k].block == pred then IncomingValue(brk, was[k].id) else was[k]
        invariant forall k :: j <= k < |was| ==> incoming[k] == was[k]
        invariant cond == if phis0[i].id == before && (exists k :: 0 <= k < j && was[k].block == pred)
                  then IncomingFrom(was, pred) else before
      {
        if incoming[j].block == pred {
          IncomingAt(was, j);
          incoming := incoming[j := IncomingValue(brk, incoming[j].id)];
          if phis[i].id == cond {
            cond := incoming[j].id;
          }
        }
        j := j + 1;
      }
      assert incoming == MovedIncoming(was, pred, brk);
      phis := phis[i := PHI(phis[i].id, incoming)];
      i := i + 1;
    }
    CondIsRenamed(phis0, pred, |phis0|, cond0);
    PhiRemapDomain(phis0, pred, cond0);
    assert phis == MovedPhis(phis0, pred, brk);
  }

  // ---------------------------------------------------------------- all predecessors

  /** What `block_is_breaking_phi_construct` and well-formed PHIs give. */
  ghost predicate Breakable(p: Links, n: Node) {
    && Cuttable(p, n)
    && (p.blocks[n].terminator.Branch? || p.blocks[n].terminator.Condition?)
    && (forall i :: 0 <= i < |p.blocks[n].phi| ==> PhiMatches(p.blocks[n].phi[i].incoming, p.pred[n], None))
    && (forall x: Node :: x in p.pred[n] ==> Resolved(p.blocks[n].phi, x))
  }

  /** Where control from `b` now enters, once the first `j` predecessors have been served. */
  ghost function MovedTo(preds: seq<Node>, j: nat, base: Node, b: Node): Node {
    if Index(preds, b) < j then base + Index(preds, b) else b
  }

  ghost function AllMoved(incoming: seq<IncomingValue>, preds: seq<Node>, j: nat, base: Node): (r: seq<IncomingValue>)
    ensures |r| == |incoming|
  {
    seq(|incoming|, i requires 0 <= i < |incoming| => IncomingValue(MovedTo(preds, j, base, incoming[i].block),
                                                                    incoming[i].id))
  }

  ghost function AllPhisMoved(phis: seq<PHI>, preds: seq<Node>, j: nat, base: Node): (r: seq<PHI>)
    ensures |r| == |phis|
  {
    seq(|phis|, i requires 0 <= i < |phis| => PHI(phis[i].id, AllMoved(phis[i].incoming, preds, j, base)))
  }

  lemma IncomingMoved(incoming: seq<IncomingValue>, preds: seq<Node>, j: nat, base: Node, x: Node)
    requires OnePerBlock(incoming) && HasBlock(incoming, x) && j <= |preds| && base <= |preds| + base
    requires forall k :: 0 <= k < |incoming| ==> incoming[k].block < base
    requires Distinct(preds)
    ensures OnePerBlock(AllMoved(incoming, preds, j, base))
    ensures IncomingFrom(AllMoved(incoming, preds, j, base), MovedTo(preds, j, base, x)) == IncomingFrom(incoming, x)
    ensures HasBlock(AllMoved(incoming, preds, j, base), MovedTo(preds, j, base, x))
  {
    var moved := AllMoved(incoming, preds, j, base);
    var k :| 0 <= k < |incoming| && incoming[k].block == x;
    IncomingAt(incoming, k);
    forall a, b | 0 <= a < b < |moved| ensures moved[a].block != moved[b].block {
      assert incoming[a].block != incoming[b].block;
    }
    IncomingAt(moved, k);
  }

  /** Moving the earlier predecessors changes nothing for a later one. */
  lemma StillResolved(p: Links, n: Node, j: nat)
    requires Breakable(p, n) && j < |p.pred[n]|
    ensures Resolved(AllPhisMoved(p.blocks[n].phi, p.pred[n], j, |p.blocks|), p.pred[n][j])
    ensures PhiRemap(AllPhisMoved(p.blocks[n].phi, p.pred[n], j, |p.blocks|),
                     p.pred[n][j]) == PhiRemap(p.blocks[n].phi, p.pred[n][j])
  {
    var preds, base, x := p.pred[n], |p.blocks|, p.pred[n][j];
    var phis := p.blocks[n].phi;
    var moved := AllPhisMoved(phis, preds, j, base);
    assert x in preds && Resolved(phis, x) && MovedTo(preds, j, base, x) == x;
    forall i | 0 <= i < |phis|
      ensures IncomingFrom(moved[i].incoming, x) == IncomingFrom(phis[i].incoming, x)
      ensures OnePerBlock(moved[i].incoming) && HasBlock(moved[i].incoming, x)
    {
      EntriesInRange(p, n, i);
      IncomingMoved(phis[i].incoming, preds, j, base, x);
    }
    RemapSame(phis, moved, x);
  }

  lemma EntriesInRange(p: Links, n: Node, i: nat)
    requires Breakable(p, n) && i < |p.blocks[n].phi|
    ensures forall k :: 0 <= k < |p.blocks[n].phi[i].incoming| ==> p.blocks[n].phi[i].incoming[k].block < |p.blocks|
  {
    var incoming := p.blocks[n].phi[i].incoming;
    assert InRange(p.pred[n], |p.blocks|);
    forall k | 0 <= k < |incoming| ensures incoming[k].block < |p.blocks| {
      assert HasBlock(incoming, incoming[k].block);
      assert incoming[k].block in p.pred[n];
    }
  }

  lemma {:induction false} RemapSame(phis: seq<PHI>, moved: seq<PHI>, x: Node)
    requires |moved| == |phis|
    requires forall i :: 0 <= i < |phis| ==>
               moved[i].id == phis[i].id && IncomingFrom(moved[i].incoming, x) == IncomingFrom(phis[i].incoming, x)
    ensures PhiRemap(moved, x) == PhiRemap(phis, x)
  {
    if phis != [] {
      assert forall i :: 0 <= i < |phis[1..]| ==> phis[1..][i] == phis[i + 1] && moved[1..][i] == moved[i + 1];
      RemapSame(phis[1..], moved[1..], x);
    }
  }

  lemma PhisMovedOnce(p: Links, n: Node, j: nat)
    requires Breakable(p, n) && j < |p.pred[n]|
    ensures var phis, preds, base := p.blocks[n].phi, p.pred[n], |p.blocks|;
            MovedPhis(AllPhisMoved(phis, preds, j, base), preds[j], base + j) == AllPhisMoved(phis, preds, j + 1, base)
  {
    var phis, preds, base := p.blocks[n].phi, p.pred[n], |p.blocks|;
    var moved := MovedPhis(AllPhisMoved(phis, preds, j, base), preds[j], base + j);
    assert preds[j] in preds;
    IndexAt(preds, j);
    forall i | 0 <= i < |phis| ensures moved[i].incoming == AllMoved(phis[i].incoming, preds, j + 1, base) {}
    assert moved == AllPhisMoved(phis, preds, j + 1, base);
  }

  function BreakBlock(node: IRBlock, x: Node): IRBlock {
    IRBlock([], [], RenamedTerminator(PhiRemap(node.phi, x), node.terminator))
  }

  function BreakBlocks(node: IRBlock, preds: seq<Node>): (r: seq<IRBlock>)
    ensures |r| == |preds|
  {
    seq(|preds|, i requires 0 <= i < |preds| => BreakBlock(node, preds[i]))
  }

  ghost function NodeAfter(p: Links, n: Node, j: nat): IRBlock
    requires Shaped(p) && n < |p.blocks|
  {
    p.blocks[n].(phi := AllPhisMoved(p.blocks[n].phi, p.pred[n], j, |p.blocks|))
  }

  /** Gives the predecessor `x` of `n` a block of its own to branch on from. */
  method BreakOff(f: Blocks, n: Node, x: Node) returns (brk: Node)
    requires f.Valid() && n < |f.blocks| && x < |f.blocks| && n != x
    requires Distinct(f.succ[n]) && n !in f.succ[n] && NoNumberAbove(f.pred, |f.blocks|)
             && NoNumberAbove(f.succ, |f.blocks|)
    requires n in f.succ[x] && x in f.pred[n]
    requires Resolved(f.blocks[n].phi, x) && (f.blocks[n].terminator.Branch? || f.blocks[n].terminator.Condition?)
    modifies f
    ensures f.Valid() && f.nextId == old(f.nextId) && brk == old(|f.blocks|)
    ensures var node := old(f.blocks[n]);
            f.View() == Inserted(old(f.View()), n, x, BreakBlock(node, x), node.(phi := MovedPhis(node.phi, x, brk)))
  {
    hide WithPred, ReplaceFirst, Erase, Retargeted, Distinct, Resolved;
    ghost var p := f.View();
    brk := InsertBefore(f, n, x);
    var terminator := f.blocks[brk].terminator;
    var phis, cond := MoveIncoming(f.blocks[n].phi, x, brk,
                                   if terminator.Condition? then terminator.conditional else 0);
    f.blocks := f.blocks[n := f.blocks[n].(phi := phis)];
    if terminator.Condition? {
      f.blocks := f.blocks[brk := f.blocks[brk].(terminator := terminator.(conditional := cond))];
    }
    assert f.blocks == Inserted(p, n, x, BreakBlock(p.blocks[n], x),
                                p.blocks[n].(phi := MovedPhis(p.blocks[n].phi, x, brk))).blocks;
  }

  lemma BrokenStart(p: Links, n: Node)
    requires Breakable(p, n)
    ensures NodeAfter(p, n, 0) == p.blocks[n]
  {
    var phis := p.blocks[n].phi;
    forall i | 0 <= i < |phis| ensures AllMoved(phis[i].incoming, p.pred[n], 0, |p.blocks|) == phis[i].incoming {}
    assert AllPhisMoved(phis, p.pred[n], 0, |p.blocks|) == phis;
  }

  lemma AboutBreakable(p: Links, n: Node)
    requires Breakable(p, n)
    ensures Cuttable(p, n) && (p.blocks[n].terminator.Branch? || p.blocks[n].terminator.Condition?)
  {}

  /** The loop over the predecessors. */
  method BreakAll(f: Blocks, n: Node)
    requires f.Valid() && Breakable(f.View(), n)
    modifies f
    ensures f.Valid() && f.nextId == old(f.nextId)
    ensures var p := old(f.View()); Cut(p, f.View(), n, BreakBlocks(p.blocks[n], p.pred[n]),
                                        NodeAfter(p, n, |p.pred[n]|))
  {
    hide Breakable, Cuttable, Cut, Inserted, Resolved, PhiRemap, RenamedTerminator, MovedPhis;
    ghost var p := f.View();
    AboutBreakable(p, n);
    AboutCuttable(p, n);
    var preds := f.pred[n];
    var j := 0;
    BrokenStart(p, n);
    CutStart(p, n);
    assert BreakBlocks(p.blocks[n], preds[..0]) == [];
    while j < |preds|
      invariant j <= |preds| && f.Valid() && f.nextId == old(f.nextId)
      invariant Cut(p, f.View(), n, BreakBlocks(p.blocks[n], preds[..j]), NodeAfter(p, n, j))
    {
      ghost var made, node := BreakBlocks(p.blocks[n], preds[..j]), NodeAfter(p, n, j);
      ReadyForNext(p, f.View(), n, made, node);
      StillResolved(p, n, j);
      PhisMovedOnce(p, n, j);
      CutStep(p, f.View(), n, made, node, BreakBlock(p.blocks[n], preds[j]), NodeAfter(p, n, j + 1));
      assert made + [BreakBlock(p.blocks[n], preds[j])] == BreakBlocks(p.blocks[n], preds[..j + 1]);
      var brk := BreakOff(f, n, preds[j]);
      j := j + 1;
    }
    assert preds[..|preds|] == preds;
  }

  // ---------------------------------------------------------------- the successors' PHIs

  function FindPhi(phis: seq<PHI>, id: Id): (r: Option<nat>)
    ensures match r
            case Some(k) => k < |phis| && phis[k].id == id
            case None => forall k :: 0 <= k < |phis| ==> phis[k].id != id
  {
    if phis == [] then None
    else if phis[0].id == id then Some(0)
    else
      match FindPhi(phis[1..], id)
      case Some(k) => Some(k + 1)
      case None =>
        assert forall k :: 0 < k < |phis| ==> phis[k] == phis[1..][k - 1];
        None
  }

  function Repeated(id: Id, breaks: seq<Node>): (r: seq<IncomingValue>)
    ensures |r| == |breaks|
  {
    seq(|breaks|, i requires 0 <= i < |breaks| => IncomingValue(breaks[i], id))
  }

  /** The entries that take the place of the split block's own. */
  function Passed(id: Id, phis: seq<PHI>, breaks: seq<Node>): seq<IncomingValue> {
    match FindPhi(phis, id)
    case Some(k) => phis[k].incoming
    case None => Repeated(id, breaks)
  }

  function Relinked(incoming: seq<IncomingValue>, phis: seq<PHI>, n: Node, breaks: seq<Node>): seq<IncomingValue> {
    EraseBlock(incoming, n) + Passed(IncomingFrom(incoming, n), phis, breaks)
  }

  function RelinkedPhis(succPhis: seq<PHI>, phis: seq<PHI>, n: Node, breaks: seq<Node>): (r: seq<PHI>)
    ensures |r| == |succPhis|
  {
    seq(|succPhis|, i requires 0 <= i < |succPhis| => PHI(succPhis[i].id,
                                                          Relinked(succPhis[i].incoming, phis, n, breaks)))
  }

  /** Replaces the entry of the split block by entries for the new ones. */
  method RelinkIncoming(incoming0: seq<IncomingValue>, phis: seq<PHI>, n: Node,
                        breaks: seq<Node>) returns (incoming: seq<IncomingValue>)
    requires HasBlock(incoming0, n)
    ensures incoming == Relinked(incoming0, phis, n, breaks)
  {
    incoming := incoming0;
    var i := 0;
    while incoming[i].block != n
      invariant i < |incoming| && forall k :: 0 <= k < i ==> incoming[k].block != n
      decreases |incoming| - i
    {
      i := i + 1;
    }
    EraseAt(incoming0, n, i);
    var id := incoming[i].id;
    incoming := incoming[..i] + incoming[i + 1..];
    var found := FindPhi(phis, id);
    if found.Some? {
      incoming := incoming + phis[found.value].incoming;
    } else {
      var k := 0;
      ghost var rest := incoming;
      while k < |breaks|
        invariant k <= |breaks| && incoming == rest + Repeated(id, breaks[..k])
      {
        assert Repeated(id, breaks[..k]) + [IncomingValue(breaks[k], id)] == Repeated(id, breaks[..k + 1]);
        incoming := incoming + [IncomingValue(breaks[k], id)];
        k := k + 1;
      }
      assert breaks[..|breaks|] == breaks;
    }
  }

  method RelinkPhis(succPhis0: seq<PHI>, phis: seq<PHI>, n: Node, breaks: seq<Node>) returns (succPhis: seq<PHI>)
    requires forall i :: 0 <= i < |succPhis0| ==> HasBlock(succPhis0[i].incoming, n)
    ensures succPhis == RelinkedPhis(succPhis0, phis, n, breaks)
  {
    hide Relinked, HasBlock;
    succPhis := succPhis0;
    var i := 0;
    while i < |succPhis|
      invariant i <= |succPhis| == |succPhis0|
      invariant forall k :: 0 <= k < i ==>
                  succPhis[k] == PHI(succPhis0[k].id, Relinked(succPhis0[k].incoming, phis, n, breaks))
      invariant forall k :: i <= k < |succPhis| ==> succPhis[k] == succPhis0[k]
    {
      var incoming := RelinkIncoming(succPhis[i].incoming, phis, n, breaks);
      succPhis := succPhis[i := succPhis[i].(incoming := incoming)];
      i := i + 1;
    }
    assert succPhis == RelinkedPhis(succPhis0, phis, n, breaks);
  }

  ghost predicate AllTakeFrom(blocks: seq<IRBlock>, targets: seq<Node>, n: Node) {
    forall b: Node, i :: b in targets && b < |blocks| && 0 <= i < |blocks[b].phi| ==>
      HasBlock(blocks[b].phi[i].incoming, n)
  }

  function RelinkedBlocks(blocks: seq<IRBlock>, targets: seq<Node>, phis: seq<PHI>, n: Node,
                          breaks: seq<Node>): (r: seq<IRBlock>)
    ensures |r| == |blocks|
  {
    seq(|blocks|, b requires 0 <= b < |blocks| =>
      if b in targets then blocks[b].(phi := RelinkedPhis(blocks[b].phi, phis, n, breaks)) else blocks[b])
  }

  lemma NextTarget(targets: seq<Node>, i: nat)
    requires Distinct(targets) && i < |targets|
    ensures targets[i] !in targets[..i] && targets[..i + 1] == targets[..i] + [targets[i]] && targets[i] in targets
  {
    DistinctSlice(targets, 0, i);
    assert targets[0..i] == targets[..i];
    assert targets[i] in targets[i..] by { assert targets[i..][0] == targets[i]; }
  }

  lemma RelinkNext(blocks: seq<IRBlock>, pred: seq<seq<Node>>, targets: seq<Node>, i: nat, phis: seq<PHI>, n: Node,
                   breaks: seq<Node>)
    requires Distinct(targets) && i < |targets| && targets[i] < |blocks| == |pred|
    ensures var now := RelinkedBlocks(blocks, targets[..i], phis, n, breaks); var t := targets[i];
            && now[t] == blocks[t]
            && now[t := blocks[t].(phi := RelinkedPhis(blocks[t].phi, phis, n, breaks))] == RelinkedBlocks(blocks,
                    targets[..i + 1], phis, n, breaks)
    ensures var now := PredsWithout(pred, targets[..i], n); var t := targets[i];
            now[t := Erase(now[t], n)] == PredsWithout(pred, targets[..i + 1], n)
  {
    hide RelinkedPhis;
    NextTarget(targets, i);
  }

  /** The loop over the successors. */
  method RelinkSuccessors(f: Blocks, n: Node, breaks: seq<Node>)
    requires f.Valid() && n < |f.blocks| && Distinct(f.succ[n]) && InRange(f.succ[n], |f.blocks|) && n !in f.succ[n]
    requires AllTakeFrom(f.blocks, f.succ[n], n)
    modifies f`blocks, f`pred
    ensures f.Valid()
    ensures f.blocks == RelinkedBlocks(old(f.blocks), f.succ[n], old(f.blocks[n].phi), n, breaks)
    ensures f.pred == PredsWithout(old(f.pred), f.succ[n], n)
  {
    hide RelinkedPhis, Erase, RelinkedBlocks, PredsWithout, Distinct, HasBlock;
    ghost var blocks, pred := f.blocks, f.pred;
    var phis := f.blocks[n].phi;
    var targets := f.succ[n];
    RelinkStart(blocks, pred, phis, n, breaks);
    var i := 0;
    while i < |targets|
      invariant i <= |targets| && f.Valid() && |f.blocks| == |blocks|
      invariant f.blocks == RelinkedBlocks(blocks, targets[..i], phis, n, breaks)
      invariant f.pred == PredsWithout(pred, targets[..i], n)
    {
      var s := targets[i];
      RelinkNext(blocks, pred, targets, i, phis, n, breaks);
      assert s in targets;
      var succPhis := RelinkPhis(f.blocks[s].phi, phis, n, breaks);
      f.blocks := f.blocks[s := f.blocks[s].(phi := succPhis)];
      f.pred := f.pred[s := Erase(f.pred[s], n)];
      i := i + 1;
    }
    assert targets[..|targets|] == targets;
  }

  lemma RelinkStart(blocks: seq<IRBlock>, pred: seq<seq<Node>>, phis: seq<PHI>, n: Node, breaks: seq<Node>)
    ensures RelinkedBlocks(blocks, [], phis, n, breaks) == blocks && PredsWithout(pred, [], n) == pred
  {}

  // ---------------------------------------------------------------- the whole split

  lemma SeparableIsBreakable(p: Links, live: set<Node>, n: Node, bound: Id)
    requires Separable(p, live, n, bound)
    ensures Breakable(p, n) && AllTakeFrom(p.blocks, p.succ[n], n)
  {
    assert LinkedAt(p, live, n) && PhisMatch(p, n);
    assert n !in p.succ[n] && n !in p.pred[n];
    forall x: Node | x in p.pred[n] ensures x < |p.blocks| && Distinct(p.succ[x]) && n in p.succ[x]
        && Resolved(p.blocks[n].phi, x) {
      assert LinkedAt(p, live, x);
      assert n in Targets(p.blocks[x].terminator);
    }
    forall b: Node, i | b in p.succ[n] && b < |p.blocks|
        && 0 <= i < |p.blocks[b].phi| ensures HasBlock(p.blocks[b].phi[i].incoming, n) {
      assert b in Targets(p.blocks[n].terminator) && b in live;
      assert LinkedAt(p, live, b) && PhisMatch(p, b);
      assert PhiMatches(p.blocks[b].phi[i].incoming, p.pred[b], p.predBack[b]);
      assert n in p.pred[b];
    }
  }

  function Breaks(p: Links, n: Node): (r: seq<Copy>)
    requires Shaped(p) && n < |p.blocks|
    ensures |r| == |p.pred[n]|
  {
    seq(|p.pred[n]|, i requires 0 <= i < |p.pred[n]| => Copy(p.pred[n][i], |p.blocks| + i,
                                                             PhiRemap(p.blocks[n].phi, p.pred[n][i])))
  }

  /** Each block of the result. */
  ghost function FinalBlock(p: Links, n: Node, b: Node): IRBlock
    requires Shaped(p) && n < |p.blocks| && b < |p.blocks| + |p.pred[n]|
  {
    var k := |p.pred[n]|;
    var node := NodeAfter(p, n, k);
    var block := BlockAfter(p, n, BreakBlocks(p.blocks[n], p.pred[n]), node, b);
    if b == n then node.(phi := [])
    else if b in p.succ[n] then block.(phi := RelinkedPhis(block.phi, node.phi, n, Fresh(|p.blocks|, k)))
    else block
  }

  ghost predicate Eliminated(p: Links, q: Links, n: Node)
    requires Shaped(p) && n < |p.blocks|
  {
    var k := |p.pred[n]|;
    && Shaped(q) && |q.blocks| == |p.blocks| + k
    && (forall b: Node :: b < |q.blocks| ==> q.blocks[b] == FinalBlock(p, n, b))
    && (forall b: Node :: b < |q.blocks| ==> q.succ[b] == SuccAfter(p, n, k, b))
    && (forall b: Node :: b < |q.blocks| ==>
          q.pred[b] == if b in p.succ[n] then Erase(PredsAfter(p, n, k, b), n) else PredsAfter(p, n, k, b))
    && q.succBack == p.succBack + Nones(k) && q.predBack == p.predBack + Nones(k)
  }

  lemma ReadyToRelink(p: Links, r: Links, n: Node)
    requires Breakable(p, n) && AllTakeFrom(p.blocks, p.succ[n], n)
    requires Cut(p, r, n, BreakBlocks(p.blocks[n], p.pred[n]), NodeAfter(p, n, |p.pred[n]|))
    ensures n < |r.blocks| && r.succ[n] == p.succ[n] && Distinct(r.succ[n]) && InRange(r.succ[n], |r.blocks|)
            && n !in r.succ[n]
    ensures r.blocks[n] == NodeAfter(p, n, |p.pred[n]|) && AllTakeFrom(r.blocks, r.succ[n], n)
  {
    hide AllPhisMoved, PhiRemap;
    var made, node := BreakBlocks(p.blocks[n], p.pred[n]), NodeAfter(p, n, |p.pred[n]|);
    assert r.succ[n] == SuccAfter(p, n, |made|, n) && r.blocks[n] == BlockAfter(p, n, made, node, n);
    assert InRange(p.succ[n], |p.blocks|);
    forall b: Node, i | b in r.succ[n] && b < |r.blocks|
        && 0 <= i < |r.blocks[b].phi| ensures HasBlock(r.blocks[b].phi[i].incoming, n) {
      assert r.blocks[b] == BlockAfter(p, n, made, node, b) && r.blocks[b].phi == p.blocks[b].phi;
    }
  }

  lemma RelinkedIsFinal(p: Links, r: Links, q: Links, n: Node)
    requires Breakable(p, n) && Cut(p, r, n, BreakBlocks(p.blocks[n], p.pred[n]), NodeAfter(p, n, |p.pred[n]|))
    requires var node := NodeAfter(p, n, |p.pred[n]|);
             n < |r.blocks| && q.blocks == RelinkedBlocks(r.blocks, p.succ[n], node.phi, n,
                                                          Fresh(|p.blocks|, |p.pred[n]|))[n := node.(phi := [])]
    requires q.succ == r.succ && q.pred == PredsWithout(r.pred, p.succ[n], n) && q.succBack == r.succBack
             && q.predBack == r.predBack
    ensures Eliminated(p, q, n)
  {
    hide RelinkedPhis, AllPhisMoved, BlockAfter, PredsAfter, SuccAfter, Erase;
  }

  lemma BlockIs(p: Links, q: Links, n: Node, b: Node)
    requires Shaped(p) && n < |p.blocks| && Eliminated(p, q, n) && b < |p.blocks| + |p.pred[n]|
    ensures Shaped(q) && |q.blocks| == |p.blocks| + |p.pred[n]| && q.blocks[b] == FinalBlock(p, n, b)
  {
    hide FinalBlock, SuccAfter, PredsAfter, Erase;
  }

  lemma IsRedirected(p: Links, q: Links, live: set<Node>, n: Node, bound: Id, b: Node)
    requires Separable(p, live, n, bound) && Eliminated(p, q, n) && b in live && b != n
    ensures Redirected(p.blocks, q.blocks, n, Breaks(p, n), b)
  {
    hide RelinkedPhis, Retargeted, AllPhisMoved, PhiRemap, Separable, Eliminated, InOrder, Targets;
    AboutSeparable(p, live, n, bound);
    EdgeIsPred(p, live, n, bound, b);
    BlockIs(p, q, n, b);
    if b in p.pred[n] {
      var i := Index(p.pred[n], b);
      assert Breaks(p, n)[i].pred == b && Breaks(p, n)[i].block == |p.blocks| + i;
    }
  }

  lemma PhiRemapIsRemap(node: IRBlock, pred: Node, bound: Id)
    requires InOrder(node) && node.operations == []
    ensures RemapOf(node, pred, PhiRemap(node.phi, pred), bound)
  {
    forall id: Id ensures id in PhiRemap(node.phi, pred) <==> Defines(node, id) {
      PhiRemapDomain(node.phi, pred, id);
    }
    forall i | 0 <= i < |node.phi| ensures node.phi[i].id in PhiRemap(node.phi, pred)
        && PhiRemap(node.phi, pred)[node.phi[i].id] == IncomingFrom(node.phi[i].incoming, pred) {
      PhiRemapAt(node.phi, pred, i);
    }
  }

  lemma IsBreakCopy(p: Links, q: Links, live: set<Node>, n: Node, bound: Id, i: nat)
    requires Separable(p, live, n, bound) && Eliminated(p, q, n) && i < |p.pred[n]|
    requires p.blocks[n].operations == []
    ensures IsCopy(p.blocks, q.blocks, live, n, Breaks(p, n)[i], bound)
  {
    hide RelinkedPhis, Retargeted, AllPhisMoved, PhiRemap, RemapOf, Separable, Eliminated, InOrder, Targets,
        RenamedTerminator;
    AboutSeparable(p, live, n, bound);
    var x := p.pred[n][i];
    assert x in p.pred[n];
    EdgeIsPred(p, live, n, bound, x);
    PhiRemapIsRemap(p.blocks[n], x, bound);
    BlockIs(p, q, n, |p.blocks| + i);
    assert q.blocks[|p.blocks| + i] == BreakBlock(p.blocks[n], x);
  }

  // ---------------------------------------------------------------- what the successors' PHIs see

  lemma RepeatedFrom(id: Id, breaks: seq<Node>, i: nat)
    requires Distinct(breaks) && i < |breaks|
    ensures OnePerBlock(Repeated(id, breaks)) && IncomingFrom(Repeated(id, breaks), breaks[i]) == id
    ensures forall f: Node :: HasBlock(Repeated(id, breaks), f) <==> f in breaks
  {
    forall a, b | 0 <= a < b < |breaks| ensures breaks[a] != breaks[b] {
      DistinctPair(breaks, a, b);
    }
    IncomingAt(Repeated(id, breaks), i);
    forall f: Node | f in breaks ensures HasBlock(Repeated(id, breaks), f) {
      var k :| 0 <= k < |breaks| && breaks[k] == f;
      assert Repeated(id, breaks)[k].block == f;
    }
  }

  /** The moved PHIs of `n` have one entry for each new block, with the value of its predecessor. */
  lemma MovedPhi(p: Links, n: Node, j: nat, i: nat)
    requires Breakable(p, n) && j < |p.blocks[n].phi| && i < |p.pred[n]|
    ensures var incoming := NodeAfter(p, n, |p.pred[n]|).phi[j].incoming;
            && OnePerBlock(incoming)
            && IncomingFrom(incoming, |p.blocks| + i) == IncomingFrom(p.blocks[n].phi[j].incoming, p.pred[n][i])
            && HasBlock(incoming, |p.blocks| + i)
            && forall f: Node :: HasBlock(incoming, f) ==> f in Fresh(|p.blocks|, |p.pred[n]|)
  {
    hide Breakable, Distinct, PhiMatches, OnePerBlock, HasBlock, IncomingFrom, Fresh, AllMoved;
    AboutPhi(p, n, j);
    EntriesInRange(p, n, j);
    MovedAll(p.blocks[n].phi[j].incoming, p.pred[n], |p.blocks|, i);
  }

  lemma AboutPhi(p: Links, n: Node, j: nat)
    requires Breakable(p, n) && j < |p.blocks[n].phi|
    ensures Shaped(p) && n < |p.blocks| && PhiMatches(p.blocks[n].phi[j].incoming, p.pred[n], None)
            && Distinct(p.pred[n])
  {}

  lemma MovedAll(was: seq<IncomingValue>, preds: seq<Node>, base: Node, i: nat)
    requires Distinct(preds) && PhiMatches(was, preds, None) && i < |preds|
    requires forall k :: 0 <= k < |was| ==> was[k].block < base
    ensures var moved := AllMoved(was, preds, |preds|, base);
            && OnePerBlock(moved) && IncomingFrom(moved, base + i) == IncomingFrom(was, preds[i])
            && HasBlock(moved, base + i)
            && forall f: Node :: HasBlock(moved, f) ==> f in Fresh(base, |preds|)
  {
    hide OnePerBlock, HasBlock, AllMoved, Fresh, IncomingFrom;
    assert preds[i] in preds;
    IndexAt(preds, i);
    IncomingMoved(was, preds, |preds|, base, preds[i]);
    forall f: Node | HasBlock(AllMoved(was, preds, |preds|, base), f) ensures f in Fresh(base, |preds|) {
      MovedBlocks(was, preds, base, f);
    }
  }

  lemma MovedBlocks(was: seq<IncomingValue>, preds: seq<Node>, base: Node, f: Node)
    requires PhiMatches(was, preds, None) && HasBlock(AllMoved(was, preds, |preds|, base), f)
    ensures f in Fresh(base, |preds|)
  {
    hide OnePerBlock, Fresh;
    var moved := AllMoved(was, preds, |preds|, base);
    var a :| 0 <= a < |moved| && moved[a].block == f;
    assert HasBlock(was, was[a].block);
    FreshMembers(base, |preds|, f);
  }

  lemma IdsDiffer(p: Links, n: Node, x: Node)
    requires Breakable(p, n) && x in p.pred[n]
    ensures forall a, b :: 0 <= a < b < |p.blocks[n].phi| ==> p.blocks[n].phi[a].id != p.blocks[n].phi[b].id
  {
    assert Resolved(p.blocks[n].phi, x);
  }

  /** What control from the i-th new block passes on: the value of `id` on the edge from its predecessor. */
  lemma PassedFrom(p: Links, n: Node, id: Id, i: nat)
    requires Breakable(p, n) && i < |p.pred[n]|
    ensures var passed := Passed(id, NodeAfter(p, n, |p.pred[n]|).phi, Fresh(|p.blocks|, |p.pred[n]|));
            && OnePerBlock(passed)
            && IncomingFrom(passed, |p.blocks| + i) == Renamed(PhiRemap(p.blocks[n].phi, p.pred[n][i]), id)
            && HasBlock(passed, |p.blocks| + i)
            && forall f: Node :: HasBlock(passed, f) ==> f in Fresh(|p.blocks|, |p.pred[n]|)
  {
    hide PhiRemap, AllMoved, Breakable, Resolved, OnePerBlock, HasBlock, Distinct, Fresh;
    AboutBreakable(p, n);
    AboutCuttable(p, n);
    var base, k, x := |p.blocks|, |p.pred[n]|, p.pred[n][i];
    var phis, moved := p.blocks[n].phi, NodeAfter(p, n, |p.pred[n]|).phi;
    IdsDiffer(p, n, x);
    DistinctFresh(base, k);
    FreshMembers(base, k, base + i);
    assert forall a :: 0 <= a < |phis| ==> moved[a].id == phis[a].id;
    match FindPhi(moved, id) {
      case Some(j) =>
        MovedPhi(p, n, j, i);
        PhiRemapAt(phis, x, j);
      case None =>
        assert Fresh(base, k)[i] == base + i by { FreshAt(base, k, i); }
        RepeatedFrom(id, Fresh(base, k), i);
        PhiRemapDomain(phis, x, id);
    }
  }

  /** The entries passed on: one for each new block. */
  lemma PassedMatches(p: Links, n: Node, id: Id)
    requires Breakable(p, n) && p.pred[n] != []
    ensures var passed := Passed(id, NodeAfter(p, n, |p.pred[n]|).phi, Fresh(|p.blocks|, |p.pred[n]|));
            OnePerBlock(passed) && forall f: Node :: HasBlock(passed, f) <==> f in Fresh(|p.blocks|, |p.pred[n]|)
  {
    hide Breakable, NodeAfter, Passed, HasBlock, OnePerBlock, Fresh;
    AboutBreakable(p, n);
    AboutCuttable(p, n);
    var base, k := |p.blocks|, |p.pred[n]|;
    PassedFrom(p, n, id, 0);
    forall f: Node | f in Fresh(base, k) ensures HasBlock(Passed(id, NodeAfter(p, n, k).phi, Fresh(base, k)), f) {
      FreshMembers(base, k, f);
      PassedFrom(p, n, id, f - base);
    }
  }

  /** A PHI of a successor of `n`, before and after. */
  lemma SuccessorPhi(p: Links, live: set<Node>, n: Node, bound: Id, b: Node, i: nat)
    requires Separable(p, live, n, bound) && b in live && b in p.succ[n] && i < |p.blocks[b].phi|
    ensures var was := p.blocks[b].phi[i];
            var is' := PHI(was.id,
                           Relinked(was.incoming, NodeAfter(p, n, |p.pred[n]|).phi, n, Fresh(|p.blocks|, |p.pred[n]|)));
            && PhiFollows(p.blocks, live, n, Breaks(p, n), b, was, is')
            && PhiMatches(is'.incoming, Erase(p.pred[b] + Fresh(|p.blocks|, |p.pred[n]|), n), p.predBack[b])
  {
    hide Separable, Breakable, OnePerBlock, HasBlock, Passed, Renamed, PhiRemap, EraseBlock, Fresh, NodeAfter,
        IncomingFrom, Erase, Distinct;
    SeparableIsBreakable(p, live, n, bound);
    AboutSeparable(p, live, n, bound);
    AboutSuccessor(p, live, n, bound, b);
    var base, k := |p.blocks|, |p.pred[n]|;
    var was := p.blocks[b].phi[i];
    var id := IncomingFrom(was.incoming, n);
    var passed := Passed(id, NodeAfter(p, n, k).phi, Fresh(base, k));
    AtLeastOne(p, live, n, bound);
    PassedMatches(p, n, id);
    forall f: Node ensures f in Fresh(base, k) <==> base <= f < base + k {
      FreshMembers(base, k, f);
    }
    ReplacedMatches(was.incoming, n, passed, p.pred[b], p.predBack[b], Fresh(base, k));
    ErasedPreds(p.pred[b], base, k, n);
    forall f: Node | f in live && f != n && b in Targets(p.blocks[f].terminator)
      ensures IncomingFrom(EraseBlock(was.incoming, n) + passed, f) == IncomingFrom(was.incoming, f)
    {
      AboutEdge(p, live, n, bound, b, f);
      ReplacedEntry(was.incoming, n, passed, f);
    }
    forall j | 0 <= j < k
      ensures IncomingFrom(EraseBlock(was.incoming, n) + passed,
                           base + j) == Renamed(PhiRemap(p.blocks[n].phi, p.pred[n][j]), id)
    {
      ReplacedEntry(was.incoming, n, passed, base + j);
      PassedFrom(p, n, id, j);
    }
  }

  lemma IsFollowed(p: Links, q: Links, live: set<Node>, n: Node, bound: Id, b: Node)
    requires Separable(p, live, n, bound) && Eliminated(p, q, n) && b in live && b != n
    ensures PhisFollow(p.blocks, q.blocks, live, n, Breaks(p, n), b)
  {
    hide Separable, Eliminated, Relinked, PhiRemap, Retargeted, Fresh, NodeAfter, Targets;
    AboutSeparable(p, live, n, bound);
    AboutSuccessor(p, live, n, bound, b);
    BlockIs(p, q, n, b);
    if b in p.succ[n] {
      forall i | 0 <= i < |p.blocks[b].phi| ensures PhiFollows(p.blocks, live, n, Breaks(p, n), b, p.blocks[b].phi[i],
                                                               q.blocks[b].phi[i]) {
        SuccessorPhi(p, live, n, bound, b, i);
      }
    }
  }

  lemma EliminatedIsSplit(p: Links, q: Links, live: set<Node>, n: Node, bound: Id)
    requires Separable(p, live, n, bound) && Eliminated(p, q, n)
    requires p.blocks[n].operations == []
    ensures IsSplit(p.blocks, q.blocks, live, n, Breaks(p, n), bound)
  {
    hide Separable, Eliminated, IsCopy, Redirected, PhisFollow;
    AboutSeparable(p, live, n, bound);
    BlockIs(p, q, n, n);
    forall i | 0 <= i < |Breaks(p, n)| ensures IsCopy(p.blocks, q.blocks, live, n, Breaks(p, n)[i], bound) {
      IsBreakCopy(p, q, live, n, bound, i);
    }
    forall b: Node | b in live && b != n ensures Redirected(p.blocks, q.blocks, n, Breaks(p, n), b)
        && PhisFollow(p.blocks, q.blocks, live, n, Breaks(p, n), b) {
      IsRedirected(p, q, live, n, bound, b);
      IsFollowed(p, q, live, n, bound, b);
    }
  }

  lemma BreakTargets(node: IRBlock, preds: seq<Node>, i: nat)
    requires i < |preds|
    ensures Targets(BreakBlocks(node, preds)[i].terminator) == Targets(node.terminator)
  {
    hide PhiRemap;
  }

  lemma EliminatedIsRewired(p: Links, q: Links, live: set<Node>, n: Node, bound: Id)
    requires Separable(p, live, n, bound) && Eliminated(p, q, n)
    ensures Rewired(p, q, n)
  {
    hide Separable, Relinked, NodeAfter, SuccAfter, PredsAfter, Retargeted, Targets, Erase, BreakBlocks, LiveSet;
    AboutSeparable(p, live, n, bound);
    forall b: Node | b < |q.blocks| && b != n
      ensures b >= |p.blocks| ==> Targets(q.blocks[b].terminator) == Targets(p.blocks[n].terminator)
      ensures b < |p.blocks| ==>
                q.blocks[b].terminator == if b in p.pred[n]
                then Retargeted(p.blocks[b].terminator, n, |p.blocks| + Index(p.pred[n], b)) else p.blocks[b].terminator
    {
      BlockIs(p, q, n, b);
      if b >= |p.blocks| {
        BreakTargets(p.blocks[n], p.pred[n], b - |p.blocks|);
      }
    }
  }

  lemma PhisStillMatch(p: Links, q: Links, live: set<Node>, n: Node, bound: Id, b: Node)
    requires Separable(p, live, n, bound) && Eliminated(p, q, n) && b in LiveAfter(p, n, live, |p.pred[n]|)
    ensures Shaped(q) && b < |q.blocks| && PhisMatch(q, b)
  {
    hide Separable, Relinked, Linked, NodeAfter, Retargeted, Targets, Erase, PhiRemap, PhiMatches, RelinkedPhis;
    AboutSeparable(p, live, n, bound);
    LiveAfterMembers(p, n, live, b);
    BlockIs(p, q, n, b);
    if b < |p.blocks| {
      AboutSuccessor(p, live, n, bound, b);
      assert q.predBack[b] == p.predBack[b];
      forall i | 0 <= i < |q.blocks[b].phi| ensures PhiMatches(q.blocks[b].phi[i].incoming, q.pred[b], q.predBack[b]) {
        if b in p.succ[n] {
          SuccessorPhi(p, live, n, bound, b, i);
          RelinkedAt(p.blocks[b].phi, NodeAfter(p, n, |p.pred[n]|).phi, n, Fresh(|p.blocks|, |p.pred[n]|), i);
        }
      }
    }
  }

  lemma RelinkedAt(succPhis: seq<PHI>, phis: seq<PHI>, n: Node, breaks: seq<Node>, i: nat)
    requires i < |succPhis|
    ensures RelinkedPhis(succPhis, phis, n, breaks)[i].incoming == Relinked(succPhis[i].incoming, phis, n, breaks)
  {}

  lemma EliminatedIsLinked(p: Links, q: Links, live: set<Node>, n: Node, bound: Id)
    requires Separable(p, live, n, bound) && Eliminated(p, q, n)
    ensures Linked(q, LiveAfter(p, n, live, |p.pred[n]|))
  {
    hide Separable, Eliminated, Detachable, Cuttable, Rewired, LinkedAt, PhisMatch, LiveAfter, Targets, InRange;
    AboutSeparable(p, live, n, bound);
    SeparableIsDetachable(p, live, n, bound);
    EliminatedIsRewired(p, q, live, n, bound);
    BlockIs(p, q, n, n);
    forall b: Node | b in LiveAfter(p, n, live, |p.pred[n]|)
      ensures b < |q.blocks| && LinkedAt(q, LiveAfter(p, n, live, |p.pred[n]|), b) && PhisMatch(q, b)
      ensures forall t: Node :: t in Targets(q.blocks[b].terminator) ==> t in LiveAfter(p, n, live, |p.pred[n]|)
    {
      LiveAfterMembers(p, n, live, b);
      PhisStillMatch(p, q, live, n, bound, b);
      if b < |p.blocks| {
        OldBlockLinked(p, q, live, n, b);
      } else {
        NewBlockLinked(p, q, live, n, b);
      }
    }
    StillInRange(p, q, live, n);
  }

  /** `CFGStructurizer::eliminate_node_link_preds_to_succ`. */
  method EliminateNodeLinkPredsToSucc(f: Blocks, n: Node, ghost live: set<Node>)
    requires f.Valid() && Separable(f.View(), live, n, f.nextId)
    requires f.blocks[n].operations == []
    modifies f
    ensures f.Valid() && f.nextId == old(f.nextId)
    ensures IsSplit(old(f.blocks), f.blocks, live, n, Breaks(old(f.View()), n), f.nextId)
    ensures Linked(f.View(), LiveAfter(old(f.View()), n, live, |old(f.pred[n])|))
  {
    hide IsSplit, Linked, Breaks, LiveAfter;
    hide Breakable, Cuttable, Separable, AllTakeFrom, Cut, RelinkedBlocks, PredsWithout, Eliminated;
    ghost var p := f.View();
    SeparableIsBreakable(p, live, n, f.nextId);
    AboutBreakable(p, n);
    AboutCuttable(p, n);
    var base := |f.blocks|;
    var k := |f.pred[n]|;
    BreakAll(f, n);
    ghost var r := f.View();
    ReadyToRelink(p, r, n);
    RelinkSuccessors(f, n, Fresh(base, k));
    f.blocks := f.blocks[n := f.blocks[n].(phi := [])];
    SplitBlockKept(r.blocks, p.succ[n], r.blocks[n].phi, n, Fresh(base, k));
    RelinkedIsFinal(p, r, f.View(), n);
    EliminatedIsSplit(p, f.View(), live, n, f.nextId);
    EliminatedIsLinked(p, f.View(), live, n, f.nextId);
  }

  lemma SplitBlockKept(blocks: seq<IRBlock>, targets: seq<Node>, phis: seq<PHI>, n: Node, breaks: seq<Node>)
    requires n < |blocks| && n !in targets
    ensures RelinkedBlocks(blocks, targets, phis, n, breaks)[n] == blocks[n]
  {}
}
