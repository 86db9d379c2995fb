/** Duplicating a block, operations and all, into each of its predecessors. */
module Duplicate {
  import opened Wrappers
  import opened Graphs
  import opened Lists
  import opened IR
  import opened TailSplit
  import opened BlockPool
  import opened Splitting
  import opened Eliminate
  import opened Dominance
  import opened NodePool
  import opened FlowGraph
  import opened Dominators

  // ---------------------------------------------------------------- resolving PHIs

  /** `CFGStructurizer::find_incoming_value`: the closest incoming block that dominates `pred`, or the number of
      entries if there is none. */
  method FindIncomingValue(c: Pool, pred: Node, incoming: seq<IncomingValue>) returns (r: nat)
    requires c.Shape() && Ok(Forward(c)) && IdomCorrect(Forward(c), c.immediateDominator) && Live(Forward(c), pred)
    requires forall k :: 0 <= k < |incoming| ==> incoming[k].block < |c.forwardNumber|
    ensures r <= |incoming|
    ensures r < |incoming| ==> Dom(Forward(c), incoming[r].block, pred)
    ensures forall k :: 0 <= k < |incoming| && Dom(Forward(c), incoming[k].block, pred) ==>
              r < |incoming| && c.forwardNumber[incoming[r].block] <= c.forwardNumber[incoming[k].block]
  {
    hide Dom, Live, Ok, IdomCorrect;
    r := |incoming|;
    var i := 0;
    while i < |incoming|
      invariant i <= |incoming| && (r < i || r == |incoming|)
      invariant r < |incoming| ==> Dom(Forward(c), incoming[r].block, pred)
      invariant forall k :: 0 <= k < i && Dom(Forward(c), incoming[k].block, pred) ==>
                  r < |incoming| && c.forwardNumber[incoming[r].block] <= c.forwardNumber[incoming[k].block]
    {
      var block := incoming[i].block;
      var dominates := Dominates(c, block, pred);
      if dominates && (r == |incoming| || c.forwardNumber[block] < c.forwardNumber[incoming[r].block]) {
        r := i;
      }
      i := i + 1;
    }
  }

  /** A predecessor with an entry of its own is its own closest dominator. */
  lemma ClosestIsOwn(f: Flow, incoming: seq<IncomingValue>, pred: Node, r: nat)
    requires Ok(f) && Live(f, pred) && OnePerBlock(incoming) && HasBlock(incoming, pred)
    requires r < |incoming| && Dom(f, incoming[r].block, pred)
    requires forall k :: 0 <= k < |incoming| ==> incoming[k].block < |f.num|
    requires forall k :: 0 <= k < |incoming| && Dom(f, incoming[k].block, pred) ==>
               f.num[incoming[r].block] <= f.num[incoming[k].block]
    ensures incoming[r].block == pred && incoming[r].id == IncomingFrom(incoming, pred)
  {
    hide Ok, Dom, Live;
    var k :| 0 <= k < |incoming| && incoming[k].block == pred;
    DomRefl(f, pred);
    DomNumber(f, incoming[r].block, pred);
    IncomingAt(incoming, r);
  }

  // ---------------------------------------------------------------- copying operations

  /** Every operation with a result gets the next free id. */
  function OpRemap(ops: seq<Op>, remap: map<Id, Id>, next: Id): map<Id, Id> {
    if ops == [] then remap
    else if ops[0].id != 0 then OpRemap(ops[1..], remap[ops[0].id := next], next + 1)
    else OpRemap(ops[1..], remap, next)
  }

  function ResultCount(ops: seq<Op>): nat {
    if ops == [] then 0 else ResultCount(ops[1..]) + if ops[0].id != 0 then 1 else 0
  }

  /** `CFGStructurizer::duplicate_op`. */
  method DuplicateOp(f: Blocks, op: Op, remap0: map<Id, Id>) returns (dup: Op, remap: map<Id, Id>)
    modifies f`nextId
    ensures f.nextId == old(f.nextId) + if op.id != 0 then 1 else 0
    ensures dup == Op(op.op, if op.id != 0 then old(f.nextId) else 0, RenamedArguments(remap0, op.arguments))
    ensures remap == if op.id != 0 then remap0[op.id := old(f.nextId)] else remap0
  {
    var id := 0;
    if op.id != 0 {
      id := f.nextId;
      f.nextId := f.nextId + 1;
    }
    var arguments := [];
    var i := 0;
    while i < |op.arguments|
      invariant i <= |op.arguments| && arguments == RenamedArguments(remap0, op.arguments[..i])
    {
      arguments := arguments + [match op.arguments[i]
                                case LiteralArgument(_) => op.arguments[i]
                                case IdArgument(x) => IdArgument(Renamed(remap0, x))];
      i := i + 1;
    }
    assert op.arguments[..i] == op.arguments;
    dup := Op(op.op, id, arguments);
    remap := remap0;
    if op.id != 0 {
      remap := remap[op.id := id];
    }
  }

  /** The operations copied one after the other, each reading the names given so far. */
  function Copied(ops: seq<Op>, remap: map<Id, Id>, next: Id): seq<Op> {
    if ops == [] then []
    else
      var op := ops[0];
      [Op(op.op, if op.id != 0 then next else 0, RenamedArguments(remap, op.arguments))]
      + if op.id != 0 then Copied(ops[1..], remap[op.id := next], next + 1) else Copied(ops[1..], remap, next)
  }

  method DuplicateOps(f: Blocks, ops: seq<Op>, remap0: map<Id, Id>) returns (dups: seq<Op>, remap: map<Id, Id>)
    modifies f`nextId
    ensures f.nextId == old(f.nextId) + ResultCount(ops)
    ensures remap == OpRemap(ops, remap0, old(f.nextId)) && dups == Copied(ops, remap0, old(f.nextId))
  {
    remap, dups := remap0, [];
    var i := 0;
    assert ops[0..] == ops;
    while i < |ops|
      invariant i <= |ops| && f.nextId + ResultCount(ops[i..]) == old(f.nextId) + ResultCount(ops)
      invariant OpRemap(ops[i..], remap, f.nextId) == OpRemap(ops, remap0, old(f.nextId))
      invariant dups + Copied(ops[i..], remap, f.nextId) == Copied(ops, remap0, old(f.nextId))
    {
      assert ops[i..][0] == ops[i] && ops[i..][1..] == ops[i + 1..];
      ghost var before, next := remap, f.nextId;
      var dup;
      dup, remap := DuplicateOp(f, ops[i], remap);
      assert Copied(ops[i..], before, next) == [dup] + Copied(ops[i + 1..], remap, f.nextId);
      assert dups + ([dup] + Copied(ops[i + 1..], remap, f.nextId)) == (dups + [dup]) + Copied(ops[i + 1..], remap,
              f.nextId);
      dups := dups + [dup];
      i := i + 1;
    }
  }

  // ---------------------------------------------------------------- what the names end up as

  lemma {:induction false} OpRemapKeeps(ops: seq<Op>, remap: map<Id, Id>, next: Id, id: Id)
    ensures !DefinesOp(ops, id) ==> (id in OpRemap(ops, remap, next) <==> id in remap)
    ensures !DefinesOp(ops, id) && id in remap ==> OpRemap(ops, remap, next)[id] == remap[id]
  {
    if ops != [] {
      DefinesCons(ops, id);
      OpRemapKeeps(ops[1..], if ops[0].id != 0 then remap[ops[0].id := next] else remap,
                   if ops[0].id != 0 then next + 1 else next, id);
    }
  }

  lemma DefinesCons(ops: seq<Op>, id: Id)
    requires ops != []
    ensures DefinesOp(ops, id) <==> (id != 0 && ops[0].id == id) || DefinesOp(ops[1..], id)
  {
    if DefinesOp(ops[1..], id) {
      var k :| 0 <= k < |ops[1..]| && ops[1..][k].id == id;
      assert ops[k + 1].id == id;
    }
    if k :| 0 < k < |ops| && ops[k].id == id {
      assert ops[1..][k - 1].id == id;
    }
  }

  ghost predicate ResultsDiffer(ops: seq<Op>) {
    forall i, j :: 0 <= i < j < |ops| && ops[i].id != 0 ==> ops[i].id != ops[j].id
  }

  lemma ResultsDifferTail(ops: seq<Op>)
    requires ResultsDiffer(ops) && ops != []
    ensures ResultsDiffer(ops[1..]) && (ops[0].id != 0 ==> !DefinesOp(ops[1..], ops[0].id))
  {
    assert forall k :: 0 <= k < |ops[1..]| ==> ops[1..][k] == ops[k + 1];
  }

  /** Every result gets a new id of its own, from the block of ids allocated for this copy. */
  lemma {:induction false} OpRemapFresh(ops: seq<Op>, remap: map<Id, Id>, next: Id, id: Id)
    requires ResultsDiffer(ops) && DefinesOp(ops, id)
    ensures id in OpRemap(ops, remap, next) && next <= OpRemap(ops, remap, next)[id] < next + ResultCount(ops)
  {
    ResultsDifferTail(ops);
    DefinesCons(ops, id);
    var remap', next' := if ops[0].id != 0 then remap[ops[0].id := next] else remap, if ops[0].id != 0 then next + 1
        else next;
    if ops[0].id == id {
      OpRemapKeeps(ops[1..], remap', next', id);
    } else {
      OpRemapFresh(ops[1..], remap', next', id);
    }
  }

  lemma {:induction false} OpRemapDiffers(ops: seq<Op>, remap: map<Id, Id>, next: Id, x: Id, y: Id)
    requires ResultsDiffer(ops) && DefinesOp(ops, x) && DefinesOp(ops, y) && x != y
    ensures x in OpRemap(ops, remap, next) && y in OpRemap(ops, remap, next)
            && OpRemap(ops, remap, next)[x] != OpRemap(ops, remap, next)[y]
  {
    ResultsDifferTail(ops);
    DefinesCons(ops, x);
    DefinesCons(ops, y);
    var remap', next' := if ops[0].id != 0 then remap[ops[0].id := next] else remap, if ops[0].id != 0 then next + 1
        else next;
    if ops[0].id == x {
      OpRemapKeeps(ops[1..], remap', next', x);
      OpRemapFresh(ops[1..], remap', next', y);
    } else if ops[0].id == y {
      OpRemapKeeps(ops[1..], remap', next', y);
      OpRemapFresh(ops[1..], remap', next', x);
    } else {
      OpRemapDiffers(ops[1..], remap', next', x, y);
    }
  }

  /** No operation reads a result that comes later. */
  ghost predicate ReadsBackwards(ops: seq<Op>) {
    forall i, id: Id :: 0 <= i < |ops| && UsesId(ops[i], id) ==> !DefinesOp(ops[i..], id)
  }

  lemma ReadsBackwardsTail(ops: seq<Op>)
    requires ReadsBackwards(ops) && ops != []
    ensures ReadsBackwards(ops[1..])
  {
    forall i, id: Id | 0 <= i < |ops[1..]| && UsesId(ops[1..][i], id) ensures !DefinesOp(ops[1..][i..], id) {
      assert UsesId(ops[i + 1], id) && ops[1..][i..] == ops[i + 1..];
    }
  }

  /** Reading the names given so far is reading the final names. */
  lemma {:induction false} CopiedIsRenamed(ops: seq<Op>, remap: map<Id, Id>, next: Id)
    requires ResultsDiffer(ops) && ReadsBackwards(ops)
    ensures Copied(ops, remap, next) == RenamedOps(OpRemap(ops, remap, next), ops)
  {
    if ops != [] {
      var op := ops[0];
      var final := OpRemap(ops, remap, next);
      ResultsDifferTail(ops);
      ReadsBackwardsTail(ops);
      CopiedIsRenamed(ops[1..], if op.id != 0 then remap[op.id := next] else remap,
                      if op.id != 0 then next + 1 else next);
      forall i | 0 <= i < |op.arguments| ensures RenamedArgument(remap, op.arguments[i]) == RenamedArgument(final,
              op.arguments[i]) {
        if op.arguments[i].IdArgument? {
          assert UsesId(ops[0], op.arguments[i].id) && ops[0..] == ops;
          OpRemapKeeps(ops, remap, next, op.arguments[i].id);
        }
      }
      assert RenamedArguments(remap, op.arguments) == RenamedArguments(final, op.arguments);
      if op.id != 0 {
        OpRemapKeeps(ops[1..], remap[op.id := next], next + 1, op.id);
      }
    }
  }

  // ---------------------------------------------------------------- one copy

  /** What each id of the block becomes in the copy for `pred`, whose operations get ids from `next` on. */
  function CopyRemap(node: IRBlock, pred: Node, next: Id): map<Id, Id> {
    OpRemap(node.operations, PhiRemap(node.phi, pred), next)
  }

  function CopyBlock(node: IRBlock, pred: Node, next: Id): IRBlock {
    IRBlock([], Copied(node.operations, PhiRemap(node.phi, pred), next),
            RenamedTerminator(CopyRemap(node, pred, next), node.terminator))
  }

  /** What resolving the PHIs of a block on the edge from `pred` needs. */
  ghost predicate Resolvable(f: Flow, phis: seq<PHI>, pred: Node) {
    && Live(f, pred)
    && (forall i, j :: 0 <= i < j < |phis| ==> phis[i].id != phis[j].id)
    && (forall i :: 0 <= i < |phis| ==> EntryFor(f, phis[i].incoming, pred))
  }

  ghost predicate EntryFor(f: Flow, incoming: seq<IncomingValue>, pred: Node) {
    OnePerBlock(incoming) && HasBlock(incoming, pred) && forall k :: 0 <= k < |incoming| ==> incoming[k].block < |f.num|
  }

  lemma OwnEntryFound(f: Flow, incoming: seq<IncomingValue>, pred: Node, r: nat)
    requires Ok(f) && Live(f, pred) && EntryFor(f, incoming, pred) && r <= |incoming|
    requires r < |incoming| ==> Dom(f, incoming[r].block, pred)
    requires forall k :: 0 <= k < |incoming| && Dom(f, incoming[k].block, pred) ==>
               r < |incoming| && f.num[incoming[r].block] <= f.num[incoming[k].block]
    ensures r < |incoming| && incoming[r].id == IncomingFrom(incoming, pred)
  {
    hide Ok, Dom, Live;
    var k :| 0 <= k < |incoming| && incoming[k].block == pred;
    DomRefl(f, pred);
    ClosestIsOwn(f, incoming, pred, r);
  }

  lemma RemapIsPhiRemap(phis: seq<PHI>, pred: Node, remap: map<Id, Id>)
    requires forall i, j :: 0 <= i < j < |phis| ==> phis[i].id != phis[j].id
    requires forall i :: 0 <= i < |phis| ==>
               phis[i].id in remap && remap[phis[i].id] == IncomingFrom(phis[i].incoming, pred)
    requires forall id: Id :: id in remap ==> exists i :: 0 <= i < |phis| && phis[i].id == id
    ensures remap == PhiRemap(phis, pred)
  {
    forall id: Id ensures id in remap <==> id in PhiRemap(phis, pred) {
      PhiRemapDomain(phis, pred, id);
    }
    forall id: Id | id in remap ensures id in PhiRemap(phis, pred) && remap[id] == PhiRemap(phis, pred)[id] {
      var i :| 0 <= i < |phis| && phis[i].id == id;
      PhiRemapAt(phis, pred, i);
    }
  }

  method ResolvePhis(c: Pool, phis: seq<PHI>, pred: Node) returns (remap: map<Id, Id>)
    requires c.Shape() && Ok(Forward(c)) && IdomCorrect(Forward(c), c.immediateDominator)
    requires Resolvable(Forward(c), phis, pred)
    ensures remap == PhiRemap(phis, pred)
  {
    hide Dom, Live, Ok, IdomCorrect, IncomingFrom, OnePerBlock, HasBlock;
    remap := map[];
    var i := 0;
    while i < |phis|
      invariant i <= |phis|
      invariant forall k :: 0 <= k < i ==>
                  phis[k].id in remap && remap[phis[k].id] == IncomingFrom(phis[k].incoming, pred)
      invariant forall id: Id :: id in remap ==> exists k :: 0 <= k < i && phis[k].id == id
    {
      assert EntryFor(Forward(c), phis[i].incoming, pred);
      var r := FindIncomingValue(c, pred, phis[i].incoming);
      OwnEntryFound(Forward(c), phis[i].incoming, pred, r);
      remap := remap[phis[i].id := phis[i].incoming[r].id];
      i := i + 1;
    }
    RemapIsPhiRemap(phis, pred, remap);
  }

  /** Gives the predecessor `x` of `n` a copy of its own. */
  method DuplicateInto(c: Pool, f: Blocks, n: Node, x: Node) returns (block: Node, remap: map<Id, Id>)
    requires c.Shape() && Ok(Forward(c)) && IdomCorrect(Forward(c), c.immediateDominator)
    requires f.Valid() && n < |f.blocks| && x < |f.blocks| && n != x
    requires Distinct(f.succ[n]) && n !in f.succ[n] && NoNumberAbove(f.pred, |f.blocks|)
             && NoNumberAbove(f.succ, |f.blocks|)
    requires n in f.succ[x] && x in f.pred[n]
    requires Resolvable(Forward(c), f.blocks[n].phi, x)
    requires f.blocks[n].terminator.Branch? || f.blocks[n].terminator.Condition?
    requires 0 !in PhiRemap(f.blocks[n].phi, x) && !DefinesOp(f.blocks[n].operations, 0)
    modifies f
    ensures f.Valid() && f.nextId == old(f.nextId) + ResultCount(old(f.blocks[n].operations))
            && block == old(|f.blocks|)
    ensures remap == CopyRemap(old(f.blocks[n]), x, old(f.nextId))
    ensures f.View() == Inserted(old(f.View()), n, x, CopyBlock(old(f.blocks[n]), x, old(f.nextId)), old(f.blocks[n]))
  {
    hide WithPred, ReplaceFirst, Erase, Retargeted, Distinct, Ok, IdomCorrect, Live, Copied, RenamedTerminator,
        PhiRemap, OpRemap, Resolvable;
    ghost var p := f.View();
    ghost var next := f.nextId;
    block := SpliceBefore(f, n, x);
    var node := f.blocks[n];
    remap := ResolvePhis(c, node.phi, x);
    var dups;
    dups, remap := DuplicateOps(f, node.operations, remap);
    f.blocks := f.blocks[block := f.blocks[block].(operations := dups)];
    OpRemapKeeps(node.operations, PhiRemap(node.phi, x), next, 0);
    var terminator := node.terminator;
    if terminator.Condition? && terminator.conditional != 0 {
      terminator := terminator.(conditional := Renamed(remap, terminator.conditional));
    }
    f.blocks := f.blocks[block := f.blocks[block].(terminator := terminator)];
    CopyTerminator(remap, node.terminator);
    assert f.blocks == Inserted(p, n, x, CopyBlock(p.blocks[n], x, next), p.blocks[n]).blocks;
  }

  lemma CopyTerminator(remap: map<Id, Id>, t: Terminator)
    requires 0 !in remap && (t.Branch? || t.Condition?)
    ensures RenamedTerminator(remap, t) == if t.Condition? && t.conditional != 0
            then t.(conditional := Renamed(remap, t.conditional)) else t
  {}

  // ---------------------------------------------------------------- all copies

  /** The first id allocated for the i-th copy. */
  function StartOf(node: IRBlock, bound: Id, i: nat): Id {
    bound + i * ResultCount(node.operations)
  }

  function CopyBlocks(node: IRBlock, preds: seq<Node>, bound: Id): (r: seq<IRBlock>)
    ensures |r| == |preds|
  {
    seq(|preds|, i requires 0 <= i < |preds| => CopyBlock(node, preds[i], StartOf(node, bound, i)))
  }

  function Remaps(node: IRBlock, preds: seq<Node>, bound: Id): (r: seq<map<Id, Id>>)
    ensures |r| == |preds|
  {
    seq(|preds|, i requires 0 <= i < |preds| => CopyRemap(node, preds[i], StartOf(node, bound, i)))
  }

  lemma NextStart(node: IRBlock, bound: Id, i: nat)
    ensures StartOf(node, bound, i) + ResultCount(node.operations) == StartOf(node, bound, i + 1)
    ensures StartOf(node, bound, 0) == bound && StartOf(node, bound, i) >= bound
  {}

  /** What duplicating needs of the analyses: immediate dominators and numbers of the blocks as they are. */
  ghost predicate AnalysedFor(c: Pool, p: Links, live: set<Node>)
    reads c
  {
    && c.Shape() && Numbered(Forward(c), c.forwardOrder) && IdomCorrect(Forward(c), c.immediateDominator)
    && c.succ == p.succ && (forall b: Node :: b in live <==> b in c.forwardOrder)
  }

  lemma NodeCanBeCopied(c: Pool, p: Links, live: set<Node>, n: Node, bound: Id, x: Node)
    requires Separable(p, live, n, bound) && AnalysedFor(c, p, live) && x in p.pred[n]
    ensures Resolvable(Forward(c), p.blocks[n].phi, x) && Ok(Forward(c))
    ensures 0 !in PhiRemap(p.blocks[n].phi, x) && !DefinesOp(p.blocks[n].operations, 0)
    ensures p.blocks[n].terminator.Branch? || p.blocks[n].terminator.Condition?
  {
    hide Distinct, Live, Ok, Local, IdsBelow;
    assert LinkedAt(p, live, n) && PhisMatch(p, n);
    PhiRemapDomain(p.blocks[n].phi, x, 0);
    assert x in live && Live(Forward(c), x);
    assert InRange(p.pred[n], |p.blocks|);
    forall i | 0 <= i < |p.blocks[n].phi| ensures EntryFor(Forward(c), p.blocks[n].phi[i].incoming, x) {
      var incoming := p.blocks[n].phi[i].incoming;
      assert PhiMatches(incoming, p.pred[n], p.predBack[n]);
      forall k | 0 <= k < |incoming| ensures incoming[k].block < |Forward(c).num| {
        assert HasBlock(incoming, incoming[k].block);
      }
    }
  }

  lemma AboutAnalysedFor(c: Pool, p: Links, live: set<Node>)
    requires AnalysedFor(c, p, live)
    ensures c.Shape() && IdomCorrect(Forward(c), c.immediateDominator)
  {}

  lemma OneMoreCopy(node: IRBlock, preds: seq<Node>, bound: Id, base: Node, j: nat)
    requires j < |preds|
    ensures CopyBlocks(node, preds[..j],
                       bound) + [CopyBlock(node, preds[j], StartOf(node, bound, j))] == CopyBlocks(node,
                               preds[..j + 1], bound)
    ensures Remaps(node, preds[..j], bound) + [CopyRemap(node, preds[j], StartOf(node, bound, j))] == Remaps(node,
            preds[..j + 1], bound)
    ensures Fresh(base, j) + [base + j] == Fresh(base, j + 1)
  {
    hide CopyBlock, CopyRemap, StartOf;
  }

  /** The loop over the predecessors. */
  method DuplicateAll(c: Pool, f: Blocks, n: Node, ghost live: set<Node>) returns (blocks: seq<Node>,
          remaps: seq<map<Id, Id>>)
    requires f.Valid() && Separable(f.View(), live, n, f.nextId) && AnalysedFor(c, f.View(), live)
    modifies f
    ensures f.Valid()
    ensures var p, bound := old(f.View()), old(f.nextId);
            && f.nextId == StartOf(p.blocks[n], bound, |p.pred[n]|)
            && blocks == Fresh(|p.blocks|, |p.pred[n]|) && remaps == Remaps(p.blocks[n], p.pred[n], bound)
            && Cut(p, f.View(), n, CopyBlocks(p.blocks[n], p.pred[n], bound), p.blocks[n])
  {
    hide Separable, Cuttable, Cut, Inserted, Copied, OpRemap, PhiRemap, RenamedTerminator, AnalysedFor, Resolvable,
        StartOf;
    hide NoNumberAbove, InRange, Restrict, Forward, HasIdom, IdomFrom, IdomCorrect, Ok, CopyBlocks, Remaps, Distinct,
        Fresh, CopyBlock, CopyRemap, Live, Dom, ResultCount, DefinesOp;
    ghost var p, bound := f.View(), f.nextId;
    SeparableIsDetachable(p, live, n, bound);
    DetachableIsCuttable(p, live, n);
    AboutCuttable(p, n);
    AboutAnalysedFor(c, p, live);
    var preds := f.pred[n];
    blocks, remaps := [], [];
    var j := 0;
    CutStart(p, n);
    NextStart(p.blocks[n], bound, 0);
    assert CopyBlocks(p.blocks[n], preds[..0], bound) == [] && Remaps(p.blocks[n], preds[..0], bound) == []
           && Fresh(|p.blocks|, 0) == [];
    while j < |preds|
      invariant j <= |preds| && f.Valid() && f.nextId == StartOf(p.blocks[n], bound, j)
      invariant blocks == Fresh(|p.blocks|, j) && remaps == Remaps(p.blocks[n], preds[..j], bound)
      invariant Cut(p, f.View(), n, CopyBlocks(p.blocks[n], preds[..j], bound), p.blocks[n])
    {
      ghost var made := CopyBlocks(p.blocks[n], preds[..j], bound);
      ReadyForNext(p, f.View(), n, made, p.blocks[n]);
      NodeCanBeCopied(c, p, live, n, bound, preds[j]);
      CutStep(p, f.View(), n, made, p.blocks[n], CopyBlock(p.blocks[n], preds[j], f.nextId), p.blocks[n]);
      OneMoreCopy(p.blocks[n], preds, bound, |p.blocks|, j);
      NextStart(p.blocks[n], bound, j);
      var block, remap := DuplicateInto(c, f, n, preds[j]);
      blocks, remaps := blocks + [block], remaps + [remap];
      j := j + 1;
    }
    assert preds[..|preds|] == preds;
  }

  // ---------------------------------------------------------------- the successors to rewrite

  ghost predicate Chained(c: Pool, p: Links, n: Node, live: set<Node>, b: Node)
    reads c`forwardNumber
  {
    b in live && n < |c.forwardNumber| && b < |c.forwardNumber| && c.forwardNumber[b] < c.forwardNumber[n]
  }

  /** Below `n` nothing was retargeted, and every successor is below again. */
  lemma ChainStep(c: Pool, p: Links, q: Links, live: set<Node>, n: Node, bound: Id, made: seq<IRBlock>, node: IRBlock,
                  b: Node)
    requires Separable(p, live, n, bound) && AnalysedFor(c, p, live) && |made| == |p.pred[n]|
             && Cut(p, q, n, made, node)
    requires Chained(c, p, n, live, b)
    ensures b < |q.blocks| && Shaped(q) && q.succ[b] == p.succ[b] && q.succBack[b] == p.succBack[b]
    ensures forall t: Node :: t in q.succ[b] ==> Chained(c, p, n, live, t) && c.forwardNumber[t] < c.forwardNumber[b]
    ensures q.succBack[b].Some? ==> q.succBack[b].value in live && q.succBack[b].value != n
  {
    hide Separable, AnalysedFor, Cut, SuccAfter;
    AboutSeparable(p, live, n, bound);
    SeparableIsDetachable(p, live, n, bound);
    EdgeIsPred(p, live, n, bound, b);
    CutSucc(p, q, n, made, node, b);
    forall t: Node | t in p.succ[b] ensures Chained(c, p, n, live, t) && c.forwardNumber[t] < c.forwardNumber[b] {
      EdgeGoesDown(c, p, live, b, t);
    }
    UntouchedSucc(p, n, |made|, b);
    BackTarget(p, live, n, bound, b);
  }

  lemma CutSucc(p: Links, q: Links, n: Node, made: seq<IRBlock>, node: IRBlock, b: Node)
    requires Shaped(p) && n < |p.blocks| && |made| <= |p.pred[n]| && Cut(p, q, n, made, node) && b < |p.blocks|
    ensures b < |q.blocks| && Shaped(q) && q.succ[b] == SuccAfter(p, n, |made|, b) && q.succBack[b] == p.succBack[b]
  {
    hide SuccAfter, PredsAfter, BlockAfter;
  }

  lemma UntouchedSucc(p: Links, n: Node, j: nat, b: Node)
    requires Shaped(p) && n < |p.blocks| && b < |p.blocks| && j <= |p.pred[n]| && b !in p.pred[n]
    ensures SuccAfter(p, n, j, b) == p.succ[b]
  {}

  lemma BackTarget(p: Links, live: set<Node>, n: Node, bound: Id, b: Node)
    requires Separable(p, live, n, bound) && b in live
    ensures p.succBack[b].Some? ==> p.succBack[b].value in live && p.succBack[b].value != n
  {
    hide Distinct, InOrder, Local, IdsBelow;
    assert LinkedAt(p, live, b) && LinkedAt(p, live, n);
    if p.succBack[b].Some? {
      assert p.succBack[b].value in Targets(p.blocks[b].terminator);
    }
  }

  lemma EdgeGoesDown(c: Pool, p: Links, live: set<Node>, b: Node, t: Node)
    requires Linked(p, live) && AnalysedFor(c, p, live) && b in live && t in p.succ[b]
    ensures t in live && b < |c.forwardNumber| && t < |c.forwardNumber| && c.forwardNumber[t] < c.forwardNumber[b]
  {
    hide Distinct, Live;
    assert LinkedAt(p, live, b);
    assert t in Targets(p.blocks[b].terminator);
    assert Edge(Forward(c).g, b, t);
    assert Descending(Forward(c).g, c.forwardNumber);
  }

  lemma FirstSuccessors(c: Pool, p: Links, live: set<Node>, n: Node, bound: Id)
    requires Separable(p, live, n, bound) && AnalysedFor(c, p, live)
    ensures forall t: Node :: t in p.succ[n] ==> Chained(c, p, n, live, t)
  {
    hide Distinct, Live, Splittable;
    AboutSeparable(p, live, n, bound);
    forall t: Node | t in p.succ[n] ensures Chained(c, p, n, live, t) {
      EdgeGoesDown(c, p, live, n, t);
    }
  }

  ghost predicate AllIn(xs: seq<Node>, live: set<Node>, n: Node) {
    forall i :: 0 <= i < |xs| ==> xs[i] in live && xs[i] != n
  }

  /** Each successor, the chain of single successors below it, and the back edges out of all of these. */
  method CollectChains(c: Pool, f: Blocks, targets: seq<Node>, n: Node, ghost p: Links, ghost live: set<Node>,
                       ghost bound: Id, ghost made: seq<IRBlock>, ghost node: IRBlock)
    returns (succs: seq<Node>)
    requires f.Valid() && Separable(p, live, n, bound) && AnalysedFor(c, p, live) && targets == p.succ[n]
    requires |made| == |p.pred[n]| && Cut(p, f.View(), n, made, node)
    ensures AllIn(succs, live, n) && forall t: Node :: t in targets ==> t in succs
  {
    hide Separable, AnalysedFor, Cut;
    AboutSeparable(p, live, n, bound);
    FirstSuccessors(c, p, live, n, bound);
    succs := [];
    var i := 0;
    while i < |targets|
      invariant i <= |targets| && AllIn(succs, live, n)
      invariant forall k :: 0 <= k < i ==> targets[k] in succs
    {
      assert targets[i] in targets;
      var succ: Option<Node> := Some(targets[i]);
      while succ.Some?
        invariant succ.Some? ==> Chained(c, p, n, live, succ.value)
        invariant AllIn(succs, live, n)
        invariant forall k :: 0 <= k < i ==> targets[k] in succs
        invariant succ == Some(targets[i]) || targets[i] in succs
        decreases if succ.Some? then c.forwardNumber[succ.value] + 1 else 0
      {
        var b := succ.value;
        ChainStep(c, p, f.View(), live, n, bound, made, node, b);
        if f.succBackEdge[b].Some? {
          succs := succs + [f.succBackEdge[b].value];
        }
        succs := succs + [b];
        if |f.succ[b]| == 1 {
          assert f.succ[b][0] in f.succ[b];
          succ := Some(f.succ[b][0]);
        } else {
          succ := None;
        }
      }
      i := i + 1;
    }
  }

  // ---------------------------------------------------------------- rewriting their PHIs

  function RepeatedRenamed(id: Id, blocks: seq<Node>, remaps: seq<map<Id, Id>>): (r: seq<IncomingValue>)
    requires |remaps| == |blocks|
    ensures |r| == |blocks|
  {
    seq(|blocks|, i requires 0 <= i < |blocks| => IncomingValue(blocks[i], Renamed(remaps[i], id)))
  }

  function Reissued(incoming: seq<IncomingValue>, n: Node, blocks: seq<Node>,
                    remaps: seq<map<Id, Id>>): seq<IncomingValue>
    requires |remaps| == |blocks|
  {
    if HasBlock(incoming, n) then EraseBlock(incoming, n) + RepeatedRenamed(IncomingFrom(incoming, n), blocks, remaps)
    else incoming
  }

  function ReissuedPhis(phis: seq<PHI>, n: Node, blocks: seq<Node>, remaps: seq<map<Id, Id>>): (r: seq<PHI>)
    requires |remaps| == |blocks|
    ensures |r| == |phis|
  {
    seq(|phis|, i requires 0 <= i < |phis| => PHI(phis[i].id, Reissued(phis[i].incoming, n, blocks, remaps)))
  }

  /** The entry of the duplicated block, if there is one, becomes one entry for each copy. */
  method ReissueIncoming(incoming0: seq<IncomingValue>, n: Node, blocks: seq<Node>,
                         remaps: seq<map<Id, Id>>) returns (incoming: seq<IncomingValue>)
    requires |remaps| == |blocks|
    ensures incoming == Reissued(incoming0, n, blocks, remaps)
  {
    incoming := incoming0;
    var i := 0;
    while i < |incoming| && incoming[i].block != n
      invariant i <= |incoming| && forall k :: 0 <= k < i ==> incoming[k].block != n
    {
      i := i + 1;
    }
    if i < |incoming| {
      EraseAt(incoming0, n, i);
      var id := incoming[i].id;
      incoming := incoming[..i] + incoming[i + 1..];
      ghost var rest := incoming;
      var k := 0;
      while k < |blocks|
        invariant k <= |blocks| && incoming == rest + RepeatedRenamed(id, blocks[..k], remaps[..k])
      {
        assert RepeatedRenamed(id, blocks[..k], remaps[..k]) + [IncomingValue(blocks[k], Renamed(remaps[k], id))]
            == RepeatedRenamed(id, blocks[..k + 1], remaps[..k + 1]);
        incoming := incoming + [IncomingValue(blocks[k], Renamed(remaps[k], id))];
        k := k + 1;
      }
      assert blocks[..|blocks|] == blocks && remaps[..|blocks|] == remaps;
    }
  }

  method ReissuePhis(phis0: seq<PHI>, n: Node, blocks: seq<Node>, remaps: seq<map<Id, Id>>) returns (phis: seq<PHI>)
    requires |remaps| == |blocks|
    ensures phis == ReissuedPhis(phis0, n, blocks, remaps)
  {
    hide Reissued;
    phis := phis0;
    var i := 0;
    while i < |phis|
      invariant i <= |phis| == |phis0|
      invariant forall k :: 0 <= k < i ==> phis[k] == PHI(phis0[k].id, Reissued(phis0[k].incoming, n, blocks, remaps))
      invariant forall k :: i <= k < |phis| ==> phis[k] == phis0[k]
    {
      var incoming := ReissueIncoming(phis[i].incoming, n, blocks, remaps);
      phis := phis[i := phis[i].(incoming := incoming)];
      i := i + 1;
    }
    assert phis == ReissuedPhis(phis0, n, blocks, remaps);
  }

  function ReissuedBlocks(blocks: seq<IRBlock>, succs: seq<Node>, n: Node, copies: seq<Node>,
                          remaps: seq<map<Id, Id>>): (r: seq<IRBlock>)
    requires |remaps| == |copies|
    ensures |r| == |blocks|
  {
    seq(|blocks|, b requires 0 <= b < |blocks| => if b in succs
        then blocks[b].(phi := ReissuedPhis(blocks[b].phi, n, copies, remaps)) else blocks[b])
  }

  /** Rewriting a PHI again changes nothing: the entry is gone. */
  lemma ReissuedTwice(phis: seq<PHI>, n: Node, copies: seq<Node>, remaps: seq<map<Id, Id>>)
    requires |remaps| == |copies| && n !in copies && forall i :: 0 <= i < |phis| ==> OnePerBlock(phis[i].incoming)
    ensures ReissuedPhis(ReissuedPhis(phis, n, copies, remaps), n, copies, remaps) == ReissuedPhis(phis, n, copies,
            remaps)
  {
    hide OnePerBlock, HasBlock, EraseBlock, IncomingFrom;
    forall i | 0 <= i < |phis| ensures !HasBlock(ReissuedPhis(phis, n, copies, remaps)[i].incoming, n) {
      var incoming := phis[i].incoming;
      if HasBlock(incoming, n) {
        EraseBlockOne(incoming, n);
        var added := RepeatedRenamed(IncomingFrom(incoming, n), copies, remaps);
        NotRepeated(IncomingFrom(incoming, n), copies, remaps, n);
        HasBlockConcat(EraseBlock(incoming, n), added, n);
      }
    }
  }

  lemma NotRepeated(id: Id, copies: seq<Node>, remaps: seq<map<Id, Id>>, n: Node)
    requires |remaps| == |copies|
    ensures HasBlock(RepeatedRenamed(id, copies, remaps), n) <==> n in copies
  {
    if n in copies {
      var k :| 0 <= k < |copies| && copies[k] == n;
      assert RepeatedRenamed(id, copies, remaps)[k].block == n;
    }
  }

  lemma ReissueNext(blocks: seq<IRBlock>, succs: seq<Node>, i: nat, n: Node, copies: seq<Node>,
                    remaps: seq<map<Id, Id>>)
    requires i < |succs| && succs[i] < |blocks| && |remaps| == |copies| && n !in copies
    requires forall k :: 0 <= k < |blocks[succs[i]].phi| ==> OnePerBlock(blocks[succs[i]].phi[k].incoming)
    ensures var now, s := ReissuedBlocks(blocks, succs[..i], n, copies, remaps), succs[i];
            now[s := now[s].(phi := ReissuedPhis(now[s].phi, n, copies, remaps))] == ReissuedBlocks(blocks,
                    succs[..i + 1], n, copies, remaps)
  {
    hide ReissuedPhis;
    ReissuedTwice(blocks[succs[i]].phi, n, copies, remaps);
    assert succs[..i + 1] == succs[..i] + [succs[i]];
  }

  ghost predicate WellFormedPhis(blocks: seq<IRBlock>, b: Node)
    requires b < |blocks|
  {
    forall k :: 0 <= k < |blocks[b].phi| ==> OnePerBlock(blocks[b].phi[k].incoming)
  }

  /** The loop over the collected successors. */
  method ReissueAll(f: Blocks, succs: seq<Node>, n: Node, copies: seq<Node>, remaps: seq<map<Id, Id>>)
    requires f.Valid() && InRange(succs, |f.blocks|) && |remaps| == |copies| && n !in copies
    requires forall i :: 0 <= i < |succs| ==> WellFormedPhis(f.blocks, succs[i])
    modifies f`blocks
    ensures f.Valid() && f.blocks == ReissuedBlocks(old(f.blocks), succs, n, copies, remaps)
  {
    hide ReissuedPhis, ReissuedBlocks, OnePerBlock;
    ghost var blocks := f.blocks;
    ReissueStart(blocks, n, copies, remaps);
    var i := 0;
    while i < |succs|
      invariant i <= |succs| && f.Valid() && f.blocks == ReissuedBlocks(blocks, succs[..i], n, copies, remaps)
    {
      var s := succs[i];
      assert WellFormedPhis(blocks, s);
      ReissueNext(blocks, succs, i, n, copies, remaps);
      var phis := ReissuePhis(f.blocks[s].phi, n, copies, remaps);
      f.blocks := f.blocks[s := f.blocks[s].(phi := phis)];
      i := i + 1;
    }
    assert succs[..|succs|] == succs;
  }

  lemma ReissueStart(blocks: seq<IRBlock>, n: Node, copies: seq<Node>, remaps: seq<map<Id, Id>>)
    requires |remaps| == |copies|
    ensures ReissuedBlocks(blocks, [], n, copies, remaps) == blocks
  {}

  // ---------------------------------------------------------------- the whole duplication

  function Copies(p: Links, n: Node, bound: Id): (r: seq<Copy>)
    requires Shaped(p) && n < |p.blocks|
    ensures |r| == |p.pred[n]|
  {
    seq(|p.pred[n]|, i requires 0 <= i < |p.pred[n]| =>
      Copy(p.pred[n][i], |p.blocks| + i, CopyRemap(p.blocks[n], p.pred[n][i], StartOf(p.blocks[n], bound, i))))
  }

  /** A live block other than `n` afterwards. */
  ghost function OldBlock(p: Links, n: Node, bound: Id, b: Node): IRBlock
    requires Shaped(p) && n < |p.blocks| && b < |p.blocks|
  {
    var node, preds := p.blocks[n], p.pred[n];
    BlockAfter(p, n, CopyBlocks(node, preds, bound), node, b)
      .(phi := ReissuedPhis(p.blocks[b].phi, n, Fresh(|p.blocks|, |preds|), Remaps(node, preds, bound)))
  }

  ghost predicate Duplicated(p: Links, q: Links, live: set<Node>, n: Node, bound: Id)
    requires Shaped(p) && n < |p.blocks|
  {
    var k, base := |p.pred[n]|, |p.blocks|;
    && Shaped(q) && |q.blocks| == base + k
    && (forall b: Node :: b in live && b != n && b < base ==> q.blocks[b] == OldBlock(p, n, bound, b))
    && (forall b: Node :: b < base && b != n ==>
          q.blocks[b].terminator == BlockAfter(p, n, CopyBlocks(p.blocks[n], p.pred[n], bound), p.blocks[n],
                                               b).terminator)
    && (forall b: Node :: base <= b < base + k ==>
          q.blocks[b] == CopyBlock(p.blocks[n], p.pred[n][b - base], StartOf(p.blocks[n], bound, b - base)))
    && (forall b: Node :: b < |q.blocks| ==> q.succ[b] == SuccAfter(p, n, k, b))
    && (forall b: Node :: b < |q.blocks| ==> q.pred[b] == PredsAfter(p, n, k, b))
    && q.succBack == p.succBack + Nones(k) && q.predBack == p.predBack + Nones(k)
  }

  /** A block that is not a successor of `n` has no entry to rewrite. */
  lemma NothingToReissue(p: Links, live: set<Node>, n: Node, bound: Id, b: Node, copies: seq<Node>,
                         remaps: seq<map<Id, Id>>)
    requires Separable(p, live, n, bound) && b in live && b !in p.succ[n] && |remaps| == |copies|
    ensures b < |p.blocks| && ReissuedPhis(p.blocks[b].phi, n, copies, remaps) == p.blocks[b].phi
  {
    hide Separable, HasBlock, OnePerBlock, EraseBlock;
    AboutSeparable(p, live, n, bound);
    AboutSuccessor(p, live, n, bound, b);
    forall i | 0 <= i < |p.blocks[b].phi| ensures !HasBlock(p.blocks[b].phi[i].incoming, n) {
      assert PhiMatches(p.blocks[b].phi[i].incoming, p.pred[b], p.predBack[b]);
    }
  }

  lemma CutBlock(p: Links, q: Links, n: Node, made: seq<IRBlock>, node: IRBlock, b: Node)
    requires Shaped(p) && n < |p.blocks| && |made| <= |p.pred[n]| && Cut(p, q, n, made, node) && b < |p.blocks| + |made|
    ensures Shaped(q) && |q.blocks| == |p.blocks| + |made| && q.blocks[b] == BlockAfter(p, n, made, node, b)
  {
    hide SuccAfter, PredsAfter, BlockAfter;
  }

  lemma ReadyToReissue(p: Links, r: Links, live: set<Node>, n: Node, bound: Id, made: seq<IRBlock>, s: Node)
    requires Separable(p, live, n, bound) && |made| == |p.pred[n]| && Cut(p, r, n, made, p.blocks[n]) && s in live
             && s != n
    ensures s < |r.blocks| && WellFormedPhis(r.blocks, s) && r.blocks[s].phi == p.blocks[s].phi
  {
    hide Separable, Cut;
    AboutSeparable(p, live, n, bound);
    AboutSuccessor(p, live, n, bound, s);
    CutBlock(p, r, n, made, p.blocks[n], s);
    forall k | 0 <= k < |r.blocks[s].phi| ensures OnePerBlock(r.blocks[s].phi[k].incoming) {
      assert PhiMatches(p.blocks[s].phi[k].incoming, p.pred[s], p.predBack[s]);
    }
  }

  lemma ReissuedBlockIs(p: Links, r: Links, live: set<Node>, n: Node, bound: Id, succs: seq<Node>, b: Node)
    requires Separable(p, live, n, bound) && Cut(p, r, n, CopyBlocks(p.blocks[n], p.pred[n], bound), p.blocks[n])
    requires AllIn(succs, live, n) && (forall t: Node :: t in p.succ[n] ==> t in succs) && b < |p.blocks| + |p.pred[n]|
    ensures b < |r.blocks|
    ensures var q := ReissuedBlocks(r.blocks, succs, n, Fresh(|p.blocks|, |p.pred[n]|),
                                    Remaps(p.blocks[n], p.pred[n], bound));
            && (b in live && b != n && b < |p.blocks| ==> q[b] == OldBlock(p, n, bound, b))
            && (b < |p.blocks| ==>
                  q[b].terminator == BlockAfter(p, n, CopyBlocks(p.blocks[n], p.pred[n], bound), p.blocks[n],
                                                b).terminator)
            && (b >= |p.blocks| ==>
                  q[b] == CopyBlock(p.blocks[n], p.pred[n][b - |p.blocks|],
                                    StartOf(p.blocks[n], bound, b - |p.blocks|)))
  {
    hide Separable, Cut, ReissuedPhis, CopyBlock, StartOf, Retargeted, Remaps, Fresh;
    AboutSeparable(p, live, n, bound);
    CutBlock(p, r, n, CopyBlocks(p.blocks[n], p.pred[n], bound), p.blocks[n], b);
    if b < |p.blocks| && b in live && b != n {
      if b !in succs {
        NothingToReissue(p, live, n, bound, b, Fresh(|p.blocks|, |p.pred[n]|), Remaps(p.blocks[n], p.pred[n], bound));
      }
    }
  }

  lemma ReissuedIsDuplicated(p: Links, r: Links, q: Links, live: set<Node>, n: Node, bound: Id, succs: seq<Node>)
    requires Separable(p, live, n, bound) && Cut(p, r, n, CopyBlocks(p.blocks[n], p.pred[n], bound), p.blocks[n])
    requires AllIn(succs, live, n) && (forall t: Node :: t in p.succ[n] ==> t in succs)
    requires q.blocks == ReissuedBlocks(r.blocks, succs, n, Fresh(|p.blocks|, |p.pred[n]|),
                                        Remaps(p.blocks[n], p.pred[n], bound))
    requires q.succ == r.succ && q.pred == r.pred && q.succBack == r.succBack && q.predBack == r.predBack
    ensures Duplicated(p, q, live, n, bound)
  {
    hide Separable, ReissuedBlocks, OldBlock, CopyBlock, StartOf, SuccAfter, PredsAfter, BlockAfter, AllIn, Fresh,
        Remaps;
    AboutSeparable(p, live, n, bound);
    forall b: Node | b < |q.blocks|
      ensures b in live && b != n && b < |p.blocks| ==> q.blocks[b] == OldBlock(p, n, bound, b)
      ensures b < |p.blocks| ==>
                q.blocks[b].terminator == BlockAfter(p, n, CopyBlocks(p.blocks[n], p.pred[n], bound), p.blocks[n],
                                                     b).terminator
      ensures b >= |p.blocks| ==>
                q.blocks[b] == CopyBlock(p.blocks[n], p.pred[n][b - |p.blocks|],
                                         StartOf(p.blocks[n], bound, b - |p.blocks|))
    {
      ReissuedBlockIs(p, r, live, n, bound, succs, b);
    }
  }

  /** An operation does not read what it or a later operation defines. */
  lemma NotReadYet(node: IRBlock, i: nat, k: nat, id: Id)
    requires InOrder(node) && i <= k < |node.operations| && UsesId(node.operations[i], id) && id != 0
    ensures node.operations[k].id != id
  {
    if node.operations[k].id == id {
      assert DefinesOp(node.operations, id);
    }
  }

  lemma InOrderIsBackwards(node: IRBlock)
    requires InOrder(node)
    ensures ResultsDiffer(node.operations) && ReadsBackwards(node.operations)
  {
    var ops := node.operations;
    forall i, id: Id | 0 <= i < |ops| && UsesId(ops[i], id) ensures !DefinesOp(ops[i..], id) {
      forall k | 0 <= k < |ops[i..]| && id != 0 ensures ops[i..][k].id != id {
        NotReadYet(node, i, i + k, id);
      }
    }
  }

  lemma CopyRemapIsRemap(node: IRBlock, pred: Node, next: Id, bound: Id)
    requires InOrder(node) && next >= bound
    ensures RemapOf(node, pred, CopyRemap(node, pred, next), bound)
  {
    hide ReadsBackwards;
    InOrderIsBackwards(node);
    var remap, first := CopyRemap(node, pred, next), PhiRemap(node.phi, pred);
    forall id: Id
      ensures id in remap <==> Defines(node, id)
      ensures DefinesOp(node.operations, id) ==> id in remap && remap[id] >= bound
    {
      CopyRemapAt(node, pred, next, id);
    }
    forall i | 0 <= i < |node.phi| ensures node.phi[i].id in remap
        && remap[node.phi[i].id] == IncomingFrom(node.phi[i].incoming, pred) {
      PhiIsNotOp(node, i);
      CopyRemapAt(node, pred, next, node.phi[i].id);
      PhiRemapAt(node.phi, pred, i);
    }
    forall x: Id, y: Id | DefinesOp(node.operations, x) && DefinesOp(node.operations, y) && x != y && x in remap
    && y in remap
      ensures remap[x] != remap[y]
    {
      OpRemapDiffers(node.operations, first, next, x, y);
    }
  }

  lemma PhiIsNotOp(node: IRBlock, i: nat)
    requires InOrder(node) && i < |node.phi|
    ensures !DefinesOp(node.operations, node.phi[i].id)
  {}

  /** Results are renamed to the ids allocated for the copy, PHIs to their values, and nothing else is renamed. */
  lemma CopyRemapAt(node: IRBlock, pred: Node, next: Id, id: Id)
    requires ResultsDiffer(node.operations)
    ensures id in CopyRemap(node, pred, next) <==> Defines(node, id)
    ensures DefinesOp(node.operations, id) ==>
              id in CopyRemap(node, pred, next)
              && next <= CopyRemap(node, pred, next)[id] < next + ResultCount(node.operations)
    ensures !DefinesOp(node.operations, id) && id in CopyRemap(node, pred, next) ==>
              id in PhiRemap(node.phi, pred) && CopyRemap(node, pred, next)[id] == PhiRemap(node.phi, pred)[id]
  {
    PhiRemapDomain(node.phi, pred, id);
    OpRemapKeeps(node.operations, PhiRemap(node.phi, pred), next, id);
    if DefinesOp(node.operations, id) {
      OpRemapFresh(node.operations, PhiRemap(node.phi, pred), next, id);
    }
  }

  lemma IsDuplicateCopy(p: Links, q: Links, live: set<Node>, n: Node, bound: Id, i: nat)
    requires Separable(p, live, n, bound) && Duplicated(p, q, live, n, bound) && i < |p.pred[n]|
    ensures IsCopy(p.blocks, q.blocks, live, n, Copies(p, n, bound)[i], bound)
  {
    hide Separable, InOrder, RemapOf, CopyRemap, PhiRemap, OpRemap, RenamedTerminator, RenamedOps, Copied, Targets,
        OldBlock, LiveSet, ResultsDiffer, ReadsBackwards;
    AboutSeparable(p, live, n, bound);
    var node, x, next := p.blocks[n], p.pred[n][i], StartOf(p.blocks[n], bound, i);
    assert x in p.pred[n];
    EdgeIsPred(p, live, n, bound, x);
    NextStart(node, bound, i);
    CopyRemapIsRemap(node, x, next, bound);
    InOrderIsBackwards(node);
    CopyOperations(node, x, next);
    assert q.blocks[|p.blocks| + i] == CopyBlock(node, x, next);
  }

  lemma CopyOperations(node: IRBlock, x: Node, next: Id)
    requires ResultsDiffer(node.operations) && ReadsBackwards(node.operations)
    ensures CopyBlock(node, x, next).operations == RenamedOps(CopyRemap(node, x, next), node.operations)
  {
    CopiedIsRenamed(node.operations, PhiRemap(node.phi, x), next);
  }

  lemma IsDuplicateRedirected(p: Links, q: Links, live: set<Node>, n: Node, bound: Id, b: Node)
    requires Separable(p, live, n, bound) && Duplicated(p, q, live, n, bound) && b in live && b != n
    ensures Redirected(p.blocks, q.blocks, n, Copies(p, n, bound), b)
  {
    hide Separable, ReissuedPhis, Retargeted, CopyRemap, CopyBlock, InOrder, Targets, LiveSet, SuccAfter, PredsAfter,
        StartOf;
    AboutSeparable(p, live, n, bound);
    EdgeIsPred(p, live, n, bound, b);
    if b in p.pred[n] {
      var i := Index(p.pred[n], b);
      assert Copies(p, n, bound)[i].pred == b && Copies(p, n, bound)[i].block == |p.blocks| + i;
    }
  }

  lemma RepeatedRenamedFrom(id: Id, copies: seq<Node>, remaps: seq<map<Id, Id>>, i: nat)
    requires |remaps| == |copies| && Distinct(copies) && i < |copies|
    ensures OnePerBlock(RepeatedRenamed(id, copies, remaps))
            && IncomingFrom(RepeatedRenamed(id, copies, remaps), copies[i]) == Renamed(remaps[i], id)
  {
    var added := RepeatedRenamed(id, copies, remaps);
    forall a, b | 0 <= a < b < |copies| ensures added[a].block != added[b].block {
      DistinctPair(copies, a, b);
    }
    IncomingAt(added, i);
  }

  /** A PHI of a successor of `n`, before and after. */
  lemma ReissuedPhi(p: Links, live: set<Node>, n: Node, bound: Id, b: Node, i: nat)
    requires Separable(p, live, n, bound) && b in live && b in p.succ[n] && i < |p.blocks[b].phi|
    ensures var was := p.blocks[b].phi[i];
            var is' := PHI(was.id,
                           Reissued(was.incoming, n, Fresh(|p.blocks|, |p.pred[n]|),
                                    Remaps(p.blocks[n], p.pred[n], bound)));
            && PhiFollows(p.blocks, live, n, Copies(p, n, bound), b, was, is')
            && PhiMatches(is'.incoming, Erase(p.pred[b] + Fresh(|p.blocks|, |p.pred[n]|), n), p.predBack[b])
  {
    hide Separable, OnePerBlock, HasBlock, Renamed, CopyRemap, EraseBlock, Fresh, IncomingFrom, Erase, Distinct,
        RepeatedRenamed, StartOf;
    AboutSeparable(p, live, n, bound);
    AboutSuccessor(p, live, n, bound, b);
    AtLeastOne(p, live, n, bound);
    var base, k := |p.blocks|, |p.pred[n]|;
    var copies, remaps := Fresh(base, k), Remaps(p.blocks[n], p.pred[n], bound);
    var was := p.blocks[b].phi[i];
    var id := IncomingFrom(was.incoming, n);
    var added := RepeatedRenamed(id, copies, remaps);
    DistinctFresh(base, k);
    RepeatedRenamedFrom(id, copies, remaps, 0);
    forall f: Node ensures f in copies <==> base <= f < base + k
      ensures HasBlock(added, f) <==> f in copies
    {
      FreshMembers(base, k, f);
      NotRepeated(id, copies, remaps, f);
    }
    assert PhiMatches(was.incoming, p.pred[b], p.predBack[b]) && HasBlock(was.incoming, n);
    ReplacedMatches(was.incoming, n, added, p.pred[b], p.predBack[b], copies);
    ErasedPreds(p.pred[b], base, k, n);
    forall f: Node | f in live && f != n && b in Targets(p.blocks[f].terminator)
      ensures IncomingFrom(EraseBlock(was.incoming, n) + added, f) == IncomingFrom(was.incoming, f)
    {
      AboutEdge(p, live, n, bound, b, f);
      ReplacedEntry(was.incoming, n, added, f);
    }
    var cs := Copies(p, n, bound);
    forall j | 0 <= j < k ensures IncomingFrom(EraseBlock(was.incoming, n) + added,
                                               cs[j].block) == Renamed(cs[j].remap, id) {
      ReplacedEntry(was.incoming, n, added, base + j);
      FreshAt(base, k, j);
      RepeatedRenamedFrom(id, copies, remaps, j);
    }
  }

  lemma OldPhi(p: Links, n: Node, bound: Id, b: Node, i: nat)
    requires Shaped(p) && n < |p.blocks| && b < |p.blocks| && i < |p.blocks[b].phi|
    ensures |OldBlock(p, n, bound, b).phi| == |p.blocks[b].phi|
    ensures OldBlock(p, n, bound, b).phi[i]
         == PHI(p.blocks[b].phi[i].id,
                Reissued(p.blocks[b].phi[i].incoming, n, Fresh(|p.blocks|, |p.pred[n]|),
                         Remaps(p.blocks[n], p.pred[n], bound)))
  {
    hide Reissued, BlockAfter, Remaps, Fresh;
  }

  lemma IsDuplicateFollowed(p: Links, q: Links, live: set<Node>, n: Node, bound: Id, b: Node)
    requires Separable(p, live, n, bound) && Duplicated(p, q, live, n, bound) && b in live && b != n
    ensures PhisFollow(p.blocks, q.blocks, live, n, Copies(p, n, bound), b)
  {
    hide Separable, Reissued, CopyRemap, Retargeted, Fresh, Targets, SuccAfter, PredsAfter, CopyBlock, StartOf,
        OldBlock, Remaps;
    AboutSeparable(p, live, n, bound);
    AboutSuccessor(p, live, n, bound, b);
    SamePhiCount(p, n, bound, b);
    forall i | 0 <= i < |p.blocks[b].phi| ensures PhiFollows(p.blocks, live, n, Copies(p, n, bound), b,
                                                             p.blocks[b].phi[i], q.blocks[b].phi[i]) {
      if b in p.succ[n] {
        OldPhi(p, n, bound, b, i);
        ReissuedPhi(p, live, n, bound, b, i);
      } else {
        OldPhiKept(p, live, n, bound, b);
      }
    }
  }

  lemma SamePhiCount(p: Links, n: Node, bound: Id, b: Node)
    requires Shaped(p) && n < |p.blocks| && b < |p.blocks|
    ensures |OldBlock(p, n, bound, b).phi| == |p.blocks[b].phi|
  {}

  lemma OldPhiKept(p: Links, live: set<Node>, n: Node, bound: Id, b: Node)
    requires Separable(p, live, n, bound) && b in live && b !in p.succ[n]
    ensures Shaped(p) && n < |p.blocks| && b < |p.blocks| && OldBlock(p, n, bound, b).phi == p.blocks[b].phi
  {
    hide Separable;
    AboutSeparable(p, live, n, bound);
    NothingToReissue(p, live, n, bound, b, Fresh(|p.blocks|, |p.pred[n]|), Remaps(p.blocks[n], p.pred[n], bound));
  }

  lemma DuplicatedIsSplit(p: Links, q: Links, live: set<Node>, n: Node, bound: Id)
    requires Separable(p, live, n, bound) && Duplicated(p, q, live, n, bound)
    ensures IsSplit(p.blocks, q.blocks, live, n, Copies(p, n, bound), bound)
  {
    hide Separable, IsCopy, Redirected, PhisFollow, OldBlock, CopyBlock, StartOf, SuccAfter, PredsAfter;
    AboutSeparable(p, live, n, bound);
    forall i | 0 <= i < |Copies(p, n, bound)| ensures IsCopy(p.blocks, q.blocks, live, n, Copies(p, n, bound)[i],
                                                             bound) {
      IsDuplicateCopy(p, q, live, n, bound, i);
    }
    forall b: Node | b in live && b != n ensures Redirected(p.blocks, q.blocks, n, Copies(p, n, bound), b)
        && PhisFollow(p.blocks, q.blocks, live, n, Copies(p, n, bound), b) {
      IsDuplicateRedirected(p, q, live, n, bound, b);
      IsDuplicateFollowed(p, q, live, n, bound, b);
    }
  }

  // ---------------------------------------------------------------- consistency once the dead block is pruned

  /** `n` is unreachable but still listed as a predecessor of its successors, until the next traversal prunes it. */
  function Pruned(q: Links, targets: seq<Node>, n: Node): Links {
    q.(pred := PredsWithout(q.pred, targets, n))
  }

  lemma DuplicatedIsRewired(p: Links, q: Links, live: set<Node>, n: Node, bound: Id)
    requires Separable(p, live, n, bound) && Duplicated(p, q, live, n, bound)
    ensures Rewired(p, Pruned(q, p.succ[n], n), n)
  {
    hide Separable, ReissuedPhis, SuccAfter, PredsAfter, Retargeted, Targets, Erase, StartOf, CopyRemap, Copied,
        LiveSet, Remaps;
    AboutSeparable(p, live, n, bound);
    var r := Pruned(q, p.succ[n], n);
    forall b: Node | |p.blocks| <= b < |q.blocks|
      ensures Targets(r.blocks[b].terminator) == Targets(p.blocks[n].terminator)
    {
      RenamedTargets(CopyRemap(p.blocks[n], p.pred[n][b - |p.blocks|], StartOf(p.blocks[n], bound, b - |p.blocks|)),
                     p.blocks[n].terminator);
    }
  }

  lemma RenamedTargets(remap: map<Id, Id>, t: Terminator)
    ensures Targets(RenamedTerminator(remap, t)) == Targets(t)
  {}

  lemma DuplicatePhisMatch(p: Links, q: Links, live: set<Node>, n: Node, bound: Id, b: Node)
    requires Separable(p, live, n, bound) && Duplicated(p, q, live, n, bound) && b in LiveAfter(p, n, live, |p.pred[n]|)
    ensures Shaped(q) && b < |q.blocks| && PhisMatch(Pruned(q, p.succ[n], n), b)
  {
    hide Separable, Reissued, CopyRemap, Retargeted, Fresh, Targets, SuccAfter, Copied, StartOf, OldBlock, Remaps,
        LiveAfter, PhiMatches, Erase, LiveSet;
    AboutSeparable(p, live, n, bound);
    LiveAfterMembers(p, n, live, b);
    if b < |p.blocks| {
      AboutSuccessor(p, live, n, bound, b);
      SamePhiCount(p, n, bound, b);
      var r := Pruned(q, p.succ[n], n);
      forall i | 0 <= i < |r.blocks[b].phi| ensures PhiMatches(r.blocks[b].phi[i].incoming, r.pred[b], r.predBack[b]) {
        if b in p.succ[n] {
          OldPhi(p, n, bound, b, i);
          ReissuedPhi(p, live, n, bound, b, i);
        } else {
          OldPhiKept(p, live, n, bound, b);
        }
      }
    }
  }

  lemma DuplicatedIsLinked(p: Links, q: Links, live: set<Node>, n: Node, bound: Id)
    requires Separable(p, live, n, bound) && Duplicated(p, q, live, n, bound)
    ensures Linked(Pruned(q, p.succ[n], n), LiveAfter(p, n, live, |p.pred[n]|))
  {
    hide Separable, Duplicated, Detachable, Cuttable, Rewired, LinkedAt, PhisMatch, LiveAfter, Targets, InRange;
    AboutSeparable(p, live, n, bound);
    SeparableIsDetachable(p, live, n, bound);
    DuplicatedIsRewired(p, q, live, n, bound);
    var r := Pruned(q, p.succ[n], n);
    forall b: Node | b in LiveAfter(p, n, live, |p.pred[n]|)
      ensures b < |r.blocks| && Shaped(r) && LinkedAt(r, LiveAfter(p, n, live, |p.pred[n]|), b) && PhisMatch(r, b)
      ensures forall t: Node :: t in Targets(r.blocks[b].terminator) ==> t in LiveAfter(p, n, live, |p.pred[n]|)
    {
      LiveAfterMembers(p, n, live, b);
      DuplicatePhisMatch(p, q, live, n, bound, b);
      if b < |p.blocks| {
        OldBlockLinked(p, r, live, n, b);
      } else {
        NewBlockLinked(p, r, live, n, b);
      }
    }
    DuplicatedShape(p, q, live, n, bound);
    StillInRange(p, r, live, n);
  }

  lemma DuplicatedShape(p: Links, q: Links, live: set<Node>, n: Node, bound: Id)
    requires Shaped(p) && n < |p.blocks| && Duplicated(p, q, live, n, bound)
    ensures Shaped(q)
  {}

  // ---------------------------------------------------------------- unique result ids

  /** No id is defined by two blocks. */
  ghost predicate DefinedOnce(blocks: seq<IRBlock>, live: set<Node>) {
    forall b: Node, d: Node, id: Id ::
      b in live && d in live && b < |blocks| && d < |blocks| && Defines(blocks[b], id) && Defines(blocks[d], id) ==>
        b == d
  }

  lemma {:induction false} CopiedDefines(ops: seq<Op>, remap: map<Id, Id>, next: Id, id: Id)
    requires DefinesOp(Copied(ops, remap, next), id)
    ensures next <= id < next + ResultCount(ops)
  {
    if ops != [] {
      var copied := Copied(ops, remap, next);
      DefinesCons(copied, id);
      var remap', next' := if ops[0].id != 0 then remap[ops[0].id := next] else remap, if ops[0].id != 0 then next + 1
          else next;
      assert copied[1..] == Copied(ops[1..], remap', next');
      if DefinesOp(copied[1..], id) {
        CopiedDefines(ops[1..], remap', next', id);
      }
    }
  }

  /** The ids allocated for two copies do not overlap. */
  lemma StartsApart(node: IRBlock, bound: Id, i: nat, j: nat)
    requires i < j
    ensures StartOf(node, bound, i) + ResultCount(node.operations) <= StartOf(node, bound, j)
  {
    assert (i + 1) * ResultCount(node.operations) <= j * ResultCount(node.operations);
  }

  lemma NewBlockDefines(p: Links, q: Links, live: set<Node>, n: Node, bound: Id, b: Node, id: Id)
    requires Shaped(p) && n < |p.blocks| && Duplicated(p, q, live, n, bound) && |p.blocks| <= b < |q.blocks|
             && Defines(q.blocks[b], id)
    ensures var start := StartOf(p.blocks[n], bound, b - |p.blocks|);
            start <= id < start + ResultCount(p.blocks[n].operations)
    ensures id >= bound
  {
    hide Copied, CopyRemap, OldBlock, SuccAfter, PredsAfter, StartOf, BlockAfter;
    CopiedDefines(p.blocks[n].operations, PhiRemap(p.blocks[n].phi, p.pred[n][b - |p.blocks|]),
                  StartOf(p.blocks[n], bound, b - |p.blocks|), id);
    NextStart(p.blocks[n], bound, b - |p.blocks|);
  }

  lemma OldBlockDefines(p: Links, q: Links, live: set<Node>, n: Node, bound: Id, b: Node, id: Id)
    requires Separable(p, live, n, bound) && Duplicated(p, q, live, n, bound) && b in live && b != n && b < |q.blocks|
             && Defines(q.blocks[b], id)
    ensures Defines(p.blocks[b], id) && id < bound
  {
    hide Linked, InOrder, Local, CopyBlock, SuccAfter, PredsAfter, StartOf, Reissued;
    AboutSeparable(p, live, n, bound);
    assert b < |p.blocks| && BlockIdsBelow(p.blocks[b], bound);
    SamePhiCount(p, n, bound, b);
    if DefinesPhi(q.blocks[b], id) {
      var i :| 0 <= i < |q.blocks[b].phi| && q.blocks[b].phi[i].id == id;
      OldPhi(p, n, bound, b, i);
      assert p.blocks[b].phi[i].id == id;
    }
  }

  /** Result ids stay unique: each copy has ids of its own. */
  lemma IdsStayUnique(p: Links, q: Links, live: set<Node>, n: Node, bound: Id)
    requires Separable(p, live, n, bound) && Duplicated(p, q, live, n, bound) && DefinedOnce(p.blocks, live)
    ensures DefinedOnce(q.blocks, LiveAfter(p, n, live, |p.pred[n]|))
  {
    hide Separable, Duplicated, Defines, LiveAfter, LiveSet, InRange, StartOf;
    AboutSeparable(p, live, n, bound);
    var live', base := LiveAfter(p, n, live, |p.pred[n]|), |p.blocks|;
    forall b: Node, d: Node, id: Id | b in live' && d in live' && b < |q.blocks| && d < |q.blocks|
    && Defines(q.blocks[b], id) && Defines(q.blocks[d], id)
      ensures b == d
    {
      LiveAfterMembers(p, n, live, b);
      LiveAfterMembers(p, n, live, d);
      if b < base && d < base {
        OldBlockDefines(p, q, live, n, bound, b, id);
        OldBlockDefines(p, q, live, n, bound, d, id);
      } else if b < base {
        OldBlockDefines(p, q, live, n, bound, b, id);
        NewBlockDefines(p, q, live, n, bound, d, id);
      } else if d < base {
        OldBlockDefines(p, q, live, n, bound, d, id);
        NewBlockDefines(p, q, live, n, bound, b, id);
      } else {
        NewBlockDefines(p, q, live, n, bound, b, id);
        NewBlockDefines(p, q, live, n, bound, d, id);
        if b < d {
          StartsApart(p.blocks[n], bound, b - base, d - base);
        } else if d < b {
          StartsApart(p.blocks[n], bound, d - base, b - base);
        }
      }
    }
  }

  /** `CFGStructurizer::duplicate_node`. */
  method DuplicateNode(c: Pool, f: Blocks, n: Node, ghost live: set<Node>)
    requires f.Valid() && Separable(f.View(), live, n, f.nextId) && AnalysedFor(c, f.View(), live)
    modifies f
    ensures f.Valid()
    ensures IsSplit(old(f.blocks), f.blocks, live, n, Copies(old(f.View()), n, old(f.nextId)), old(f.nextId))
    ensures Linked(Pruned(f.View(), old(f.succ[n]), n), LiveAfter(old(f.View()), n, live, |old(f.pred[n])|))
    ensures DefinedOnce(old(f.blocks), live) ==>
              DefinedOnce(f.blocks, LiveAfter(old(f.View()), n, live, |old(f.pred[n])|))
    ensures f.nextId == StartOf(old(f.blocks[n]), old(f.nextId), |old(f.pred[n])|)
  {
    hide IsSplit, Linked, DefinedOnce, Copies, Pruned, LiveAfter;
    hide Separable, AnalysedFor, Cut, Duplicated, StartOf, Remaps, CopyBlocks, ReissuedBlocks, WellFormedPhis, Fresh;
    ghost var p, bound := f.View(), f.nextId;
    AboutSeparable(p, live, n, bound);
    var targets := f.succ[n];
    var blocks, remaps := DuplicateAll(c, f, n, live);
    ghost var r := f.View();
    ghost var made := CopyBlocks(p.blocks[n], p.pred[n], bound);
    var succs := CollectChains(c, f, targets, n, p, live, bound, made, p.blocks[n]);
    forall i | 0 <= i < |succs| ensures succs[i] < |f.blocks| && WellFormedPhis(f.blocks, succs[i]) {
      ReadyToReissue(p, r, live, n, bound, made, succs[i]);
    }
    FreshMembers(|p.blocks|, |p.pred[n]|, n);
    ReissueAll(f, succs, n, blocks, remaps);
    ReissuedIsDuplicated(p, r, f.View(), live, n, bound, succs);
    DuplicatedIsSplit(p, f.View(), live, n, bound);
    DuplicatedIsLinked(p, f.View(), live, n, bound);
    if DefinedOnce(p.blocks, live) {
      IdsStayUnique(p, f.View(), live, n, bound);
    }
  }
}
