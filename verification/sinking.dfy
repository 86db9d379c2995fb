/** Moving an operation out of the block that makes a value, to the front of the one block that reads it. */
module Sinking {
  import opened Graphs
  import opened Lists
  import opened IR
  import opened TailSplit

  /** Operation number `at` of `source` goes to the front of `target`; `chain` lists the blocks that control
      enters on the way, one after the other, `target` being the last. */
  datatype Move = Move(source: Node, at: nat, target: Node, chain: seq<Node>)

  function Removed<T>(xs: seq<T>, k: nat): seq<T>
    requires k < |xs|
  {
    xs[..k] + xs[k + 1..]
  }

  predicate InBounds(p: seq<IRBlock>, mv: Move) {
    mv.source < |p| && mv.target < |p| && mv.source != mv.target && mv.at < |p[mv.source].operations|
  }

  function MovedOp(p: seq<IRBlock>, mv: Move): Op
    requires InBounds(p, mv)
  {
    p[mv.source].operations[mv.at]
  }

  function Sunk(p: seq<IRBlock>, mv: Move): (q: seq<IRBlock>)
    requires InBounds(p, mv)
    ensures |q| == |p|
  {
    p[mv.source := p[mv.source].(operations := Removed(p[mv.source].operations, mv.at))]
     [mv.target := p[mv.target].(operations := [MovedOp(p, mv)] + p[mv.target].operations)]
  }

  /** Control enters each block of the chain only from the one before it, the first from the source. */
  ghost predicate OnlyWay(p: seq<IRBlock>, live: set<Node>, source: Node, chain: seq<Node>) {
    forall i :: 0 <= i < |chain| ==> EntersOnlyFrom(p, live, chain[i], WayIn(source, chain, i))
  }

  ghost predicate EntersOnlyFrom(p: seq<IRBlock>, live: set<Node>, t: Node, from: Node) {
    forall f: Node :: f in live && f < |p| && t in Targets(p[f].terminator) ==> f == from
  }

  function WayIn(source: Node, chain: seq<Node>, i: nat): Node
    requires i < |chain|
  {
    if i == 0 then source else chain[i - 1]
  }

  /** The block neither makes the value nor changes what it is made from. */
  ghost predicate LeavesAlone(b: IRBlock, op: Op) {
    !Defines(b, op.id) && forall x: Id :: UsesId(op, x) ==> !Defines(b, x)
  }

  /** The rest of the block neither makes the value nor changes what it is made from. */
  ghost predicate RestLeavesAlone(ops: seq<Op>, at: nat)
    requires at < |ops|
  {
    && !UsesId(ops[at], ops[at].id)
    && forall j :: at < j < |ops| ==> ops[j].id != ops[at].id && (ops[j].id == 0 || !UsesId(ops[at], ops[j].id))
  }

  /** When an operation may be moved. */
  ghost predicate Sinkable(p: seq<IRBlock>, live: set<Node>, entry: Node, movable: nat -> bool, mv: Move) {
    && LiveSet(p, live) && InBounds(p, mv) && mv.source in live && mv.target in live
    && MovedOp(p, mv).id != 0 && movable(MovedOp(p, mv).op)
    && mv.chain != [] && mv.chain[|mv.chain| - 1] == mv.target && mv.target !in mv.chain[..|mv.chain| - 1]
    && mv.source !in mv.chain && entry !in mv.chain
    && (forall b: Node :: b in mv.chain ==> b in live && b < |p| && LeavesAlone(p[b], MovedOp(p, mv)))
    && OnlyWay(p, live, mv.source, mv.chain)
    && RestLeavesAlone(p[mv.source].operations, mv.at)
    && ReadOnlyBy(p, live, mv.target, MovedOp(p, mv).id)
  }

  /** No block but `target` reads the value, and no PHI does. */
  ghost predicate ReadOnlyBy(p: seq<IRBlock>, live: set<Node>, target: Node, v: Id)
    requires LiveSet(p, live)
  {
    && (forall b: Node :: b in live && b != target ==> !Reads(p[b], v))
    && NotInPhis(p, live, v)
  }

  ghost predicate NotInPhis(p: seq<IRBlock>, live: set<Node>, v: Id)
    requires LiveSet(p, live)
  {
    forall b: Node, f: Node, i :: b in live && f in live && b in Targets(p[f].terminator) && 0 <= i < |p[b].phi| ==>
      IncomingFrom(p[b].phi[i].incoming, f) != v
  }

  // ---------------------------------------------------------------- what operations read

  /** The operations of a block, each with the values that it reads. */
  function Work<W>(m: Machine<W>, ops: seq<Op>, e: Env, w: W): seq<(Op, seq<int>)> {
    if ops == [] then []
    else
      var (f, x) := RunOp(m, ops[0], e, w);
      [(ops[0], ArgumentValues(ops[0].arguments, e))] + Work(m, ops[1..], f, x)
  }

  /** The part of it that makes none of the values `ids`. */
  function Staying(work: seq<(Op, seq<int>)>, ids: set<Id>): seq<(Op, seq<int>)> {
    if work == [] then []
    else (if work[0].0.id in ids then [] else [work[0]]) + Staying(work[1..], ids)
  }

  lemma {:induction false} StayingConcat(a: seq<(Op, seq<int>)>, b: seq<(Op, seq<int>)>, ids: set<Id>)
    ensures Staying(a + b, ids) == Staying(a, ids) + Staying(b, ids)
  {
    if a == [] {
      assert a + b == b;
    } else {
      assert (a + b)[1..] == a[1..] + b;
      StayingConcat(a[1..], b, ids);
    }
  }

  lemma {:induction false} StayingTwice(work: seq<(Op, seq<int>)>, ids: set<Id>, ids': set<Id>)
    ensures Staying(Staying(work, ids), ids') == Staying(work, ids + ids')
  {
    if work != [] {
      var first := if work[0].0.id in ids then [] else [work[0]];
      StayingConcat(first, Staying(work[1..], ids), ids');
      StayingTwice(work[1..], ids, ids');
    }
  }

  lemma {:induction false} WorkConcat<W>(m: Machine<W>, a: seq<Op>, b: seq<Op>, e: Env, w: W)
    ensures Work(m, a + b, e, w) == Work(m, a, e, w) + Work(m, b, RunOps(m, a, e, w).0, RunOps(m, a, e, w).1)
  {
    if a == [] {
      assert a + b == b;
    } else {
      assert (a + b)[1..] == a[1..] + b;
      var (f, x) := RunOp(m, a[0], e, w);
      WorkConcat(m, a[1..], b, f, x);
    }
  }

  // ---------------------------------------------------------------- the simulation

  /** Operations with the opcode change nothing but their own value. */
  ghost predicate EffectFree<W(!new)>(m: Machine<W>, opcode: nat) {
    forall args: seq<int>, w: W :: m.eval(opcode, args, w).1 == w
  }

  /** What an operation computes does not change when one with the other opcode is run before it. */
  ghost predicate Undisturbed<W(!new)>(m: Machine<W>, opcode: nat, other: nat) {
    forall args: seq<int>, args': seq<int>, w: W ::
      m.eval(opcode, args, m.eval(other, args', w).1).0 == m.eval(opcode, args, w).0
  }

  ghost predicate AllUndisturbed<W(!new)>(m: Machine<W>, opcode: nat, ops: seq<Op>) {
    forall j :: 0 <= j < |ops| ==> Undisturbed(m, opcode, ops[j].op)
  }

  /** The operation has no effect, and nothing that it moves past disturbs it: the operations after it in the source,
      and those of the blocks of the chain before the target. */
  ghost predicate Calm<W(!new)>(m: Machine<W>, p: seq<IRBlock>, mv: Move)
    requires InBounds(p, mv)
  {
    var o := MovedOp(p, mv).op;
    && EffectFree(m, o) && AllUndisturbed(m, o, p[mv.source].operations[mv.at + 1..])
    && forall b: Node :: b in mv.chain && b != mv.target && b < |p| ==> AllUndisturbed(m, o, p[b].operations)
  }

  ghost predicate SameOutside(ids: set<Id>, e: Env, e': Env) {
    forall id: Id :: id !in ids ==> Get(e, id) == Get(e', id)
  }

  /** The value is the one that the operation would give now. */
  ghost predicate UpToDate<W>(m: Machine<W>, op: Op, e: Env, w: W) {
    m.eval(op.op, ArgumentValues(op.arguments, e), w).0 == Get(e, op.id)
  }

  ghost predicate Delayed<W(!new)>(m: Machine<W>, op: Op, live: set<Node>, chain: seq<Node>, s: State<W>,
                                   s': State<W>) {
    match s
    case Finished(_, _) => s' == s
    case Running(b, e, w) =>
      && s'.Running? && s'.block == b && s'.world == w && b in live
      && SameOutside({op.id}, e, s'.env) && (b in chain ==> UpToDate(m, op, e, w))
  }

  lemma SameValues(args: seq<Argument>, ids: set<Id>, e: Env, e': Env)
    requires SameOutside(ids, e, e') && forall x: Id :: x in ids ==> IdArgument(x) !in args
    ensures ArgumentValues(args, e) == ArgumentValues(args, e')
  {
    var a, b := ArgumentValues(args, e), ArgumentValues(args, e');
    forall k | 0 <= k < |a| ensures a[k] == b[k] {
      assert args[k] in args;
    }
  }

  ghost predicate ReadsNone(ops: seq<Op>, ids: set<Id>) {
    forall i, x: Id :: 0 <= i < |ops| && x in ids ==> !UsesId(ops[i], x)
  }

  lemma {:induction false} OpsSame<W>(m: Machine<W>, ops: seq<Op>, ids: set<Id>, e: Env, e': Env, w: W)
    requires SameOutside(ids, e, e') && ReadsNone(ops, ids)
    ensures RunOps(m, ops, e, w).1 == RunOps(m, ops, e', w).1
            && SameOutside(ids, RunOps(m, ops, e, w).0, RunOps(m, ops, e', w).0)
    ensures Work(m, ops, e, w) == Work(m, ops, e', w)
    decreases |ops|
  {
    if ops != [] {
      assert forall x: Id :: x in ids ==> !UsesId(ops[0], x);
      SameValues(ops[0].arguments, ids, e, e');
      var (f, x) := RunOp(m, ops[0], e, w);
      var (f', x') := RunOp(m, ops[0], e', w);
      forall id: Id | id !in ids ensures Get(f, id) == Get(f', id) {
        assert Get(e, id) == Get(e', id);
      }
      assert ReadsNone(ops[1..], ids) by {
        assert forall i :: 0 <= i < |ops[1..]| ==> ops[1..][i] == ops[i + 1];
      }
      OpsSame(m, ops[1..], ids, f, f', x);
    }
  }

  /** Operations leave alone every id that they do not define. */
  lemma {:induction false} OpsKeep<W>(m: Machine<W>, ops: seq<Op>, id: Id, e: Env, w: W)
    requires forall i :: 0 <= i < |ops| ==> ops[i].id != id || id == 0
    ensures Get(RunOps(m, ops, e, w).0, id) == Get(e, id)
    decreases |ops|
  {
    if ops != [] {
      var (f, x) := RunOp(m, ops[0], e, w);
      assert forall i :: 0 <= i < |ops[1..]| ==> ops[1..][i] == ops[i + 1];
      OpsKeep(m, ops[1..], id, f, x);
    }
  }

  lemma {:induction false} OpsConcat<W>(m: Machine<W>, a: seq<Op>, b: seq<Op>, e: Env, w: W)
    ensures RunOps(m, a + b, e, w) == RunOps(m, b, RunOps(m, a, e, w).0, RunOps(m, a, e, w).1)
  {
    if a == [] {
      assert a + b == b;
    } else {
      assert (a + b)[1..] == a[1..] + b;
      var (f, x) := RunOp(m, a[0], e, w);
      OpsConcat(m, a[1..], b, f, x);
    }
  }

  /** What disturbs nothing can be run first. */
  lemma {:induction false} OpsDisturbNothing<W(!new)>(m: Machine<W>, ops: seq<Op>, o: nat, args: seq<int>, e: Env, w: W)
    requires AllUndisturbed(m, o, ops)
    ensures m.eval(o, args, RunOps(m, ops, e, w).1).0 == m.eval(o, args, w).0
    decreases |ops|
  {
    if ops != [] {
      var (f, x) := RunOp(m, ops[0], e, w);
      assert Undisturbed(m, o, ops[0].op);
      assert AllUndisturbed(m, o, ops[1..]) by {
        assert forall i :: 0 <= i < |ops[1..]| ==> ops[1..][i] == ops[i + 1];
      }
      OpsDisturbNothing(m, ops[1..], o, args, f, x);
    }
  }

  /** Operations that leave the value and its operands alone, and do not disturb it, keep it up to date. */
  lemma OpsKeepUpToDate<W(!new)>(m: Machine<W>, ops: seq<Op>, op: Op, e: Env, w: W)
    requires UpToDate(m, op, e, w) && op.id != 0 && AllUndisturbed(m, op.op, ops)
    requires forall i :: 0 <= i < |ops| ==> ops[i].id != op.id && (ops[i].id == 0 || !UsesId(op, ops[i].id))
    ensures UpToDate(m, op, RunOps(m, ops, e, w).0, RunOps(m, ops, e, w).1)
  {
    hide AllUndisturbed;
    var f := RunOps(m, ops, e, w).0;
    OpsDisturbNothing(m, ops, op.op, ArgumentValues(op.arguments, e), e, w);
    OpsKeep(m, ops, op.id, e, w);
    var a, b := ArgumentValues(op.arguments, e), ArgumentValues(op.arguments, f);
    forall k | 0 <= k < |a| ensures a[k] == b[k] {
      if op.arguments[k].IdArgument? {
        assert UsesId(op, op.arguments[k].id);
        OpsKeep(m, ops, op.arguments[k].id, e, w);
      }
    }
    assert a == b;
  }

  /** Running the operation on operands that stay makes the value up to date. */
  lemma RunMakes<W(!new)>(m: Machine<W>, op: Op, e: Env, w: W)
    requires EffectFree(m, op.op) && op.id != 0 && !UsesId(op, op.id)
    ensures var (f, x) := RunOp(m, op, e, w); x == w && UpToDate(m, op, f, w) && SameOutside({op.id}, f, e)
  {
    var f := RunOp(m, op, e, w).0;
    var args := ArgumentValues(op.arguments, e);
    assert m.eval(op.op, args, w).1 == w;
    SameValues(op.arguments, {op.id}, f, e);
  }

  /** Running it again on an environment that lacks only this value supplies the value. */
  lemma RunSupplies<W(!new)>(m: Machine<W>, op: Op, e: Env, e': Env, w: W)
    requires EffectFree(m, op.op) && op.id != 0 && !UsesId(op, op.id)
    requires SameOutside({op.id}, e, e') && UpToDate(m, op, e, w)
    ensures var (f, x) := RunOp(m, op, e', w); x == w && SameOutside({}, e, f)
  {
    var f := RunOp(m, op, e', w).0;
    SameValues(op.arguments, {op.id}, e, e');
    var args := ArgumentValues(op.arguments, e);
    assert m.eval(op.op, args, w).1 == w && m.eval(op.op, args, w).0 == Get(e, op.id);
    forall id: Id {:trigger Get(e, id)} ensures Get(e, id) == Get(f, id) {
      if id != op.id {
        assert id !in {op.id} && Get(e, id) == Get(e', id);
      }
    }
  }

  /** What running one block of each function must give. */
  ghost predicate BlockSame<W(!new)>(m: Machine<W>, was: IRBlock, is': IRBlock, op: Op, e: Env, e': Env, w: W) {
    var (f, x) := RunOps(m, was.operations, e, w);
    var (f', x') := RunOps(m, is'.operations, e', w);
    && x' == x && SameOutside({op.id}, f, f')
    && Next(is'.terminator, f') == Next(was.terminator, f) && Finish(is'.terminator, f') == Finish(was.terminator, f)
    && Staying(Work(m, is'.operations, e', w), {op.id}) == Staying(Work(m, was.operations, e, w), {op.id})
  }

  lemma TerminatorSame(t: Terminator, ids: set<Id>, f: Env, f': Env)
    requires SameOutside(ids, f, f') && TerminatorUse(t) !in ids
    ensures Next(t, f') == Next(t, f) && Finish(t, f') == Finish(t, f)
  {
    assert Get(f, TerminatorUse(t)) == Get(f', TerminatorUse(t));
  }

  lemma NotRead(b: IRBlock, v: Id)
    requires !Reads(b, v)
    ensures ReadsNone(b.operations, {v}) && TerminatorUse(b.terminator) != v
  {
    forall i | 0 <= i < |b.operations| ensures !UsesId(b.operations[i], v) {
      if UsesId(b.operations[i], v) {
        assert ReadsOp(b.operations, v);
        assert false;
      }
    }
  }

  /** A block that is neither source nor target. */
  lemma OtherSame<W(!new)>(m: Machine<W>, b: IRBlock, op: Op, e: Env, e': Env, w: W)
    requires SameOutside({op.id}, e, e') && !Reads(b, op.id)
    ensures BlockSame(m, b, b, op, e, e', w)
  {
    NotRead(b, op.id);
    OpsSame(m, b.operations, {op.id}, e, e', w);
    TerminatorSame(b.terminator, {op.id}, RunOps(m, b.operations, e, w).0, RunOps(m, b.operations, e', w).0);
  }

  /** The target, which now makes the value itself. */
  lemma TargetSame<W(!new)>(m: Machine<W>, b: IRBlock, op: Op, e: Env, e': Env, w: W)
    requires EffectFree(m, op.op) && op.id != 0 && !UsesId(op, op.id)
    requires SameOutside({op.id}, e, e') && UpToDate(m, op, e, w)
    ensures BlockSame(m, b, b.(operations := [op] + b.operations), op, e, e', w)
  {
    hide EffectFree, UpToDate;
    RunSupplies(m, op, e, e', w);
    var f := RunOp(m, op, e', w).0;
    assert ([op] + b.operations)[1..] == b.operations;
    OpsSame(m, b.operations, {}, e, f, w);
    TerminatorSame(b.terminator, {}, RunOps(m, b.operations, e, w).0, RunOps(m, b.operations, f, w).0);
    WorkOne(m, op, b.operations, e', w);
  }

  /** An operation in front is no part of what stays. */
  lemma WorkOne<W>(m: Machine<W>, op: Op, ops: seq<Op>, e: Env, w: W)
    ensures Staying(Work(m, [op] + ops, e, w),
                    {op.id}) == Staying(Work(m, ops, RunOp(m, op, e, w).0, RunOp(m, op, e, w).1), {op.id})
  {
    var (f, x) := RunOp(m, op, e, w);
    assert ([op] + ops)[1..] == ops;
    assert Work(m, [op] + ops, e, w)[1..] == Work(m, ops, f, x);
  }

  /** The source, which no longer makes it. */
  lemma SourceSame<W(!new)>(m: Machine<W>, b: IRBlock, at: nat, e: Env, e': Env, w: W)
    requires at < |b.operations| && EffectFree(m, b.operations[at].op) && b.operations[at].id != 0
             && RestLeavesAlone(b.operations, at)
    requires AllUndisturbed(m, b.operations[at].op, b.operations[at + 1..])
    requires SameOutside({b.operations[at].id}, e, e') && !Reads(b, b.operations[at].id)
    ensures BlockSame(m, b, b.(operations := Removed(b.operations, at)), b.operations[at], e, e', w)
    ensures UpToDate(m, b.operations[at], RunOps(m, b.operations, e, w).0, RunOps(m, b.operations, e, w).1)
  {
    hide EffectFree, UpToDate, AllUndisturbed, Reads, RestLeavesAlone, ReadsNone, SameOutside, Staying, Work;
    var ops := b.operations;
    var a, op, c := ops[..at], ops[at], ops[at + 1..];
    SourceParts(b, at);
    OpsSame(m, a, {op.id}, e, e', w);
    var (f, x) := RunOps(m, a, e, w);
    var f' := RunOps(m, a, e', w).0;
    RunMakes(m, op, f, x);
    var g := RunOp(m, op, f, x).0;
    SameTrans({op.id}, g, f, f');
    OpsSame(m, c, {op.id}, g, f', x);
    OpsKeepUpToDate(m, c, op, g, x);
    SplitRun(m, ops, at, e, w);
    OpsConcat(m, a, c, e', w);
    TerminatorSame(b.terminator, {op.id}, RunOps(m, ops, e, w).0, RunOps(m, a + c, e', w).0);
    SourceWork(m, a, op, c, e, e', w);
    assert ops == a + ([op] + c);
  }

  lemma SourceParts(b: IRBlock, at: nat)
    requires at < |b.operations| && RestLeavesAlone(b.operations, at) && !Reads(b, b.operations[at].id)
    ensures var ops, op := b.operations, b.operations[at];
            && ReadsNone(ops[..at], {op.id}) && ReadsNone(ops[at + 1..], {op.id})
            && TerminatorUse(b.terminator) != op.id
            && !UsesId(op, op.id)
            && OthersLeaveAlone(ops[at + 1..], op)
  {
    var ops := b.operations;
    var a, c := ops[..at], ops[at + 1..];
    NotRead(b, ops[at].id);
    assert forall i :: 0 <= i < |a| ==> a[i] == ops[i];
    assert forall i :: 0 <= i < |c| ==> c[i] == ops[at + 1 + i];
  }

  /** The operations make neither the value nor an operand. */
  ghost predicate OthersLeaveAlone(ops: seq<Op>, op: Op) {
    forall i :: 0 <= i < |ops| ==> ops[i].id != op.id && (ops[i].id == 0 || !UsesId(op, ops[i].id))
  }

  lemma SourceWork<W>(m: Machine<W>, a: seq<Op>, op: Op, c: seq<Op>, e: Env, e': Env, w: W)
    requires Work(m, a, e, w) == Work(m, a, e', w)
    requires var (f, x) := RunOps(m, a, e, w); var (f', x') := RunOps(m, a, e', w); var (g, y) := RunOp(m, op, f, x);
             Work(m, c, g, y) == Work(m, c, f', x')
    ensures Staying(Work(m, a + ([op] + c), e, w), {op.id}) == Staying(Work(m, a + c, e', w), {op.id})
  {
    var (f, x) := RunOps(m, a, e, w);
    var (f', x') := RunOps(m, a, e', w);
    WorkConcat(m, a, [op] + c, e, w);
    WorkConcat(m, a, c, e', w);
    WorkOne(m, op, c, f, x);
    StayingConcat(Work(m, a, e, w), Work(m, [op] + c, f, x), {op.id});
    StayingConcat(Work(m, a, e', w), Work(m, c, f', x'), {op.id});
  }

  lemma SplitRun<W>(m: Machine<W>, ops: seq<Op>, at: nat, e: Env, w: W)
    requires at < |ops|
    ensures var (f, x) := RunOps(m, ops[..at], e, w);
            var (g, y) := RunOp(m, ops[at], f, x);
            RunOps(m, ops, e, w) == RunOps(m, ops[at + 1..], g, y)
  {
    assert ops == ops[..at] + ops[at..];
    OpsConcat(m, ops[..at], ops[at..], e, w);
    assert ops[at..][1..] == ops[at + 1..];
  }

  lemma SameTrans(ids: set<Id>, a: Env, b: Env, c: Env)
    requires SameOutside(ids, a, b) && SameOutside(ids, b, c)
    ensures SameOutside(ids, a, c)
  {
    forall id: Id {:trigger Get(a, id)} | id !in ids ensures Get(a, id) == Get(c, id) {
      assert Get(b, id) == Get(c, id);
    }
  }

  // ---------------------------------------------------------------- one move

  lemma StepBlock<W(!new)>(m: Machine<W>, p: seq<IRBlock>, live: set<Node>, entry: Node, movable: nat -> bool,
                           mv: Move, b: Node, e: Env, e': Env, w: W)
    requires Sinkable(p, live, entry, movable, mv) && Calm(m, p, mv) && b in live
    requires SameOutside({MovedOp(p, mv).id}, e, e') && (b in mv.chain ==> UpToDate(m, MovedOp(p, mv), e, w))
    ensures b < |p| && BlockSame(m, p[b], Sunk(p, mv)[b], MovedOp(p, mv), e, e', w)
    ensures b == mv.source || (b in mv.chain && b != mv.target) ==>
              UpToDate(m, MovedOp(p, mv), RunOps(m, p[b].operations, e, w).0, RunOps(m, p[b].operations, e, w).1)
  {
    hide EffectFree, AllUndisturbed, UpToDate, BlockSame, RestLeavesAlone, SameOutside;
    var op := MovedOp(p, mv);
    SinkableAt(p, live, entry, movable, mv, b);
    if b == mv.source {
      SourceSame(m, p[b], mv.at, e, e', w);
    } else {
      if b in mv.chain && b != mv.target {
        LeftAlone(p[b], op);
        OpsKeepUpToDate(m, p[b].operations, op, e, w);
      }
      if b == mv.target {
        TargetSame(m, p[b], op, e, e', w);
      } else {
        OtherSame(m, p[b], op, e, e', w);
      }
    }
  }

  lemma SinkableAt(p: seq<IRBlock>, live: set<Node>, entry: Node, movable: nat -> bool, mv: Move, b: Node)
    requires Sinkable(p, live, entry, movable, mv) && b in live
    ensures b < |p| && MovedOp(p, mv).id != 0 && !UsesId(MovedOp(p, mv), MovedOp(p, mv).id)
    ensures b in mv.chain ==> LeavesAlone(p[b], MovedOp(p, mv))
    ensures b != mv.target ==> !Reads(p[b], MovedOp(p, mv).id)
    ensures mv.target in mv.chain && mv.source !in mv.chain
  {}

  lemma LeftAlone(b: IRBlock, op: Op)
    requires LeavesAlone(b, op) && op.id != 0
    ensures forall i :: 0 <= i < |b.operations| ==>
              b.operations[i].id != op.id && (b.operations[i].id == 0 || !UsesId(op, b.operations[i].id))
    ensures forall i :: 0 <= i < |b.phi| ==> b.phi[i].id != op.id && !UsesId(op, b.phi[i].id)
  {
    forall i | 0 <= i < |b.operations| && b.operations[i].id != 0 ensures Defines(b, b.operations[i].id) {
      assert DefinesOp(b.operations, b.operations[i].id);
    }
    forall i | 0 <= i < |b.phi| ensures Defines(b, b.phi[i].id) {
      assert DefinesPhi(b, b.phi[i].id);
    }
  }

  lemma {:induction false} EnterSame(phis: seq<PHI>, from: Node, ids: set<Id>, old': Env, old'': Env, e: Env, e': Env)
    requires SameOutside(ids, old', old'') && SameOutside(ids, e, e')
    requires forall i :: 0 <= i < |phis| ==> IncomingFrom(phis[i].incoming, from) !in ids
    ensures SameOutside(ids, EnterPhis(phis, from, old', e), EnterPhis(phis, from, old'', e'))
    decreases |phis|
  {
    if phis != [] {
      var id := IncomingFrom(phis[0].incoming, from);
      assert Get(old', id) == Get(old'', id);
      var f, f' := e[phis[0].id := Get(old', id)], e'[phis[0].id := Get(old'', id)];
      forall x: Id {:trigger Get(e, x)} | x !in ids ensures Get(f, x) == Get(f', x) {
        assert Get(e, x) == Get(e', x);
      }
      assert forall i :: 0 <= i < |phis[1..]| ==> phis[1..][i] == phis[i + 1];
      EnterSame(phis[1..], from, ids, old', old'', f, f');
    }
  }

  lemma EnterKeepsUpToDate<W>(m: Machine<W>, b: IRBlock, from: Node, op: Op, e: Env, w: W)
    requires UpToDate(m, op, e, w) && LeavesAlone(b, op) && op.id != 0
    ensures UpToDate(m, op, EnterPhis(b.phi, from, e, e), w)
  {
    var f := EnterPhis(b.phi, from, e, e);
    LeftAlone(b, op);
    EnterPhisOther(b.phi, from, e, e, op.id);
    var a, c := ArgumentValues(op.arguments, e), ArgumentValues(op.arguments, f);
    forall k | 0 <= k < |a| ensures a[k] == c[k] {
      if op.arguments[k].IdArgument? {
        assert UsesId(op, op.arguments[k].id);
        EnterPhisOther(b.phi, from, e, e, op.arguments[k].id);
      }
    }
    assert a == c;
  }

  lemma EntersFrom(p: seq<IRBlock>, live: set<Node>, source: Node, chain: seq<Node>, from: Node, t: Node)
    requires OnlyWay(p, live, source, chain) && t in chain && from in live && from < |p|
             && t in Targets(p[from].terminator)
    requires chain[|chain| - 1] !in chain[..|chain| - 1]
    ensures from == source || (from in chain && from != chain[|chain| - 1])
  {
    var i := Index(chain, t);
    assert EntersOnlyFrom(p, live, chain[i], WayIn(source, chain, i));
    if i > 0 {
      assert chain[..|chain| - 1][i - 1] == from;
    }
  }

  /** Entering a block of the chain, control comes from the source or from the chain. */
  lemma EnterRelated<W(!new)>(m: Machine<W>, p: seq<IRBlock>, live: set<Node>, entry: Node, movable: nat -> bool,
                              mv: Move,
                              from: Node, t: Node, f: Env, f': Env, w: W)
    requires Sinkable(p, live, entry, movable, mv) && from in live && from < |p| && t in Targets(p[from].terminator)
    requires SameOutside({MovedOp(p, mv).id}, f, f')
             && (from == mv.source || (from in mv.chain && from != mv.target) ==> UpToDate(m, MovedOp(p, mv), f, w))
    ensures t < |p| && Sunk(p, mv)[t].phi == p[t].phi
    ensures Delayed(m, MovedOp(p, mv), live, mv.chain, Running(t, EnterPhis(p[t].phi, from, f, f), w),
                    Running(t, EnterPhis(p[t].phi, from, f', f'), w))
  {
    hide UpToDate, SameOutside, Sinkable, LeavesAlone;
    EntersLive(p, live, entry, movable, mv, from, t);
    var op := MovedOp(p, mv);
    SinkableAt(p, live, entry, movable, mv, t);
    EnterSame(p[t].phi, from, {op.id}, f, f', f, f');
    if t in mv.chain {
      EnterKeepsUpToDate(m, p[t], from, op, f, w);
    }
  }

  /** Control stays in the live blocks, and enters the chain from the source or an earlier block of the chain. */
  lemma EntersLive(p: seq<IRBlock>, live: set<Node>, entry: Node, movable: nat -> bool, mv: Move, from: Node, t: Node)
    requires Sinkable(p, live, entry, movable, mv) && from in live && from < |p| && t in Targets(p[from].terminator)
    ensures t in live && t < |p| && InBounds(p, mv) && Sunk(p, mv)[t].phi == p[t].phi
    ensures forall i :: 0 <= i < |p[t].phi| ==> IncomingFrom(p[t].phi[i].incoming, from) != MovedOp(p, mv).id
    ensures t in mv.chain ==> from == mv.source || (from in mv.chain && from != mv.target)
  {
    hide OnlyWay, RestLeavesAlone, LeavesAlone;
    if t in mv.chain {
      EntersFrom(p, live, mv.source, mv.chain, from, t);
    }
  }

  lemma StepDelayed<W(!new)>(m: Machine<W>, p: seq<IRBlock>, live: set<Node>, entry: Node, movable: nat -> bool,
                             mv: Move, s: State<W>, s': State<W>)
    requires Sinkable(p, live, entry, movable, mv) && Calm(m, p, mv)
             && Delayed(m, MovedOp(p, mv), live, mv.chain, s, s')
    ensures Delayed(m, MovedOp(p, mv), live, mv.chain, Step(m, p, s), Step(m, Sunk(p, mv), s'))
  {
    hide Sinkable, Calm, UpToDate, SameOutside, Sunk, EnterPhis, Next, Finish, RunOps, MovedOp, InBounds, Targets;
    AboutSinkable(p, live, entry, movable, mv);
    if s.Running? {
      var op, q := MovedOp(p, mv), Sunk(p, mv);
      var b, e, e', w := s.block, s.env, s'.env, s.world;
      StepBlock(m, p, live, entry, movable, mv, b, e, e', w);
      var (f, x) := RunOps(m, p[b].operations, e, w);
      var (f', x') := RunOps(m, q[b].operations, e', w);
      var t := Next(p[b].terminator, f);
      if t.Some? {
        NextIsTarget(p[b].terminator, f);
        EnterRelated(m, p, live, entry, movable, mv, b, t.value, f, f', x);
      }
    }
  }

  lemma AboutSinkable(p: seq<IRBlock>, live: set<Node>, entry: Node, movable: nat -> bool, mv: Move)
    requires Sinkable(p, live, entry, movable, mv)
    ensures InBounds(p, mv) && |Sunk(p, mv)| == |p| && entry !in mv.chain && movable(MovedOp(p, mv).op)
  {}

  /** Every run goes through the same blocks with the same effects; outside the moved value, the environments agree. */
  lemma {:induction false} MovePreservesRuns<W(!new)>(m: Machine<W>, p: seq<IRBlock>, live: set<Node>, entry: Node,
                                                      movable: nat -> bool, mv: Move,
                                                      s: State<W>, s': State<W>, n: nat)
    requires Sinkable(p, live, entry, movable, mv) && Calm(m, p, mv)
             && Delayed(m, MovedOp(p, mv), live, mv.chain, s, s')
    ensures Delayed(m, MovedOp(p, mv), live, mv.chain, Run(m, p, s, n), Run(m, Sunk(p, mv), s', n))
    decreases n
  {
    hide Sinkable, Calm, Delayed;
    AboutSinkable(p, live, entry, movable, mv);
    if n > 0 {
      StepDelayed(m, p, live, entry, movable, mv, s, s');
      MovePreservesRuns(m, p, live, entry, movable, mv, Step(m, p, s), Step(m, Sunk(p, mv), s'), n - 1);
    }
  }

  // ---------------------------------------------------------------- many moves

  /** Every move could be made in turn. */
  ghost predicate AllSinkable(p: seq<IRBlock>, live: set<Node>, entry: Node, movable: nat -> bool, moves: seq<Move>)
  {
    moves == [] ||
    (var before, mv := moves[..|moves| - 1], moves[|moves| - 1];
     AllSinkable(p, live, entry, movable, before) && Sinkable(AfterMoves(p, before), live, entry, movable, mv))
  }

  /** Each of them, made in turn, is calm. */
  ghost predicate AllCalm<W(!new)>(m: Machine<W>, p: seq<IRBlock>, moves: seq<Move>)
  {
    moves == [] ||
    (var before, mv := moves[..|moves| - 1], moves[|moves| - 1];
     AllCalm(m, p, before) && InBounds(AfterMoves(p, before), mv) && Calm(m, AfterMoves(p, before), mv))
  }

  /** The blocks after all moves, the last one last. */
  function AfterMoves(p: seq<IRBlock>, moves: seq<Move>): (q: seq<IRBlock>)
    ensures |q| == |p|
  {
    if moves == [] then p
    else
      var q, mv := AfterMoves(p, moves[..|moves| - 1]), moves[|moves| - 1];
      if InBounds(q, mv) then Sunk(q, mv) else q
  }

  /** The values that were moved. */
  function MovedIds(p: seq<IRBlock>, moves: seq<Move>): set<Id> {
    if moves == [] then {}
    else
      var q, mv := AfterMoves(p, moves[..|moves| - 1]), moves[|moves| - 1];
      MovedIds(p, moves[..|moves| - 1]) + if InBounds(q, mv) then {MovedOp(q, mv).id} else {}
  }

  ghost predicate SameRun<W>(ids: set<Id>, s: State<W>, s': State<W>) {
    match s
    case Finished(_, _) => s' == s
    case Running(b, e, w) => s'.Running? && s'.block == b && s'.world == w && SameOutside(ids, e, s'.env)
  }

  lemma SameRunTrans<W>(ids: set<Id>, ids': set<Id>, a: State<W>, b: State<W>, c: State<W>)
    requires SameRun(ids, a, b) && SameRun(ids', b, c)
    ensures SameRun(ids + ids', a, c)
  {
    if a.Running? {
      forall id: Id {:trigger Get(a.env, id)} | id !in ids + ids' ensures Get(a.env, id) == Get(c.env, id) {
        assert Get(a.env, id) == Get(b.env, id) && Get(b.env, id) == Get(c.env, id);
      }
    }
  }

  /** From the entry on, every run goes through the same blocks, takes the same decisions, has the same effects and
      computes the same values outside the moved ones. */
  lemma {:induction false} SinkingPreservesRuns<W(!new)>(m: Machine<W>, p: seq<IRBlock>, live: set<Node>, entry: Node,
                                                         movable: nat -> bool, moves: seq<Move>,
                                                         env: Env, w: W, n: nat)
    requires AllSinkable(p, live, entry, movable, moves) && entry in live && AllCalm(m, p, moves)
    ensures SameRun(MovedIds(p, moves), Run(m, p, Running(entry, env, w), n),
                    Run(m, AfterMoves(p, moves), Running(entry, env, w), n))
    decreases |moves|
  {
    hide Sinkable, Calm, Sunk, SameOutside, InBounds, MovedOp;
    var s := Running(entry, env, w);
    if moves == [] {
      SameRunRefl(Run(m, p, s, n));
    } else {
      var before, mv := moves[..|moves| - 1], moves[|moves| - 1];
      SinkingPreservesRuns(m, p, live, entry, movable, before, env, w, n);
      var mid := AfterMoves(p, before);
      AboutSinkable(mid, live, entry, movable, mv);
      var op := MovedOp(mid, mv);
      SameOutsideRefl({op.id}, env);
      MovePreservesRuns(m, mid, live, entry, movable, mv, s, s, n);
      SameRunTrans(MovedIds(p, before), {op.id}, Run(m, p, s, n), Run(m, mid, s, n), Run(m, Sunk(mid, mv), s, n));
    }
  }

  /** The operations that were not moved read the same values in both functions, whichever block is running. */
  ghost predicate SameUses<W>(m: Machine<W>, ids: set<Id>, p: seq<IRBlock>, q: seq<IRBlock>, s: State<W>,
                              s': State<W>) {
    s.Running? && s'.Running? && s.block < |p| && s'.block < |q| ==>
      Staying(Work(m, p[s.block].operations, s.env, s.world),
              ids) == Staying(Work(m, q[s'.block].operations, s'.env, s'.world), ids)
  }

  lemma SameUsesTrans<W>(m: Machine<W>, ids: set<Id>, ids': set<Id>, p: seq<IRBlock>, mid: seq<IRBlock>,
                         q: seq<IRBlock>, a: State<W>, b: State<W>, c: State<W>)
    requires SameUses(m, ids, p, mid, a, b) && SameUses(m, ids', mid, q, b, c) && |p| == |mid| == |q|
    requires a.Running? ==> b.Running? && b.block == a.block
    ensures SameUses(m, ids + ids', p, q, a, c)
  {
    if a.Running? && c.Running? && a.block < |p| && c.block < |q| {
      var x, y, z := Work(m, p[a.block].operations, a.env, a.world), Work(m, mid[b.block].operations, b.env, b.world),
          Work(m, q[c.block].operations, c.env, c.world);
      StayingTwice(x, ids, ids');
      StayingTwice(y, ids, ids');
      StayingTwice(y, ids', ids);
      StayingTwice(z, ids', ids);
      assert ids + ids' == ids' + ids;
    }
  }

  lemma MoveKeepsUses<W(!new)>(m: Machine<W>, p: seq<IRBlock>, live: set<Node>, entry: Node, movable: nat -> bool,
                               mv: Move, s: State<W>, s': State<W>)
    requires Sinkable(p, live, entry, movable, mv) && Calm(m, p, mv)
             && Delayed(m, MovedOp(p, mv), live, mv.chain, s, s')
    ensures SameUses(m, {MovedOp(p, mv).id}, p, Sunk(p, mv), s, s')
  {
    hide Sinkable, Calm, UpToDate, SameOutside, Sunk, Staying, Work;
    AboutSinkable(p, live, entry, movable, mv);
    if s.Running? {
      StepBlock(m, p, live, entry, movable, mv, s.block, s.env, s'.env, s.world);
    }
  }

  /** At every point of every run from the entry, each operation that stayed reads the same values as before. */
  lemma {:induction false} SinkingKeepsUses<W(!new)>(m: Machine<W>, p: seq<IRBlock>, live: set<Node>, entry: Node,
                                                     movable: nat -> bool, moves: seq<Move>,
                                                     env: Env, w: W, n: nat)
    requires AllSinkable(p, live, entry, movable, moves) && entry in live && AllCalm(m, p, moves)
    ensures SameUses(m, MovedIds(p, moves), p, AfterMoves(p, moves), Run(m, p, Running(entry, env, w), n),
                     Run(m, AfterMoves(p, moves), Running(entry, env, w), n))
    decreases |moves|
  {
    hide Sinkable, Calm, Sunk, SameOutside, InBounds, MovedOp, Staying, Work;
    var s := Running(entry, env, w);
    if moves != [] {
      var before, mv := moves[..|moves| - 1], moves[|moves| - 1];
      SinkingKeepsUses(m, p, live, entry, movable, before, env, w, n);
      SinkingPreservesRuns(m, p, live, entry, movable, before, env, w, n);
      var mid := AfterMoves(p, before);
      AboutSinkable(mid, live, entry, movable, mv);
      SameOutsideRefl({MovedOp(mid, mv).id}, env);
      MovePreservesRuns(m, mid, live, entry, movable, mv, s, s, n);
      MoveKeepsUses(m, mid, live, entry, movable, mv, Run(m, mid, s, n), Run(m, Sunk(mid, mv), s, n));
      SameUsesTrans(m, MovedIds(p, before), {MovedOp(mid, mv).id}, p, mid, Sunk(mid, mv), Run(m, p, s, n),
                    Run(m, mid, s, n), Run(m, Sunk(mid, mv), s, n));
    }
  }

  lemma SameRunRefl<W>(s: State<W>)
    ensures SameRun({}, s, s)
  {}

  lemma SameOutsideRefl(ids: set<Id>, e: Env)
    ensures SameOutside(ids, e, e)
  {}
}
