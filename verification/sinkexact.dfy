/** How exact the conditions for sinking are. */
module SinkExact {
  import opened Wrappers
  import opened Graphs
  import opened Lists
  import opened IR
  import opened TailSplit
  import opened BlockPool
  import opened Sinking
  import opened SinkPass
  import opened SinkFlags
  import opened SinkRun
  import opened SinkWalk
  import opened SinkConstructs
  import SSA

  // ---------------------------------------------------------------- which opcodes may be moved past which

  predicate NoneBars(ops: seq<Op>) {
    forall j :: 0 <= j < |ops| ==> !IsBarrier(ops[j])
  }

  /** The move passes no barrier. */
  predicate PassesNoBarrier(p: seq<IRBlock>, mv: Move)
    requires InBounds(p, mv)
  {
    && NoneBars(p[mv.source].operations[mv.at + 1..])
    && forall b: Node :: b in mv.chain && b != mv.target && b < |p| ==> NoneBars(p[b].operations)
  }

  /** Every move could be made in turn, and passes no barrier. */
  ghost predicate AllLegal(p: seq<IRBlock>, live: set<Node>, entry: Node, movable: nat -> bool, moves: seq<Move>)
  {
    moves == [] ||
    (var before, mv := moves[..|moves| - 1], moves[|moves| - 1];
     AllLegal(p, live, entry, movable, before) && Sinkable(AfterMoves(p, before), live, entry, movable, mv)
     && PassesNoBarrier(AfterMoves(p, before), mv))
  }

  /** The moves change no run. */
  ghost predicate AllRunsSame<W(!new)>(m: Machine<W>, p: seq<IRBlock>, entry: Node, moves: seq<Move>) {
    forall env: Env, w: W, n: nat ::
      SameRun(MovedIds(p, moves), Run(m, p, Running(entry, env, w), n),
              Run(m, AfterMoves(p, moves), Running(entry, env, w), n))
  }

  /** No legal moves of operations with movable opcodes change any run of any function. */
  ghost predicate Safe<W(!new)>(m: Machine<W>, movable: nat -> bool) {
    forall p: seq<IRBlock>, live: set<Node>, entry: Node, moves: seq<Move> ::
      entry in live && AllLegal(p, live, entry, movable, moves) ==> AllRunsSame(m, p, entry, moves)
  }

  predicate BarrierCode(o: nat) {
    o == CONTROL_BARRIER || o == MEMORY_BARRIER
  }

  /** Operations with movable opcodes have no effect, and no opcode but the barriers disturbs them. */
  ghost predicate CalmOpcodes<W(!new)>(m: Machine<W>, movable: nat -> bool) {
    forall o: nat :: movable(o) ==> EffectFree(m, o) && UndisturbedByAll(m, o)
  }

  ghost predicate UndisturbedByAll<W(!new)>(m: Machine<W>, o: nat) {
    forall other: nat :: !BarrierCode(other) ==> Undisturbed(m, o, other)
  }

  lemma NoneBarsIsCalm<W(!new)>(m: Machine<W>, o: nat, ops: seq<Op>)
    requires UndisturbedByAll(m, o) && NoneBars(ops)
    ensures AllUndisturbed(m, o, ops)
  {
    hide Undisturbed;
  }

  lemma {:induction false} LegalIsCalm<W(!new)>(m: Machine<W>, p: seq<IRBlock>, live: set<Node>, entry: Node,
                                                movable: nat -> bool, moves: seq<Move>)
    requires CalmOpcodes(m, movable) && AllLegal(p, live, entry, movable, moves)
    ensures AllSinkable(p, live, entry, movable, moves) && AllCalm(m, p, moves)
    decreases |moves|
  {
    hide Sinkable, EffectFree, UndisturbedByAll, NoneBars, AllUndisturbed, InBounds, MovedOp;
    if moves != [] {
      var before, mv := moves[..|moves| - 1], moves[|moves| - 1];
      var q := AfterMoves(p, before);
      LegalIsCalm(m, p, live, entry, movable, before);
      AboutSinkable(q, live, entry, movable, mv);
      var o := MovedOp(q, mv).op;
      NoneBarsIsCalm(m, o, q[mv.source].operations[mv.at + 1..]);
      forall b: Node | b in mv.chain && b != mv.target && b < |q| ensures AllUndisturbed(m, o, q[b].operations) {
        NoneBarsIsCalm(m, o, q[b].operations);
      }
    }
  }

  // ---------------------------------------------------------------- a function that tells them apart

  /** Arguments that read the `n` ids from `base` on. */
  function ArgsFrom(base: Id, n: nat): (r: seq<Argument>)
    ensures |r| == n
  {
    seq(n, i requires 0 <= i < n => IdArgument(base + i))
  }

  /** A value, some other operations, and two blocks that follow, of which one returns the value. */
  function Witness(op: Op, rest: seq<Op>): seq<IRBlock> {
    [IRBlock([], [op] + rest, Condition(2, 1, 2)), IRBlock([], [], Return(1)), IRBlock([], [], Return(0))]
  }

  /** The same with the value moved. */
  function WitnessMoved(op: Op, rest: seq<Op>): seq<IRBlock> {
    [IRBlock([], rest, Condition(2, 1, 2)), IRBlock([], [op], Return(1)), IRBlock([], [], Return(0))]
  }

  /** An operation that reads ids from 3 on. */
  predicate ReadsFromThree(op: Op) {
    forall x: Id :: UsesId(op, x) ==> x >= 3
  }

  lemma WitnessIsLegal(op: Op, rest: seq<Op>, movable: nat -> bool)
    requires op.id == 1 && movable(op.op) && ReadsFromThree(op) && NoneBars(rest)
    requires forall j :: 0 <= j < |rest| ==> rest[j].id == 0 && ReadsFromThree(rest[j])
    ensures var p, mv := Witness(op, rest), Move(0, 0, 1, [1]);
            && AllLegal(p, {0, 1, 2}, 0, movable, [mv]) && AfterMoves(p, [mv]) == WitnessMoved(op, rest)
  {
    var p, mv := Witness(op, rest), Move(0, 0, 1, [1]);
    var ops := [op] + rest;
    assert p[0].operations == ops && ops[0] == op && ops[1..] == rest && Removed(ops, 0) == rest;
    assert forall j :: 0 < j < |ops| ==> ops[j] == rest[j - 1];
    assert LiveSet(p, {0, 1, 2}) && EntersOnlyFrom(p, {0, 1, 2}, 1, 0) && LeavesAlone(p[1], op);
    assert !Reads(p[0], 1) && !Reads(p[2], 1);
    assert [mv][..0] == [] && AfterMoves(p, []) == p;
    assert mv.chain[..|mv.chain| - 1] == [];
    assert Sinkable(p, {0, 1, 2}, 0, movable, mv);
    assert [op] + [] == [op];
    assert Sunk(p, mv) == WitnessMoved(op, rest);
    assert AllLegal(p, {0, 1, 2}, 0, movable, []);
  }

  lemma RunOne<W>(m: Machine<W>, op: Op, e: Env, w: W)
    ensures RunOps(m, [op], e, w) == RunOp(m, op, e, w)
  {
    assert [op][1..] == [];
  }

  /** How the two functions run, when the value is wanted. */
  lemma WitnessRuns<W>(m: Machine<W>, op: Op, rest: seq<Op>, e: Env, w: W, taken: bool)
    requires op.id == 1 && Get(e, 2) == if taken then 1 else 0
    requires |rest| <= 1 && forall j :: 0 <= j < |rest| ==> rest[j].id == 0
    ensures var (f, x) := RunOp(m, op, e, w);
            var y := if rest == [] then x else RunOp(m, rest[0], f, x).1;
            Run(m, Witness(op, rest), Running(0, e, w), 2) == Finished(Returned(if taken then Get(f, 1) else 0), y)
    ensures var y := if rest == [] then w else RunOp(m, rest[0], e, w).1;
            var (f, z) := RunOp(m, op, e, y);
            Run(m, WitnessMoved(op, rest), Running(0, e, w), 2)
            == Finished(Returned(if taken then Get(f, 1) else 0), if taken then z else y)
  {
    var p, q := Witness(op, rest), WitnessMoved(op, rest);
    assert ([op] + rest)[1..] == rest;
    if rest != [] {
      assert rest == [rest[0]];
    }
    forall f: Env, x: W ensures RunOps(m, rest, f, x) == if rest == [] then (f, x) else (f, RunOp(m, rest[0], f, x).1) {
      if rest != [] {
        RunOne(m, rest[0], f, x);
      }
    }
    var t: Node := if taken then 1 else 2;
    var (f, x) := RunOp(m, op, e, w);
    var y := if rest == [] then x else RunOp(m, rest[0], f, x).1;
    assert Get(f, 2) == Get(e, 2);
    assert RunOps(m, [op] + rest, e, w) == RunOps(m, rest, f, x) == (f, y);
    assert Step(m, p, Running(0, e, w)) == Running(t, f, y);
    assert Run(m, p, Running(0, e, w), 2) == Run(m, p, Running(t, f, y), 1) == Step(m, p, Running(t, f, y));
    var y' := if rest == [] then w else RunOp(m, rest[0], e, w).1;
    assert RunOps(m, rest, e, w) == (e, y');
    assert Step(m, q, Running(0, e, w)) == Running(t, e, y');
    assert Run(m, q, Running(0, e, w), 2) == Run(m, q, Running(t, e, y'), 1) == Step(m, q, Running(t, e, y'));
    RunOne(m, op, e, y');
  }

  /** An environment with these operands. */
  lemma EnvWith(args: seq<int>, more: seq<int>, taken: bool) returns (e: Env)
    ensures ArgumentValues(ArgsFrom(3, |args|), e) == args
    ensures ArgumentValues(ArgsFrom(3 + |args|, |more|), e) == more
    ensures Get(e, 2) == if taken then 1 else 0
  {
    var all := [if taken then 1 else 0] + args + more;
    e := EnvOf(2, all);
    forall i | 0 <= i < |all| ensures Get(e, 2 + i) == all[i] {
      EnvOfAt(2, all, i);
    }
    assert Get(e, 2 + 0) == all[0];
    forall i | 0 <= i < |args| ensures Get(e, 3 + i) == args[i] {
      assert Get(e, 2 + (i + 1)) == all[i + 1];
    }
    forall i | 0 <= i < |more| ensures Get(e, 3 + |args| + i) == more[i] {
      assert Get(e, 2 + (1 + |args| + i)) == all[1 + |args| + i];
    }
  }

  /** The ids from `base` on have these values. */
  function EnvOf(base: Id, vals: seq<int>): Env
    decreases |vals|
  {
    if vals == [] then map[] else EnvOf(base + 1, vals[1..])[base := vals[0]]
  }

  lemma {:induction false} EnvOfAt(base: Id, vals: seq<int>, i: nat)
    requires i < |vals|
    ensures Get(EnvOf(base, vals), base + i) == vals[i]
    decreases i
  {
    if i > 0 {
      EnvOfAt(base + 1, vals[1..], i - 1);
    }
  }

  lemma SafeIsEffectFree<W(!new)>(m: Machine<W>, movable: nat -> bool, o: nat)
    requires Safe(m, movable) && movable(o)
    ensures EffectFree(m, o)
  {
    hide Run, AllLegal, AfterMoves, MovedIds, Witness, WitnessMoved;
    forall args: seq<int>, w: W ensures m.eval(o, args, w).1 == w {
      var op, mv := Op(o, 1, ArgsFrom(3, |args|)), Move(0, 0, 1, [1]);
      var e := EnvWith(args, [], false);
      WitnessIsLegal(op, [], movable);
      WitnessRuns(m, op, [], e, w, false);
      assert AllRunsSame(m, Witness(op, []), 0, [mv]);
      assert SameRun(MovedIds(Witness(op, []), [mv]), Run(m, Witness(op, []), Running(0, e, w), 2),
                     Run(m, AfterMoves(Witness(op, []), [mv]), Running(0, e, w), 2));
    }
  }

  lemma SafeIsUndisturbed<W(!new)>(m: Machine<W>, movable: nat -> bool, o: nat, other: nat)
    requires Safe(m, movable) && movable(o) && !BarrierCode(other)
    ensures Undisturbed(m, o, other)
  {
    hide Run, AllLegal, AfterMoves, MovedIds, Witness, WitnessMoved;
    SafeIsEffectFree(m, movable, o);
    forall args: seq<int>, args': seq<int>, w: W
      ensures m.eval(o, args, m.eval(other, args', w).1).0 == m.eval(o, args, w).0
    {
      var op, mv := Op(o, 1, ArgsFrom(3, |args|)), Move(0, 0, 1, [1]);
      var rest := [Op(other, 0, ArgsFrom(3 + |args|, |args'|))];
      var e := EnvWith(args, args', true);
      WitnessIsLegal(op, rest, movable);
      WitnessRuns(m, op, rest, e, w, true);
      LaterArguments(rest[0].arguments, e, 1, m.eval(o, args, w).0);
      assert AllRunsSame(m, Witness(op, rest), 0, [mv]);
      assert SameRun(MovedIds(Witness(op, rest), [mv]), Run(m, Witness(op, rest), Running(0, e, w), 2),
                     Run(m, AfterMoves(Witness(op, rest), [mv]), Running(0, e, w), 2));
    }
  }

  lemma LaterArguments(args: seq<Argument>, e: Env, x: Id, v: int)
    requires IdArgument(x) !in args
    ensures ArgumentValues(args, e[x := v]) == ArgumentValues(args, e)
  {
    forall i | 0 <= i < |args| ensures ArgumentValue(args[i], e[x := v]) == ArgumentValue(args[i], e) {
      assert args[i] in args;
    }
  }

  /** Moving operations past all but barriers is safe exactly if movable opcodes have no effect and nothing but barriers
      disturbs them. */
  lemma SafeIffCalm<W(!new)>(m: Machine<W>, movable: nat -> bool)
    ensures Safe(m, movable) <==> CalmOpcodes(m, movable)
  {
    hide Run, AllLegal, AfterMoves, MovedIds, SameRun, EffectFree, Undisturbed;
    if Safe(m, movable) {
      forall o: nat | movable(o) ensures EffectFree(m, o) && UndisturbedByAll(m, o) {
        SafeIsEffectFree(m, movable, o);
        forall other: nat | !BarrierCode(other) ensures Undisturbed(m, o, other) {
          SafeIsUndisturbed(m, movable, o, other);
        }
      }
    }
    if CalmOpcodes(m, movable) {
      forall p: seq<IRBlock>, live: set<Node>, entry: Node, moves: seq<Move>
        | entry in live && AllLegal(p, live, entry, movable, moves)
        ensures AllRunsSame(m, p, entry, moves)
      {
        LegalIsCalm(m, p, live, entry, movable, moves);
        forall env: Env, w: W, n: nat
          ensures SameRun(MovedIds(p, moves), Run(m, p, Running(entry, env, w), n),
                          Run(m, AfterMoves(p, moves), Running(entry, env, w), n))
        {
          SinkingPreservesRuns(m, p, live, entry, movable, moves, env, w, n);
        }
      }
    }
  }

  // ---------------------------------------------------------------- what stays where, whatever the moves

  lemma {:induction false} ShapeStays(p: seq<IRBlock>, moves: seq<Move>, b: Node)
    requires b < |p|
    ensures AfterMoves(p, moves)[b].phi == p[b].phi && AfterMoves(p, moves)[b].terminator == p[b].terminator
    decreases |moves|
  {
    if moves != [] {
      ShapeStays(p, moves[..|moves| - 1], b);
    }
  }

  /** The function has the operation. */
  ghost predicate HasOperation(p: seq<IRBlock>, o: Op) {
    exists b: Node :: b < |p| && o in p[b].operations
  }

  lemma {:induction false} OpsStay(p: seq<IRBlock>, moves: seq<Move>, b: Node, o: Op)
    requires b < |p| && o in AfterMoves(p, moves)[b].operations
    ensures HasOperation(p, o)
    decreases |moves|
  {
    if moves != [] {
      var q, mv := AfterMoves(p, moves[..|moves| - 1]), moves[|moves| - 1];
      if InBounds(q, mv) && b == mv.target && o == MovedOp(q, mv) {
        OpsStay(p, moves[..|moves| - 1], mv.source, o);
      } else {
        OpsStay(p, moves[..|moves| - 1], b, o);
      }
    }
  }

  /** Moved values are values of the function's operations. */
  lemma {:induction false} MovedAreValues(p: seq<IRBlock>, live: set<Node>, entry: Node, movable: nat -> bool,
                                          moves: seq<Move>, x: Id)
    requires AllSinkable(p, live, entry, movable, moves) && x in MovedIds(p, moves)
    ensures x != 0 && exists o: Op :: HasOperation(p, o) && o.id == x
    decreases |moves|
  {
    hide HasOperation, OnlyWay, RestLeavesAlone, ReadOnlyBy, LeavesAlone;
    var before, mv := moves[..|moves| - 1], moves[|moves| - 1];
    var q := AfterMoves(p, before);
    if x in MovedIds(p, before) {
      MovedAreValues(p, live, entry, movable, before, x);
    } else {
      OpsStay(p, before, mv.source, MovedOp(q, mv));
    }
  }

  lemma {:induction false} NothingLeftOut(ops: seq<Op>, ids: set<Id>)
    requires forall o: Op :: o in ops ==> o.id !in ids
    ensures Others(ops, ids) == ops
  {
    if ops != [] {
      assert ops[0] in ops && forall o: Op :: o in ops[1..] ==> o in ops;
      NothingLeftOut(ops[1..], ids);
    }
  }

  lemma {:induction false} OthersMembers(ops: seq<Op>, ids: set<Id>, o: Op)
    requires o in ops && o.id !in ids
    ensures o in Others(ops, ids)
  {
    if ops[0] != o {
      OthersMembers(ops[1..], ids, o);
    }
  }

  // ---------------------------------------------------------------- a load that sinks past a store

  /** OpAccessChain, OpLoad and OpStore. */
  const ACCESS: Op := Op(65, 1, [])
  const LOAD: Op := Op(61, 3, [IdArgument(1)])
  const STORE: Op := Op(62, 0, [])

  /** An access chain, a load of it, then a store; one of the two blocks that follow returns what was loaded. */
  function LoadThenStore(): seq<IRBlock> {
    [IRBlock([], [ACCESS, LOAD, STORE], Condition(2, 1, 2)), IRBlock([], [], Return(3)), IRBlock([], [], Return(0))]
  }

  function StoreThenLoad(): seq<IRBlock> {
    [IRBlock([], [STORE], Condition(2, 1, 2)), IRBlock([], [ACCESS, LOAD], Return(3)), IRBlock([], [], Return(0))]
  }

  /** Memory is one integer, which a store increments. */
  function Memory(): Machine<int> {
    Machine((o, args, w) => if o == 61 then (w, w) else if o == 62 then (0, w + 1) else (0, w))
  }

  /** The blocks' analyses. */
  function ChartOf(): Chart {
    Chart([[], [0], [0]], [None, None, None], [0, 0, 0], {0, 1, 2}, 0, [2, 1, 0])
  }

  lemma FlowEdges(x: Node, y: Node)
    ensures Edge(FlowOf(LoadThenStore()), x, y) <==> x == 0 && (y == 1 || y == 2)
    ensures |FlowOf(LoadThenStore()).succ| == 3
  {}

  lemma WaysIn(b: Node)
    requires b == 1 || b == 2
    ensures Path(FlowOf(LoadThenStore()), [0, b], 0, b) && Path(FlowOf(LoadThenStore()), [0], 0, 0)
    ensures Dominating(FlowOf(LoadThenStore()), 0, 0, b)
    ensures forall a: Node :: Dominating(FlowOf(LoadThenStore()), 0, a, b) ==> a == 0 || a == b
    ensures forall a: Node :: Dominating(FlowOf(LoadThenStore()), 0, a, 0) ==> a == 0
  {
    var w := FlowOf(LoadThenStore());
    FlowEdges(0, b);
    assert [0, b][1..] == [b];
    assert Path(w, [b], b, b);
    forall r: seq<Node> | Path(w, r, 0, b) ensures 0 in r {
      PathLast(w, r, 0, b);
    }
    forall a: Node | Dominating(w, 0, a, b) ensures a == 0 || a == b {
      assert a in [0, b];
    }
    forall a: Node | Dominating(w, 0, a, 0) ensures a == 0 {
      assert a in [0];
    }
  }

  lemma LoadTargets(b: Node, t: Node)
    requires b <= 2
    ensures |LoadThenStore()| == 3 && (t in Targets(LoadThenStore()[b].terminator) <==> b == 0 && (t == 1 || t == 2))
  {}

  lemma AboutChartOf()
    ensures var c := ChartOf();
            && |c.pred| == |c.predBack| == |c.idom| == 3 && c.live == {0, 1, 2} && c.entry == 0 && c.order == [2, 1, 0]
            && c.pred[0] == [] && c.pred[1] == [0] && c.pred[2] == [0] && c.idom[1] == 0 && c.idom[2] == 0
            && (forall b: Node :: b <= 2 ==> c.predBack[b] == None) && Distinct(c.order)
            && Index(c.order, 2) == 0 && Index(c.order, 1) == 1 && Index(c.order, 0) == 2
            && forall b: Node :: b in c.order <==> b <= 2
  {
    DistinctByPairs(ChartOf().order);
  }

  lemma LoadsAreCharted()
    ensures Fits(LoadThenStore(), ChartOf()) && LiveSet(LoadThenStore(), {0, 1, 2})
    ensures BarriersMakeNothing(LoadThenStore(), {0, 1, 2})
  {
    hide Dominating, FlowOf, ChartOf, LoadThenStore, Targets, Index, Distinct, IsBarrier;
    var p, c := LoadThenStore(), ChartOf();
    AboutChartOf();
    LoadTargets(0, 0);
    WaysIn(1);
    WaysIn(2);
    forall b: Node, t: Node | b <= 2 ensures t in Targets(p[b].terminator) <==> b == 0 && (t == 1 || t == 2) {
      LoadTargets(b, t);
    }
    assert LiveSet(p, c.live);
    forall b: Node | b in c.live
      ensures Reach(FlowOf(p), 0, b) && ChartedAt(p, c.pred, c.predBack, c.idom, c.live, c.order, b)
    {}
    forall a: Node, b: Node | a in c.live && b in c.live && Dominating(FlowOf(p), 0, a, b)
      ensures Index(c.order, a) >= Index(c.order, b)
    {
      assert b == 0 || a == 0 || a == b;
    }
    NoBarriers();
  }

  lemma NoBarriers()
    ensures forall b: Node, i :: b <= 2 && 0 <= i < |LoadThenStore()[b].operations| ==>
              !IsBarrier(LoadThenStore()[b].operations[i])
  {}

  lemma ReadsOfLoads(b: Node, x: Id)
    requires b <= 2
    ensures Reads(LoadThenStore()[b], x) <==>
              (b == 0 && (x == 1 || x == 2)) || (b == 1 && x == 3) || (b == 2 && x == 0)
    ensures Defines(LoadThenStore()[b], x) <==> b == 0 && (x == 1 || x == 3)
  {
    var ops := LoadThenStore()[0].operations;
    assert ops[0] == ACCESS && ops[1] == LOAD && ops[2] == STORE;
  }

  lemma LoadsAreWellFormed()
    ensures SSA.WellFormed(LoadThenStore(), {0, 1, 2}, 0)
  {
    hide Dominating, FlowOf, Reads, Defines;
    var p, live := LoadThenStore(), {0, 1, 2};
    WaysIn(1);
    DominatesItself(FlowOf(p), 0, 0);
    forall b: Node, x: Id | b in live
      ensures (Reads(p[b], x) <==> (b == 0 && (x == 1 || x == 2)) || (b == 1 && x == 3) || (b == 2 && x == 0))
      ensures Defines(p[b], x) <==> b == 0 && (x == 1 || x == 3)
    {
      ReadsOfLoads(b, x);
    }
    forall b: Node, d: Node, i, id: Id
      | b in live && d in live && 0 <= i < |p[b].operations| && UsesId(p[b].operations[i], id) && Defines(p[d], id)
      ensures Dominating(FlowOf(p), 0, d, b)
    {
      OpReads(p[b], i, id);
    }
    forall b: Node, d: Node | b in live && d in live && Defines(p[d], TerminatorUse(p[b].terminator))
      ensures Dominating(FlowOf(p), 0, d, b)
    {
      TerminatorReads(p[b]);
    }
    InOrderLoads();
  }

  lemma InOrderLoads()
    ensures forall b: Node :: b in {0, 1, 2} ==> InOrder(LoadThenStore()[b])
  {
    var ops := LoadThenStore()[0].operations;
    assert ops[..1] == [ACCESS] && ops[..1][0].id == 1;
    assert DefinesOp(ops[..1], 1);
  }

  lemma WayIsClear(postDominates: (Node, Node) -> bool)
    ensures var c := ChartOf(); ClearWay(LoadThenStore(), c.pred, c.predBack, c.live, c.entry, 0, 1)
  {
    hide Dominating, FlowOf;
    WaysIn(1);
  }

  lemma LoadsMaySink(given: set<Id>, movable: nat -> bool)
    requires 1 in given && movable(61)
    ensures MaySink(LoadThenStore(), {0, 1, 2}, given, movable, 0, 0)
    ensures MaySink(LoadThenStore(), {0, 1, 2}, given, movable, 0, 1)
  {
    var ops := LoadThenStore()[0].operations;
    assert ops[0].id == 1 && UsesId(ops[1], ops[0].id);
    assert HandedOn(ops, given, movable, 0);
    assert Unbarred(ops, 0, 1) && Unbarred(ops, 0, 3) && Unbarred(ops, 1, 3);
    assert HandedOn(ops, given, movable, 1);
  }

  /** The operations of the function after any moves. */
  lemma OnlyThree(q: seq<IRBlock>, moves: seq<Move>, b: Node, o: Op)
    requires q == AfterMoves(LoadThenStore(), moves) && b <= 2 && o in q[b].operations
    ensures o == ACCESS || o == LOAD || o == STORE
  {
    OpsStay(LoadThenStore(), moves, b, o);
    var d: Node :| d < 3 && o in LoadThenStore()[d].operations;
  }

  /** What a run of the pass does to it. */
  lemma BothSink(q: seq<IRBlock>, moves: seq<Move>, postDominates: (Node, Node) -> bool, given: set<Id>,
                 movable: nat -> bool, left: set<Id>)
    requires q == AfterMoves(LoadThenStore(), moves) && SSA.WellFormed(q, {0, 1, 2}, 0) && 1 in given && movable(61)
    requires !postDominates(1, 0)
    requires SankAll(LoadThenStore(), q, ChartOf(), postDominates, given, movable, MovedIds(LoadThenStore(), moves),
                     left)
    ensures 1 in MovedIds(LoadThenStore(), moves) && 3 in MovedIds(LoadThenStore(), moves) && 1 in left
    ensures |q| == 3 && DefinesOp(q[1].operations, 1) && DefinesOp(q[1].operations, 3)
  {
    hide ClearWay, MaySink, AfterMoves, MovedIds, SSA.WellFormed, SankAt;
    var p, c := LoadThenStore(), ChartOf();
    WayIsClear(postDominates);
    LoadsMaySink(given, movable);
    forall b: Node | b <= 2 ensures q[b].terminator == p[b].terminator {
      ShapeStays(p, moves, b);
    }
    forall b: Node | b <= 2 ensures Reads(q[b], 3) <==> b == 1 {
      if ReadsOp(q[b].operations, 3) {
        var i :| 0 <= i < |q[b].operations| && UsesId(q[b].operations[i], 3);
        OnlyThree(q, moves, b, q[b].operations[i]);
      }
    }
    assert Goes(p, q, c, postDominates, 0, 1, 3);
    SankHere(p, q, c, postDominates, given, movable, MovedIds(p, moves), left, 0, 1, 1);
    OneReader(q, moves);
    assert Goes(p, q, c, postDominates, 0, 1, 1);
    SankHere(p, q, c, postDominates, given, movable, MovedIds(p, moves), left, 0, 0, 1);
  }

  lemma SankHere(p: seq<IRBlock>, q: seq<IRBlock>, c: Chart, postDominates: (Node, Node) -> bool, given: set<Id>,
                 movable: nat -> bool, moved: set<Id>, left: set<Id>, n: Node, j: nat, t: Node)
    requires SankAll(p, q, c, postDominates, given, movable, moved, left) && n in c.live && HasValue(p, n, j)
    requires MaySink(p, c.live, given, movable, n, j)
    requires Goes(p, q, c, postDominates, n, t, p[n].operations[j].id)
    ensures p[n].operations[j].id in moved && t < |q| && DefinesOp(q[t].operations, p[n].operations[j].id)
    ensures p[n].operations[j].id in given ==> p[n].operations[j].id in left
  {
    hide Goes, MaySink;
    assert SankAt(p, q, c, postDominates, given, movable, moved, left, n, j);
    GoesInRange(p, q, c, postDominates, n, t, p[n].operations[j].id);
  }

  /** Where the load is, the access chain is read, and nowhere else. */
  lemma OneReader(q: seq<IRBlock>, moves: seq<Move>)
    requires q == AfterMoves(LoadThenStore(), moves) && SSA.WellFormed(q, {0, 1, 2}, 0)
    requires DefinesOp(q[1].operations, 3)
    ensures forall b: Node :: b <= 2 ==> (Reads(q[b], 1) <==> b == 1)
  {
    hide AfterMoves, InOrder;
    var k :| 0 <= k < |q[1].operations| && q[1].operations[k].id == 3;
    OnlyThree(q, moves, 1, q[1].operations[k]);
    assert UsesId(q[1].operations[k], 1);
    forall b: Node | b <= 2 && Reads(q[b], 1) ensures b == 1 {
      ShapeStays(LoadThenStore(), moves, b);
      var i :| 0 <= i < |q[b].operations| && UsesId(q[b].operations[i], 1);
      OnlyThree(q, moves, b, q[b].operations[i]);
      OpDefines(q[b], i);
      assert Defines(q[b], 3) && Defines(q[1], 3);
    }
  }

  /** So the function that is left is this one. */
  lemma LeftIs(q: seq<IRBlock>, moves: seq<Move>, movable: nat -> bool)
    requires q == AfterMoves(LoadThenStore(), moves) && SSA.WellFormed(q, {0, 1, 2}, 0)
    requires AllSinkable(LoadThenStore(), {0, 1, 2}, 0, movable, moves)
    requires DefinesOp(q[1].operations, 1) && DefinesOp(q[1].operations, 3)
    requires 1 in MovedIds(LoadThenStore(), moves) && 3 in MovedIds(LoadThenStore(), moves)
    ensures q == StoreThenLoad()
  {
    hide AfterMoves, MovedIds, AllSinkable, InOrder, Others;
    var p, ids := LoadThenStore(), {1, 3};
    forall x: Id | x in MovedIds(p, moves) ensures x in ids {
      MovedAreValues(p, {0, 1, 2}, 0, movable, moves, x);
    }
    forall b: Node | b <= 2
      ensures q[b].phi == p[b].phi && q[b].terminator == p[b].terminator
      ensures Others(q[b].operations, ids) == Others(p[b].operations, ids)
    {
      ShapeStays(p, moves, b);
      OthersStay(p, moves, ids, b);
    }
    forall b: Node, o: Op | (b == 0 || b == 2) && o in q[b].operations ensures o.id !in ids {
      var i :| 0 <= i < |q[b].operations| && q[b].operations[i] == o;
      NotThere(q, b, i);
    }
    NothingLeftOut(q[0].operations, ids);
    NothingLeftOut(q[2].operations, ids);
    OthersOfLoads();
    LoadedThere(q, moves);
  }

  lemma NotThere(q: seq<IRBlock>, b: Node, i: nat)
    requires SSA.WellFormed(q, {0, 1, 2}, 0) && (b == 0 || b == 2) && i < |q[b].operations|
    requires DefinesOp(q[1].operations, 1) && DefinesOp(q[1].operations, 3)
    ensures q[b].operations[i].id !in {1, 3}
  {
    hide InOrder;
    assert Defines(q[1], 1) && Defines(q[1], 3);
    if q[b].operations[i].id != 0 {
      OpDefines(q[b], i);
    }
  }

  lemma OthersOfLoads()
    ensures Others(LoadThenStore()[0].operations, {1, 3}) == [STORE]
    ensures Others(LoadThenStore()[1].operations, {1, 3}) == [] && Others(LoadThenStore()[2].operations, {1, 3}) == []
  {
    var ops := LoadThenStore()[0].operations;
    assert ops[1..] == [LOAD, STORE] && ops[1..][1..] == [STORE] && ops[1..][1..][1..] == [];
    assert Others([], {1, 3}) == [] && Others([STORE], {1, 3}) == [STORE];
    assert Others([LOAD, STORE], {1, 3}) == [STORE];
  }

  /** The access chain comes before the load that reads it. */
  lemma LoadedThere(q: seq<IRBlock>, moves: seq<Move>)
    requires q == AfterMoves(LoadThenStore(), moves) && SSA.WellFormed(q, {0, 1, 2}, 0)
    requires DefinesOp(q[1].operations, 1) && DefinesOp(q[1].operations, 3)
    requires Others(q[1].operations, {1, 3}) == []
    ensures q[1].operations == [ACCESS, LOAD]
  {
    hide AfterMoves, Others, DefinesPhi, IdsApart, SSA.Form;
    var ops := q[1].operations;
    forall k: nat | k < |ops| ensures ops[k] == ACCESS || ops[k] == LOAD {
      OnlyThree(q, moves, 1, ops[k]);
      if ops[k] == STORE {
        OthersMembers(ops, {1, 3}, STORE);
      }
    }
    var a :| 0 <= a < |ops| && ops[a].id == 1;
    var b :| 0 <= b < |ops| && ops[b].id == 3;
    AboutInOrder(q[1]);
    forall k: nat {:trigger ops[k]} | k < |ops| ensures k == a || k == b {
      OnePlace(ops, k, if ops[k] == ACCESS then a else b);
    }
    ShapeStays(LoadThenStore(), moves, 1);
    assert UsesId(ops[b], 1) && Defines(q[1], 1);
    assert DefinesOp(ops[..b], 1);
    var d :| 0 <= d < |ops[..b]| && ops[..b][d].id == 1;
    OnePlace(ops, d, a);
    assert a < b;
    var first, second, last := ops[0], ops[1], ops[|ops| - 1];
    assert a == 0 && b == 1 && |ops| == 2;
  }

  lemma OnePlace(ops: seq<Op>, i: nat, j: nat)
    requires IdsApart(ops) && i < |ops| && j < |ops| && ops[i].id == ops[j].id && ops[i].id != 0
    ensures i == j
  {}

  /** The pass moves the access chain and the load past the store. */
  method SinkTheLoad(postDominates: (Node, Node) -> bool) returns (q: seq<IRBlock>)
    requires !postDominates(1, 0)
    ensures q == StoreThenLoad()
  {
    hide Fits, SSA.WellFormed, LiveSet, BarriersMakeNothing, AfterMoves, MovedIds, SankAll, AllSinkable, SameOps,
        CalmFunction;
    var none: seq<Option<Node>> := [None, None, None];
    var g := new Blocks(Links(LoadThenStore(), [[1, 2], [], []], [[], [0], [0]], none, none), 4);
    var s := new Sinks({1});
    LoadsAreCharted();
    LoadsAreWellFormed();
    var movable: nat -> bool := o => true;
    ghost var dry, kept, moves :=
        SinkSsaConstructs(g, s, [2, 1, 0], [0, 0, 0], postDominates, movable, ChartOf(), Memory());
    BothSink(AfterMoves(LoadThenStore(), dry), dry, postDominates, {1}, movable, kept);
    BothSink(g.blocks, moves, postDominates, kept, movable, s.sinkable);
    LeftIs(g.blocks, moves, movable);
    q := g.blocks;
  }

  lemma RunThree<W>(m: Machine<W>, a: Op, b: Op, o: Op, e: Env, w: W)
    ensures var (e1, w1) := RunOp(m, a, e, w);
            var (e2, w2) := RunOp(m, b, e1, w1);
            RunOps(m, [a, b], e, w) == (e2, w2) && RunOps(m, [a, b, o], e, w) == RunOp(m, o, e2, w2)
  {
    assert [a, b][1..] == [b] && [a, b, o][1..] == [b, o] && [b, o][1..] == [o];
    var (e1, w1) := RunOp(m, a, e, w);
    var (e2, w2) := RunOp(m, b, e1, w1);
    RunOne(m, b, e1, w1);
    RunOne(m, o, e2, w2);
  }

  /** And that changes what is returned: a load is disturbed by a store. */
  lemma LoadPastStore()
    ensures Run(Memory(), LoadThenStore(), Running(0, map[2 := 1], 0), 2) == Finished(Returned(0), 1)
    ensures Run(Memory(), StoreThenLoad(), Running(0, map[2 := 1], 0), 2) == Finished(Returned(1), 1)
    ensures EffectFree(Memory(), 61) && !Undisturbed(Memory(), 61, 62)
  {
    var m, p, q := Memory(), LoadThenStore(), StoreThenLoad();
    var e: Env := map[2 := 1];
    RunThree(m, ACCESS, LOAD, STORE, e, 0);
    assert Step(m, p, Running(0, e, 0)) == Running(1, e[1 := 0][3 := 0], 1);
    assert Run(m, p, Running(1, e[1 := 0][3 := 0], 1), 1) == Finished(Returned(0), 1);
    RunOne(m, STORE, e, 0);
    assert Step(m, q, Running(0, e, 0)) == Running(1, e, 1);
    RunThree(m, ACCESS, LOAD, STORE, e, 1);
    assert Step(m, q, Running(1, e, 1)) == Finished(Returned(1), 1);
    assert m.eval(61, [], m.eval(62, [], 0).1).0 != m.eval(61, [], 0).0;
  }
}
