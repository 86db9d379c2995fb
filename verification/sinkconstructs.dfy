/** Sinking values into the one block that reads them: both runs, and when no run of the function can tell. */
module SinkConstructs {
  import opened Wrappers
  import opened Graphs
  import opened Lists
  import opened IR
  import opened TailSplit
  import opened BlockPool
  import opened Sinking
  import opened SinkPass
  import opened SinkFlags
  import opened SinkBooks
  import opened SinkRun
  import opened SinkWalk
  import SSA

  // ---------------------------------------------------------------- what a run moves

  /** Exactly the operations that may sink and have a place to go are moved there, and of the given flags exactly those
      of moved operations are left. */
  ghost predicate SankAll(p: seq<IRBlock>, q: seq<IRBlock>, c: Chart, postDominates: (Node, Node) -> bool,
                          given: set<Id>, movable: nat -> bool, moved: set<Id>, left: set<Id>) {
    forall n: Node, j: nat :: n in c.live && HasValue(p, n, j) ==>
      SankAt(p, q, c, postDominates, given, movable, moved, left, n, j)
  }

  predicate HasValue(p: seq<IRBlock>, n: Node, j: nat) {
    n < |p| && j < |p[n].operations| && p[n].operations[j].id != 0
  }

  ghost predicate SankAt(p: seq<IRBlock>, q: seq<IRBlock>, c: Chart, postDominates: (Node, Node) -> bool,
                         given: set<Id>, movable: nat -> bool, moved: set<Id>, left: set<Id>, n: Node, j: nat)
    requires HasValue(p, n, j)
  {
    var x := p[n].operations[j].id;
    && (x in moved <==>
          MaySink(p, c.live, given, movable, n, j) && exists t: Node :: Goes(p, q, c, postDominates, n, t, x))
    && (x in left <==> x in given && x in moved)
    && forall t: Node :: x in moved && Goes(p, q, c, postDominates, n, t, x) ==> DefinesOp(q[t].operations, x)
  }

  /** Flags are only on operations that may sink. */
  ghost predicate FlagsMaySink(p: seq<IRBlock>, c: Chart, given: set<Id>, movable: nat -> bool, flags: set<Id>) {
    forall n: Node, j: nat :: n in c.live && HasValue(p, n, j) && p[n].operations[j].id in flags ==>
      MaySink(p, c.live, given, movable, n, j)
  }

  lemma StartMaySink(p: seq<IRBlock>, c: Chart, given: set<Id>, movable: nat -> bool, sinkable: set<Id>,
                     dependent: set<Id>, keys: set<Id>)
    requires StartFlags(p, c.live, given, movable, sinkable, dependent, keys)
    ensures FlagsMaySink(p, c, given, movable, sinkable + dependent)
  {
    hide MaySink;
    forall n: Node, j: nat | n in c.live && HasValue(p, n, j) && p[n].operations[j].id in sinkable + dependent
      ensures MaySink(p, c.live, given, movable, n, j)
    {}
  }

  /** At the end of the walk. */
  lemma WalkIsDone(p: seq<IRBlock>, c: Chart, postDominates: (Node, Node) -> bool, movable: nat -> bool, given: set<Id>,
                   sinkable0: set<Id>, dependent0: set<Id>, keys: set<Id>, consumed: map<Id, Option<Node>>,
                   sinkable: set<Id>, dependent: set<Id>, moves: seq<Move>)
    requires StartFlags(p, c.live, given, movable, sinkable0, dependent0, keys)
    requires Between(p, c, postDominates, movable, sinkable0, dependent0, consumed, sinkable, dependent, moves,
                     |c.order|)
    ensures SankAll(p, AfterMoves(p, moves), c, postDominates, given, movable, MovedIds(p, moves), sinkable)
  {
    hide Goes, MaySink, Sound, SSA.WellFormed, Fits, MovesSoFar, AfterMoves, MovedIds, DefinesOp, Tracks, Recorded,
        DoneReads;
    var q := AfterMoves(p, moves);
    AboutChart(p, c);
    forall n: Node, j: nat | n in c.live && HasValue(p, n, j)
      ensures SankAt(p, q, c, postDominates, given, movable, MovedIds(p, moves), sinkable, n, j)
    {
      var h := Index(c.order, n);
      assert c.order[h] == n && MakesValue(p, c.order, h, j);
      assert Settled(|c.order|, LengthAt(p, c.order, |c.order|), h, j);
      assert DecidedAt(p, q, c, postDominates, sinkable0 + dependent0, MovedIds(p, moves), h, j);
      assert BooksAt(DoneReads(q, c.order[..|c.order|]), sinkable0, dependent0, sinkable, dependent,
                     MovedIds(p, moves), ValueOf(p, c.order, h, j), true);
    }
  }

  /** Before the walk. */
  lemma WalkStarts(p: seq<IRBlock>, c: Chart, postDominates: (Node, Node) -> bool, movable: nat -> bool, given: set<Id>,
                   consumed: map<Id, Option<Node>>, sinkable: set<Id>, dependent: set<Id>)
    requires Fits(p, c) && SSA.WellFormed(p, c.live, c.entry) && LiveSet(p, c.live)
    requires MovableOps(p, c.live, given, movable) && NoneRead(consumed) && sinkable <= given
    requires StartFlags(p, c.live, given, movable, sinkable, dependent, consumed.Keys)
    requires PhiFree(p, c.live, consumed, sinkable + dependent)
    ensures Between(p, c, postDominates, movable, sinkable, dependent, consumed, sinkable, dependent, [], 0)
  {
    hide Fits, SSA.WellFormed, MaySink, InPhi, MovesSoFar;
    AboutChart(p, c);
    NoMoves(p, c, movable, sinkable + dependent);
    assert DoneReads(p, c.order[..0]) == iset{};
    forall b: Node, i | b in c.live && 0 <= i < |p[b].operations| && p[b].operations[i].id != 0
    && p[b].operations[i].id in sinkable + dependent
      ensures movable(p[b].operations[i].op)
    {
      FlagsMovable(p, c.live, given, movable, b, i);
    }
    forall h: nat, j: nat | MakesValue(p, c.order, h, j)
      ensures ValueOf(p, c.order, h, j) in sinkable + dependent ==> ValueOf(p, c.order, h, j) in consumed
      ensures !Settled(0, LengthAt(p, c.order, 0), h, j)
    {
      assert c.order[h] in c.live;
    }
  }

  /** `sink_ssa_constructs_run`. Of a dry run, `moves` are those that it would have made. */
  method SinkSsaConstructsRun(g: Blocks, s: Sinks, order: seq<Node>, idom: seq<Node>,
                              postDominates: (Node, Node) -> bool, movable: nat -> bool, dryRun: bool, ghost c: Chart)
    returns (ghost moves: seq<Move>, ghost flags: set<Id>)
    requires g.Valid() && g.pred == c.pred && g.predBackEdge == c.predBack && idom == c.idom && order == c.order
    requires Fits(g.blocks, c) && SSA.WellFormed(g.blocks, c.live, c.entry) && LiveSet(g.blocks, c.live)
    requires BarriersMakeNothing(g.blocks, c.live)
    requires MovableOps(g.blocks, c.live, s.sinkable, movable) && 0 !in s.sinkable && s.dependent == {}
    modifies g`blocks, s
    ensures g.Valid() && g.blocks == if dryRun then old(g.blocks) else AfterMoves(old(g.blocks), moves)
    ensures MovesSoFar(old(g.blocks), AfterMoves(old(g.blocks), moves), c, movable, flags, moves)
            && FlagsMaySink(old(g.blocks), c, old(s.sinkable), movable, flags)
    ensures SSA.WellFormed(AfterMoves(old(g.blocks), moves), c.live, c.entry) && s.sinkable <= old(s.sinkable)
    ensures SankAll(old(g.blocks), AfterMoves(old(g.blocks), moves), c, postDominates, old(s.sinkable), movable,
                    MovedIds(old(g.blocks), moves), s.sinkable)
    ensures dryRun ==> s.dependent == {}
  {
    hide Fits, SSA.WellFormed, MovableOps, PhiFree, MovesSoFar, NoneRead, LiveSet, BarriersMakeNothing, ScannedBlocks,
        StartFlags, Between, SankAll, FlagsMaySink, AfterMoves, MovedIds, InPhi;
    ghost var p, given := g.blocks, s.sinkable;
    AboutChart(p, c);
    s.consumed := map[];
    Propagate(s, g.blocks, order, movable, c.live, c.entry);
    ghost var sinkable1, dependent1 := s.sinkable, s.dependent;
    ExcludePhis(s, g.blocks, order, c.live);
    ghost var sinkable0, dependent0, keys := s.sinkable, s.dependent, s.consumed.Keys;
    FlagsToStart(p, c.live, order, given, movable, sinkable1, dependent1, sinkable0, dependent0, keys);
    PhisExcluded(p, c, s.consumed, sinkable1, dependent1, sinkable0, dependent0);
    StartMaySink(p, c, given, movable, sinkable0, dependent0, keys);
    flags := sinkable0 + dependent0;
    WalkStarts(p, c, postDominates, movable, given, s.consumed, s.sinkable, s.dependent);
    moves := [];
    StartsWithP(p);
    for k := 0 to |order|
      invariant g.Valid() && g.blocks == if dryRun then p else AfterMoves(p, moves)
      invariant Between(p, c, postDominates, movable, sinkable0, dependent0, s.consumed, s.sinkable, s.dependent, moves,
                        k)
      modifies g`blocks, s
    {
      moves := SinkBlock(g, s, idom, postDominates, dryRun, order[k], k, p, c, movable, sinkable0, dependent0, moves);
    }
    WalkIsDone(p, c, postDominates, movable, given, sinkable0, dependent0, keys, s.consumed, s.sinkable, s.dependent,
               moves);
    BetweenIsSound(p, c, postDominates, movable, sinkable0, dependent0, s.consumed, s.sinkable, s.dependent, moves,
                   |order|);
    if dryRun {
      s.dependent := {};
    }
  }

  lemma StartsWithP(p: seq<IRBlock>)
    ensures AfterMoves(p, []) == p
  {}

  lemma PhisExcluded(p: seq<IRBlock>, c: Chart, consumed: map<Id, Option<Node>>, sinkable1: set<Id>,
                     dependent1: set<Id>, sinkable: set<Id>, dependent: set<Id>)
    requires forall x: Id :: x in sinkable <==> x in sinkable1 && !(x in consumed && InPhi(p, c.live, x))
    requires forall x: Id :: x in dependent <==> x in dependent1 && !(x in consumed && InPhi(p, c.live, x))
    ensures PhiFree(p, c.live, consumed, sinkable + dependent) && sinkable <= sinkable1
  {
    hide InPhi;
  }

  lemma BetweenIsSound(p: seq<IRBlock>, c: Chart, postDominates: (Node, Node) -> bool, movable: nat -> bool,
                       sinkable0: set<Id>, dependent0: set<Id>, consumed: map<Id, Option<Node>>, sinkable: set<Id>,
                       dependent: set<Id>, moves: seq<Move>, k: nat)
    requires Between(p, c, postDominates, movable, sinkable0, dependent0, consumed, sinkable, dependent, moves, k)
    ensures MovesSoFar(p, AfterMoves(p, moves), c, movable, sinkable0 + dependent0, moves)
    ensures SSA.WellFormed(AfterMoves(p, moves), c.live, c.entry) && sinkable <= sinkable0
  {
    hide Sound, SSA.WellFormed, Fits, MovesSoFar, AfterMoves, MovedIds, Decided, BooksAt, DoneReads;
    AboutSound(AfterMoves(p, moves), c, consumed, sinkable + dependent, movable);
  }

  // ---------------------------------------------------------------- when no run can tell

  /** Operation `j` of block `n` is disturbed by nothing that it might be moved past: what comes after it in its block,
      and the blocks on a clear way from there. */
  ghost predicate CalmOp<W(!new)>(m: Machine<W>, p: seq<IRBlock>, c: Chart, n: Node, j: nat)
    requires HasValue(p, n, j)
  {
    var o := p[n].operations[j].op;
    && EffectFree(m, o) && AllUndisturbed(m, o, p[n].operations[j + 1..])
    && forall b: Node, t: Node ::
         (b in c.live && t in c.live && b < |p| && b != n && b != t && OnTheWay(p, c.entry, n, b, t)
          && ClearWay(p, c.pred, c.predBack, c.live, c.entry, n, t)) ==> AllUndisturbed(m, o, p[b].operations)
  }

  /** The operations that may sink have no effect, and nothing on the way disturbs them. */
  ghost predicate CalmFunction<W(!new)>(m: Machine<W>, p: seq<IRBlock>, c: Chart, given: set<Id>,
                                        movable: nat -> bool) {
    forall n: Node, j: nat :: n in c.live && HasValue(p, n, j) && MaySink(p, c.live, given, movable, n, j) ==>
      CalmOp(m, p, c, n, j)
  }

  /** An operation without an effect disturbs nothing. */
  lemma EffectFreeDisturbsNothing<W(!new)>(m: Machine<W>, o: nat, other: nat)
    requires EffectFree(m, other)
    ensures Undisturbed(m, o, other)
  {}

  /** Operations of the block's own, and operations that were moved to it. */
  lemma MixedIsCalm<W(!new)>(m: Machine<W>, p: seq<IRBlock>, c: Chart, given: set<Id>, movable: nat -> bool,
                             flags: set<Id>, o: nat, own: seq<Op>, ops: seq<Op>)
    requires LiveSet(p, c.live) && (forall b: Node :: b in c.live <==> b in c.order)
    requires CalmFunction(m, p, c, given, movable) && FlagsMaySink(p, c, given, movable, flags)
    requires AllUndisturbed(m, o, own) && forall a: Op :: a in ops ==> a in own || Sinker(p, c, flags, a)
    ensures AllUndisturbed(m, o, ops)
  {
    hide Undisturbed, EffectFree, MaySink, ClearWay, OnTheWay;
    forall i | 0 <= i < |ops| ensures Undisturbed(m, o, ops[i].op) {
      assert ops[i] in ops;
      if ops[i] in own {
        var a :| 0 <= a < |own| && own[a] == ops[i];
      } else {
        var h: nat, j: nat :| MakesValue(p, c.order, h, j) && p[c.order[h]].operations[j] == ops[i];
        assert c.order[h] in c.live && HasValue(p, c.order[h], j);
        assert CalmOp(m, p, c, c.order[h], j);
        EffectFreeDisturbsNothing(m, o, ops[i].op);
      }
    }
  }

  lemma StraightIsCalm<W(!new)>(m: Machine<W>, p: seq<IRBlock>, q: seq<IRBlock>, c: Chart, given: set<Id>,
                                movable: nat -> bool, flags: set<Id>, mv: Move)
    requires LiveSet(p, c.live) && (forall b: Node :: b in c.live <==> b in c.order)
    requires CalmFunction(m, p, c, given, movable) && FlagsMaySink(p, c, given, movable, flags)
    requires Straight(p, q, c, flags, mv)
    ensures InBounds(q, mv) && Calm(m, q, mv)
  {
    hide Undisturbed, EffectFree, AllUndisturbed, MaySink, ClearWay, Sinker, LiveSet, OnTheWay;
    AboutLiveSet(p, c.live);
    var o := MovedOp(q, mv).op;
    assert HasValue(p, mv.source, mv.at) && CalmOp(m, p, c, mv.source, mv.at);
    MixedIsCalm(m, p, c, given, movable, flags, o, p[mv.source].operations[mv.at + 1..],
                q[mv.source].operations[mv.at + 1..]);
    forall b: Node | b in mv.chain && b != mv.target && b < |q| ensures AllUndisturbed(m, o, q[b].operations) {
      MixedIsCalm(m, p, c, given, movable, flags, o, p[b].operations, q[b].operations);
    }
  }

  lemma {:induction false} MovesAreCalm<W(!new)>(m: Machine<W>, p: seq<IRBlock>, c: Chart, given: set<Id>,
                                                 movable: nat -> bool, flags: set<Id>, moves: seq<Move>)
    requires LiveSet(p, c.live) && (forall b: Node :: b in c.live <==> b in c.order)
    requires CalmFunction(m, p, c, given, movable) && FlagsMaySink(p, c, given, movable, flags)
    requires AllStraight(p, c, flags, moves)
    ensures AllCalm(m, p, moves)
    decreases |moves|
  {
    hide CalmFunction, FlagsMaySink, Straight, Calm, LiveSet;
    if moves != [] {
      MovesAreCalm(m, p, c, given, movable, flags, moves[..|moves| - 1]);
      StraightIsCalm(m, p, AfterMoves(p, moves[..|moves| - 1]), c, given, movable, flags, moves[|moves| - 1]);
    }
  }

  /** With fewer flags given, fewer operations may sink. */
  lemma {:induction false} HandedOnMore(ops: seq<Op>, fewer: set<Id>, more: set<Id>, movable: nat -> bool, i: nat)
    requires i < |ops| && fewer <= more && HandedOn(ops, fewer, movable, i)
    ensures HandedOn(ops, more, movable, i)
    decreases i
  {
    if ops[i].id !in fewer {
      var j :| 0 <= j < i && UsesId(ops[i], ops[j].id) && Unbarred(ops, j, i) && HandedOn(ops, fewer, movable, j);
      HandedOnMore(ops, fewer, more, movable, j);
    }
  }

  lemma CalmWithFewer<W(!new)>(m: Machine<W>, p: seq<IRBlock>, c: Chart, fewer: set<Id>, more: set<Id>,
                               movable: nat -> bool)
    requires CalmFunction(m, p, c, more, movable) && fewer <= more
    ensures CalmFunction(m, p, c, fewer, movable)
  {
    hide CalmOp, HandedOn, InPhi;
    forall n: Node, j: nat | n in c.live && HasValue(p, n, j) && MaySink(p, c.live, fewer, movable, n, j)
      ensures CalmOp(m, p, c, n, j)
    {
      HandedOnMore(p[n].operations, fewer, more, movable, j);
      assert MaySink(p, c.live, more, movable, n, j);
    }
  }

  // ---------------------------------------------------------------- what stays

  /** The operations that make none of the values. */
  function Others(ops: seq<Op>, ids: set<Id>): seq<Op> {
    if ops == [] then [] else (if ops[0].id in ids then [] else [ops[0]]) + Others(ops[1..], ids)
  }

  lemma {:induction false} OthersConcat(a: seq<Op>, b: seq<Op>, ids: set<Id>)
    ensures Others(a + b, ids) == Others(a, ids) + Others(b, ids)
  {
    if a == [] {
      assert a + b == b;
    } else {
      assert (a + b)[1..] == a[1..] + b;
      OthersConcat(a[1..], b, ids);
    }
  }

  /** In every block, the operations that were not moved are still there, in their order, and no others have come. */
  lemma {:induction false} OthersStay(p: seq<IRBlock>, moves: seq<Move>, ids: set<Id>, b: Node)
    requires b < |p| && MovedIds(p, moves) <= ids
    ensures Others(AfterMoves(p, moves)[b].operations, ids) == Others(p[b].operations, ids)
    decreases |moves|
  {
    if moves != [] {
      var q, mv := AfterMoves(p, moves[..|moves| - 1]), moves[|moves| - 1];
      OthersStay(p, moves[..|moves| - 1], ids, b);
      if InBounds(q, mv) {
        var ops, op := q[b].operations, MovedOp(q, mv);
        assert op.id in ids && [op][1..] == [];
        assert Others([op], ids) == [];
        if b == mv.source {
          assert ops == ops[..mv.at] + ([op] + ops[mv.at + 1..]);
          OthersConcat(ops[..mv.at], [op] + ops[mv.at + 1..], ids);
          OthersConcat([op], ops[mv.at + 1..], ids);
          OthersConcat(ops[..mv.at], ops[mv.at + 1..], ids);
        } else if b == mv.target {
          OthersConcat([op], ops, ids);
        }
      }
    }
  }

  // ---------------------------------------------------------------- both runs

  /** `sink_ssa_constructs`: a dry run, which decides what can sink as a whole, and then the real run. */
  method SinkSsaConstructs<W(!new)>(g: Blocks, s: Sinks, order: seq<Node>, idom: seq<Node>,
                                    postDominates: (Node, Node) -> bool, movable: nat -> bool, ghost c: Chart,
                                    ghost m: Machine<W>)
    returns (ghost dry: seq<Move>, ghost kept: set<Id>, ghost moves: seq<Move>)
    requires g.Valid() && g.pred == c.pred && g.predBackEdge == c.predBack && idom == c.idom && order == c.order
    requires Fits(g.blocks, c) && SSA.WellFormed(g.blocks, c.live, c.entry) && LiveSet(g.blocks, c.live)
    requires BarriersMakeNothing(g.blocks, c.live)
    requires MovableOps(g.blocks, c.live, s.sinkable, movable) && 0 !in s.sinkable && s.dependent == {}
    modifies g`blocks, s
    ensures g.Valid() && SSA.WellFormed(g.blocks, c.live, c.entry) && g.blocks == AfterMoves(old(g.blocks), moves)
    ensures SameOps(old(g.blocks), g.blocks, order) && |g.blocks| == |old(g.blocks)|
    ensures SSA.WellFormed(AfterMoves(old(g.blocks), dry), c.live, c.entry)
    ensures AllSinkable(old(g.blocks), c.live, c.entry, movable, dry)
            && AllSinkable(old(g.blocks), c.live, c.entry, movable, moves)
    ensures SankAll(old(g.blocks), AfterMoves(old(g.blocks), dry), c, postDominates, old(s.sinkable), movable,
                    MovedIds(old(g.blocks), dry), kept)
    ensures SankAll(old(g.blocks), g.blocks, c, postDominates, kept, movable, MovedIds(old(g.blocks), moves),
                    s.sinkable)
    ensures CalmFunction(m, old(g.blocks), c, old(s.sinkable), movable) ==> forall env: Env, w: W, n: nat ::
              SameRun(MovedIds(old(g.blocks), moves), Run(m, old(g.blocks), Running(c.entry, env, w), n),
                      Run(m, g.blocks, Running(c.entry, env, w), n))
    ensures CalmFunction(m, old(g.blocks), c, old(s.sinkable), movable) ==> forall env: Env, w: W, n: nat ::
              SameUses(m, MovedIds(old(g.blocks), moves), old(g.blocks), g.blocks,
                       Run(m, old(g.blocks), Running(c.entry, env, w), n),
                       Run(m, g.blocks, Running(c.entry, env, w), n))
  {
    hide Fits, SSA.WellFormed, MovableOps, MovesSoFar, LiveSet, SameRun, SameUses, AfterMoves, MovedIds, AllSinkable,
        SameOps, SankAll, CalmFunction, BarriersMakeNothing, FlagsMaySink, AllCalm, AllStraight;
    ghost var p, given := g.blocks, s.sinkable;
    ghost var flags;
    AboutChart(p, c);
    dry, flags := SinkSsaConstructsRun(g, s, order, idom, postDominates, movable, true, c);
    AboutMoves(p, AfterMoves(p, dry), c, movable, flags, dry);
    kept := s.sinkable;
    FewerMovable(p, c.live, given, kept, movable);
    moves, flags := SinkSsaConstructsRun(g, s, order, idom, postDominates, movable, false, c);
    AboutMoves(p, g.blocks, c, movable, flags, moves);
    if CalmFunction(m, p, c, given, movable) {
      CalmWithFewer(m, p, c, given * kept, given, movable);
      assert given * kept == kept;
      MovesAreCalm(m, p, c, kept, movable, flags, moves);
      forall env: Env, w: W, n: nat
        ensures SameRun(MovedIds(p, moves), Run(m, p, Running(c.entry, env, w), n),
                        Run(m, g.blocks, Running(c.entry, env, w), n))
        ensures SameUses(m, MovedIds(p, moves), p, g.blocks, Run(m, p, Running(c.entry, env, w), n),
                         Run(m, g.blocks, Running(c.entry, env, w), n))
      {
        SinkingPreservesRuns(m, p, c.live, c.entry, movable, moves, env, w, n);
        SinkingKeepsUses(m, p, c.live, c.entry, movable, moves, env, w, n);
      }
    }
  }

  lemma FewerMovable(q: seq<IRBlock>, live: set<Node>, flags: set<Id>, flags': set<Id>, movable: nat -> bool)
    requires LiveSet(q, live) && MovableOps(q, live, flags, movable) && flags' <= flags
    ensures MovableOps(q, live, flags', movable)
  {}
}
