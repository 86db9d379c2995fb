/** The rewrites as they are used, and that no run can tell. */
module Preservation {
  import opened Wrappers
  import opened Graphs
  import opened Lists
  import opened IR
  import opened TailSplit
  import opened BlockPool
  import opened Splitting
  import NodePool
  import Demote
  import DemotePass
  import Duplicate
  import Eliminate
  import Hoist
  import Rewiring
  import SSA

  // ---------------------------------------------------------------- splitting a block for its predecessors

  /** A function in static single assignment form, and a block of it that is no part of a loop's back edge and
      dominates none of its successors. */
  ghost predicate Splits(v: Links, live: set<Node>, entry: Node, n: Node, bound: Id) {
    && Linked(v, live) && SSA.WellFormed(v.blocks, live, entry) && entry in live && n in live && n != entry
    && (forall b: Node :: b in live ==> Reach(FlowOf(v.blocks), entry, b)) && IdsBelow(v.blocks, live, bound)
    && bound > 0
    && (v.blocks[n].terminator.Branch? || v.blocks[n].terminator.Condition?) && |v.pred[n]| > 1
    && v.succBack[n].None? && v.predBack[n].None?
    && forall s: Node :: s in Targets(v.blocks[n].terminator) ==> !Dominating(FlowOf(v.blocks), entry, n, s)
  }

  lemma SplitsIsSeparable(v: Links, live: set<Node>, entry: Node, n: Node, bound: Id)
    requires Splits(v, live, entry, n, bound)
    ensures Separable(v, live, n, bound)
  {
    hide Dominating, Reach, InOrder, IdsBelow, LinkedAt, PhisMatch;
    SSA.DominatesNothing(v.blocks, live, entry, n);
    DominatesItself(FlowOf(v.blocks), entry, n);
  }

  /** Started alike at the entry, the two functions stay in step: the same blocks, up to the copies of `n`, the same
      effects, decisions and outcome. */
  ghost predicate InStep<W(!new)>(m: Machine<W>, p: seq<IRBlock>, q: seq<IRBlock>, live: set<Node>, entry: Node,
                                  n: Node, copies: seq<Copy>, bound: Id) {
    n < |p| && forall env: Env, w: W, steps: nat ::
                 Related(p, live, n, copies, bound, Run(m, p, Running(entry, env, w), steps),
                         Run(m, q, Running(entry, env, w), steps))
  }

  lemma SplitInStep<W(!new)>(m: Machine<W>, v: Links, q: seq<IRBlock>, live: set<Node>, entry: Node, n: Node,
                             copies: seq<Copy>, bound: Id)
    requires Splits(v, live, entry, n, bound) && IsSplit(v.blocks, q, live, n, copies, bound)
    ensures InStep(m, v.blocks, q, live, entry, n, copies, bound)
  {
    hide Splittable, IsSplit, Related, Linked, SSA.WellFormed, IdsBelow, Dominating, Reach;
    SplitsIsSeparable(v, live, entry, n, bound);
    forall env: Env, w: W, steps: nat
      ensures n < |v.blocks|
              && Related(v.blocks, live, n, copies, bound, Run(m, v.blocks, Running(entry, env, w), steps),
                         Run(m, q, Running(entry, env, w), steps))
    {
      SplittableInRange(v.blocks, live, n, bound);
      SplitPreservesRuns(m, v.blocks, q, live, n, copies, bound, entry, env, w, steps);
    }
    SplittableInRange(v.blocks, live, n, bound);
  }

  lemma SplittableInRange(p: seq<IRBlock>, live: set<Node>, n: Node, bound: Id)
    requires Splittable(p, live, n, bound)
    ensures n < |p|
  {}

  /** A block with nothing but PHIs and a branch, which joins ways outside of loops and dominates none of its
      successors. */
  ghost predicate Breaking(v: Links, n: Node, dominates: (Node, Node) -> bool)
    requires Shaped(v) && n < |v.blocks|
  {
    && v.blocks[n].operations == [] && |v.pred[n]| > 1 && v.succBack[n].None? && v.predBack[n].None?
    && ((|v.succ[n]| == 1 && v.blocks[n].terminator.Branch?)
        || (|v.succ[n]| == 2 && v.blocks[n].terminator.Condition?))
    && forall s: Node :: s in v.succ[n] ==> !dominates(n, s)
  }

  /** `block_is_breaking_phi_construct`, its structural checks: `others` stands for the heuristic ones. */
  method BlockIsBreakingPhiConstruct(f: Blocks, n: Node, dominates: (Node, Node) -> bool,
                                     others: bool) returns (r: bool)
    requires f.Valid() && n < |f.blocks|
    ensures r <==> Breaking(f.View(), n, dominates) && others
  {
    if f.blocks[n].operations != [] || |f.pred[n]| <= 1 || f.succBackEdge[n].Some? || f.predBackEdge[n].Some? {
      return false;
    }
    if |f.succ[n]| == 1 {
      if !f.blocks[n].terminator.Branch? {
        return false;
      }
    } else if |f.succ[n]| == 2 {
      if !f.blocks[n].terminator.Condition? {
        return false;
      }
    } else {
      return false;
    }
    for i := 0 to |f.succ[n]|
      invariant forall k :: 0 <= k < i ==> !dominates(n, f.succ[n][k])
    {
      if dominates(n, f.succ[n][i]) {
        assert f.succ[n][i] in f.succ[n];
        return false;
      }
    }
    r := others;
  }

  /** The step of `cleanup_breaking_phi_constructs` for one block. */
  method CleanupBreakingPhiConstruct<W(!new)>(f: Blocks, n: Node, dominates: (Node, Node) -> bool, others: bool,
                                              ghost live: set<Node>, ghost entry: Node, ghost m: Machine<W>)
    returns (split: bool)
    requires f.Valid() && Linked(f.View(), live) && SSA.WellFormed(f.blocks, live, entry) && entry in live && n in live
             && n != entry && n < |f.blocks|
    requires (forall b: Node :: b in live ==> Reach(FlowOf(f.blocks), entry, b)) && IdsBelow(f.blocks, live, f.nextId)
             && f.nextId > 0
    requires forall b: Node :: b in live ==> (dominates(n, b) <==> Dominating(FlowOf(f.blocks), entry, n, b))
    modifies f
    ensures f.Valid() && f.nextId == old(f.nextId) && (!split ==> f.View() == old(f.View()))
    ensures split <==>
            && others && Splits(old(f.View()), live, entry, n, f.nextId) && old(f.blocks[n]).operations == []
            && TargetsDiffer(old(f.blocks[n]).terminator)
    ensures split ==>
              && Linked(f.View(), LiveAfter(old(f.View()), n, live, |old(f.pred[n])|))
              && InStep(m, old(f.blocks), f.blocks, live, entry, n, Eliminate.Breaks(old(f.View()), n), f.nextId)
  {
    hide SSA.WellFormed, IdsBelow, Dominating, Reach, IsSplit, InStep, Separable, Splits, Breaking, TargetsDiffer;
    ghost var v := f.View();
    BreakingIsSplits(v, live, entry, n, f.nextId, dominates);
    split := BlockIsBreakingPhiConstruct(f, n, dominates, others);
    if split {
      SplitsIsSeparable(v, live, entry, n, f.nextId);
      Eliminate.EliminateNodeLinkPredsToSucc(f, n, live);
      SplitInStep(m, v, f.blocks, live, entry, n, Eliminate.Breaks(v, n), f.nextId);
    }
  }

  predicate TargetsDiffer(t: Terminator) {
    t.Condition? ==> t.onTrue != t.onFalse
  }

  /** The structural checks accept exactly the blocks without operations that can be split, but for a conditional branch
      whose two targets are one. */
  lemma BreakingIsSplits(v: Links, live: set<Node>, entry: Node, n: Node, bound: Id, dominates: (Node, Node) -> bool)
    requires Linked(v, live) && SSA.WellFormed(v.blocks, live, entry) && entry in live && n in live && n != entry
             && n < |v.blocks|
    requires (forall b: Node :: b in live ==> Reach(FlowOf(v.blocks), entry, b)) && IdsBelow(v.blocks, live, bound)
             && bound > 0
    requires forall b: Node :: b in live ==> (dominates(n, b) <==> Dominating(FlowOf(v.blocks), entry, n, b))
    ensures Breaking(v, n, dominates) <==>
            Splits(v, live, entry, n, bound) && v.blocks[n].operations == [] && TargetsDiffer(v.blocks[n].terminator)
  {
    hide SSA.WellFormed, IdsBelow, Dominating, Reach, PhisMatch;
    assert LinkedAt(v, live, n);
    if v.succBack[n].None? {
      SuccsAreTargets(v, live, n);
    }
    assert forall s: Node :: s in v.succ[n] ==> s in live;
  }

  lemma SuccsAreTargets(v: Links, live: set<Node>, n: Node)
    requires Shaped(v) && n < |v.blocks| && LinkedAt(v, live, n) && v.succBack[n].None?
    ensures forall s: Node :: s in v.succ[n] <==> s in Targets(v.blocks[n].terminator)
    ensures v.blocks[n].terminator.Branch? ==> |v.succ[n]| == 1
    ensures v.blocks[n].terminator.Condition? ==> (|v.succ[n]| == 2 <==> TargetsDiffer(v.blocks[n].terminator))
  {
    match v.blocks[n].terminator
    case Branch(t) => OneOrTwo(v.succ[n], t, t);
    case Condition(_, t, e) => OneOrTwo(v.succ[n], t, e);
    case _ =>
  }

  lemma OneOrTwo(xs: seq<Node>, a: Node, b: Node)
    requires Distinct(xs) && forall x: Node :: x in xs <==> x == a || x == b
    ensures |xs| == if a == b then 1 else 2
  {
    assert a in xs && b in xs && forall k :: 0 <= k < |xs| ==> xs[k] in xs;
    if |xs| >= 2 {
      DistinctPair(xs, 0, 1);
    }
    if |xs| >= 3 {
      DistinctPair(xs, 0, 2);
      DistinctPair(xs, 1, 2);
    }
  }

  /** `duplicate_node`, under the conditions that it asserts. */
  method DuplicateAsserted<W(!new)>(c: NodePool.Pool, f: Blocks, n: Node, ghost live: set<Node>, ghost entry: Node,
                                    ghost m: Machine<W>)
    requires f.Valid() && Splits(f.View(), live, entry, n, f.nextId) && Duplicate.AnalysedFor(c, f.View(), live)
    modifies f
    ensures f.Valid() && n < |old(f.blocks)|
    ensures InStep(m, old(f.blocks), f.blocks, live, entry, n, Duplicate.Copies(old(f.View()), n, old(f.nextId)),
                   old(f.nextId))
    ensures Linked(Duplicate.Pruned(f.View(), old(f.succ[n]), n), LiveAfter(old(f.View()), n, live, |old(f.pred[n])|))
    ensures Duplicate.DefinedOnce(f.blocks, LiveAfter(old(f.View()), n, live, |old(f.pred[n])|))
  {
    hide SSA.WellFormed, Splits, Separable, IdsBelow, IsSplit, InStep, Duplicate.AnalysedFor, Linked,
        Duplicate.DefinedOnce, LiveAfter;
    ghost var v, bound := f.View(), f.nextId;
    SplitsIsSeparable(v, live, entry, n, bound);
    DefinedOnceInSsa(v, live, entry, n, bound);
    Duplicate.DuplicateNode(c, f, n, live);
    SplitInStep(m, v, f.blocks, live, entry, n, Duplicate.Copies(v, n, bound), bound);
  }

  lemma DefinedOnceInSsa(v: Links, live: set<Node>, entry: Node, n: Node, bound: Id)
    requires Splits(v, live, entry, n, bound)
    ensures n < |v.blocks| && Duplicate.DefinedOnce(v.blocks, live)
  {
    hide Dominating, Reach, IdsBelow, LinkedAt, PhisMatch;
  }

  // ---------------------------------------------------------------- demotion

  /** `fixup_broken_value_dominance`, for a function that starts with nothing computed: every run computes
      what it computed. */
  method RepairEverywhere<W(!new)>(g: Blocks, order: seq<Node>, dominates: (Node, Node) -> bool, ghost live: set<Node>,
                                   ghost recreated: Op -> bool,
                                    ghost entry: Node, ghost m: Machine<W>)
    returns (ghost steps: seq<Demote.Demotion>)
    requires g.Valid() && LiveSet(g.blocks, live) && DemotePass.VisitOrder(order, live) && entry in live
    requires DemotePass.NothingToRecreate(g.blocks, live, dominates, recreated)
    requires DemotePass.OneDefinition(g.blocks, live) && DemotePass.AllIdsBelow(g.blocks, live, g.nextId)
    requires forall b: Node :: dominates(b, b)
    modifies g`blocks, g`nextId
    ensures g.Valid() && |g.blocks| == |old(g.blocks)|
    ensures forall b: Node, d: Node, x: Id ::
              (b in live && d in live && b < |g.blocks| && d < |g.blocks| && DemotePass.Makes(g.blocks[d], x)
               && Reads(g.blocks[b], x)) ==>
                dominates(d, b)
    ensures forall env: Env, w: W, n: nat ::
              Unused(old(g.blocks), live, old(g.nextId), env) ==>
                Demote.SameState(old(g.nextId), Run(m, old(g.blocks), Running(entry, env, w), n),
                                 Demote.VarRun(m, Demote.Variables(steps), g.blocks, Running(entry, env, w), n))
  {
    hide DemotePass.Makes, Reads, Demote.SameState, Demote.AllDemotable, Demote.After, DemotePass.OnlyBroken,
        DemotePass.OneDefinition, DemotePass.AllIdsBelow, DemotePass.VisitOrder;
    ghost var p, bound := g.blocks, g.nextId;
    steps := DemotePass.FixupBrokenValueDominance(g, order, dominates, live, recreated);
    forall env: Env, w: W, n: nat | Unused(p, live, bound, env)
      ensures Demote.SameState(bound, Run(m, p, Running(entry, env, w), n),
                               Demote.VarRun(m, Demote.Variables(steps), g.blocks, Running(entry, env, w), n))
    {
      UnusedFacts(p, live, bound, env);
      Demote.DemotionsPreserveRuns(m, p, live, steps, bound, entry, env, w, n);
    }
  }

  /** Nothing that the function makes, or might yet allocate, has a value. */
  ghost predicate Unused(p: seq<IRBlock>, live: set<Node>, bound: Id, env: Env)
    requires LiveSet(p, live)
  {
    && (forall id: Id :: id >= bound ==> Get(env, id) == 0)
    && (forall b: Node, id: Id :: b in live && Defines(p[b], id) ==> Get(env, id) == 0)
  }

  lemma UnusedFacts(p: seq<IRBlock>, live: set<Node>, bound: Id, env: Env)
    requires LiveSet(p, live) && Unused(p, live, bound, env)
    ensures forall id: Id :: id >= bound ==> Get(env, id) == 0
    ensures forall b: Node, id: Id :: b in live && Defines(p[b], id) ==> Get(env, id) == 0
  {}

  // ---------------------------------------------------------------- hoisting

  /** Where control goes on from `pred`, through the switch block or a helper block if need be. */
  function Onward(q: seq<IRBlock>, base: nat, node: Node, next: Option<Node>, env: Env): Option<Node> {
    if next == Some(node) && node < |q| then Next(q[node].terminator, env)
    else if next.Some? && base <= next.value < |q| then Next(q[next.value].terminator, env)
    else next
  }

  /** From the new predecessor on, control reaches what the switch would have chosen, with the same effects
      and old values. */
  ghost predicate ChoiceKept<W>(m: Machine<W>, was: IRBlock, q: seq<IRBlock>, base: nat, node: Node, pred: Node,
                                bound: Id, e: Env, w: W) {
    pred < |q| && node < |q| && q[node].operations == [] &&
    var (e1, w1) := RunOps(m, was.operations, e, w);
    var (e2, w2) := RunOps(m, q[pred].operations, e, w);
    w2 == w1 && Hoist.Keeps(bound, e1, e2)
    && Onward(q, base, node, Next(q[pred].terminator, e2), e2) == Next(was.terminator, e1)
  }

  /** The selector and the labels have their values once the block's operations have run. */
  ghost predicate Labelled<W>(m: Machine<W>, was: IRBlock, uints: nat -> Id, bound: Id, e: Env, w: W)
    requires was.terminator.Switch?
  {
    var e1 := RunOps(m, was.operations, e, w).0;
    Hoist.Ready(was.terminator.selector, was.terminator.cases, uints, bound, e1, Get(e1, was.terminator.selector))
  }

  /** `hoist_switch_branches_to_frontier` keeps the choice for every selector value. */
  method HoistKeepingChoices<W(!new)>(f: Blocks, node: Node, merge: Node, candidate: Node, reaches: Node -> bool,
                                      uints: nat -> Id, ghost s: set<Node>, ghost m: Machine<W>)
    returns (pred: Node, hoisted: Option<Node>, hop: Node)
    requires f.Valid() && Rewiring.Wired(f.View(), s) && node in s && node < |f.blocks| && merge < |f.blocks|
             && candidate < |f.blocks| && f.nextId > 0
    requires f.blocks[node].terminator.Switch? && node !in f.succ[node] && candidate != node
    requires forall b: Node :: b in s ==> b < |f.blocks|
    requires Hoist.WellFormedCases(f.blocks[node].terminator.cases) && forall t: Node :: t in f.succ[node] <==>
               t in Targets(f.blocks[node].terminator)
    requires Hoist.Standard(m)
    modifies f
    ensures f.Valid() && pred == |old(f.blocks)|
    ensures forall e: Env, w: W :: Labelled(m, old(f.blocks[node]), uints, old(f.nextId), e, w) ==>
              ChoiceKept(m, old(f.blocks[node]), f.blocks, |old(f.blocks)|, node, pred, old(f.nextId), e, w)
  {
    hide Rewiring.Wired, Hoist.WellFormedCases, Hoist.Standard, Hoist.Hoisted, Hoist.Unhoisted, Labelled, ChoiceKept;
    ghost var was, base, bound := f.blocks[node], |f.blocks|, f.nextId;
    ghost var succs := f.succ[node];
    SuccessorsOld(f.View(), s, node);
    pred, hoisted, hop := Hoist.HoistSwitchBranchesToFrontier(f, node, merge, candidate, reaches, uints, s);
    forall e: Env, w: W | Labelled(m, was, uints, bound, e, w) ensures ChoiceKept(m, was, f.blocks, base, node, pred,
            bound, e, w) {
      if hoisted.Some? {
        HoistedChoice(m, was, f.blocks, base, node, pred, hoisted.value, hop, merge, uints, bound, e, w);
      } else {
        UnhoistedChoice(m, was, f.blocks, base, node, pred, bound, e, w);
      }
    }
  }

  lemma SuccessorsOld(v: Links, s: set<Node>, node: Node)
    requires Rewiring.Wired(v, s) && node in s
    ensures node < |v.blocks| && forall t: Node :: t in v.succ[node] ==> t < |v.blocks|
  {
    assert Rewiring.WiredAt(v, node);
  }

  lemma HoistedChoice<W(!new)>(m: Machine<W>, was: IRBlock, q: seq<IRBlock>, base: nat, node: Node, pred: Node,
                               succ: Node, hop: Node, merge: Node,
                               uints: nat -> Id, bound: Id, e: Env, w: W)
    requires was.terminator.Switch? && Hoist.WellFormedCases(was.terminator.cases)
             && Hoist.Hoisted(was, q, node, pred, succ, hop, merge, uints, bound)
    requires Hoist.Standard(m) && succ in Targets(was.terminator) && Labelled(m, was, uints, bound, e, w)
    requires node < base && succ < base && succ != node && (hop == succ || hop >= base)
    requires forall t: Node :: t in Targets(was.terminator) ==> t < base && t != node
    ensures ChoiceKept(m, was, q, base, node, pred, bound, e, w)
  {
    hide Hoist.WellFormedCases, Hoist.Standard, RunOps, Hoist.AnyCase;
    CaseWithTarget(was.terminator.cases, succ);
    Hoist.HoistKeepsTarget(m, was, q, node, pred, succ, hop, merge, uints, bound, e, w);
    var (e1, w1) := RunOps(m, was.operations, e, w);
    HasNext(was.terminator, e1);
  }

  lemma {:induction false} CaseWithTarget(cases: seq<Case>, t: Node)
    requires t in CaseTargets(cases)
    ensures exists i :: 0 <= i < |cases| && cases[i].node == t
  {
    if cases[0].node != t {
      CaseWithTarget(cases[1..], t);
      var i :| 0 <= i < |cases[1..]| && cases[1..][i].node == t;
      assert cases[i + 1].node == t;
    }
  }

  lemma HasNext(t: Terminator, e: Env)
    ensures Next(t, e).Some? ==> Next(t, e).value in Targets(t)
  {
    NextIsTarget(t, e);
  }

  lemma UnhoistedChoice<W(!new)>(m: Machine<W>, was: IRBlock, q: seq<IRBlock>, base: nat, node: Node, pred: Node,
                                 bound: Id, e: Env, w: W)
    requires Hoist.Unhoisted(was, q, node, pred)
    ensures ChoiceKept(m, was, q, base, node, pred, bound, e, w)
  {
    Hoist.NoHoistKeepsTarget(m, was, q, node, pred, e, w);
  }
}
