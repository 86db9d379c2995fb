/** Helper blocks between the blocks of a function, and what they must not change. */
module Gates {
  import opened Wrappers
  import opened Graphs
  import opened IR
  import opened TailSplit
  import opened BlockPool
  import opened Rewiring

  // ---------------------------------------------------------------- what helper blocks must not change

  /** Where control from `from`, entering `at`, next enters one of the first `base` blocks: helper blocks
      decide by their PHIs. */
  function Land(q: seq<IRBlock>, base: nat, env: Env, from: Node, at: Node, hops: nat): Option<Node>
    decreases hops
  {
    if at < base then Some(at)
    else if hops == 0 || at >= |q| then None
    else
      var env' := EnterPhis(q[at].phi, from, env, env);
      match Next(q[at].terminator, env')
      case None => None
      case Some(t) => Land(q, base, env', at, t, hops - 1)
  }

  /** The longest chain of helper blocks between two blocks of the function. */
  const HOPS: nat := 4

  ghost predicate SlotLeads(q: seq<IRBlock>, base: nat, env: Env, b: Node, now: Node, was: Node) {
    Land(q, base, env, b, now, HOPS) == Some(was)
  }

  /** Each branch of each original block leads to the same original block as before. */
  ghost predicate Leads(p: seq<IRBlock>, q: seq<IRBlock>, live: set<Node>, env: Env) {
    && |p| <= |q|
    && forall b: Node :: b in live ==> b < |p| && LeadsAt(p, q, env, b)
  }

  ghost predicate LeadsAt(p: seq<IRBlock>, q: seq<IRBlock>, env: Env, b: Node)
    requires b < |p| <= |q|
  {
    var was, now := Targets(p[b].terminator), Targets(q[b].terminator);
    |now| == |was| && forall k :: 0 <= k < |was| ==> SlotLeads(q, |p|, env, b, now[k], was[k])
  }

  /** The original blocks entered on a run, when an oracle decides which branch each of them takes. */
  ghost function Visits(p: seq<IRBlock>, base: nat, env: Env, oracle: seq<Node> -> nat, visited: seq<Node>,
                        n: nat): seq<Node>
    requires visited != []
    decreases n
  {
    var b := visited[|visited| - 1];
    if n == 0 || b >= |p| then visited
    else
      var slots := Targets(p[b].terminator);
      if oracle(visited) >= |slots| then visited
      else
        match Land(p, base, env, b, slots[oracle(visited)], HOPS)
        case None => visited
        case Some(t) => Visits(p, base, env, oracle, visited + [t], n - 1)
  }

  /** The sequence of original blocks is the same for every oracle. */
  lemma {:induction false} VisitsAgree(p: seq<IRBlock>, q: seq<IRBlock>, live: set<Node>, env: Env,
                                       oracle: seq<Node> -> nat, visited: seq<Node>, n: nat)
    requires Leads(p, q, live, env) && LiveSet(p, live) && visited != [] && visited[|visited| - 1] in live
    ensures Visits(q, |p|, env, oracle, visited, n) == Visits(p, |p|, env, oracle, visited, n)
    decreases n
  {
    var b := visited[|visited| - 1];
    assert LeadsAt(p, q, env, b);
    if n > 0 {
      var was, now := Targets(p[b].terminator), Targets(q[b].terminator);
      var k := oracle(visited);
      if k < |was| {
        assert was[k] in was && was[k] in live && SlotLeads(q, |p|, env, b, now[k], was[k]);
        VisitsAgree(p, q, live, env, oracle, visited + [was[k]], n - 1);
      }
    }
  }

  /** From any live block on, every oracle is led through the same sequence of original blocks. */
  ghost predicate SameVisits(p: seq<IRBlock>, q: seq<IRBlock>, live: set<Node>, env: Env) {
    forall oracle: seq<Node> -> nat, start: Node, n: nat ::
      start in live ==> Visits(q, |p|, env, oracle, [start], n) == Visits(p, |p|, env, oracle, [start], n)
  }

  lemma LeadsKeepsVisits(p: seq<IRBlock>, q: seq<IRBlock>, live: set<Node>, env: Env)
    requires Leads(p, q, live, env) && LiveSet(p, live)
    ensures SameVisits(p, q, live, env)
  {
    hide Leads, LiveSet;
    forall oracle: seq<Node> -> nat, start: Node, n: nat | start in live
      ensures Visits(q, |p|, env, oracle, [start], n) == Visits(p, |p|, env, oracle, [start], n)
    {
      VisitsAgree(p, q, live, env, oracle, [start], n);
    }
  }

  // ---------------------------------------------------------------- which edges enter the helper blocks

  /** Helper blocks made before the collection are numbered below `gate`; some of them are entered
      on behalf of one block each. */
  datatype Side = Side(gate: Node, fixed: map<Node, Node>)

  /** A branch that led to `was` now leads there, to the dispatcher, or to a block in front of it. */
  ghost predicate SlotLed(v: Links, base: nat, disp: Node, side: Side, goal: map<Node, Node>, b: Node, now: Node,
                          was: Node)
    requires Shaped(v)
  {
    if now < base then now == was
    else if now == disp then b in goal && goal[b] == was
    else if now < side.gate then now in side.fixed && side.fixed[now] == was
    else now < |v.blocks| && now in goal && goal[now] == was
  }

  ghost predicate LedAt(p: Links, v: Links, disp: Node, side: Side, goal: map<Node, Node>, b: Node)
    requires Shaped(p) && Shaped(v) && b < |p.blocks| <= |v.blocks|
  {
    var was, now := Targets(p.blocks[b].terminator), Targets(v.blocks[b].terminator);
    && v.succBack[b] == p.succBack[b] && SameBody(p.blocks[b], v.blocks[b])
    && |now| == |was| && forall k :: 0 <= k < |was| ==> SlotLed(v, |p.blocks|, disp, side, goal, b, now[k], was[k])
  }

  /** All blocks that lead somewhere have kept their PHIs, their operations and what decides their branches. */
  ghost predicate SameBodies(p: seq<IRBlock>, q: seq<IRBlock>, live: set<Node>) {
    forall b: Node :: b in live ==> b < |p| && b < |q| && SameBody(p[b], q[b])
  }

  lemma LedBodies(p: Links, v: Links, q: seq<IRBlock>, live: set<Node>, disp: Node, side: Side, goal: map<Node, Node>)
    requires LedBy(p, v, live, disp, side, goal) && |q| >= |v.blocks|
    requires forall b: Node :: b < |p.blocks| ==> q[b] == v.blocks[b]
    ensures SameBodies(p.blocks, q, live)
  {
    hide SlotLed, IntermediateAt, SameBody;
    forall b: Node | b in live ensures b < |p.blocks| && SameBody(p.blocks[b], v.blocks[b]) {
      assert LedAt(p, v, disp, side, goal, b);
    }
  }

  /** Every branch leads to its old target, or among the helper blocks with that target as its goal. */
  ghost predicate LedBy(p: Links, v: Links, live: set<Node>, disp: Node, side: Side, goal: map<Node, Node>) {
    && Shaped(p) && Shaped(v) && disp == |p.blocks| < side.gate <= |v.blocks|
    && (forall b: Node :: b in live ==> b < |p.blocks| && LedAt(p, v, disp, side, goal, b))
    && (forall n: Node :: side.gate <= n < |v.blocks| ==> IntermediateAt(v, disp, n))
    && (forall n: Node, t: Node :: disp < n < side.gate && n < |v.blocks| && t in v.succ[n] ==> t >= disp)
    && (forall x: Node :: x in goal <==> x in v.pred[disp])
    && (forall x: Node :: x in goal ==> goal[x] < |p.blocks|)
    && (forall b: Node :: b in live && b < |p.blocks| && p.succBack[b].Some? ==> p.succBack[b].value < |p.blocks|)
  }

  // ---------------------------------------------------------------- one traversal towards the dispatcher

  lemma {:induction false} RetargetedCaseSlots(cases: seq<Case>, from: Node, to: Node)
    ensures |CaseTargets(RetargetedCases(cases, from, to))| == |CaseTargets(cases)|
    ensures forall k :: 0 <= k < |CaseTargets(cases)| ==>
              CaseTargets(RetargetedCases(cases, from, to))[k] == if CaseTargets(cases)[k] == from then to
              else CaseTargets(cases)[k]
  {
    if cases != [] {
      RetargetedCaseSlots(cases[1..], from, to);
    }
  }

  lemma RetargetedSlots(t: Terminator, from: Node, to: Node)
    ensures |Targets(Retargeted(t, from, to))| == |Targets(t)|
    ensures forall k :: 0 <= k < |Targets(t)| ==>
              Targets(Retargeted(t, from, to))[k] == if Targets(t)[k] == from then to else Targets(t)[k]
  {
    if t.Switch? {
      RetargetedCaseSlots(t.cases, from, to);
    }
  }

  /** The goals once more edges, all to `c`, have been collected. */
  ghost function MoreGoals(v: Links, disp: Node, goal: map<Node, Node>, c: Node): map<Node, Node>
    requires disp < |v.pred|
  {
    map x | x in v.pred[disp] :: if x in goal then goal[x] else c
  }

  /** An old slot that is not redirected keeps its goal. */
  lemma KeptSlot(p: Links, st: Links, v: Links, s: set<Node>, live: set<Node>, disp: Node, side: Side,
                 goal: map<Node, Node>, c: Node, via: map<Node, Node>, b: Node, now: Node, was: Node)
    requires LedBy(p, st, live, disp, side, goal) && Diverted(st, v, c, disp, via)
    requires disp < |st.pred| && disp < |v.pred| && !Lost(st, v, c, disp)
    requires SlotLed(st, |p.blocks|, disp, side, goal, b, now, was)
    ensures SlotLed(v, |p.blocks|, disp, side, MoreGoals(v, disp, goal, c), b, now, was)
  {
    hide LedAt, DivertedAt, IntermediateAt;
    assert Gained(st, v, c, disp, via);
    assert forall x: Node :: x in st.pred[disp] ==> x in v.pred[disp];
  }

  /** A redirected slot gets its old target as its goal. */
  lemma MovedSlot(p: Links, st: Links, v: Links, s: set<Node>, live: set<Node>, disp: Node, side: Side,
                  goal: map<Node, Node>, c: Node, via: map<Node, Node>, b: Node)
    requires LedBy(p, st, live, disp, side, goal) && Diverted(st, v, c, disp, via) && Wired(st, s)
             && Wired(v, WithNew(st, v, s))
    requires b in s && b in via && b < |st.blocks| && c < |p.blocks|
    ensures SlotLed(v, |p.blocks|, disp, side, MoreGoals(v, disp, goal, c), b, via[b], c)
  {
    hide LedAt, Gained, Retargeted;
    assert DivertedAt(st, v, c, disp, via, b);
    assert WiredAt(st, b) && PredsSound(st, disp);
    if via[b] == disp {
      assert WiredAt(v, b);
      ReplaceFirstMembers(st.succ[b], c, disp);
    } else {
      var n := via[b];
      BetweenRange(|st.blocks|, |v.blocks|, n);
      assert WiredAt(v, n) && IntermediateAt(v, disp, n);
    }
  }

  lemma CollectAt(p: Links, st: Links, v: Links, s: set<Node>, live: set<Node>, disp: Node, side: Side,
                  goal: map<Node, Node>, c: Node, via: map<Node, Node>, b: Node)
    requires LedBy(p, st, live, disp, side, goal) && Diverted(st, v, c, disp, via) && Wired(st, s)
             && Wired(v, WithNew(st, v, s))
    requires live <= s && b in live && c < |p.blocks| && disp < |st.pred| && disp < |v.pred| && !Lost(st, v, c, disp)
    ensures LedAt(p, v, disp, side, MoreGoals(v, disp, goal, c), b)
  {
    hide SlotLed, Gained, PredsSound, Retargeted, ReplaceFirst;
    assert LedAt(p, st, disp, side, goal, b) && DivertedAt(st, v, c, disp, via, b) && WiredAt(st, b);
    var was, then', now := Targets(p.blocks[b].terminator), Targets(st.blocks[b].terminator),
        Targets(v.blocks[b].terminator);
    if b in via {
      RetargetedSlots(st.blocks[b].terminator, c, via[b]);
      RetargetedSkeleton(st.blocks[b].terminator, c, via[b]);
      MovedSlot(p, st, v, s, live, disp, side, goal, c, via, b);
    }
    forall k | 0 <= k < |was| ensures SlotLed(v, |p.blocks|, disp, side, MoreGoals(v, disp, goal, c), b, now[k],
                                              was[k]) {
      KeptSlot(p, st, v, s, live, disp, side, goal, c, via, b, then'[k], was[k]);
      if b in via && then'[k] == c {
        StillOriginal(st, |p.blocks|, disp, side, goal, b, c, was[k]);
      }
    }
  }

  lemma StillOriginal(st: Links, base: nat, disp: Node, side: Side, goal: map<Node, Node>, b: Node, now: Node,
                      was: Node)
    requires Shaped(st) && SlotLed(st, base, disp, side, goal, b, now, was) && now < base
    ensures now == was
  {}

  /** Collecting the edges to `c` records `c` as their goal. */
  lemma LedCollect(p: Links, st: Links, v: Links, s: set<Node>, live: set<Node>, disp: Node, side: Side,
                   goal: map<Node, Node>, c: Node, via: map<Node, Node>)
    requires LedBy(p, st, live, disp, side, goal) && Diverted(st, v, c, disp, via) && Wired(st, s)
             && Wired(v, WithNew(st, v, s))
    requires live <= s && c < |p.blocks| && disp < |st.pred| && disp < |v.pred| && !Lost(st, v, c, disp)
    ensures LedBy(p, v, live, disp, side, MoreGoals(v, disp, goal, c))
  {
    hide LedAt, DivertedAt, Wired, IntermediateAt, Gained;
    forall b: Node | b in live ensures b < |p.blocks| && LedAt(p, v, disp, side, MoreGoals(v, disp, goal, c), b) {
      CollectAt(p, st, v, s, live, disp, side, goal, c, via, b);
    }
    forall n: Node | side.gate <= n < |v.blocks| ensures IntermediateAt(v, disp, n) {
      IntermediateStays(st, v, disp, c, via, n);
    }
    forall n: Node | disp < n < side.gate && n < |v.blocks| ensures v.succ[n] == st.succ[n] {
      HelperStays(st, v, c, disp, via, n);
    }
  }

  /** A block without a branch to `from` is not redirected. */
  lemma HelperStays(st: Links, v: Links, from: Node, to: Node, via: map<Node, Node>, n: Node)
    requires Diverted(st, v, from, to, via) && n < |st.blocks| && from !in st.succ[n]
    ensures v.blocks[n] == st.blocks[n] && v.succ[n] == st.succ[n] && v.succBack[n] == st.succBack[n]
  {
    assert DivertedAt(st, v, from, to, via, n);
  }

  lemma IntermediateStays(st: Links, v: Links, disp: Node, c: Node, via: map<Node, Node>, n: Node)
    requires Diverted(st, v, c, disp, via) && n < |v.blocks| && c != disp
             && (n < |st.blocks| ==> IntermediateAt(st, disp, n))
    ensures IntermediateAt(v, disp, n)
  {
    if n < |st.blocks| {
      assert DivertedAt(st, v, c, disp, via, n);
    }
  }

  /** Every edge into the dispatcher comes from one to `pdom`. */
  ghost function AllTo(v: Links, disp: Node, pdom: Node): map<Node, Node>
    requires disp < |v.pred|
  {
    map x | x in v.pred[disp] :: pdom
  }

  /** The blocks of a function to rewire. */
  ghost predicate Wirable(p: Links, live: set<Node>) {
    && Wired(p, live)
    && (forall b: Node, t: Node :: b in live && b < |p.blocks| && t in p.succ[b] ==> t in live)
    && (forall b: Node :: b in live && b < |p.blocks| && p.succBack[b].Some? ==> p.succBack[b].value in live)
  }

  lemma OwnSlots(p: Links, live: set<Node>, b: Node)
    requires Wirable(p, live) && b in live
    ensures b < |p.blocks| && forall k :: 0 <= k < |Targets(p.blocks[b].terminator)| ==>
              Targets(p.blocks[b].terminator)[k] < |p.blocks|
  {
    assert WiredAt(p, b);
    var slots := Targets(p.blocks[b].terminator);
    forall k | 0 <= k < |slots| ensures slots[k] < |p.blocks| {
      assert slots[k] in slots;
    }
  }

  /** Control does not leave the live blocks. */
  lemma WirableIsLive(p: Links, live: set<Node>)
    requires Wirable(p, live)
    ensures LiveSet(p.blocks, live)
  {
    hide PredsSound;
    forall b: Node, t: Node | b in live ensures b < |p.blocks| && (t in Targets(p.blocks[b].terminator) ==> t in live) {
      assert WiredAt(p, b);
    }
  }

  /** The builder's constants: the ids of integers and truth values. */
  datatype Constants = Constants(ints: int -> Id, bools: bool -> Id)

  ghost predicate HoldsBools(constants: Constants, env: Env) {
    forall b: bool :: Get(env, constants.bools(b)) == if b then 1 else 0
  }

  /** The environment has the truth values, and the selector values for `count` constructs and the default. */
  ghost predicate Holds(constants: Constants, count: nat, env: Env) {
    HoldsBools(constants, env) && forall n: int :: -1 <= n < count ==> Get(env, constants.ints(n)) == n
  }

  function ConstantOf(id: Id): int {
    if id == 1 then 1 else if id == 2 then 0 else id - 4
  }

  /** Such constants and environments exist, for any number of constructs. */
  lemma ConstantsHold(count: nat) returns (constants: Constants, env: Env)
    ensures Holds(constants, count, env)
  {
    constants := Constants(n => if n >= -1 then n + 4 else 0, b => if b then 1 else 2);
    env := map id | id in Between(0, count + 4) :: ConstantOf(id);
    forall id: Node ensures id in env <==> id < count + 4 {
      BetweenRange(0, count + 4, id);
    }
    assert Get(env, constants.bools(true)) == ConstantOf(1) && Get(env, constants.bools(false)) == ConstantOf(2);
  }

  // ---------------------------------------------------------------- a helper block entered on behalf of one block

  /** A slot to `c` that now leads to `aside` has its goal fixed. */
  lemma AsideAt(p: Links, st: Links, v: Links, s: set<Node>, live: set<Node>, disp: Node, side: Side,
                goal: map<Node, Node>, c: Node, aside: Node, via: map<Node, Node>, b: Node)
    requires LedBy(p, st, live, disp, side, goal) && Diverted(st, v, c, aside, via) && |v.blocks| == |st.blocks|
    requires live <= s && b in live && c < |p.blocks| && disp < aside < side.gate && aside in side.fixed
             && side.fixed[aside] == c
    ensures LedAt(p, v, disp, side, goal, b)
  {
    hide Gained, PredsSound, Retargeted, ReplaceFirst;
    assert LedAt(p, st, disp, side, goal, b) && DivertedAt(st, v, c, aside, via, b);
    var was, then', now := Targets(p.blocks[b].terminator), Targets(st.blocks[b].terminator),
        Targets(v.blocks[b].terminator);
    if b in via {
      RetargetedSlots(st.blocks[b].terminator, c, via[b]);
      RetargetedSkeleton(st.blocks[b].terminator, c, via[b]);
    }
    forall k | 0 <= k < |was| ensures SlotLed(v, |p.blocks|, disp, side, goal, b, now[k], was[k]) {
      assert SlotLed(st, |p.blocks|, disp, side, goal, b, then'[k], was[k]);
    }
  }

  lemma LedAside(p: Links, st: Links, v: Links, s: set<Node>, live: set<Node>, disp: Node, side: Side,
                 goal: map<Node, Node>, c: Node, aside: Node, via: map<Node, Node>)
    requires LedBy(p, st, live, disp, side, goal) && Diverted(st, v, c, aside, via) && |v.blocks| == |st.blocks|
    requires live <= s && c < |p.blocks| && disp < aside < side.gate && aside in side.fixed && side.fixed[aside] == c
    ensures LedBy(p, v, live, disp, side, goal)
  {
    hide LedAt, DivertedAt, Gained;
    forall b: Node | b in live ensures b < |p.blocks| && LedAt(p, v, disp, side, goal, b) {
      AsideAt(p, st, v, s, live, disp, side, goal, c, aside, via, b);
    }
    forall n: Node | side.gate <= n < |v.blocks| ensures IntermediateAt(v, disp, n) {
      assert IntermediateAt(st, disp, n);
      HelperStays(st, v, c, aside, via, n);
    }
    forall n: Node | disp < n < side.gate && n < |v.blocks| ensures v.succ[n] == st.succ[n] {
      HelperStays(st, v, c, aside, via, n);
    }
  }
}
