/** Splitting a block into one copy per predecessor, and why runs cannot tell. */
module TailSplit {
  import opened Wrappers
  import opened Graphs
  import opened IR

  /** One copy: the predecessor it serves, the new block, and what each id of the split block became. */
  datatype Copy = Copy(pred: Node, block: Node, remap: map<Id, Id>)

  function Renamed(remap: map<Id, Id>, id: Id): Id {
    if id in remap then remap[id] else id
  }

  function RenamedArgument(remap: map<Id, Id>, a: Argument): Argument {
    match a
    case IdArgument(id) => IdArgument(Renamed(remap, id))
    case LiteralArgument(_) => a
  }

  function RenamedArguments(remap: map<Id, Id>, args: seq<Argument>): (r: seq<Argument>)
    ensures |r| == |args|
  {
    seq(|args|, i requires 0 <= i < |args| => RenamedArgument(remap, args[i]))
  }

  function RenamedOp(remap: map<Id, Id>, op: Op): Op {
    Op(op.op, if op.id == 0 then 0 else Renamed(remap, op.id), RenamedArguments(remap, op.arguments))
  }

  function RenamedOps(remap: map<Id, Id>, ops: seq<Op>): seq<Op> {
    if ops == [] then [] else [RenamedOp(remap, ops[0])] + RenamedOps(remap, ops[1..])
  }

  function RenamedTerminator(remap: map<Id, Id>, t: Terminator): Terminator {
    match t
    case Condition(id, a, b) => Condition(Renamed(remap, id), a, b)
    case Switch(id, cases) => Switch(Renamed(remap, id), cases)
    case Return(id) => Return(Renamed(remap, id))
    case _ => t
  }

  function RetargetedCases(cases: seq<Case>, from: Node, to: Node): seq<Case> {
    if cases == [] then []
    else [cases[0].(node := if cases[0].node == from then to else cases[0].node)] + RetargetedCases(cases[1..], from,
            to)
  }

  /** Every branch to `from` now goes to `to`. */
  function Retargeted(t: Terminator, from: Node, to: Node): Terminator {
    match t
    case Branch(n) => Branch(if n == from then to else n)
    case Condition(id, a, b) => Condition(id, if a == from then to else a, if b == from then to else b)
    case Switch(id, cases) => Switch(id, RetargetedCases(cases, from, to))
    case _ => t
  }

  function CaseSkeletons(cases: seq<Case>): seq<Case> {
    if cases == [] then [] else [cases[0].(node := 0)] + CaseSkeletons(cases[1..])
  }

  /** A terminator without its targets: what is decided, and from which value. */
  function Skeleton(t: Terminator): Terminator {
    match t
    case Branch(_) => Branch(0)
    case Condition(id, _, _) => Condition(id, 0, 0)
    case Switch(id, cases) => Switch(id, CaseSkeletons(cases))
    case _ => t
  }

  /** The same block, but for where it branches to. */
  predicate SameBody(b: IRBlock, c: IRBlock) {
    c.phi == b.phi && c.operations == b.operations && Skeleton(c.terminator) == Skeleton(b.terminator)
  }

  lemma {:induction false} RetargetedCaseSkeletons(cases: seq<Case>, from: Node, to: Node)
    ensures CaseSkeletons(RetargetedCases(cases, from, to)) == CaseSkeletons(cases)
  {
    if cases != [] {
      RetargetedCaseSkeletons(cases[1..], from, to);
    }
  }

  lemma RetargetedSkeleton(t: Terminator, from: Node, to: Node)
    ensures Skeleton(Retargeted(t, from, to)) == Skeleton(t)
  {
    if t.Switch? {
      RetargetedCaseSkeletons(t.cases, from, to);
    }
  }

  // ---------------------------------------------------------------- the block to split

  predicate DefinesPhi(b: IRBlock, id: Id) {
    exists i :: 0 <= i < |b.phi| && b.phi[i].id == id
  }

  predicate DefinesOp(ops: seq<Op>, id: Id) {
    id != 0 && exists i :: 0 <= i < |ops| && ops[i].id == id
  }

  predicate Defines(b: IRBlock, id: Id) {
    DefinesPhi(b, id) || DefinesOp(b.operations, id)
  }

  /** The ids are distinct, and an operation of the block uses ids of the block only after they are defined. */
  ghost predicate InOrder(b: IRBlock) {
    && (forall i, j :: 0 <= i < j < |b.phi| ==> b.phi[i].id != b.phi[j].id)
    && (forall i :: 0 <= i < |b.phi| ==> b.phi[i].id != 0)
    && (forall i, j :: 0 <= i < j < |b.operations| && b.operations[i].id != 0 ==>
          b.operations[i].id != b.operations[j].id)
    && (forall i :: 0 <= i < |b.operations| && b.operations[i].id != 0 ==> !DefinesPhi(b, b.operations[i].id))
    && (forall i, id: Id :: 0 <= i < |b.operations| && UsesId(b.operations[i], id) && Defines(b, id) ==>
          DefinesPhi(b, id) || DefinesOp(b.operations[..i], id))
  }

  /** Live blocks: a set that control does not leave. */
  ghost predicate LiveSet(p: seq<IRBlock>, live: set<Node>) {
    forall b: Node, t: Node :: b in live ==> b < |p| && (t in Targets(p[b].terminator) ==> t in live)
  }

  /** Nothing that `n` defines is read by another block, except by PHIs on the edges out of `n`. */
  ghost predicate Local(p: seq<IRBlock>, live: set<Node>, n: Node)
    requires n < |p| && LiveSet(p, live)
  {
    && (forall b: Node, i,
        id: Id :: b in live && b != n && 0 <= i < |p[b].operations| && UsesId(p[b].operations[i], id) ==>
          !Defines(p[n], id))
    && (forall b: Node :: b in live && b != n ==> !Defines(p[n], TerminatorUse(p[b].terminator)))
    && (forall b: Node, i,
        f: Node :: b in live && f in live && f != n && b in Targets(p[f].terminator) && 0 <= i < |p[b].phi| ==>
          !Defines(p[n], IncomingFrom(p[b].phi[i].incoming, f)))
    && (forall b: Node, id: Id :: b in live && b != n && Defines(p[n], id) ==> !Defines(p[b], id))
  }

  /** Every id of the live blocks was allocated before `bound`. */
  ghost predicate IdsBelow(p: seq<IRBlock>, live: set<Node>, bound: Id)
    requires LiveSet(p, live)
  {
    forall b: Node :: b in live ==> BlockIdsBelow(p[b], bound)
  }

  ghost predicate BlockIdsBelow(b: IRBlock, bound: Id) {
    && (forall id: Id :: Defines(b, id) ==> id < bound)
    && (forall i, id: Id :: 0 <= i < |b.operations| && UsesId(b.operations[i], id) ==> id < bound)
    && TerminatorUse(b.terminator) < bound
    && (forall i, f: Node :: 0 <= i < |b.phi| ==> IncomingFrom(b.phi[i].incoming, f) < bound)
  }

  /** What must hold of a block before it is split. */
  ghost predicate Splittable(p: seq<IRBlock>, live: set<Node>, n: Node, bound: Id) {
    && LiveSet(p, live) && n in live && bound > 0
    && n !in Targets(p[n].terminator) && (p[n].terminator.Branch? || p[n].terminator.Condition?)
    && InOrder(p[n]) && Local(p, live, n) && IdsBelow(p, live, bound)
  }

  // ---------------------------------------------------------------- the result

  /** `remap` sends each PHI to its value on the edge from `pred`, and each operation to a fresh id of its own. */
  ghost predicate RemapOf(b: IRBlock, pred: Node, remap: map<Id, Id>, bound: Id) {
    && (forall id: Id :: id in remap <==> Defines(b, id))
    && (forall i :: 0 <= i < |b.phi| ==>
          b.phi[i].id in remap && remap[b.phi[i].id] == IncomingFrom(b.phi[i].incoming, pred))
    && (forall id: Id :: DefinesOp(b.operations, id) ==> id in remap && remap[id] >= bound)
    && (forall x: Id, y: Id ::
          DefinesOp(b.operations, x) && DefinesOp(b.operations, y) && x != y && x in remap && y in remap ==>
            remap[x] != remap[y])
  }

  ghost predicate IsCopy(p: seq<IRBlock>, q: seq<IRBlock>, live: set<Node>, n: Node, c: Copy, bound: Id)
    requires n < |p|
  {
    && c.pred in live && c.pred < |p| && c.pred != n && n in Targets(p[c.pred].terminator)
    && |p| <= c.block < |q|
    && RemapOf(p[n], c.pred, c.remap, bound)
    && q[c.block].phi == []
    && q[c.block].operations == RenamedOps(c.remap, p[n].operations)
    && q[c.block].terminator == RenamedTerminator(c.remap, p[n].terminator)
  }

  /** A block other than the split one: retargeted if it is a predecessor, otherwise as it was. */
  ghost predicate Redirected(p: seq<IRBlock>, q: seq<IRBlock>, n: Node, copies: seq<Copy>, b: Node)
    requires b < |p| <= |q|
  {
    && q[b].operations == p[b].operations
    && (n !in Targets(p[b].terminator) ==> q[b].terminator == p[b].terminator)
    && (n in Targets(p[b].terminator) ==>
          exists i :: (0 <= i < |copies| && copies[i].pred == b
                       && q[b].terminator == Retargeted(p[b].terminator, n, copies[i].block)))
  }

  /** The PHIs of a block see the same values on old edges, and the split block's values on its copies' edges. */
  ghost predicate PhisFollow(p: seq<IRBlock>, q: seq<IRBlock>, live: set<Node>, n: Node, copies: seq<Copy>, b: Node)
    requires b < |p| <= |q| && n < |p| && LiveSet(p, live)
  {
    && |q[b].phi| == |p[b].phi|
    && forall i :: 0 <= i < |p[b].phi| ==> PhiFollows(p, live, n, copies, b, p[b].phi[i], q[b].phi[i])
  }

  ghost predicate PhiFollows(p: seq<IRBlock>, live: set<Node>, n: Node, copies: seq<Copy>, b: Node, was: PHI, is': PHI)
    requires n < |p| && LiveSet(p, live)
  {
    && is'.id == was.id
    && (forall f: Node :: f in live && f != n && b in Targets(p[f].terminator) ==>
          IncomingFrom(is'.incoming, f) == IncomingFrom(was.incoming, f))
    && (b in Targets(p[n].terminator) ==> forall k :: 0 <= k < |copies| ==>
          IncomingFrom(is'.incoming, copies[k].block) == Renamed(copies[k].remap, IncomingFrom(was.incoming, n)))
  }

  ghost predicate IsSplit(p: seq<IRBlock>, q: seq<IRBlock>, live: set<Node>, n: Node, copies: seq<Copy>, bound: Id)
    requires LiveSet(p, live) && n in live
  {
    && |p| <= |q|
    && (forall k :: 0 <= k < |copies| ==> IsCopy(p, q, live, n, copies[k], bound))
    && (forall b: Node :: b in live && b != n ==>
          Redirected(p, q, n, copies, b) && PhisFollow(p, q, live, n, copies, b))
  }

  // ---------------------------------------------------------------- the simulation

  /** The two environments agree on every id but the split block's own and the fresh ones. */
  ghost predicate Agree(b: IRBlock, bound: Id, e: Env, e': Env) {
    forall id: Id :: id < bound && !Defines(b, id) ==> Get(e, id) == Get(e', id)
  }

  /** Inside a copy, every id defined so far has its value under its new name. */
  ghost predicate Mapped(b: IRBlock, done: seq<Op>, remap: map<Id, Id>, e: Env, e': Env) {
    forall id: Id :: id in remap && (DefinesPhi(b, id) || DefinesOp(done, id)) ==> Get(e, id) == Get(e', remap[id])
  }

  lemma ValueAgrees(b: IRBlock, i: nat, remap: map<Id, Id>, bound: Id, pred: Node, e: Env, e': Env, a: Argument)
    requires InOrder(b) && BlockIdsBelow(b, bound) && RemapOf(b, pred, remap, bound)
    requires i < |b.operations| && a in b.operations[i].arguments
    requires Agree(b, bound, e, e') && Mapped(b, b.operations[..i], remap, e, e')
    ensures ArgumentValue(a, e) == ArgumentValue(RenamedArgument(remap, a), e')
  {
    if a.IdArgument? {
      assert UsesId(b.operations[i], a.id);
    }
  }

  /** One operation of the split block and its renamed copy. */
  lemma OpAgrees<W>(m: Machine<W>, b: IRBlock, i: nat, remap: map<Id, Id>, bound: Id, pred: Node, e: Env, e': Env, w: W)
    requires InOrder(b) && BlockIdsBelow(b, bound) && RemapOf(b, pred, remap, bound) && bound > 0
    requires i < |b.operations| && forall k :: 0 <= k < |b.phi| ==> !Defines(b, IncomingFrom(b.phi[k].incoming, pred))
    requires Agree(b, bound, e, e') && Mapped(b, b.operations[..i], remap, e, e')
    ensures var (f, v) := RunOp(m, b.operations[i], e, w);
            var (f', v') := RunOp(m, RenamedOp(remap, b.operations[i]), e', w);
            v == v' && Agree(b, bound, f, f') && Mapped(b, b.operations[..i + 1], remap, f, f')
  {
    var op := b.operations[i];
    var vs, vs' := ArgumentValues(op.arguments, e), ArgumentValues(RenamedArguments(remap, op.arguments), e');
    forall k | 0 <= k < |vs| ensures vs[k] == vs'[k] {
      ValueAgrees(b, i, remap, bound, pred, e, e', op.arguments[k]);
    }
    assert vs == vs';
    assert b.operations[..i + 1] == b.operations[..i] + [op];
    if op.id != 0 {
      assert DefinesOp(b.operations, op.id);
      var f, f' := RunOp(m, op, e, w).0, RunOp(m, RenamedOp(remap, op), e', w).0;
      forall id: Id | id in remap
          && (DefinesPhi(b, id) || DefinesOp(b.operations[..i + 1], id)) ensures Get(f, id) == Get(f', remap[id]) {
        if id != op.id {
          NamesApart(b, i, remap, bound, pred, id);
        }
      }
    } else {
      forall id: Id | DefinesOp(b.operations[..i + 1], id) ensures DefinesOp(b.operations[..i], id) {
        var k :| 0 <= k < i + 1 && b.operations[..i + 1][k].id == id;
        assert b.operations[..i][k].id == id;
      }
    }
  }

  /** The new name of operation `i` is not the new name of anything defined before it. */
  lemma NamesApart(b: IRBlock, i: nat, remap: map<Id, Id>, bound: Id, pred: Node, id: Id)
    requires InOrder(b) && BlockIdsBelow(b, bound) && RemapOf(b, pred, remap, bound)
    requires i < |b.operations| && b.operations[i].id != 0 && id != b.operations[i].id && id in remap
    requires DefinesPhi(b, id) || DefinesOp(b.operations[..i + 1], id)
    ensures b.operations[i].id in remap && remap[id] != remap[b.operations[i].id]
    ensures DefinesPhi(b, id) || DefinesOp(b.operations[..i], id)
  {
    assert DefinesOp(b.operations, b.operations[i].id);
    if DefinesPhi(b, id) {
      var k :| 0 <= k < |b.phi| && b.phi[k].id == id;
    } else {
      var k :| 0 <= k < i + 1 && b.operations[..i + 1][k].id == id;
      assert b.operations[k].id == id && b.operations[..i][k].id == id;
      assert DefinesOp(b.operations, id);
    }
  }

  lemma {:induction false} OpsAgree<W>(m: Machine<W>, b: IRBlock, i: nat, remap: map<Id, Id>, bound: Id, pred: Node,
                                       e: Env, e': Env, w: W)
    requires InOrder(b) && BlockIdsBelow(b, bound) && RemapOf(b, pred, remap, bound) && bound > 0
    requires i <= |b.operations| && forall k :: 0 <= k < |b.phi| ==> !Defines(b, IncomingFrom(b.phi[k].incoming, pred))
    requires Agree(b, bound, e, e') && Mapped(b, b.operations[..i], remap, e, e')
    ensures var (f, v) := RunOps(m, b.operations[i..], e, w);
            var (f', v') := RunOps(m, RenamedOps(remap, b.operations[i..]), e', w);
            v == v' && Agree(b, bound, f, f') && Mapped(b, b.operations, remap, f, f')
    decreases |b.operations| - i
  {
    if i == |b.operations| {
      assert b.operations[..i] == b.operations;
    } else {
      OpAgrees(m, b, i, remap, bound, pred, e, e', w);
      var rest := b.operations[i..];
      assert rest[0] == b.operations[i] && rest[1..] == b.operations[i + 1..];
      var renamed := RenamedOps(remap, rest);
      assert renamed[0] == RenamedOp(remap, rest[0]) && renamed[1..] == RenamedOps(remap, rest[1..]);
      var (f, v) := RunOp(m, b.operations[i], e, w);
      var (f', v') := RunOp(m, RenamedOp(remap, b.operations[i]), e', w);
      OpsAgree(m, b, i + 1, remap, bound, pred, f, f', v);
    }
  }

  /** An operation that reads nothing the split block defines, and nothing fresh. */
  ghost predicate Foreign(b: IRBlock, bound: Id, op: Op) {
    forall id: Id :: UsesId(op, id) ==> id < bound && !Defines(b, id)
  }

  lemma ForeignValues(b: IRBlock, bound: Id, op: Op, e: Env, e': Env)
    requires Agree(b, bound, e, e') && Foreign(b, bound, op)
    ensures ArgumentValues(op.arguments, e) == ArgumentValues(op.arguments, e')
  {
    var vs, vs' := ArgumentValues(op.arguments, e), ArgumentValues(op.arguments, e');
    forall k | 0 <= k < |vs| ensures vs[k] == vs'[k] {
      var a := op.arguments[k];
      if a.IdArgument? {
        assert a in op.arguments && UsesId(op, a.id);
      }
    }
    assert vs == vs';
  }

  /** The operations of any other block, which read nothing that the split block defines. */
  lemma {:induction false} OtherOpsAgree<W>(m: Machine<W>, b: IRBlock, bound: Id, ops: seq<Op>, e: Env, e': Env, w: W)
    requires Agree(b, bound, e, e') && forall i :: 0 <= i < |ops| ==> Foreign(b, bound, ops[i])
    ensures var (f, v) := RunOps(m, ops, e, w);
            var (f', v') := RunOps(m, ops, e', w);
            v == v' && Agree(b, bound, f, f')
  {
    if ops != [] {
      ForeignValues(b, bound, ops[0], e, e');
      assert forall i :: 0 <= i < |ops[1..]| ==> ops[1..][i] == ops[i + 1];
      var (f, v) := RunOp(m, ops[0], e, w);
      var (f', v') := RunOp(m, ops[0], e', w);
      OtherOpsAgree(m, b, bound, ops[1..], f, f', v);
    }
  }

  // ---------------------------------------------------------------- entering the next block

  lemma {:induction false} RetargetedCasesSelect(cases: seq<Case>, v: int, from: Node, to: Node)
    ensures SelectCase(RetargetedCases(cases, from, to), v) == Moved(SelectCase(cases, v), from, to)
    ensures DefaultCase(RetargetedCases(cases, from, to)) == Moved(DefaultCase(cases), from, to)
  {
    if cases != [] {
      RetargetedCasesSelect(cases[1..], v, from, to);
    }
  }

  function Moved(n: Option<Node>, from: Node, to: Node): Option<Node> {
    if n == Some(from) then Some(to) else n
  }

  lemma RetargetedNext(t: Terminator, env: Env, from: Node, to: Node)
    ensures Next(Retargeted(t, from, to), env) == Moved(Next(t, env), from, to)
    ensures Finish(Retargeted(t, from, to), env) == Finish(t, env)
    ensures TerminatorUse(Retargeted(t, from, to)) == TerminatorUse(t)
  {
    if t.Switch? {
      RetargetedCasesSelect(t.cases, Get(env, t.selector), from, to);
    }
  }

  lemma NextReads(t: Terminator, e: Env, e': Env)
    requires TerminatorUse(t) != 0 ==> Get(e, TerminatorUse(t)) == Get(e', TerminatorUse(t))
    requires TerminatorUse(t) == 0 && (t.Condition? || t.Switch?) ==> Get(e, 0) == Get(e', 0)
    ensures Next(t, e) == Next(t, e') && Finish(t, e) == Finish(t, e')
  {}

  /** Entering a block along corresponding edges: its PHIs take the same values. */
  lemma {:induction false} PhisAgree(b: IRBlock, bound: Id, phis: seq<PHI>, phis': seq<PHI>, from: Node, from': Node,
                                     old': Env, old'': Env, e: Env, e': Env)
    requires |phis'| == |phis| && Agree(b, bound, e, e')
    requires forall i :: 0 <= i < |phis| ==>
               (phis'[i].id == phis[i].id
                && Get(old', IncomingFrom(phis[i].incoming, from)) == Get(old'',
                        IncomingFrom(phis'[i].incoming, from')))
    ensures Agree(b, bound, EnterPhis(phis, from, old', e), EnterPhis(phis', from', old'', e'))
    decreases |phis|
  {
    if phis != [] {
      assert forall i :: 0 <= i < |phis[1..]| ==> phis[1..][i] == phis[i + 1] && phis'[1..][i] == phis'[i + 1];
      PhisAgree(b, bound, phis[1..], phis'[1..], from, from', old', old'',
                e[phis[0].id := Get(old', IncomingFrom(phis[0].incoming, from))],
                e'[phis'[0].id := Get(old'', IncomingFrom(phis'[0].incoming, from'))]);
    }
  }

  // ---------------------------------------------------------------- runs

  /** The split block and one of its copies correspond, and so does every other live block to itself. */
  ghost predicate Related<W>(p: seq<IRBlock>, live: set<Node>, n: Node, copies: seq<Copy>, bound: Id, s: State<W>,
                             s': State<W>)
    requires n < |p|
  {
    match s
    case Finished(_, _) => s' == s
    case Running(b, e, w) =>
      s'.Running? && s'.world == w && b in live && Agree(p[n], bound, e, s'.env)
      && if b != n then s'.block == b
         else exists k ::
                0 <= k < |copies| && s'.block == copies[k].block && Mapped(p[n], [], copies[k].remap, e, s'.env)
  }

  lemma EnterOther<W>(p: seq<IRBlock>, q: seq<IRBlock>, live: set<Node>, n: Node, copies: seq<Copy>, bound: Id,
                      from: Node, from': Node, t: Node, e: Env, e': Env, w: W)
    requires LiveSet(p, live) && n in live && IsSplit(p, q, live, n, copies, bound) && t in live && t != n
    requires Agree(p[n], bound, e, e')
    requires forall i :: 0 <= i < |p[t].phi| && i < |q[t].phi| ==>
               Get(e, IncomingFrom(p[t].phi[i].incoming, from)) == Get(e', IncomingFrom(q[t].phi[i].incoming, from'))
    ensures Related(p, live, n, copies, bound, Running(t, EnterPhis(p[t].phi, from, e, e), w),
                    Running(t, EnterPhis(q[t].phi, from', e', e'), w))
  {
    assert PhisFollow(p, q, live, n, copies, t);
    forall i | 0 <= i < |p[t].phi| ensures q[t].phi[i].id == p[t].phi[i].id {
      assert PhiFollows(p, live, n, copies, t, p[t].phi[i], q[t].phi[i]);
    }
    PhisAgree(p[n], bound, p[t].phi, q[t].phi, from, from', e, e', e, e');
  }

  /** Running the operations of another block, and choosing what comes after it. */
  lemma OtherBlock<W>(m: Machine<W>, p: seq<IRBlock>, q: seq<IRBlock>, live: set<Node>, n: Node, copies: seq<Copy>,
                      bound: Id, b: Node, e: Env, e': Env, w: W)
    requires Splittable(p, live, n, bound) && IsSplit(p, q, live, n, copies, bound)
    requires b in live && b != n && Agree(p[n], bound, e, e')
    ensures b < |p| <= |q| && q[b].operations == p[b].operations
    ensures var (f, v) := RunOps(m, p[b].operations, e, w);
            var (f', v') := RunOps(m, p[b].operations, e', w);
            && v' == v && Agree(p[n], bound, f, f')
            && Finish(q[b].terminator, f') == Finish(p[b].terminator, f)
            && (Next(p[b].terminator, f) != Some(n) ==> Next(q[b].terminator, f') == Next(p[b].terminator, f))
            && (Next(p[b].terminator, f).Some? ==>
                  Next(p[b].terminator, f).value in live && b in live
                  && Next(p[b].terminator, f).value in Targets(p[b].terminator))
            && (Next(p[b].terminator, f) == Some(n) ==>
                  exists k :: (0 <= k < |copies| && copies[k].pred == b
                               && Next(q[b].terminator, f') == Some(copies[k].block)))
  {
    assert Redirected(p, q, n, copies, b) && BlockIdsBelow(p[b], bound);
    forall i | 0 <= i < |p[b].operations| ensures Foreign(p[n], bound, p[b].operations[i]) {}
    OtherOpsAgree(m, p[n], bound, p[b].operations, e, e', w);
    var (f, v) := RunOps(m, p[b].operations, e, w);
    var (f', v') := RunOps(m, p[b].operations, e', w);
    NextReads(p[b].terminator, f, f');
    NextIsTarget(p[b].terminator, f);
    if n in Targets(p[b].terminator) {
      var k :| 0 <= k < |copies| && copies[k].pred == b
          && q[b].terminator == Retargeted(p[b].terminator, n, copies[k].block);
      RetargetedNext(p[b].terminator, f', n, copies[k].block);
    }
  }

  /** The PHIs of `x` see the same values when control comes from an unsplit block. */
  lemma OtherEdge(p: seq<IRBlock>, q: seq<IRBlock>, live: set<Node>, n: Node, copies: seq<Copy>, bound: Id,
                  b: Node, x: Node, f: Env, f': Env, i: nat)
    requires Splittable(p, live, n, bound) && IsSplit(p, q, live, n, copies, bound)
    requires b in live && b != n && x in live && x != n && x in Targets(p[b].terminator) && Agree(p[n], bound, f, f')
    requires i < |p[x].phi| && x < |q| && i < |q[x].phi|
    ensures Get(f, IncomingFrom(p[x].phi[i].incoming, b)) == Get(f', IncomingFrom(q[x].phi[i].incoming, b))
  {
    assert PhisFollow(p, q, live, n, copies, x);
    assert PhiFollows(p, live, n, copies, x, p[x].phi[i], q[x].phi[i]);
    assert BlockIdsBelow(p[x], bound);
  }

  /** A step of a block other than the split one. */
  lemma StepOther<W>(m: Machine<W>, p: seq<IRBlock>, q: seq<IRBlock>, live: set<Node>, n: Node, copies: seq<Copy>,
                     bound: Id, b: Node, e: Env, e': Env, w: W)
    requires Splittable(p, live, n, bound) && IsSplit(p, q, live, n, copies, bound)
    requires b in live && b != n && Agree(p[n], bound, e, e')
    ensures Related(p, live, n, copies, bound, Step(m, p, Running(b, e, w)), Step(m, q, Running(b, e', w)))
  {
    hide IsSplit, Local, IdsBelow, InOrder, Agree, RunOps, EnterPhis, Next, Finish, Targets, Related;
    OtherBlock(m, p, q, live, n, copies, bound, b, e, e', w);
    var (f, v) := RunOps(m, p[b].operations, e, w);
    var (f', v') := RunOps(m, p[b].operations, e', w);
    if Next(p[b].terminator, f) == Some(n) {
      var k :| 0 <= k < |copies| && copies[k].pred == b && Next(q[b].terminator, f') == Some(copies[k].block);
      EnterCopy(p, q, live, n, copies, bound, k, f, f', v);
      CopyBlock(p, q, live, n, copies, bound, k, f');
    } else if Next(p[b].terminator, f).Some? {
      var x := Next(p[b].terminator, f).value;
      SameLength(p, q, live, n, copies, bound, x);
      forall i | 0 <= i < |p[x].phi| && i < |q[x].phi| ensures
        Get(f, IncomingFrom(p[x].phi[i].incoming, b)) == Get(f', IncomingFrom(q[x].phi[i].incoming, b))
      {
        OtherEdge(p, q, live, n, copies, bound, b, x, f, f', i);
      }
      EnterOther(p, q, live, n, copies, bound, b, b, x, f, f', v);
    } else {
      BothFinish(p, live, n, copies, bound, Finish(p[b].terminator, f), v);
    }
  }

  lemma BothFinish<W>(p: seq<IRBlock>, live: set<Node>, n: Node, copies: seq<Copy>, bound: Id, o: Outcome, w: W)
    requires n < |p|
    ensures Related(p, live, n, copies, bound, Finished(o, w), Finished(o, w))
  {}

  lemma CopyBlock(p: seq<IRBlock>, q: seq<IRBlock>, live: set<Node>, n: Node, copies: seq<Copy>, bound: Id, k: nat,
                  f: Env)
    requires LiveSet(p, live) && n in live && IsSplit(p, q, live, n, copies, bound) && k < |copies|
    ensures copies[k].block < |q| && n < |p| && EnterPhis(q[copies[k].block].phi, copies[k].pred, f, f) == f
  {
    assert IsCopy(p, q, live, n, copies[k], bound);
  }

  lemma SameLength(p: seq<IRBlock>, q: seq<IRBlock>, live: set<Node>, n: Node, copies: seq<Copy>, bound: Id, x: Node)
    requires LiveSet(p, live) && n in live && IsSplit(p, q, live, n, copies, bound) && x in live && x != n
    ensures x < |p| <= |q| && |q[x].phi| == |p[x].phi|
  {
    assert PhisFollow(p, q, live, n, copies, x);
  }

  lemma EnterCopy<W>(p: seq<IRBlock>, q: seq<IRBlock>, live: set<Node>, n: Node, copies: seq<Copy>, bound: Id, k: nat,
                     f: Env, f': Env, w: W)
    requires Splittable(p, live, n, bound) && IsSplit(p, q, live, n, copies, bound) && k < |copies|
    requires Agree(p[n], bound, f, f')
    ensures Related(p, live, n, copies, bound,
                    Running(n, EnterPhis(p[n].phi, copies[k].pred, f, f), w), Running(copies[k].block, f', w))
  {
    var c := copies[k];
    assert IsCopy(p, q, live, n, c, bound);
    var g := EnterPhis(p[n].phi, c.pred, f, f);
    forall id: Id | !DefinesPhi(p[n], id) ensures Get(g, id) == Get(f, id) {
      EnterPhisOther(p[n].phi, c.pred, f, f, id);
    }
    forall id: Id | id in c.remap && DefinesPhi(p[n], id) ensures Get(g, id) == Get(f', c.remap[id]) {
      var i :| 0 <= i < |p[n].phi| && p[n].phi[i].id == id;
      EnterPhisAt(p[n].phi, c.pred, f, f, i);
      assert BlockIdsBelow(p[n], bound);
    }
  }

  /** Running a copy, and choosing what comes after it. */
  lemma CopyRuns<W>(m: Machine<W>, p: seq<IRBlock>, q: seq<IRBlock>, live: set<Node>, n: Node, copies: seq<Copy>,
                    bound: Id, k: nat, e: Env, e': Env, w: W)
    requires Splittable(p, live, n, bound) && IsSplit(p, q, live, n, copies, bound) && k < |copies|
    requires Agree(p[n], bound, e, e') && Mapped(p[n], [], copies[k].remap, e, e')
    ensures n < |p| && copies[k].block < |q| && RemapOf(p[n], copies[k].pred, copies[k].remap, bound)
    ensures var (f, v) := RunOps(m, p[n].operations, e, w);
            var (f', v') := RunOps(m, q[copies[k].block].operations, e', w);
            && v' == v && Agree(p[n], bound, f, f') && Mapped(p[n], p[n].operations, copies[k].remap, f, f')
            && Next(q[copies[k].block].terminator, f') == Next(p[n].terminator, f)
            && Finish(q[copies[k].block].terminator, f') == Finish(p[n].terminator, f)
            && (Next(p[n].terminator, f).Some? ==>
                  var x := Next(p[n].terminator, f).value; x in live && x != n && x in Targets(p[n].terminator))
  {
    var c, b := copies[k], p[n];
    assert IsCopy(p, q, live, n, c, bound) && BlockIdsBelow(b, bound);
    assert b.operations[..0] == [] && b.operations[0..] == b.operations;
    OpsAgree(m, b, 0, c.remap, bound, c.pred, e, e', w);
    var (f, v) := RunOps(m, b.operations, e, w);
    var (f', v') := RunOps(m, RenamedOps(c.remap, b.operations), e', w);
    RenamedReads(b, c.remap, bound, c.pred, f, f', TerminatorUse(b.terminator));
    RenamedNext(b.terminator, c.remap, f, f');
    NextIsTarget(b.terminator, f);
  }

  /** The PHIs of a successor see the split block's values when control comes from a copy. */
  lemma CopyEdge(p: seq<IRBlock>, q: seq<IRBlock>, live: set<Node>, n: Node, copies: seq<Copy>, bound: Id,
                 k: nat, x: Node, f: Env, f': Env, i: nat)
    requires Splittable(p, live, n, bound) && IsSplit(p, q, live, n, copies, bound) && k < |copies|
    requires RemapOf(p[n], copies[k].pred, copies[k].remap, bound)
    requires x in live && x != n && x in Targets(p[n].terminator)
    requires Agree(p[n], bound, f, f') && Mapped(p[n], p[n].operations, copies[k].remap, f, f')
    requires i < |p[x].phi| && x < |q| && i < |q[x].phi|
    ensures Get(f, IncomingFrom(p[x].phi[i].incoming, n)) == Get(f',
                                                                 IncomingFrom(q[x].phi[i].incoming, copies[k].block))
  {
    assert PhisFollow(p, q, live, n, copies, x) && BlockIdsBelow(p[x], bound);
    assert PhiFollows(p, live, n, copies, x, p[x].phi[i], q[x].phi[i]);
    RenamedReads(p[n], copies[k].remap, bound, copies[k].pred, f, f', IncomingFrom(p[x].phi[i].incoming, n));
  }

  /** A step of the split block against a step of one of its copies. */
  lemma StepCopy<W>(m: Machine<W>, p: seq<IRBlock>, q: seq<IRBlock>, live: set<Node>, n: Node, copies: seq<Copy>,
                    bound: Id, k: nat, e: Env, e': Env, w: W)
    requires Splittable(p, live, n, bound) && IsSplit(p, q, live, n, copies, bound) && k < |copies|
    requires Agree(p[n], bound, e, e') && Mapped(p[n], [], copies[k].remap, e, e')
    ensures Related(p, live, n, copies, bound, Step(m, p, Running(n, e, w)),
                    Step(m, q, Running(copies[k].block, e', w)))
  {
    hide IsSplit, Local, IdsBelow, InOrder, Agree, Mapped, RemapOf, RunOps, EnterPhis, Next, Finish, Targets, Related;
    CopyRuns(m, p, q, live, n, copies, bound, k, e, e', w);
    var (f, v) := RunOps(m, p[n].operations, e, w);
    var (f', v') := RunOps(m, q[copies[k].block].operations, e', w);
    if Next(p[n].terminator, f).Some? {
      var x := Next(p[n].terminator, f).value;
      SameLength(p, q, live, n, copies, bound, x);
      forall i | 0 <= i < |p[x].phi| && i < |q[x].phi| ensures
        Get(f, IncomingFrom(p[x].phi[i].incoming, n)) == Get(f', IncomingFrom(q[x].phi[i].incoming, copies[k].block))
      {
        CopyEdge(p, q, live, n, copies, bound, k, x, f, f', i);
      }
      EnterOther(p, q, live, n, copies, bound, n, copies[k].block, x, f, f', v);
    } else {
      BothFinish(p, live, n, copies, bound, Finish(p[n].terminator, f), v);
    }
  }

  /** An id reads the same before and after renaming. */
  lemma RenamedReads(b: IRBlock, remap: map<Id, Id>, bound: Id, pred: Node, f: Env, f': Env, id: Id)
    requires RemapOf(b, pred, remap, bound) && id < bound
    requires Agree(b, bound, f, f') && Mapped(b, b.operations, remap, f, f')
    ensures Get(f, id) == Get(f', Renamed(remap, id))
  {}

  lemma RenamedNext(t: Terminator, remap: map<Id, Id>, f: Env, f': Env)
    requires t.Branch? || t.Condition?
    requires Get(f, TerminatorUse(t)) == Get(f', Renamed(remap, TerminatorUse(t)))
    ensures Next(RenamedTerminator(remap, t), f') == Next(t, f)
    ensures Finish(RenamedTerminator(remap, t), f') == Finish(t, f)
  {}

  /** One step keeps the two functions in correspondence. */
  lemma StepRelated<W>(m: Machine<W>, p: seq<IRBlock>, q: seq<IRBlock>, live: set<Node>, n: Node, copies: seq<Copy>,
                       bound: Id, s: State<W>, s': State<W>)
    requires Splittable(p, live, n, bound) && IsSplit(p, q, live, n, copies, bound)
    requires Related(p, live, n, copies, bound, s, s')
    ensures Related(p, live, n, copies, bound, Step(m, p, s), Step(m, q, s'))
  {
    hide IsSplit, Local, IdsBelow, InOrder, Step, Agree, Mapped;
    match s
    case Finished(_, _) => StepFinished(m, p, s); StepFinished(m, q, s);
    case Running(b, e, w) =>
      if b != n {
        StepOther(m, p, q, live, n, copies, bound, b, e, s'.env, w);
      } else {
        var k :| 0 <= k < |copies| && s'.block == copies[k].block && Mapped(p[n], [], copies[k].remap, e, s'.env);
        StepCopy(m, p, q, live, n, copies, bound, k, e, s'.env, w);
      }
  }

  lemma StepFinished<W>(m: Machine<W>, p: seq<IRBlock>, s: State<W>)
    requires s.Finished?
    ensures Step(m, p, s) == s
  {}

  /** Every run of the split function corresponds, step by step, to the run of the original: the same
      blocks up to copies, the same world, the same decisions and the same outcome. */
  lemma {:induction false} RunsAgree<W>(m: Machine<W>, p: seq<IRBlock>, q: seq<IRBlock>, live: set<Node>, n: Node,
                                        copies: seq<Copy>, bound: Id, s: State<W>, s': State<W>, steps: nat)
    requires Splittable(p, live, n, bound) && IsSplit(p, q, live, n, copies, bound)
    requires Related(p, live, n, copies, bound, s, s')
    ensures Related(p, live, n, copies, bound, Run(m, p, s, steps), Run(m, q, s', steps))
    decreases steps
  {
    hide Splittable, IsSplit, Related, Step;
    if steps > 0 {
      StepRelated(m, p, q, live, n, copies, bound, s, s');
      RunsAgree(m, p, q, live, n, copies, bound, Step(m, p, s), Step(m, q, s'), steps - 1);
    }
  }

  /** From the entry block the two functions start in correspondence, in the same environment. */
  lemma SplitPreservesRuns<W>(m: Machine<W>, p: seq<IRBlock>, q: seq<IRBlock>, live: set<Node>, n: Node,
                              copies: seq<Copy>, bound: Id, entry: Node, env: Env, w: W, steps: nat)
    requires Splittable(p, live, n, bound) && IsSplit(p, q, live, n, copies, bound) && entry in live && entry != n
    ensures Related(p, live, n, copies, bound, Run(m, p, Running(entry, env, w), steps),
                    Run(m, q, Running(entry, env, w), steps))
  {
    RunsAgree(m, p, q, live, n, copies, bound, Running(entry, env, w), Running(entry, env, w), steps);
  }
}
