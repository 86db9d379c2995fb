/** Keeping a value in a function variable when its definition does not dominate its uses. */
module Demote {
  import opened Graphs
  import opened IR
  import opened TailSplit

  /** OpLoad and OpStore. */
  const LOAD: nat := 61
  const STORE: nat := 62

  // ---------------------------------------------------------------- function variables

  /** A store to a function variable. */
  predicate StoresTo(op: Op, vars: set<Id>) {
    op.op == STORE && |op.arguments| == 2 && op.arguments[0].IdArgument? && op.arguments[0].id in vars
  }

  predicate LoadsFrom(op: Op, vars: set<Id>) {
    op.op == LOAD && |op.arguments| == 1 && op.arguments[0].IdArgument? && op.arguments[0].id in vars
  }

  /** What a variable holds is kept in the environment under the variable's own id, which is read in no other way. */
  function RunVarOp<W>(m: Machine<W>, vars: set<Id>, op: Op, env: Env, w: W): (Env, W) {
    if StoresTo(op, vars) then (env[op.arguments[0].id := ArgumentValue(op.arguments[1], env)], w)
    else if LoadsFrom(op, vars) then (env[op.id := Get(env, op.arguments[0].id)], w)
    else RunOp(m, op, env, w)
  }

  function RunVarOps<W>(m: Machine<W>, vars: set<Id>, ops: seq<Op>, env: Env, w: W): (Env, W) {
    if ops == [] then (env, w)
    else
      var (env', w') := RunVarOp(m, vars, ops[0], env, w);
      RunVarOps(m, vars, ops[1..], env', w')
  }

  /** Runs one block of a function with variables and enters the next. */
  function VarStep<W>(m: Machine<W>, vars: set<Id>, p: seq<IRBlock>, s: State<W>): State<W> {
    match s
    case Finished(_, _) => s
    case Running(b, env, w) =>
      if b >= |p| then Finished(Stuck, w)
      else
        var (env', w') := RunVarOps(m, vars, p[b].operations, env, w);
        match Next(p[b].terminator, env')
        case None => Finished(Finish(p[b].terminator, env'), w')
        case Some(n) =>
          if n >= |p| then Finished(Stuck, w')
          else Running(n, EnterPhis(p[n].phi, b, env', env'), w')
  }

  function VarRun<W>(m: Machine<W>, vars: set<Id>, p: seq<IRBlock>, s: State<W>, n: nat): State<W>
    decreases n
  {
    if n == 0 then s else VarRun(m, vars, p, VarStep(m, vars, p, s), n - 1)
  }

  lemma {:induction false} NoVariables<W>(m: Machine<W>, ops: seq<Op>, env: Env, w: W)
    ensures RunVarOps(m, {}, ops, env, w) == RunOps(m, ops, env, w)
  {
    if ops != [] {
      var (env', w') := RunOp(m, ops[0], env, w);
      NoVariables(m, ops[1..], env', w');
    }
  }

  /** Without variables this is the ordinary semantics. */
  lemma {:induction false} NoVariablesRun<W>(m: Machine<W>, p: seq<IRBlock>, s: State<W>, n: nat)
    ensures VarRun(m, {}, p, s, n) == Run(m, p, s, n)
    decreases n
  {
    if n > 0 {
      if s.Running? && s.block < |p| {
        NoVariables(m, p[s.block].operations, s.env, s.world);
      }
      NoVariablesRun(m, p, Step(m, p, s), n - 1);
    }
  }

  // ---------------------------------------------------------------- rewriting uses

  function UseRenamed(a: Argument, from: Id, to: Id): Argument {
    if a == IdArgument(from) then IdArgument(to) else a
  }

  function UsesRenamed(args: seq<Argument>, from: Id, to: Id): (r: seq<Argument>)
    ensures |r| == |args|
  {
    seq(|args|, i requires 0 <= i < |args| => UseRenamed(args[i], from, to))
  }

  function OpsUsing(ops: seq<Op>, from: Id, to: Id): (r: seq<Op>)
    ensures |r| == |ops|
  {
    seq(|ops|, i requires 0 <= i < |ops| => ops[i].(arguments := UsesRenamed(ops[i].arguments, from, to)))
  }

  function TerminatorUsing(t: Terminator, from: Id, to: Id): Terminator {
    match t
    case Condition(id, a, b) => Condition(if id == from then to else id, a, b)
    case Switch(id, cases) => Switch(if id == from then to else id, cases)
    case Return(id) => Return(if id == from then to else id)
    case _ => t
  }

  /** `rewrite_consumed_ids`. */
  method RewriteConsumedIds(block: IRBlock, from: Id, to: Id) returns (r: IRBlock)
    ensures r == block.(operations := OpsUsing(block.operations, from, to),
                        terminator := TerminatorUsing(block.terminator, from, to))
  {
    var ops := block.operations;
    for i := 0 to |ops|
      invariant |ops| == |block.operations|
      invariant forall k :: 0 <= k < |ops| ==>
                  ops[k] == if k < i then OpsUsing(block.operations, from, to)[k] else block.operations[k]
    {
      var args := ops[i].arguments;
      for j := 0 to |args|
        invariant |args| == |block.operations[i].arguments|
        invariant forall k :: 0 <= k < |args| ==>
                    args[k] == if k < j then UseRenamed(block.operations[i].arguments[k], from, to)
                    else block.operations[i].arguments[k]
      {
        if args[j] == IdArgument(from) {
          args := args[j := IdArgument(to)];
        }
      }
      assert args == UsesRenamed(block.operations[i].arguments, from, to);
      ops := ops[i := ops[i].(arguments := args)];
    }
    assert ops == OpsUsing(block.operations, from, to);
    r := block.(operations := ops, terminator := TerminatorUsing(block.terminator, from, to));
  }

  // ---------------------------------------------------------------- one value

  /** Block `b` loads the value first and uses what it loaded. */
  function Loading(b: IRBlock, r: Id, v: Id, loaded: Id): IRBlock {
    IRBlock(b.phi, [Op(LOAD, loaded, [IdArgument(v)])] + OpsUsing(b.operations, r, loaded),
            TerminatorUsing(b.terminator, r, loaded))
  }

  /** Block `b` stores the value last. */
  function Storing(b: IRBlock, r: Id, v: Id): IRBlock {
    b.(operations := b.operations + [Op(STORE, 0, [IdArgument(v), IdArgument(r)])])
  }

  /** The value `id`, which block `origin` makes, is kept in `variable`, and each block of `loads` loads it. */
  datatype Demotion = Demotion(id: Id, origin: Node, variable: Id, loads: map<Node, Id>)

  ghost predicate Demoted(p: seq<IRBlock>, q: seq<IRBlock>, d: Demotion) {
    && |q| == |p| && d.origin < |p| && d.origin !in d.loads
    && forall b: Node :: b < |p| ==> q[b] == DemotedBlock(p[b], b, d)
  }

  function DemotedBlock(was: IRBlock, b: Node, d: Demotion): IRBlock {
    if b == d.origin then Storing(was, d.id, d.variable)
    else if b in d.loads then Loading(was, d.id, d.variable, d.loads[b])
    else was
  }

  /** One definition for the value, and variables are not values: what must hold before a value is demoted. */
  ghost predicate Demotable(p: seq<IRBlock>, live: set<Node>, vars: set<Id>, r: Id, o: Node, bound: Id) {
    && LiveSet(p, live) && 0 < r < bound && o in live && r !in vars
    && (forall id: Id :: id in vars ==> id < bound)
    && (forall b: Node :: b in live ==> BlockIdsBelow(p[b], bound))
    && (forall b: Node :: b in live && b != o ==> !Defines(p[b], r))
  }

  ghost predicate FreshIds(d: Demotion, bound: Id) {
    d.variable >= bound && forall b: Node :: b in d.loads ==> d.loads[b] >= bound && d.loads[b] != d.variable
  }

  // ---------------------------------------------------------------- the simulation

  /** The environments agree on all old ids. */
  ghost predicate AgreeBelow(bound: Id, e: Env, e': Env) {
    forall id: Id :: id < bound ==> Get(e, id) == Get(e', id)
  }

  ghost predicate SameState<W>(bound: Id, s: State<W>, s': State<W>) {
    match s
    case Finished(_, _) => s' == s
    case Running(b, e, w) => s'.Running? && s'.block == b && s'.world == w && AgreeBelow(bound, e, s'.env)
  }

  /** In addition the variable holds the value, except while the block that makes the value is running. */
  ghost predicate Holding<W>(live: set<Node>, bound: Id, d: Demotion, s: State<W>, s': State<W>) {
    && SameState(bound, s, s')
    && (s.Running? && s'.Running? ==>
          s.block in live && (s.block != d.origin ==> Get(s'.env, d.variable) == Get(s.env, d.id)))
  }

  /** The operation reads only old ids. */
  ghost predicate ReadsBelow(op: Op, bound: Id) {
    forall id: Id :: UsesId(op, id) ==> id < bound
  }

  /** The name under which a block reads the value: the loaded copy, or the value itself. */
  ghost predicate ReadAs(loaded: Id, r: Id, v: Id, vars: set<Id>, bound: Id) {
    && (loaded == r || loaded >= bound) && loaded != v && loaded !in vars
    && r !in vars && 0 < r < bound && v >= bound && forall id: Id :: id in vars ==> id < bound
  }

  lemma SameArguments(args: seq<Argument>, r: Id, loaded: Id, bound: Id, e: Env, e': Env)
    requires AgreeBelow(bound, e, e') && (forall id: Id :: IdArgument(id) in args ==> id < bound)
             && Get(e', loaded) == Get(e, r)
    ensures ArgumentValues(UsesRenamed(args, r, loaded), e') == ArgumentValues(args, e)
  {
    var xs, ys := ArgumentValues(args, e), ArgumentValues(UsesRenamed(args, r, loaded), e');
    forall k | 0 <= k < |xs| ensures xs[k] == ys[k] {
      if args[k].IdArgument? {
        assert args[k] in args;
      }
    }
  }

  /** Renaming a value does not turn other operations into loads and stores of variables, or back. */
  lemma SameVarOps(op: Op, vars: set<Id>, v: Id, r: Id, loaded: Id, bound: Id)
    requires ReadsBelow(op, bound) && ReadAs(loaded, r, v, vars, bound)
    ensures var op' := op.(arguments := UsesRenamed(op.arguments, r, loaded));
            && (StoresTo(op', vars + {v}) <==> StoresTo(op, vars))
            && (LoadsFrom(op', vars + {v}) <==> LoadsFrom(op, vars))
            && (StoresTo(op, vars) || LoadsFrom(op, vars) ==>
                  op'.arguments[0] == op.arguments[0] && op.arguments[0].id < bound && op.arguments[0].id != r)
  {
    if |op.arguments| > 0 && op.arguments[0].IdArgument? {
      assert op.arguments[0] in op.arguments && UsesId(op, op.arguments[0].id);
    }
  }

  /** A new value of one old id. */
  lemma AgreeUpdate(bound: Id, e: Env, e': Env, id: Id, x: int)
    requires AgreeBelow(bound, e, e')
    ensures AgreeBelow(bound, e[id := x], e'[id := x])
  {
    forall i: Id {:trigger Get(e, i)} | i < bound ensures Get(e[id := x], i) == Get(e'[id := x], i) {
      assert Get(e, i) == Get(e', i);
    }
  }

  /** One operation, with `r` read under the name `loaded`. */
  lemma OpUsing<W>(m: Machine<W>, vars: set<Id>, v: Id, op: Op, r: Id, loaded: Id, bound: Id, e: Env, e': Env, w: W)
    requires AgreeBelow(bound, e, e') && Get(e', loaded) == Get(e, r) && ReadsBelow(op, bound) && op.id < bound
             && (op.id != r || loaded == r)
    requires ReadAs(loaded, r, v, vars, bound)
    ensures var (f, x) := RunVarOp(m, vars, op, e, w);
            var (f', x') := RunVarOp(m, vars + {v}, op.(arguments := UsesRenamed(op.arguments, r, loaded)), e', w);
            x' == x && AgreeBelow(bound, f, f') && Get(f', loaded) == Get(f, r) && Get(f', v) == Get(e', v)
            && (op.id != r ==> Get(f, r) == Get(e, r))
  {
    hide AgreeBelow, StoresTo, LoadsFrom, UsesRenamed, ReadsBelow;
    var op' := op.(arguments := UsesRenamed(op.arguments, r, loaded));
    ReadsArguments(op, bound);
    SameArguments(op.arguments, r, loaded, bound, e, e');
    SameVarOps(op, vars, v, r, loaded, bound);
    if StoresTo(op, vars) {
      AboutStore(op, vars);
      AboutStore(op', vars + {v});
      var x := ArgumentValue(op.arguments[1], e);
      assert ArgumentValues(op.arguments, e)[1] == ArgumentValues(op'.arguments, e')[1];
      AgreeUpdate(bound, e, e', op.arguments[0].id, x);
    } else if LoadsFrom(op, vars) {
      AboutLoad(op, vars);
      AboutLoad(op', vars + {v});
      assert ArgumentValues(op.arguments, e)[0] == ArgumentValues(op'.arguments, e')[0];
      AgreeUpdate(bound, e, e', op.id, Get(e, op.arguments[0].id));
    } else {
      AgreeUpdate(bound, e, e', op.id, m.eval(op.op, ArgumentValues(op.arguments, e), w).0);
    }
  }

  lemma ReadsArguments(op: Op, bound: Id)
    requires ReadsBelow(op, bound)
    ensures forall id: Id :: IdArgument(id) in op.arguments ==> id < bound
  {
    assert forall id: Id :: IdArgument(id) in op.arguments ==> UsesId(op, id);
  }

  lemma AboutStore(op: Op, vars: set<Id>)
    requires StoresTo(op, vars)
    ensures |op.arguments| == 2 && op.arguments[0].IdArgument? && op.arguments[0].id in vars
  {}

  lemma AboutLoad(op: Op, vars: set<Id>)
    requires LoadsFrom(op, vars)
    ensures |op.arguments| == 1 && op.arguments[0].IdArgument? && op.arguments[0].id in vars
  {}

  /** All operations of a block. */
  lemma {:induction false} OpsUsingAgree<W>(m: Machine<W>, vars: set<Id>, v: Id, ops: seq<Op>, r: Id, loaded: Id,
                                            bound: Id, e: Env, e': Env, w: W)
    requires AgreeBelow(bound, e, e') && Get(e', loaded) == Get(e, r) && ReadAs(loaded, r, v, vars, bound)
    requires forall i :: 0 <= i < |ops| ==>
               ReadsBelow(ops[i], bound) && ops[i].id < bound && (ops[i].id != r || loaded == r)
    ensures var (f, x) := RunVarOps(m, vars, ops, e, w);
            var (f', x') := RunVarOps(m, vars + {v}, OpsUsing(ops, r, loaded), e', w);
            && x' == x && AgreeBelow(bound, f, f') && Get(f', loaded) == Get(f, r) && Get(f', v) == Get(e', v)
            && ((forall i :: 0 <= i < |ops| ==> ops[i].id != r) ==> Get(f, r) == Get(e, r))
    decreases |ops|
  {
    hide ReadAs, ReadsBelow, AgreeBelow, RunVarOp;
    if ops != [] {
      OpUsing(m, vars, v, ops[0], r, loaded, bound, e, e', w);
      var (f, x) := RunVarOp(m, vars, ops[0], e, w);
      var renamed := OpsUsing(ops, r, loaded);
      var (f', x') := RunVarOp(m, vars + {v}, renamed[0], e', w);
      assert renamed[1..] == OpsUsing(ops[1..], r, loaded);
      assert forall i :: 0 <= i < |ops[1..]| ==> ops[1..][i] == ops[i + 1];
      OpsUsingAgree(m, vars, v, ops[1..], r, loaded, bound, f, f', x);
    }
  }

  lemma NotRenamed(ops: seq<Op>, r: Id)
    ensures OpsUsing(ops, r, r) == ops
  {
    forall i | 0 <= i < |ops| ensures OpsUsing(ops, r, r)[i] == ops[i] {
      assert UsesRenamed(ops[i].arguments, r, r) == ops[i].arguments;
    }
  }

  lemma TerminatorAgrees(t: Terminator, r: Id, loaded: Id, bound: Id, f: Env, f': Env)
    requires AgreeBelow(bound, f, f') && Get(f', loaded) == Get(f, r) && TerminatorUse(t) < bound && r > 0 && loaded > 0
    ensures Next(TerminatorUsing(t, r, loaded), f') == Next(t, f)
            && Finish(TerminatorUsing(t, r, loaded), f') == Finish(t, f)
  {}

  lemma SameTerminator(t: Terminator, r: Id)
    ensures TerminatorUsing(t, r, r) == t
  {}

  lemma {:induction false} VarConcat<W>(m: Machine<W>, vars: set<Id>, a: seq<Op>, b: seq<Op>, e: Env, w: W)
    ensures RunVarOps(m, vars, a + b, e, w) == var (e', w') :=
            RunVarOps(m, vars, a, e, w); RunVarOps(m, vars, b, e', w')
  {
    if a == [] {
      assert a + b == b;
    } else {
      assert (a + b)[1..] == a[1..] + b;
      var (e', w') := RunVarOp(m, vars, a[0], e, w);
      VarConcat(m, vars, a[1..], b, e', w');
    }
  }

  /** What a block must do: the same world, the same old values and decisions, and afterwards the variable
      holds the value. */
  ghost predicate BlockAgree<W>(m: Machine<W>, vars: set<Id>, was: IRBlock, is': IRBlock, d: Demotion, bound: Id,
                                e: Env, e': Env, w: W) {
    var (f, x) := RunVarOps(m, vars, was.operations, e, w);
    var (f', x') := RunVarOps(m, vars + {d.variable}, is'.operations, e', w);
    && x' == x && AgreeBelow(bound, f, f') && Get(f', d.variable) == Get(f, d.id)
    && Next(is'.terminator, f') == Next(was.terminator, f) && Finish(is'.terminator, f') == Finish(was.terminator, f)
  }

  /** The operations read only old ids, and define nothing but old ids. */
  ghost predicate OldOps(ops: seq<Op>, bound: Id) {
    forall i :: 0 <= i < |ops| ==> ReadsBelow(ops[i], bound) && ops[i].id < bound
  }

  ghost predicate Keeps(ops: seq<Op>, r: Id) {
    forall i :: 0 <= i < |ops| ==> ops[i].id != r
  }

  lemma LoadingAgrees<W>(m: Machine<W>, vars: set<Id>, was: IRBlock, d: Demotion, loaded: Id, bound: Id, e: Env,
                         e': Env, w: W)
    requires ReadAs(loaded, d.id, d.variable, vars, bound) && loaded >= bound && OldOps(was.operations, bound)
             && Keeps(was.operations, d.id)
    requires TerminatorUse(was.terminator) < bound
    requires AgreeBelow(bound, e, e') && Get(e', d.variable) == Get(e, d.id)
    ensures BlockAgree(m, vars, was, Loading(was, d.id, d.variable, loaded), d, bound, e, e', w)
  {
    hide RunVarOp, ReadsBelow, OpsUsing, Next, Finish, TerminatorUsing;
    var r, v := d.id, d.variable;
    LoadRuns(m, vars, v, loaded, e', w);
    VarConcat(m, vars + {v}, [Op(LOAD, loaded, [IdArgument(v)])], OpsUsing(was.operations, r, loaded), e', w);
    OpsUsingAgree(m, vars, v, was.operations, r, loaded, bound, e, e'[loaded := Get(e', v)], w);
    var f := RunVarOps(m, vars, was.operations, e, w).0;
    var f' := RunVarOps(m, vars + {v}, Loading(was, r, v, loaded).operations, e', w).0;
    TerminatorAgrees(was.terminator, r, loaded, bound, f, f');
  }

  lemma StoringAgrees<W>(m: Machine<W>, vars: set<Id>, was: IRBlock, d: Demotion, bound: Id, e: Env, e': Env, w: W)
    requires ReadAs(d.id, d.id, d.variable, vars, bound) && OldOps(was.operations, bound)
             && TerminatorUse(was.terminator) < bound
    requires AgreeBelow(bound, e, e')
    ensures BlockAgree(m, vars, was, Storing(was, d.id, d.variable), d, bound, e, e', w)
  {
    hide RunVarOp, ReadsBelow, OpsUsing, Next, Finish, TerminatorUsing;
    var r, v := d.id, d.variable;
    NotRenamed(was.operations, r);
    OpsUsingAgree(m, vars, v, was.operations, r, r, bound, e, e', w);
    var f := RunVarOps(m, vars, was.operations, e, w).0;
    var (f', x') := RunVarOps(m, vars + {v}, was.operations, e', w);
    VarConcat(m, vars + {v}, was.operations, [Op(STORE, 0, [IdArgument(v), IdArgument(r)])], e', w);
    StoreRuns(m, vars, v, r, f', x');
    SameTerminator(was.terminator, r);
    TerminatorAgrees(was.terminator, r, r, bound, f, f'[v := Get(f', r)]);
  }

  lemma PlainAgrees<W>(m: Machine<W>, vars: set<Id>, was: IRBlock, d: Demotion, bound: Id, e: Env, e': Env, w: W)
    requires ReadAs(d.id, d.id, d.variable, vars, bound) && OldOps(was.operations, bound) && Keeps(was.operations, d.id)
    requires TerminatorUse(was.terminator) < bound
    requires AgreeBelow(bound, e, e') && Get(e', d.variable) == Get(e, d.id)
    ensures BlockAgree(m, vars, was, was, d, bound, e, e', w)
  {
    hide RunVarOp, ReadsBelow, OpsUsing, Next, Finish, TerminatorUsing;
    var r, v := d.id, d.variable;
    NotRenamed(was.operations, r);
    OpsUsingAgree(m, vars, v, was.operations, r, r, bound, e, e', w);
    var f, f' := RunVarOps(m, vars, was.operations, e, w).0, RunVarOps(m, vars + {v}, was.operations, e', w).0;
    SameTerminator(was.terminator, r);
    TerminatorAgrees(was.terminator, r, r, bound, f, f');
  }

  lemma BlockAgrees<W>(m: Machine<W>, live: set<Node>, vars: set<Id>, p: seq<IRBlock>, q: seq<IRBlock>, d: Demotion,
                       bound: Id, b: Node, e: Env, e': Env, w: W)
    requires Demotable(p, live, vars, d.id, d.origin, bound) && Demoted(p, q, d) && FreshIds(d, bound) && b in live
    requires AgreeBelow(bound, e, e') && (b != d.origin ==> Get(e', d.variable) == Get(e, d.id))
    ensures b < |p| && b < |q| && BlockAgree(m, vars, p[b], q[b], d, bound, e, e', w)
  {
    hide AgreeBelow, BlockAgree, OldOps, Keeps, ReadAs, Storing, Loading;
    OpsFacts(p, live, vars, d, bound, b);
    if b == d.origin {
      StoringAgrees(m, vars, p[b], d, bound, e, e', w);
    } else if b in d.loads {
      LoadingAgrees(m, vars, p[b], d, d.loads[b], bound, e, e', w);
    } else {
      PlainAgrees(m, vars, p[b], d, bound, e, e', w);
    }
  }

  lemma OpsFacts(p: seq<IRBlock>, live: set<Node>, vars: set<Id>, d: Demotion, bound: Id, b: Node)
    requires Demotable(p, live, vars, d.id, d.origin, bound) && FreshIds(d, bound) && b in live
    ensures OldOps(p[b].operations, bound) && TerminatorUse(p[b].terminator) < bound
            && (b != d.origin ==> Keeps(p[b].operations, d.id))
    ensures ReadAs(d.id, d.id, d.variable, vars, bound)
            && (b in d.loads ==> ReadAs(d.loads[b], d.id, d.variable, vars, bound))
  {
    assert BlockIdsBelow(p[b], bound);
    forall i | 0 <= i < |p[b].operations| ensures p[b].operations[i].id < bound
        && (b != d.origin ==> p[b].operations[i].id != d.id) {
      if p[b].operations[i].id != 0 {
        assert DefinesOp(p[b].operations, p[b].operations[i].id) && Defines(p[b], p[b].operations[i].id);
      }
    }
  }

  lemma LoadRuns<W>(m: Machine<W>, vars: set<Id>, v: Id, loaded: Id, e: Env, w: W)
    ensures RunVarOps(m, vars + {v}, [Op(LOAD, loaded, [IdArgument(v)])], e, w) == (e[loaded := Get(e, v)], w)
  {
    var load := Op(LOAD, loaded, [IdArgument(v)]);
    assert [load][1..] == [];
  }

  lemma StoreRuns<W>(m: Machine<W>, vars: set<Id>, v: Id, r: Id, e: Env, w: W)
    ensures RunVarOps(m, vars + {v}, [Op(STORE, 0, [IdArgument(v), IdArgument(r)])], e, w) == (e[v := Get(e, r)], w)
  {
    var store := Op(STORE, 0, [IdArgument(v), IdArgument(r)]);
    assert [store][1..] == [];
  }

  /** Entering a block: its PHIs give the same values, and only the block that makes the value changes it. */
  lemma {:induction false} PhisSame(phis: seq<PHI>, from: Node, bound: Id, old': Env, old'': Env, e: Env, e': Env)
    requires AgreeBelow(bound, e, e') && AgreeBelow(bound, old', old'')
    requires forall i :: 0 <= i < |phis| ==> phis[i].id < bound && IncomingFrom(phis[i].incoming, from) < bound
    ensures AgreeBelow(bound, EnterPhis(phis, from, old', e), EnterPhis(phis, from, old'', e'))
    ensures forall id: Id :: id >= bound ==> Get(EnterPhis(phis, from, old'', e'), id) == Get(e', id)
    decreases |phis|
  {
    if phis != [] {
      assert forall i :: 0 <= i < |phis[1..]| ==> phis[1..][i] == phis[i + 1];
      var id := IncomingFrom(phis[0].incoming, from);
      assert id < bound && Get(old', id) == Get(old'', id);
      AgreeUpdate(bound, e, e', phis[0].id, Get(old', id));
      PhisSame(phis[1..], from, bound, old', old'', e[phis[0].id := Get(old', id)], e'[phis[0].id := Get(old'', id)]);
    }
  }

  lemma EnterHolding<W>(p: seq<IRBlock>, q: seq<IRBlock>, live: set<Node>, vars: set<Id>, d: Demotion, bound: Id,
                        from: Node, t: Node, f: Env, f': Env, w: W)
    requires Demotable(p, live, vars, d.id, d.origin, bound) && Demoted(p, q, d) && FreshIds(d, bound) && t in live
    requires AgreeBelow(bound, f, f') && Get(f', d.variable) == Get(f, d.id)
    ensures t < |p| && t < |q|
            && Holding(live, bound, d, Running(t, EnterPhis(p[t].phi, from, f, f), w),
                       Running(t, EnterPhis(q[t].phi, from, f', f'), w))
  {
    assert q[t].phi == p[t].phi && BlockIdsBelow(p[t], bound);
    forall i | 0 <= i < |p[t].phi|
      ensures p[t].phi[i].id < bound && IncomingFrom(p[t].phi[i].incoming, from) < bound
              && (t != d.origin ==> p[t].phi[i].id != d.id)
    {
      assert DefinesPhi(p[t], p[t].phi[i].id) && Defines(p[t], p[t].phi[i].id);
    }
    PhisSame(p[t].phi, from, bound, f, f', f, f');
    if t != d.origin {
      EnterPhisOther(p[t].phi, from, f, f, d.id);
    }
  }

  lemma StepHolding<W>(m: Machine<W>, live: set<Node>, vars: set<Id>, p: seq<IRBlock>, q: seq<IRBlock>, d: Demotion,
                       bound: Id, s: State<W>, s': State<W>)
    requires Demotable(p, live, vars, d.id, d.origin, bound) && Demoted(p, q, d) && FreshIds(d, bound)
             && Holding(live, bound, d, s, s')
    ensures Holding(live, bound, d, VarStep(m, vars, p, s), VarStep(m, vars + {d.variable}, q, s'))
  {
    hide Demotable, Demoted, FreshIds, AgreeBelow, RunVarOps, EnterPhis, Next, Finish, LiveSet;
    AboutDemoted(p, q, live, vars, d, bound);
    if s.Running? {
      var b, e, e', w := s.block, s.env, s'.env, s.world;
      BlockAgrees(m, live, vars, p, q, d, bound, b, e, e', w);
      var (f, x) := RunVarOps(m, vars, p[b].operations, e, w);
      var (f', x') := RunVarOps(m, vars + {d.variable}, q[b].operations, e', w);
      var t := Next(p[b].terminator, f);
      if t.Some? {
        NextIsTarget(p[b].terminator, f);
        AboutLive(p, live, b, t.value);
        EnterHolding(p, q, live, vars, d, bound, b, t.value, f, f', x);
      }
    }
  }

  lemma AboutLive(p: seq<IRBlock>, live: set<Node>, b: Node, t: Node)
    requires LiveSet(p, live) && b in live
    ensures b < |p| && (t in Targets(p[b].terminator) ==> t in live)
  {}

  lemma AboutDemoted(p: seq<IRBlock>, q: seq<IRBlock>, live: set<Node>, vars: set<Id>, d: Demotion, bound: Id)
    requires Demotable(p, live, vars, d.id, d.origin, bound) && Demoted(p, q, d)
    ensures |q| == |p| && LiveSet(p, live)
  {}

  /** Every run goes through the same blocks with the same values, decisions and effects. */
  lemma {:induction false} DemotionPreservesRuns<W>(m: Machine<W>, live: set<Node>, vars: set<Id>, p: seq<IRBlock>,
                                                    q: seq<IRBlock>, d: Demotion, bound: Id, s: State<W>, s': State<W>,
                                                    n: nat)
    requires Demotable(p, live, vars, d.id, d.origin, bound) && Demoted(p, q, d) && FreshIds(d, bound)
             && Holding(live, bound, d, s, s')
    ensures Holding(live, bound, d, VarRun(m, vars, p, s, n), VarRun(m, vars + {d.variable}, q, s', n))
    decreases n
  {
    if n > 0 {
      StepHolding(m, live, vars, p, q, d, bound, s, s');
      DemotionPreservesRuns(m, live, vars, p, q, d, bound, VarStep(m, vars, p, s),
                            VarStep(m, vars + {d.variable}, q, s'), n - 1);
    }
  }

  // ---------------------------------------------------------------- many values

  function DemotedBlocks(p: seq<IRBlock>, d: Demotion): (q: seq<IRBlock>)
    ensures |q| == |p|
  {
    seq(|p|, b requires 0 <= b < |p| => DemotedBlock(p[b], b, d))
  }

  /** The blocks after all demotions, the last one last. */
  function After(p: seq<IRBlock>, steps: seq<Demotion>): (q: seq<IRBlock>)
    ensures |q| == |p|
  {
    if steps == [] then p else DemotedBlocks(After(p, steps[..|steps| - 1]), steps[|steps| - 1])
  }

  function Variables(steps: seq<Demotion>): set<Id> {
    if steps == [] then {} else Variables(steps[..|steps| - 1]) + {steps[|steps| - 1].variable}
  }

  /** Each value in turn could be demoted. */
  ghost predicate AllDemotable(p: seq<IRBlock>, live: set<Node>, steps: seq<Demotion>, bound: Id)
    requires LiveSet(p, live)
  {
    steps == [] ||
    (var before, d := steps[..|steps| - 1], steps[|steps| - 1];
     && AllDemotable(p, live, before, bound)
     && d.id < bound <= d.variable && d.origin in live && d.origin !in d.loads && Defines(p[d.origin], d.id)
     && Demotable(After(p, before), live, Variables(before), d.id, d.origin, d.variable) && FreshIds(d, d.variable))
  }

  lemma SameStateTrans<W>(bound: Id, bound': Id, a: State<W>, b: State<W>, c: State<W>)
    requires SameState(bound, a, b) && SameState(bound', b, c) && bound <= bound'
    ensures SameState(bound, a, c)
  {
    if a.Running? {
      forall id: Id {:trigger Get(a.env, id)} | id < bound ensures Get(a.env, id) == Get(c.env, id) {
        assert Get(a.env, id) == Get(b.env, id) && Get(b.env, id) == Get(c.env, id);
      }
    }
  }

  /** From the entry on, with nothing yet computed, every run goes through the same blocks, computes the same values
      under all original ids, decides the same and has the same effects. */
  lemma {:induction false} DemotionsPreserveRuns<W>(m: Machine<W>, p: seq<IRBlock>, live: set<Node>,
                                                    steps: seq<Demotion>, bound: Id,
                                                    entry: Node, env: Env, w: W, n: nat)
    requires LiveSet(p, live) && AllDemotable(p, live, steps, bound) && entry in live
    requires forall id: Id :: id >= bound ==> Get(env, id) == 0
    requires forall b: Node, id: Id :: b in live && Defines(p[b], id) ==> Get(env, id) == 0
    ensures SameState(bound, Run(m, p, Running(entry, env, w), n),
                      VarRun(m, Variables(steps), After(p, steps), Running(entry, env, w), n))
    decreases |steps|
  {
    hide Demotable, DemotedBlocks, FreshIds, LiveSet, Defines;
    var s := Running(entry, env, w);
    if steps == [] {
      NoVariablesRun(m, p, s, n);
      SameStateRefl(bound, Run(m, p, s, n));
    } else {
      var before, d := steps[..|steps| - 1], steps[|steps| - 1];
      DemotionsPreserveRuns(m, p, live, before, bound, entry, env, w, n);
      var mid := After(p, before);
      AboutDemotedBlocks(mid, live, Variables(before), d);
      SameStateRefl(d.variable, s);
      DemotionPreservesRuns(m, live, Variables(before), mid, After(p, steps), d, d.variable, s, s, n);
      SameStateTrans(bound, d.variable, Run(m, p, s, n), VarRun(m, Variables(before), mid, s, n),
                     VarRun(m, Variables(steps), After(p, steps), s, n));
    }
  }

  lemma SameStateRefl<W>(bound: Id, s: State<W>)
    ensures SameState(bound, s, s)
  {}

  lemma AboutDemotedBlocks(p: seq<IRBlock>, live: set<Node>, vars: set<Id>, d: Demotion)
    requires Demotable(p, live, vars, d.id, d.origin, d.variable) && d.origin !in d.loads
    ensures Demoted(p, DemotedBlocks(p, d), d)
  {}
}
