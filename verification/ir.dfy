/** The intermediate representation of a function's blocks, and what it means to run it. */
module IR {
  import opened Wrappers
  import opened Graphs

  /** A SPIR-V id; zero means none. */
  type Id = nat

  datatype IncomingValue = IncomingValue(block: Node, id: Id)

  datatype PHI = PHI(id: Id, incoming: seq<IncomingValue>)

  datatype Argument = IdArgument(id: Id) | LiteralArgument(lit: nat)

  datatype Op = Op(op: nat, id: Id, arguments: seq<Argument>)

  datatype Case = Case(node: Node, value: nat, isDefault: bool)

  datatype Terminator =
    | Unreachable
    | Branch(direct: Node)
    | Condition(conditional: Id, onTrue: Node, onFalse: Node)
    | Switch(selector: Id, cases: seq<Case>)
    | Return(value: Id)
    | Kill

  datatype IRBlock = IRBlock(phi: seq<PHI>, operations: seq<Op>, terminator: Terminator)

  // ---------------------------------------------------------------- running a function

  /** Values of ids; an id that was never written reads as zero. */
  type Env = map<Id, int>

  function Get(env: Env, id: Id): int {
    if id in env then env[id] else 0
  }

  /** What operations do: their result, and their effect on the outside world `W`, which holds memory,
      inputs still to be read and everything observable so far. */
  datatype Machine<!W> = Machine(eval: (nat, seq<int>, W) -> (int, W))

  function ArgumentValue(a: Argument, env: Env): int {
    match a
    case IdArgument(id) => Get(env, id)
    case LiteralArgument(lit) => lit
  }

  function ArgumentValues(args: seq<Argument>, env: Env): (r: seq<int>)
    ensures |r| == |args|
  {
    seq(|args|, i requires 0 <= i < |args| => ArgumentValue(args[i], env))
  }

  function RunOp<W>(m: Machine<W>, op: Op, env: Env, w: W): (Env, W) {
    var (v, w') := m.eval(op.op, ArgumentValues(op.arguments, env), w);
    (if op.id != 0 then env[op.id := v] else env, w')
  }

  function RunOps<W>(m: Machine<W>, ops: seq<Op>, env: Env, w: W): (Env, W) {
    if ops == [] then (env, w)
    else
      var (env', w') := RunOp(m, ops[0], env, w);
      RunOps(m, ops[1..], env', w')
  }

  /** The value that a PHI takes when control comes from `from`. */
  function IncomingFrom(incoming: seq<IncomingValue>, from: Node): Id {
    if incoming == [] then 0
    else if incoming[0].block == from then incoming[0].id
    else IncomingFrom(incoming[1..], from)
  }

  /** All PHIs of a block read the old values at once. */
  function EnterPhis(phis: seq<PHI>, from: Node, old': Env, env: Env): Env {
    if phis == [] then env
    else EnterPhis(phis[1..], from, old', env[phis[0].id := Get(old', IncomingFrom(phis[0].incoming, from))])
  }

  function SelectCase(cases: seq<Case>, v: int): Option<Node> {
    if cases == [] then None
    else if !cases[0].isDefault && cases[0].value == v then Some(cases[0].node)
    else SelectCase(cases[1..], v)
  }

  function DefaultCase(cases: seq<Case>): Option<Node> {
    if cases == [] then None
    else if cases[0].isDefault then Some(cases[0].node)
    else DefaultCase(cases[1..])
  }

  /** Where control goes after the block, if anywhere. */
  function Next(t: Terminator, env: Env): Option<Node> {
    match t
    case Branch(n) => Some(n)
    case Condition(id, a, b) => Some(if Get(env, id) != 0 then a else b)
    case Switch(id, cases) =>
      (match SelectCase(cases, Get(env, id))
       case Some(n) => Some(n)
       case None => DefaultCase(cases))
    case _ => None
  }

  datatype Outcome = Returned(value: int) | Killed | Stuck

  function Finish(t: Terminator, env: Env): Outcome {
    match t
    case Return(id) => Returned(if id == 0 then 0 else Get(env, id))
    case Kill => Killed
    case _ => Stuck
  }

  datatype State<W> = Running(block: Node, env: Env, world: W) | Finished(outcome: Outcome, last: W)

  /** Runs one block and enters the next. */
  function Step<W>(m: Machine<W>, p: seq<IRBlock>, s: State<W>): State<W> {
    match s
    case Finished(_, _) => s
    case Running(b, env, w) =>
      if b >= |p| then Finished(Stuck, w)
      else
        var (env', w') := RunOps(m, p[b].operations, env, w);
        match Next(p[b].terminator, env')
        case None => Finished(Finish(p[b].terminator, env'), w')
        case Some(n) =>
          if n >= |p| then Finished(Stuck, w')
          else Running(n, EnterPhis(p[n].phi, b, env', env'), w')
  }

  function Run<W>(m: Machine<W>, p: seq<IRBlock>, s: State<W>, n: nat): State<W>
    decreases n
  {
    if n == 0 then s else Run(m, p, Step(m, p, s), n - 1)
  }

  // ---------------------------------------------------------------- structure

  function Targets(t: Terminator): seq<Node> {
    match t
    case Branch(n) => [n]
    case Condition(_, a, b) => [a, b]
    case Switch(_, cases) => CaseTargets(cases)
    case _ => []
  }

  function CaseTargets(cases: seq<Case>): seq<Node> {
    if cases == [] then [] else [cases[0].node] + CaseTargets(cases[1..])
  }

  lemma {:induction false} CaseTargetsMembers(cases: seq<Case>, v: int)
    ensures SelectCase(cases, v).Some? ==> SelectCase(cases, v).value in CaseTargets(cases)
    ensures DefaultCase(cases).Some? ==> DefaultCase(cases).value in CaseTargets(cases)
  {
    if cases != [] {
      CaseTargetsMembers(cases[1..], v);
    }
  }

  lemma NextIsTarget(t: Terminator, env: Env)
    ensures Next(t, env).Some? ==> Next(t, env).value in Targets(t)
  {
    if t.Switch? {
      CaseTargetsMembers(t.cases, Get(env, t.selector));
    }
  }

  /** The id that the terminator reads, or zero. */
  function TerminatorUse(t: Terminator): Id {
    match t
    case Condition(id, _, _) => id
    case Switch(id, _) => id
    case Return(id) => id
    case _ => 0
  }

  /** The control-flow graph of a function. */
  ghost function FlowOf(p: seq<IRBlock>): Graph {
    Graph(seq(|p|, b requires 0 <= b < |p| => Targets(p[b].terminator)))
  }

  predicate UsesId(op: Op, id: Id) {
    IdArgument(id) in op.arguments
  }

  /** The block reads the value other than by a PHI. */
  predicate Reads(b: IRBlock, id: Id) {
    ReadsOp(b.operations, id) || TerminatorUse(b.terminator) == id
  }

  predicate ReadsOp(ops: seq<Op>, id: Id) {
    exists i :: 0 <= i < |ops| && UsesId(ops[i], id)
  }

  // ---------------------------------------------------------------- facts about running

  lemma {:induction false} EnterPhisOther(phis: seq<PHI>, from: Node, old': Env, env: Env, id: Id)
    requires forall i :: 0 <= i < |phis| ==> phis[i].id != id
    ensures Get(EnterPhis(phis, from, old', env), id) == Get(env, id)
  {
    if phis != [] {
      assert forall i :: 0 <= i < |phis[1..]| ==> phis[1..][i] == phis[i + 1];
      EnterPhisOther(phis[1..], from, old', env[phis[0].id := Get(old', IncomingFrom(phis[0].incoming, from))], id);
    }
  }

  lemma {:induction false} EnterPhisAt(phis: seq<PHI>, from: Node, old': Env, env: Env, i: nat)
    requires i < |phis| && forall j :: i < j < |phis| ==> phis[j].id != phis[i].id
    ensures Get(EnterPhis(phis, from, old', env), phis[i].id) == Get(old', IncomingFrom(phis[i].incoming, from))
    decreases i
  {
    var env' := env[phis[0].id := Get(old', IncomingFrom(phis[0].incoming, from))];
    if i == 0 {
      EnterPhisOther(phis[1..], from, old', env', phis[0].id);
    } else {
      assert phis[1..][i - 1] == phis[i];
      EnterPhisAt(phis[1..], from, old', env', i - 1);
    }
  }
}
