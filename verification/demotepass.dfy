/** Repairing every use whose definition no longer dominates it. */
module DemotePass {
  import opened Graphs
  import opened Lists
  import opened IR
  import opened TailSplit
  import opened BlockPool
  import opened Demote

  /** OpVariable. */
  const VARIABLE: nat := 59

  // ---------------------------------------------------------------- makers and readers

  /** The block makes the value; OpVariable does not count, being always hoisted to the function's entry. */
  predicate Makes(b: IRBlock, id: Id) {
    DefinesPhi(b, id) || MakesOp(b.operations, id)
  }

  predicate MakesOp(ops: seq<Op>, id: Id) {
    id != 0 && exists i :: 0 <= i < |ops| && ops[i].op != VARIABLE && ops[i].id == id
  }

  /** Each live id has one defining block, and no PHI is anonymous. */
  ghost predicate OneDefinition(p: seq<IRBlock>, live: set<Node>)
    requires LiveSet(p, live)
  {
    && (forall b: Node, d: Node, id: Id :: b in live && d in live && Defines(p[b], id) && Defines(p[d], id) ==> b == d)
    && (forall b: Node :: b in live ==> !DefinesPhi(p[b], 0))
  }

  // ---------------------------------------------------------------- finding the broken uses

  /** `origin` says which block makes each value. */
  ghost predicate OriginsOf(p: seq<IRBlock>, live: set<Node>, origin: map<Id, Node>)
    requires LiveSet(p, live)
  {
    && (forall id: Id :: id in origin ==> origin[id] in live && Makes(p[origin[id]], id))
    && (forall b: Node, id: Id :: b in live && Makes(p[b], id) ==> id in origin)
  }

  /** `n` would read `id` without being dominated by the block that makes it. */
  predicate Broken(origin: map<Id, Node>, dominates: (Node, Node) -> bool, id: Id, n: Node) {
    id in origin && !dominates(origin[id], n)
  }

  /** `n` is listed under `id`. */
  predicate In(consumers: map<Id, seq<Node>>, id: Id, n: Node) {
    id in consumers && n in consumers[id]
  }

  method BlockOrigins(b: IRBlock, n: Node, origin0: map<Id, Node>) returns (origin: map<Id, Node>)
    ensures forall id: Id :: id in origin <==> id in origin0 || Makes(b, id)
    ensures forall id: Id :: id in origin ==>
              (Makes(b, id) && origin[id] == n) || (id in origin0 && origin[id] == origin0[id])
  {
    origin := origin0;
    for i := 0 to |b.operations|
      invariant forall id: Id :: id in origin <==> id in origin0 || MakesOp(b.operations[..i], id)
      invariant forall id: Id :: id in origin ==>
                  (MakesOp(b.operations[..i], id) && origin[id] == n) || (id in origin0 && origin[id] == origin0[id])
    {
      MakesSnoc(b.operations, i);
      if b.operations[i].op != VARIABLE && b.operations[i].id != 0 {
        origin := origin[b.operations[i].id := n];
      }
    }
    assert b.operations[..|b.operations|] == b.operations;
    for i := 0 to |b.phi|
      invariant forall id: Id :: id in origin <==>
                  id in origin0 || MakesOp(b.operations, id) || exists k :: 0 <= k < i && b.phi[k].id == id
      invariant forall id: Id :: id in origin ==>
                  (Makes(b, id) && origin[id] == n) || (id in origin0 && origin[id] == origin0[id])
    {
      assert DefinesPhi(b, b.phi[i].id);
      origin := origin[b.phi[i].id := n];
    }
  }

  lemma MakesSnoc(ops: seq<Op>, i: nat)
    requires i < |ops|
    ensures forall id: Id :: MakesOp(ops[..i + 1], id) <==>
              MakesOp(ops[..i], id) || (id != 0 && ops[i].op != VARIABLE && ops[i].id == id)
  {
    var a, b := ops[..i], ops[..i + 1];
    assert b == a + [ops[i]];
    forall id: Id ensures MakesOp(b, id) <==> MakesOp(a, id) || (id != 0 && ops[i].op != VARIABLE && ops[i].id == id) {
      if MakesOp(a, id) {
        var k :| 0 <= k < |a| && a[k].op != VARIABLE && a[k].id == id;
        assert b[k] == a[k];
      }
      if id != 0 && ops[i].op != VARIABLE && ops[i].id == id {
        assert b[i] == ops[i];
      }
      if MakesOp(b, id) {
        var k :| 0 <= k < |b| && b[k].op != VARIABLE && b[k].id == id;
        if k < i {
          assert a[k] == b[k];
        }
      }
    }
  }

  /** `forward_post_visit_order`: the live blocks, each once. */
  ghost predicate VisitOrder(order: seq<Node>, live: set<Node>) {
    && Distinct(order) && (forall j :: 0 <= j < |order| ==> order[j] in live) && forall n: Node :: n in live ==>
      n in order
  }

  method ScanOrigins(p: seq<IRBlock>, order: seq<Node>, ghost live: set<Node>) returns (origin: map<Id, Node>)
    requires LiveSet(p, live) && VisitOrder(order, live)
    ensures OriginsOf(p, live, origin)
  {
    origin := map[];
    for k := 0 to |order|
      invariant forall id: Id :: id in origin ==> origin[id] in live && Makes(p[origin[id]], id)
      invariant forall j, id: Id :: 0 <= j < k && Makes(p[order[j]], id) ==> id in origin
    {
      origin := BlockOrigins(p[order[k]], order[k], origin);
    }
    forall b: Node, id: Id | b in live && Makes(p[b], id) ensures id in origin {
      var j :| 0 <= j < |order| && order[j] == b;
    }
  }

  /** `mark_node_value_access`. */
  method MarkNodeValueAccess(consumers0: map<Id, seq<Node>>, origin: map<Id, Node>, dominates: (Node, Node) -> bool,
                             n: Node, id: Id)
    returns (consumers: map<Id, seq<Node>>)
    ensures forall i: Id, x: Node :: In(consumers, i, x) <==>
              In(consumers0, i, x) || (i == id && x == n && Broken(origin, dominates, i, x))
  {
    consumers := consumers0;
    if id in origin && !dominates(origin[id], n) {
      consumers := consumers[id := (if id in consumers then consumers[id] else []) + [n]];
    }
  }

  method MarkArguments(consumers0: map<Id, seq<Node>>, origin: map<Id, Node>, dominates: (Node, Node) -> bool, n: Node,
                       args: seq<Argument>)
    returns (consumers: map<Id, seq<Node>>)
    ensures forall i: Id, x: Node :: In(consumers, i, x) <==>
              In(consumers0, i, x) || (x == n && IdArgument(i) in args && Broken(origin, dominates, i, x))
  {
    consumers := consumers0;
    for k := 0 to |args|
      invariant forall i: Id, x: Node ::
                  In(consumers, i, x) <==>
                    In(consumers0, i, x) || (x == n && IdArgument(i) in args[..k] && Broken(origin, dominates, i, x))
    {
      assert args[..k + 1] == args[..k] + [args[k]];
      if args[k].IdArgument? {
        consumers := MarkNodeValueAccess(consumers, origin, dominates, n, args[k].id);
      }
    }
    assert args[..|args|] == args;
  }

  method MarkBlock(consumers0: map<Id, seq<Node>>, origin: map<Id, Node>, dominates: (Node, Node) -> bool, n: Node,
                   b: IRBlock)
    returns (consumers: map<Id, seq<Node>>)
    requires 0 !in origin
    ensures forall i: Id, x: Node :: In(consumers, i, x) <==>
              In(consumers0, i, x) || (x == n && Reads(b, i) && Broken(origin, dominates, i, x))
  {
    consumers := consumers0;
    var ops := b.operations;
    for k := 0 to |ops|
      invariant forall i: Id, x: Node ::
                  In(consumers, i, x) <==>
                    In(consumers0, i, x) || (x == n && ReadsOp(ops[..k], i) && Broken(origin, dominates, i, x))
    {
      ReadsSnoc(ops, k);
      consumers := MarkArguments(consumers, origin, dominates, n, ops[k].arguments);
    }
    assert ops[..|ops|] == ops;
    if TerminatorUse(b.terminator) != 0 {
      consumers := MarkNodeValueAccess(consumers, origin, dominates, n, TerminatorUse(b.terminator));
    }
  }

  lemma ReadsSnoc(ops: seq<Op>, k: nat)
    requires k < |ops|
    ensures forall id: Id :: ReadsOp(ops[..k + 1], id) <==> ReadsOp(ops[..k], id) || IdArgument(id) in ops[k].arguments
  {
    var a, b := ops[..k], ops[..k + 1];
    assert b == a + [ops[k]];
    forall id: Id ensures ReadsOp(b, id) <==> ReadsOp(a, id) || UsesId(ops[k], id) {
      if ReadsOp(a, id) {
        var j :| 0 <= j < |a| && UsesId(a[j], id);
        assert b[j] == a[j];
      }
      if UsesId(ops[k], id) {
        assert b[k] == ops[k];
      }
      if ReadsOp(b, id) {
        var j :| 0 <= j < |b| && UsesId(b[j], id);
        if j < k {
          assert a[j] == b[j];
        }
      }
    }
  }

  /** The blocks that read `id` without being dominated by its maker. */
  ghost predicate ConsumersOf(p: seq<IRBlock>, live: set<Node>, origin: map<Id, Node>, dominates: (Node, Node) -> bool,
                              consumers: map<Id, seq<Node>>)
    requires LiveSet(p, live)
  {
    forall id: Id, n: Node :: In(consumers, id, n) <==> n in live && Reads(p[n], id) && Broken(origin, dominates, id, n)
  }

  method ScanConsumers(p: seq<IRBlock>, order: seq<Node>, ghost live: set<Node>, origin: map<Id, Node>,
                       dominates: (Node, Node) -> bool)
    returns (consumers: map<Id, seq<Node>>)
    requires LiveSet(p, live) && VisitOrder(order, live) && 0 !in origin
    ensures ConsumersOf(p, live, origin, dominates, consumers)
  {
    consumers := map[];
    for k := 0 to |order|
      invariant forall id: Id, n: Node :: In(consumers, id, n) <==>
                  n in order[..k] && n in live && Reads(p[n], id) && Broken(origin, dominates, id, n)
    {
      assert order[..k + 1] == order[..k] + [order[k]];
      consumers := MarkBlock(consumers, origin, dominates, order[k], p[order[k]]);
    }
    assert order[..|order|] == order;
  }

  /** `sort_unique_node_vector`: by descending visit order, each block once. */
  method ConsumersInOrder(nodes: seq<Node>, order: seq<Node>) returns (sorted: seq<Node>)
    requires Distinct(order) && forall n: Node :: n in nodes ==> n in order
    ensures Distinct(sorted) && forall n: Node :: n in sorted <==> n in nodes
  {
    sorted := [];
    var k := |order|;
    while k > 0
      invariant 0 <= k <= |order| && Distinct(sorted)
      invariant forall n: Node :: n in sorted <==> n in nodes && n in order[k..]
    {
      k := k - 1;
      assert order[k..] == [order[k]] + order[k + 1..];
      if order[k] in nodes {
        DistinctSlice(order, 0, k + 1);
        DistinctSnoc(sorted, order[k]);
        assert order[k] in order[0..k + 1] by { assert order[0..k + 1][k] == order[k]; }
        sorted := sorted + [order[k]];
      }
    }
  }

  // ---------------------------------------------------------------- what one demotion changes

  lemma RenamedReads(ops: seq<Op>, r: Id, loaded: Id, x: Id)
    ensures ReadsOp(OpsUsing(ops, r, loaded), x) <==> (x == loaded && ReadsOp(ops, r)) || (x != r && ReadsOp(ops, x))
  {
    var now := OpsUsing(ops, r, loaded);
    forall i | 0 <= i < |ops|
      ensures UsesId(now[i], x) <==> (x == loaded && UsesId(ops[i], r)) || (x != r && UsesId(ops[i], x))
    {
      RenamedUses(ops[i].arguments, r, loaded, x);
    }
    if ReadsOp(ops, r) {
      var i :| 0 <= i < |ops| && UsesId(ops[i], r);
      assert x == loaded ==> UsesId(now[i], x);
    }
    if ReadsOp(ops, x) {
      var i :| 0 <= i < |ops| && UsesId(ops[i], x);
      assert x != r ==> UsesId(now[i], x);
    }
  }

  lemma RenamedUses(args: seq<Argument>, r: Id, loaded: Id, x: Id)
    ensures IdArgument(x) in UsesRenamed(args, r, loaded) <==>
              (x == loaded && IdArgument(r) in args) || (x != r && IdArgument(x) in args)
  {
    var now := UsesRenamed(args, r, loaded);
    if IdArgument(r) in args {
      var k :| 0 <= k < |args| && args[k] == IdArgument(r);
      assert now[k] == IdArgument(loaded);
    }
    if x != r && IdArgument(x) in args {
      var k :| 0 <= k < |args| && args[k] == IdArgument(x);
      assert now[k] == IdArgument(x);
    }
    if IdArgument(x) in now {
      var k :| 0 <= k < |args| && now[k] == IdArgument(x);
      assert args[k] in args;
    }
  }

  lemma ReadsConcat(a: seq<Op>, b: seq<Op>, x: Id)
    ensures ReadsOp(a + b, x) <==> ReadsOp(a, x) || ReadsOp(b, x)
  {
    if ReadsOp(a, x) {
      var i :| 0 <= i < |a| && UsesId(a[i], x);
      assert (a + b)[i] == a[i];
    }
    if ReadsOp(b, x) {
      var i :| 0 <= i < |b| && UsesId(b[i], x);
      assert (a + b)[|a| + i] == b[i];
    }
    if ReadsOp(a + b, x) {
      var i :| 0 <= i < |a + b| && UsesId((a + b)[i], x);
      assert (a + b)[i] == if i < |a| then a[i] else b[i - |a|];
    }
  }

  lemma ReadsOne(op: Op, x: Id)
    ensures ReadsOp([op], x) <==> IdArgument(x) in op.arguments
  {
    assert [op][0] == op;
  }

  /** What a block reads after one demotion. */
  lemma ReadsAfter(was: IRBlock, b: Node, d: Demotion, x: Id)
    requires d.id != 0 && x != 0 && d.origin !in d.loads
    ensures Reads(DemotedBlock(was, b, d), x) <==>
            if b == d.origin then Reads(was, x) || x == d.variable || x == d.id
            else if b in d.loads then x == d.variable || (x == d.loads[b] && Reads(was, d.id))
            || (x != d.id && Reads(was, x))
            else Reads(was, x)
  {
    hide ReadsOp;
    if b == d.origin {
      var store := Op(STORE, 0, [IdArgument(d.variable), IdArgument(d.id)]);
      ReadsConcat(was.operations, [store], x);
      ReadsOne(store, x);
    } else if b in d.loads {
      var load := Op(LOAD, d.loads[b], [IdArgument(d.variable)]);
      ReadsConcat([load], OpsUsing(was.operations, d.id, d.loads[b]), x);
      ReadsOne(load, x);
      RenamedReads(was.operations, d.id, d.loads[b], x);
    }
  }

  lemma {:induction false} SameMakers(a: seq<Op>, b: seq<Op>, x: Id)
    requires |a| == |b| && forall i :: 0 <= i < |a| ==> a[i].id == b[i].id && a[i].op == b[i].op
    ensures (MakesOp(a, x) <==> MakesOp(b, x)) && (DefinesOp(a, x) <==> DefinesOp(b, x))
  {
    if DefinesOp(a, x) {
      var i :| 0 <= i < |a| && a[i].id == x;
      assert b[i].id == x;
    }
    if DefinesOp(b, x) {
      var i :| 0 <= i < |b| && b[i].id == x;
      assert a[i].id == x;
    }
    if MakesOp(a, x) {
      var i :| 0 <= i < |a| && a[i].op != VARIABLE && a[i].id == x;
      assert b[i].id == x;
    }
    if MakesOp(b, x) {
      var i :| 0 <= i < |b| && b[i].op != VARIABLE && b[i].id == x;
      assert a[i].id == x;
    }
  }

  lemma MakesConcat(a: seq<Op>, b: seq<Op>, x: Id)
    ensures MakesOp(a + b, x) <==> MakesOp(a, x) || MakesOp(b, x)
    ensures DefinesOp(a + b, x) <==> DefinesOp(a, x) || DefinesOp(b, x)
  {
    forall i | 0 <= i < |a| ensures (a + b)[i] == a[i] {}
    forall i | 0 <= i < |b| ensures (a + b)[|a| + i] == b[i] {}
    if DefinesOp(b, x) {
      var i :| 0 <= i < |b| && b[i].id == x;
      assert (a + b)[|a| + i].id == x;
    }
    if MakesOp(b, x) {
      var i :| 0 <= i < |b| && b[i].op != VARIABLE && b[i].id == x;
      assert (a + b)[|a| + i].id == x && (a + b)[|a| + i].op != VARIABLE;
    }
    if DefinesOp(a, x) {
      var i :| 0 <= i < |a| && a[i].id == x;
      assert (a + b)[i].id == x;
    }
    if MakesOp(a, x) {
      var i :| 0 <= i < |a| && a[i].op != VARIABLE && a[i].id == x;
      assert (a + b)[i].id == x && (a + b)[i].op != VARIABLE;
    }
    if MakesOp(a + b, x) {
      var i :| 0 <= i < |a + b| && (a + b)[i].op != VARIABLE && (a + b)[i].id == x;
      assert (a + b)[i] == if i < |a| then a[i] else b[i - |a|];
    }
    if DefinesOp(a + b, x) {
      var i :| 0 <= i < |a + b| && (a + b)[i].id == x;
      assert (a + b)[i] == if i < |a| then a[i] else b[i - |a|];
    }
  }

  lemma MakesOne(op: Op, x: Id)
    ensures MakesOp([op], x) <==> x != 0 && op.id == x && op.op != VARIABLE
    ensures DefinesOp([op], x) <==> x != 0 && op.id == x
  {
    assert [op][0] == op;
  }

  /** What a block makes after one demotion. */
  lemma MakesAfter(was: IRBlock, b: Node, d: Demotion, x: Id)
    ensures Makes(DemotedBlock(was, b, d), x) <==>
              Makes(was, x) || (b != d.origin && b in d.loads && x == d.loads[b] && x != 0)
    ensures Defines(DemotedBlock(was, b, d), x) <==>
              Defines(was, x) || (b != d.origin && b in d.loads && x == d.loads[b] && x != 0)
    ensures DefinesPhi(DemotedBlock(was, b, d), x) <==> DefinesPhi(was, x)
  {
    hide MakesOp, DefinesOp;
    if b == d.origin {
      var store := Op(STORE, 0, [IdArgument(d.variable), IdArgument(d.id)]);
      MakesConcat(was.operations, [store], x);
      MakesOne(store, x);
    } else if b in d.loads {
      var load := Op(LOAD, d.loads[b], [IdArgument(d.variable)]);
      MakesConcat([load], OpsUsing(was.operations, d.id, d.loads[b]), x);
      MakesOne(load, x);
      SameMakers(OpsUsing(was.operations, d.id, d.loads[b]), was.operations, x);
    }
  }

  lemma TargetsAfter(was: IRBlock, b: Node, d: Demotion)
    ensures Targets(DemotedBlock(was, b, d).terminator) == Targets(was.terminator)
    ensures DemotedBlock(was, b, d).phi == was.phi
  {}

  // ---------------------------------------------------------------- progress

  ghost predicate AllIdsBelow(p: seq<IRBlock>, live: set<Node>, bound: Id)
    requires LiveSet(p, live)
  {
    forall b: Node :: b in live ==> BlockIdsBelow(p[b], bound)
  }

  /** The blocks still make what they made. */
  ghost predicate SameMade(p: seq<IRBlock>, q: seq<IRBlock>, live: set<Node>, bound: Id)
    requires LiveSet(p, live) && LiveSet(q, live)
  {
    forall b: Node, x: Id :: b in live && x < bound ==>
      (Makes(q[b], x) <==> Makes(p[b], x)) && (Defines(q[b], x) <==> Defines(p[b], x))
  }

  /** Values from `i` on are read where they were. */
  ghost predicate SameRead(p: seq<IRBlock>, q: seq<IRBlock>, live: set<Node>, i: Id, bound: Id)
    requires LiveSet(p, live) && LiveSet(q, live)
  {
    forall b: Node, x: Id :: b in live && i <= x < bound && x != 0 ==> (Reads(q[b], x) <==> Reads(p[b], x))
  }

  /** Values below `i` are read only where their makers dominate. */
  ghost predicate MendedBelow(q: seq<IRBlock>, live: set<Node>, origin: map<Id, Node>, dominates: (Node, Node) -> bool,
                              i: Id)
    requires LiveSet(q, live)
  {
    forall b: Node, x: Id :: b in live && 0 < x < i && Reads(q[b], x) ==> !Broken(origin, dominates, x, b)
  }

  /** What was loaded from a variable is read only in the block that loaded it. */
  ghost predicate LoadsLocal(q: seq<IRBlock>, live: set<Node>, bound: Id)
    requires LiveSet(q, live)
  {
    forall b: Node, d: Node, x: Id :: b in live && d in live && x >= bound && Makes(q[d], x) && Reads(q[b], x) ==>
      b == d
  }

  /** The ids of the loads follow the variable's. */
  ghost predicate LoadsNumbered(d: Demotion, consumers: seq<Node>) {
    && Distinct(consumers) && (forall b: Node :: b in d.loads <==> b in consumers)
    && forall j :: 0 <= j < |consumers| ==> consumers[j] in d.loads && d.loads[consumers[j]] == d.variable + 1 + j
  }

  lemma LoadsNumberedFacts(d: Demotion, consumers: seq<Node>)
    requires LoadsNumbered(d, consumers)
    ensures FreshIds(d, d.variable)
    ensures forall b: Node :: b in d.loads ==> d.variable < d.loads[b] <= d.variable + |consumers|
    ensures forall b: Node, c: Node :: b in d.loads && c in d.loads && d.loads[b] == d.loads[c] ==> b == c
  {
    forall b: Node | b in d.loads ensures exists j :: 0 <= j < |consumers| && consumers[j] == b {}
  }

  lemma LiveAfter(q: seq<IRBlock>, live: set<Node>, d: Demotion)
    requires LiveSet(q, live)
    ensures LiveSet(DemotedBlocks(q, d), live)
  {
    var q' := DemotedBlocks(q, d);
    forall b: Node, t: Node | b in live ensures b < |q'| && (t in Targets(q'[b].terminator) ==> t in live) {
      TargetsAfter(q[b], b, d);
    }
  }

  lemma BelowAfter(q: seq<IRBlock>, live: set<Node>, d: Demotion, consumers: seq<Node>)
    requires LiveSet(q, live) && AllIdsBelow(q, live, d.variable) && 0 < d.id < d.variable && d.origin !in d.loads
             && LoadsNumbered(d, consumers)
    ensures LiveSet(DemotedBlocks(q, d), live) && AllIdsBelow(DemotedBlocks(q, d), live, d.variable + 1 + |consumers|)
  {
    hide Defines, LoadsNumbered, UsesId;
    LiveAfter(q, live, d);
    LoadsNumberedFacts(d, consumers);
    forall b: Node | b in live ensures BlockIdsBelow(DemotedBlock(q[b], b, d), d.variable + 1 + |consumers|) {
      assert BlockIdsBelow(q[b], d.variable);
      BlockBelowAfter(q[b], b, d, d.variable + 1 + |consumers|);
    }
  }

  lemma BlockBelowAfter(was: IRBlock, b: Node, d: Demotion, bound: Id)
    requires BlockIdsBelow(was, d.variable) && 0 < d.id < d.variable < bound && d.origin !in d.loads
             && (b in d.loads ==> d.loads[b] < bound)
    ensures BlockIdsBelow(DemotedBlock(was, b, d), bound)
  {
    hide Defines, Makes, DemotedBlock;
    var is' := DemotedBlock(was, b, d);
    ReadsBelow(was, d.variable);
    forall x: Id | Defines(is', x) ensures x < bound {
      MakesAfter(was, b, d, x);
    }
    forall x: Id | x != 0 && Reads(is', x) ensures x < bound {
      ReadsAfter(was, b, d, x);
    }
    TargetsAfter(was, b, d);
    ReadsAreBelow(is', bound);
  }

  lemma ReadsBelow(was: IRBlock, bound: Id)
    requires BlockIdsBelow(was, bound)
    ensures forall x: Id :: Reads(was, x) ==> x < bound
  {}

  lemma ReadsAreBelow(b: IRBlock, bound: Id)
    requires (forall x: Id :: x != 0 && Reads(b, x) ==> x < bound) && bound > 0
    ensures forall i, id: Id :: 0 <= i < |b.operations| && UsesId(b.operations[i], id) ==> id < bound
    ensures TerminatorUse(b.terminator) < bound
  {
    assert Reads(b, TerminatorUse(b.terminator));
    forall i, id: Id | 0 <= i < |b.operations| && UsesId(b.operations[i], id) ensures id < bound {
      assert ReadsOp(b.operations, id);
      assert Reads(b, id);
    }
  }

  lemma OneDefinitionAfter(q: seq<IRBlock>, live: set<Node>, d: Demotion, consumers: seq<Node>)
    requires LiveSet(q, live) && OneDefinition(q, live) && AllIdsBelow(q, live, d.variable)
             && LoadsNumbered(d, consumers)
    ensures LiveSet(DemotedBlocks(q, d), live) && OneDefinition(DemotedBlocks(q, d), live)
  {
    hide Defines, DefinesPhi, DemotedBlock, LoadsNumbered;
    LiveAfter(q, live, d);
    LoadsNumberedFacts(d, consumers);
    var q' := DemotedBlocks(q, d);
    forall b: Node, c: Node, x: Id | b in live && c in live && Defines(q'[b], x) && Defines(q'[c], x) ensures b == c {
      MakesAfter(q[b], b, d, x);
      MakesAfter(q[c], c, d, x);
      assert BlockIdsBelow(q[b], d.variable) && BlockIdsBelow(q[c], d.variable);
    }
    forall b: Node | b in live ensures !DefinesPhi(q'[b], 0) {
      MakesAfter(q[b], b, d, 0);
    }
  }

  lemma SameMadeAfter(p: seq<IRBlock>, q: seq<IRBlock>, live: set<Node>, d: Demotion, consumers: seq<Node>, bound: Id)
    requires LiveSet(p, live) && LiveSet(q, live) && SameMade(p, q, live, bound) && LoadsNumbered(d, consumers)
             && bound <= d.variable
    ensures LiveSet(DemotedBlocks(q, d), live) && SameMade(p, DemotedBlocks(q, d), live, bound)
  {
    hide Defines, Makes, DemotedBlock, LoadsNumbered, LiveSet;
    LiveAfter(q, live, d);
    LoadsNumberedFacts(d, consumers);
    AboutLiveSet(p, live);
    AboutLiveSet(q, live);
    var q' := DemotedBlocks(q, d);
    forall b: Node, x: Id | b in live && x < bound ensures (Makes(q'[b], x) <==> Makes(p[b], x))
        && (Defines(q'[b], x) <==> Defines(p[b], x)) {
      MakesAfter(q[b], b, d, x);
    }
  }

  lemma AboutLiveSet(q: seq<IRBlock>, live: set<Node>)
    requires LiveSet(q, live)
    ensures forall b: Node :: b in live ==> b < |q|
  {}

  /** The blocks that load are those where the value was read without being dominated. */
  ghost predicate LoadsWhereBroken(q: seq<IRBlock>, live: set<Node>, origin: map<Id, Node>,
                                   dominates: (Node, Node) -> bool, d: Demotion)
    requires LiveSet(q, live)
  {
    && d.id in origin && d.origin == origin[d.id] && d.origin in live
    && forall b: Node :: b in d.loads <==> b in live && Reads(q[b], d.id) && Broken(origin, dominates, d.id, b)
  }

  lemma SameReadAfter(p: seq<IRBlock>, q: seq<IRBlock>, live: set<Node>, d: Demotion, consumers: seq<Node>, bound: Id)
    requires LiveSet(p, live) && LiveSet(q, live) && SameRead(p, q, live, d.id, bound) && LoadsNumbered(d, consumers)
             && bound <= d.variable
    requires d.id != 0 && d.origin !in d.loads
    ensures LiveSet(DemotedBlocks(q, d), live) && SameRead(p, DemotedBlocks(q, d), live, d.id + 1, bound)
  {
    hide Reads, DemotedBlock, LoadsNumbered, LiveSet;
    LiveAfter(q, live, d);
    LoadsNumberedFacts(d, consumers);
    AboutLiveSet(p, live);
    AboutLiveSet(q, live);
    var q' := DemotedBlocks(q, d);
    forall b: Node, x: Id | b in live && d.id + 1 <= x < bound && x != 0 ensures Reads(q'[b], x) <==> Reads(p[b], x) {
      ReadsAfter(q[b], b, d, x);
    }
  }

  lemma MendedAfter(q: seq<IRBlock>, live: set<Node>, origin: map<Id, Node>, dominates: (Node, Node) -> bool,
                    d: Demotion, consumers: seq<Node>)
    requires LiveSet(q, live) && MendedBelow(q, live, origin, dominates, d.id)
             && LoadsWhereBroken(q, live, origin, dominates, d)
    requires LoadsNumbered(d, consumers) && 0 < d.id < d.variable && d.origin !in d.loads
             && dominates(d.origin, d.origin)
    ensures LiveSet(DemotedBlocks(q, d), live) && MendedBelow(DemotedBlocks(q, d), live, origin, dominates, d.id + 1)
  {
    hide Reads, DemotedBlock, LoadsNumbered, LiveSet;
    LiveAfter(q, live, d);
    LoadsNumberedFacts(d, consumers);
    AboutLiveSet(q, live);
    var q' := DemotedBlocks(q, d);
    forall b: Node, x: Id | b in live && 0 < x < d.id + 1 && Reads(q'[b], x) ensures !Broken(origin, dominates, x, b) {
      ReadsAfter(q[b], b, d, x);
    }
  }

  lemma LoadsLocalAfter(q: seq<IRBlock>, live: set<Node>, d: Demotion, consumers: seq<Node>, bound: Id)
    requires LiveSet(q, live) && LoadsLocal(q, live, bound) && AllIdsBelow(q, live, d.variable)
             && LoadsNumbered(d, consumers)
    requires 0 < d.id < bound <= d.variable && d.origin !in d.loads
    ensures LiveSet(DemotedBlocks(q, d), live) && LoadsLocal(DemotedBlocks(q, d), live, bound)
  {
    hide Reads, Makes, DemotedBlock, LoadsNumbered, LiveSet, BlockIdsBelow;
    LiveAfter(q, live, d);
    LoadsNumberedFacts(d, consumers);
    AboutLiveSet(q, live);
    var q' := DemotedBlocks(q, d);
    forall b: Node, c: Node, x: Id | b in live && c in live && x >= bound && Makes(q'[c], x)
        && Reads(q'[b], x) ensures b == c {
      ReadsAfter(q[b], b, d, x);
      MakesAfter(q[c], c, d, x);
      BelowFacts(q[b], d.variable, x);
      BelowFacts(q[c], d.variable, x);
    }
  }

  lemma BelowFacts(b: IRBlock, bound: Id, x: Id)
    requires BlockIdsBelow(b, bound)
    ensures Reads(b, x) || Makes(b, x) ==> x < bound
  {
    if MakesOp(b.operations, x) {
      assert Defines(b, x);
    }
  }

  /** Everything that holds once the values below `i` have been dealt with. */
  ghost predicate Repaired(p: seq<IRBlock>, q: seq<IRBlock>, live: set<Node>, origin: map<Id, Node>,
                           dominates: (Node, Node) -> bool, i: Id, bound: Id, next: Id)
    requires LiveSet(p, live)
  {
    && LiveSet(q, live) && OneDefinition(q, live) && AllIdsBelow(q, live, next) && bound <= next
    && SameMade(p, q, live, bound) && SameRead(p, q, live, i, bound) && MendedBelow(q, live, origin, dominates, i)
    && LoadsLocal(q, live, bound)
  }

  lemma RepairedAfter(p: seq<IRBlock>, q: seq<IRBlock>, live: set<Node>, origin: map<Id, Node>,
                      dominates: (Node, Node) -> bool, d: Demotion, consumers: seq<Node>, bound: Id)
    requires LiveSet(p, live) && Repaired(p, q, live, origin, dominates, d.id, bound, d.variable)
    requires LoadsWhereBroken(q, live, origin, dominates, d) && LoadsNumbered(d, consumers) && 0 < d.id < bound
    requires d.origin !in d.loads && dominates(d.origin, d.origin)
    ensures Repaired(p, DemotedBlocks(q, d), live, origin, dominates, d.id + 1, bound, d.variable + 1 + |consumers|)
  {
    hide OneDefinition, AllIdsBelow, SameMade, SameRead, MendedBelow, LoadsLocal, LiveSet, LoadsWhereBroken,
        LoadsNumbered;
    BelowAfter(q, live, d, consumers);
    OneDefinitionAfter(q, live, d, consumers);
    SameMadeAfter(p, q, live, d, consumers, bound);
    SameReadAfter(p, q, live, d, consumers, bound);
    MendedAfter(q, live, origin, dominates, d, consumers);
    LoadsLocalAfter(q, live, d, consumers, bound);
  }

  /** A value without broken uses needs nothing. */
  lemma RepairedSkip(p: seq<IRBlock>, q: seq<IRBlock>, live: set<Node>, origin: map<Id, Node>,
                     dominates: (Node, Node) -> bool, i: Id, bound: Id, next: Id)
    requires LiveSet(p, live) && Repaired(p, q, live, origin, dominates, i, bound, next) && i < bound
    requires forall b: Node :: b in live && Reads(p[b], i) && i != 0 ==> !Broken(origin, dominates, i, b)
    ensures Repaired(p, q, live, origin, dominates, i + 1, bound, next)
  {
    hide Reads, OneDefinition, AllIdsBelow, SameMade, LoadsLocal, LiveSet, Broken;
  }

  lemma RepairedStart(p: seq<IRBlock>, live: set<Node>, origin: map<Id, Node>, dominates: (Node, Node) -> bool,
                      bound: Id)
    requires LiveSet(p, live) && OneDefinition(p, live) && AllIdsBelow(p, live, bound)
    ensures Repaired(p, p, live, origin, dominates, 0, bound, bound)
  {
    hide Reads, Makes, OneDefinition, LiveSet, Broken, BlockIdsBelow;
    AboutLiveSet(p, live);
    forall b: Node, x: Id | b in live && Reads(p[b], x) ensures x < bound {
      BelowFacts(p[b], bound, x);
    }
  }

  /** In the end every value is read only where its maker dominates. */
  lemma RepairedEnd(p: seq<IRBlock>, q: seq<IRBlock>, live: set<Node>, origin: map<Id, Node>,
                    dominates: (Node, Node) -> bool, bound: Id, next: Id)
    requires LiveSet(p, live) && OneDefinition(p, live) && OriginsOf(p, live, origin)
             && Repaired(p, q, live, origin, dominates, bound, bound, next)
    requires forall b: Node :: dominates(b, b)
    ensures forall b: Node, d: Node, x: Id :: b in live && d in live && Makes(q[d], x) && Reads(q[b], x) ==>
              dominates(d, b)
  {
    hide Reads, AllIdsBelow, LiveSet, SameRead;
    AboutLiveSet(p, live);
    AboutLiveSet(q, live);
    forall b: Node, d: Node, x: Id | b in live && d in live && Makes(q[d], x)
        && Reads(q[b], x) ensures dominates(d, b) {
      MakesDefines(q[d], x);
      if x < bound {
        assert Makes(p[d], x) && x in origin && Makes(p[origin[x]], x);
        MakesDefines(p[d], x);
        MakesDefines(p[origin[x]], x);
        assert origin[x] == d && x != 0;
      }
    }
  }

  lemma MakesDefines(b: IRBlock, x: Id)
    requires Makes(b, x)
    ensures Defines(b, x)
  {}

  // ---------------------------------------------------------------- the pass

  lemma StoreFirst(was: seq<IRBlock>, id: Id, o: Node, v: Id)
    requires o < |was|
    ensures DemotedBlocks(was, Demotion(id, o, v, map[])) == was[o := Storing(was[o], id, v)]
  {}

  lemma LoadNext(was: seq<IRBlock>, d: Demotion, c: Node, loaded: Id)
    requires c < |was| && c !in d.loads && c != d.origin
    ensures DemotedBlocks(was, d)[c] == was[c]
    ensures DemotedBlocks(was, d.(loads := d.loads[c := loaded])) == DemotedBlocks(was,
            d)[c := Loading(was[c], d.id, d.variable, loaded)]
  {}

  /** Keeps one value in a new variable: its maker stores it last, and each consumer loads it first under a
      name of its own. */
  method DemoteValue(g: Blocks, id: Id, o: Node, consumers: seq<Node>) returns (ghost d: Demotion)
    requires g.Valid() && o < |g.blocks| && Distinct(consumers) && o !in consumers
             && forall n: Node :: n in consumers ==> n < |g.blocks|
    modifies g`blocks, g`nextId
    ensures g.Valid() && d.id == id && d.origin == o && d.variable == old(g.nextId) && LoadsNumbered(d, consumers)
    ensures g.blocks == DemotedBlocks(old(g.blocks), d) && g.nextId == old(g.nextId) + 1 + |consumers|
  {
    hide DemotedBlocks, Distinct;
    ghost var was := g.blocks;
    var variable := g.nextId;
    g.nextId := g.nextId + 1;
    var maker := g.blocks[o];
    g.blocks := g.blocks[o :=
                         maker.(operations := maker.operations + [Op(STORE, 0,
                                                                     [IdArgument(variable), IdArgument(id)])])];
    d := Demotion(id, o, variable, map[]);
    StoreFirst(was, id, o, variable);
    for k := 0 to |consumers|
      invariant g.Valid() && |g.blocks| == |was| && g.nextId == variable + 1 + k
      invariant d.id == id && d.origin == o && d.variable == variable
      invariant forall b: Node :: b in d.loads <==> b in consumers[..k]
      invariant forall j :: 0 <= j < k ==> consumers[j] in d.loads && d.loads[consumers[j]] == variable + 1 + j
      invariant g.blocks == DemotedBlocks(was, d)
    {
      var c := consumers[k];
      var loaded := g.nextId;
      g.nextId := g.nextId + 1;
      DistinctNext(consumers, k);
      assert c in consumers;
      LoadNext(was, d, c, loaded);
      var b := RewriteConsumedIds(g.blocks[c], id, loaded);
      g.blocks := g.blocks[c := b.(operations := [Op(LOAD, loaded, [IdArgument(variable)])] + b.operations)];
      d := d.(loads := d.loads[c := loaded]);
    }
  }

  /** Every value demoted was read where its maker did not dominate, and is loaded in just those blocks. */
  ghost predicate OnlyBroken(p: seq<IRBlock>, live: set<Node>, dominates: (Node, Node) -> bool, steps: seq<Demotion>)
    requires LiveSet(p, live)
  {
    forall k :: 0 <= k < |steps| ==>
      && steps[k].loads != map[] && steps[k].origin in live && Makes(p[steps[k].origin], steps[k].id)
      && forall b: Node :: b in steps[k].loads <==>
        b in live && Reads(p[b], steps[k].id) && !dominates(steps[k].origin, b)
  }

  /** Adding the next demotion to those done. */
  lemma NextStep(p: seq<IRBlock>, q: seq<IRBlock>, live: set<Node>, origin: map<Id, Node>,
                 dominates: (Node, Node) -> bool, before: seq<Demotion>, d: Demotion, consumers: seq<Node>, bound: Id)
    requires LiveSet(p, live) && AllDemotable(p, live, before, bound) && q == After(p, before)
             && OriginsOf(p, live, origin)
    requires Repaired(p, q, live, origin, dominates, d.id, bound, d.variable)
             && (forall x: Id :: x in Variables(before) ==> bound <= x < d.variable)
    requires LoadsWhereBroken(q, live, origin, dominates, d) && LoadsNumbered(d, consumers) && 0 < d.id < bound
             && d.origin !in d.loads
    ensures AllDemotable(p, live, before + [d], bound) && After(p, before + [d]) == DemotedBlocks(q, d)
    ensures Variables(before + [d]) == Variables(before) + {d.variable}
  {
    hide Makes, Defines, Reads, AllIdsBelow, SameMade, SameRead, MendedBelow, LoadsLocal, OneDefinition, LoadsNumbered,
        DemotedBlocks, Demotable;
    var steps := before + [d];
    assert steps[..|steps| - 1] == before && steps[|steps| - 1] == d;
    LoadsNumberedFacts(d, consumers);
    MakesDefines(p[d.origin], d.id);
    NowDemotable(p, q, live, Variables(before), d, bound);
  }

  lemma NowDemotable(p: seq<IRBlock>, q: seq<IRBlock>, live: set<Node>, vars: set<Id>, d: Demotion, bound: Id)
    requires LiveSet(p, live) && LiveSet(q, live) && OneDefinition(q, live) && AllIdsBelow(q, live, d.variable)
             && SameMade(p, q, live, bound)
    requires d.origin in live && Defines(p[d.origin], d.id) && 0 < d.id < bound <= d.variable
             && forall x: Id :: x in vars ==> bound <= x < d.variable
    ensures Demotable(q, live, vars, d.id, d.origin, d.variable)
  {
    hide Makes, Defines, BlockIdsBelow;
    assert Defines(q[d.origin], d.id);
  }

  /** The source block of a value does not load it, and the value is broken in the same blocks as at first. */
  lemma ConsumersNow(p: seq<IRBlock>, q: seq<IRBlock>, live: set<Node>, origin: map<Id, Node>,
                     dominates: (Node, Node) -> bool, consumers: map<Id, seq<Node>>, i: Id, bound: Id, next: Id,
                     b: Node)
    requires LiveSet(p, live) && ConsumersOf(p, live, origin, dominates, consumers)
             && Repaired(p, q, live, origin, dominates, i, bound, next) && 0 < i < bound
    ensures In(consumers, i, b) <==> b in live && Reads(q[b], i) && Broken(origin, dominates, i, b)
  {
    hide Reads, Broken, AllIdsBelow, SameMade, LoadsLocal, OneDefinition;
  }

  lemma NoOriginOfNone(p: seq<IRBlock>, live: set<Node>, origin: map<Id, Node>)
    requires LiveSet(p, live) && OriginsOf(p, live, origin) && OneDefinition(p, live)
    ensures 0 !in origin
  {}

  lemma StartOfSteps(p: seq<IRBlock>, live: set<Node>, dominates: (Node, Node) -> bool, bound: Id)
    requires LiveSet(p, live)
    ensures After(p, []) == p && AllDemotable(p, live, [], bound) && OnlyBroken(p, live, dominates, [])
  {}

  lemma NotBroken(p: seq<IRBlock>, live: set<Node>, origin: map<Id, Node>, dominates: (Node, Node) -> bool,
                  consumers: map<Id, seq<Node>>, i: Id)
    requires LiveSet(p, live) && ConsumersOf(p, live, origin, dominates, consumers)
             && (i in consumers ==> consumers[i] == [])
    ensures forall b: Node :: b in live && Reads(p[b], i) && i != 0 ==> !Broken(origin, dominates, i, b)
  {
    hide Reads, Broken;
    assert forall b: Node :: !In(consumers, i, b);
  }

  lemma AboutRepaired(p: seq<IRBlock>, q: seq<IRBlock>, live: set<Node>, origin: map<Id, Node>,
                      dominates: (Node, Node) -> bool, i: Id, bound: Id, next: Id)
    requires LiveSet(p, live) && Repaired(p, q, live, origin, dominates, i, bound, next)
    ensures LiveSet(q, live) && OneDefinition(q, live) && AllIdsBelow(q, live, next)
  {}

  /** What the list of a broken value says. */
  lemma ListFacts(p: seq<IRBlock>, live: set<Node>, order: seq<Node>, origin: map<Id, Node>,
                  dominates: (Node, Node) -> bool, consumers: map<Id, seq<Node>>, i: Id)
    requires LiveSet(p, live) && VisitOrder(order, live) && ConsumersOf(p, live, origin, dominates, consumers)
             && OriginsOf(p, live, origin)
    requires i in consumers && consumers[i] != [] && forall b: Node :: dominates(b, b)
    ensures Distinct(order) && forall n: Node :: n in consumers[i] ==> n in order && n in live && n < |p|
    ensures i in origin && origin[i] in live && origin[i] < |p| && Makes(p[origin[i]], i) && origin[i] !in consumers[i]
  {
    hide Reads, Makes;
    forall n: Node | n in consumers[i] ensures n in live && n in order && i in origin && n != origin[i] {
      assert In(consumers, i, n);
    }
    assert consumers[i][0] in consumers[i];
  }

  /** The new demotion is exactly where the value is broken, now as at first. */
  lemma BrokenNow(p: seq<IRBlock>, q: seq<IRBlock>, live: set<Node>, origin: map<Id, Node>,
                  dominates: (Node, Node) -> bool, consumers: map<Id, seq<Node>>, steps: seq<Demotion>, d: Demotion,
                  sorted: seq<Node>, bound: Id)
    requires LiveSet(p, live) && Repaired(p, q, live, origin, dominates, d.id, bound, d.variable)
             && ConsumersOf(p, live, origin, dominates, consumers)
    requires 0 < d.id < bound && d.id in origin && d.origin == origin[d.id] && d.origin in live && d.id in consumers
             && consumers[d.id] != []
    requires Makes(p[d.origin], d.id) && OnlyBroken(p, live, dominates, steps)
    requires LoadsNumbered(d, sorted) && forall n: Node :: n in sorted <==> n in consumers[d.id]
    ensures LiveSet(q, live) && LoadsWhereBroken(q, live, origin, dominates, d)
            && OnlyBroken(p, live, dominates, steps + [d])
  {
    hide Reads, Makes, Repaired, ConsumersOf;
    AboutRepaired(p, q, live, origin, dominates, d.id, bound, d.variable);
    forall b: Node
      ensures b in d.loads <==> b in live && Reads(q[b], d.id) && Broken(origin, dominates, d.id, b)
      ensures b in d.loads <==> b in live && Reads(p[b], d.id) && Broken(origin, dominates, d.id, b)
    {
      ConsumersNow(p, q, live, origin, dominates, consumers, d.id, bound, d.variable, b);
      ConsumersThen(p, live, origin, dominates, consumers, d.id, b);
    }
    assert consumers[d.id][0] in d.loads;
  }

  lemma ConsumersThen(p: seq<IRBlock>, live: set<Node>, origin: map<Id, Node>, dominates: (Node, Node) -> bool,
                      consumers: map<Id, seq<Node>>, i: Id, b: Node)
    requires LiveSet(p, live) && ConsumersOf(p, live, origin, dominates, consumers)
    ensures In(consumers, i, b) <==> b in live && Reads(p[b], i) && Broken(origin, dominates, i, b)
  {}

  /** One value with broken uses. */
  method RepairValue(g: Blocks, ghost p: seq<IRBlock>, ghost live: set<Node>, order: seq<Node>, origin: map<Id, Node>,
                     ghost dominates: (Node, Node) -> bool, consumers: map<Id, seq<Node>>, ghost steps: seq<Demotion>,
                     id: Id, ghost bound: Id)
    returns (ghost d: Demotion)
    requires LiveSet(p, live) && VisitOrder(order, live) && ConsumersOf(p, live, origin, dominates, consumers)
             && OriginsOf(p, live, origin)
    requires OneDefinition(p, live) && (forall b: Node :: dominates(b, b)) && id < bound && id in consumers
             && consumers[id] != []
    requires g.Valid() && g.blocks == After(p, steps) && AllDemotable(p, live, steps, bound)
    requires Repaired(p, g.blocks, live, origin, dominates, id, bound, g.nextId)
    requires (forall x: Id :: x in Variables(steps) ==> bound <= x < g.nextId) && OnlyBroken(p, live, dominates, steps)
    modifies g`blocks, g`nextId
    ensures g.Valid() && g.blocks == After(p, steps + [d]) && AllDemotable(p, live, steps + [d], bound)
    ensures Repaired(p, g.blocks, live, origin, dominates, id + 1, bound, g.nextId)
    ensures (forall x: Id :: x in Variables(steps + [d]) ==> bound <= x < g.nextId)
            && OnlyBroken(p, live, dominates, steps + [d])
  {
    hide Makes, Defines, Reads, AllIdsBelow, SameMade, SameRead, MendedBelow, LoadsLocal, OneDefinition, DemotedBlocks,
        Demotable, LiveSet;
    hide OriginsOf, Repaired, After, AllDemotable, LoadsWhereBroken, ConsumersOf, In, VisitOrder, OnlyBroken, Distinct,
        Variables;
    ListFacts(p, live, order, origin, dominates, consumers, id);
    NoOriginOfNone(p, live, origin);
    var sorted := ConsumersInOrder(consumers[id], order);
    ghost var q := g.blocks;
    d := DemoteValue(g, id, origin[id], sorted);
    AboutRepaired(p, q, live, origin, dominates, id, bound, d.variable);
    BrokenNow(p, q, live, origin, dominates, consumers, steps, d, sorted, bound);
    NextId(p, q, live, origin, dominates, id, bound, d.variable);
    NextStep(p, q, live, origin, dominates, steps, d, sorted, bound);
    RepairedAfter(p, q, live, origin, dominates, d, sorted, bound);
  }

  lemma NextId(p: seq<IRBlock>, q: seq<IRBlock>, live: set<Node>, origin: map<Id, Node>,
               dominates: (Node, Node) -> bool, i: Id, bound: Id, next: Id)
    requires LiveSet(p, live) && Repaired(p, q, live, origin, dominates, i, bound, next)
    ensures bound <= next
  {}

  /** OpSampledImage. */
  const SAMPLED_IMAGE: nat := 86

  /** `recreated` says which operations make pointers, opaque objects or sampled images: values that cannot be kept in
      a variable, and are made again where they are needed. None of them is needed where it is not at hand. */
  ghost predicate NothingToRecreate(p: seq<IRBlock>, live: set<Node>, dominates: (Node, Node) -> bool,
                                    recreated: Op -> bool)
    requires LiveSet(p, live)
  {
    forall b: Node, d: Node, i :: b in live && d in live && 0 <= i < |p[d].operations| && recreated(p[d].operations[i])
                                  && p[d].operations[i].id != 0 && Reads(p[b], p[d].operations[i].id) ==>
      b == d || (dominates(d, b) && p[d].operations[i].op != SAMPLED_IMAGE)
  }

  /** `fixup_broken_value_dominance` for values that can be kept in a variable. */
  method FixupBrokenValueDominance(g: Blocks, order: seq<Node>, dominates: (Node, Node) -> bool, ghost live: set<Node>,
                                   ghost recreated: Op -> bool)
    returns (ghost steps: seq<Demotion>)
    requires g.Valid() && LiveSet(g.blocks, live) && VisitOrder(order, live)
             && NothingToRecreate(g.blocks, live, dominates, recreated)
    requires OneDefinition(g.blocks, live) && AllIdsBelow(g.blocks, live, g.nextId)
    requires forall b: Node :: dominates(b, b)
    modifies g`blocks, g`nextId
    ensures g.Valid() && g.blocks == After(old(g.blocks), steps)
            && AllDemotable(old(g.blocks), live, steps, old(g.nextId))
    ensures OnlyBroken(old(g.blocks), live, dominates, steps)
    ensures LiveSet(g.blocks, live) && OneDefinition(g.blocks, live) && AllIdsBelow(g.blocks, live, g.nextId)
    ensures forall b: Node, d: Node, x: Id ::
              b in live && d in live && Makes(g.blocks[d], x) && Reads(g.blocks[b], x) ==>
                dominates(d, b)
  {
    hide Makes, Defines, Reads, AllIdsBelow, SameMade, SameRead, MendedBelow, LoadsLocal, OneDefinition, LoadsNumbered,
        DemotedBlocks, Demotable, LiveSet;
    hide OriginsOf, Repaired, After, AllDemotable, LoadsWhereBroken, ConsumersOf, In, VisitOrder, OnlyBroken;
    ghost var p := g.blocks;
    var bound := g.nextId;
    var origin := ScanOrigins(g.blocks, order, live);
    NoOriginOfNone(p, live, origin);
    var consumers := ScanConsumers(g.blocks, order, live, origin, dominates);
    RepairedStart(p, live, origin, dominates, bound);
    steps := [];
    StartOfSteps(p, live, dominates, bound);
    var id := 0;
    while id < bound
      invariant 0 <= id <= bound && g.Valid()
      invariant g.blocks == After(p, steps) && AllDemotable(p, live, steps, bound)
      invariant Repaired(p, g.blocks, live, origin, dominates, id, bound, g.nextId)
      invariant forall x: Id :: x in Variables(steps) ==> bound <= x < g.nextId
      invariant OnlyBroken(p, live, dominates, steps)
    {
      if id in consumers && consumers[id] != [] {
        var d := RepairValue(g, p, live, order, origin, dominates, consumers, steps, id, bound);
        steps := steps + [d];
      } else {
        NotBroken(p, live, origin, dominates, consumers, id);
        RepairedSkip(p, g.blocks, live, origin, dominates, id, bound, g.nextId);
      }
      id := id + 1;
    }
    RepairedEnd(p, g.blocks, live, origin, dominates, bound, g.nextId);
    AboutRepaired(p, g.blocks, live, origin, dominates, bound, bound, g.nextId);
  }
}
