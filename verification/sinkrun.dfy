/** Sinking values into the one block that reads them: the pass itself. */
module SinkRun {
  import opened Wrappers
  import opened Graphs
  import opened Lists
  import opened IR
  import opened TailSplit
  import opened Sinking
  import opened SinkPass
  import opened SinkFlags
  import opened SinkBooks
  import SSA

  /** What the analyses say of a function, and its live blocks. */
  datatype Chart = Chart(pred: seq<seq<Node>>, predBack: seq<Option<Node>>, idom: seq<Node>, live: set<Node>,
                         entry: Node, order: seq<Node>)

  ghost predicate Fits(q: seq<IRBlock>, c: Chart) {
    Charted(q, c.pred, c.predBack, c.idom, c.live, c.entry, c.order)
  }

  // ---------------------------------------------------------------- what holds throughout the main walk

  /** The block on record is dominated by the value's definition. */
  ghost predicate ConsumedBelow(q: seq<IRBlock>, live: set<Node>, entry: Node, consumed: map<Id, Option<Node>>)
    requires LiveSet(q, live)
  {
    forall x: Id :: x in consumed && consumed[x].Some? ==>
      consumed[x].value in live && forall d: Node :: d in live && Defines(q[d], x) ==>
        Dominating(FlowOf(q), entry, d, consumed[x].value)
  }

  /** Flags are only on operations that may be moved. */
  ghost predicate MovableOps(q: seq<IRBlock>, live: set<Node>, flags: set<Id>, movable: nat -> bool)
    requires LiveSet(q, live)
  {
    forall b: Node, i ::
      b in live && 0 <= i < |q[b].operations| && q[b].operations[i].id != 0 && q[b].operations[i].id in flags ==>
        movable(q[b].operations[i].op)
  }

  ghost predicate Sound(q: seq<IRBlock>, c: Chart, consumed: map<Id, Option<Node>>, flags: set<Id>,
                        movable: nat -> bool) {
    && Fits(q, c) && SSA.WellFormed(q, c.live, c.entry)
    && ConsumedBelow(q, c.live, c.entry, consumed) && MovableOps(q, c.live, flags, movable)
    && PhiFree(q, c.live, consumed, flags) && 0 !in consumed
  }

  lemma AboutSound(q: seq<IRBlock>, c: Chart, consumed: map<Id, Option<Node>>, flags: set<Id>, movable: nat -> bool)
    requires Sound(q, c, consumed, flags, movable)
    ensures Fits(q, c) && SSA.WellFormed(q, c.live, c.entry) && 0 !in consumed && LiveSet(q, c.live)
    ensures forall b: Node :: b in c.live ==> b < |q|
  {}

  lemma AboutChart(q: seq<IRBlock>, c: Chart)
    requires Fits(q, c)
    ensures |c.pred| == |c.predBack| == |c.idom| == |q| && LiveSet(q, c.live) && c.entry in c.live && Distinct(c.order)
    ensures (forall b: Node :: b in c.live <==> b in c.order) && forall b: Node :: b in c.live ==> b < |q|
    ensures forall j :: 0 <= j < |c.order| ==> c.order[j] in c.live && c.order[j] < |q|
    ensures forall j, b: Node :: 0 <= j < |c.order| && b == c.order[j] ==> Index(c.order, b) == j
  {
    hide Dominating, Reach, ChartedAt, Targets;
    forall j | 0 <= j < |c.order| ensures c.order[j] in c.live && c.order[j] < |q| && Index(c.order, c.order[j]) == j {
      assert c.order[j] in c.order;
    }
  }

  /** With fewer flags, what holds still holds. */
  lemma FewerFlags(q: seq<IRBlock>, c: Chart, consumed: map<Id, Option<Node>>, flags: set<Id>, flags': set<Id>,
                   movable: nat -> bool)
    requires Sound(q, c, consumed, flags, movable) && flags' <= flags
    ensures Sound(q, c, consumed, flags', movable)
  {
    hide Charted, SSA.WellFormed, ConsumedBelow;
  }

  /** The record says that the value's definition dominates the block that reads it. */
  lemma OnRecord(q: seq<IRBlock>, c: Chart, consumed: map<Id, Option<Node>>, flags: set<Id>, movable: nat -> bool,
                 n: Node, i: nat)
    requires Sound(q, c, consumed, flags, movable)
    requires n in c.live && n < |q| && i < |q[n].operations| && q[n].operations[i].id != 0
    requires q[n].operations[i].id in consumed && consumed[q[n].operations[i].id].Some?
    ensures consumed[q[n].operations[i].id].value in c.live
    ensures Dominating(FlowOf(q), c.entry, n, consumed[q[n].operations[i].id].value)
  {
    hide Charted, SSA.WellFormed, Dominating;
    AboutSound(q, c, consumed, flags, movable);
    OpDefines(q[n], i);
  }

  /** Values read by operation `i` of `n`: their definitions dominate `n`, and all that `n` dominates. */
  lemma OperandsAbove(q: seq<IRBlock>, live: set<Node>, entry: Node, n: Node, i: nat, target: Node, x: Id, d: Node)
    requires SSA.WellFormed(q, live, entry) && n in live && d in live && i < |q[n].operations|
             && UsesId(q[n].operations[i], x) && Defines(q[d], x)
    requires Dominating(FlowOf(q), entry, n, target)
    ensures Dominating(FlowOf(q), entry, d, target)
  {
    hide Defines, Dominating, InOrder;
    FormDominates(q, live, entry);
    OpReads(q[n], i, x);
    DominatesThrough(FlowOf(q), entry, d, n, target);
  }

  /** After values have been noted as read in `target`, each of them made above it. */
  lemma SoundAfterNoting(q: seq<IRBlock>, c: Chart, movable: nat -> bool, target: Node, noted: Noted,
                         args: seq<Argument>, consumed: map<Id, Option<Node>>, sinkable: set<Id>, dependent: set<Id>,
                         consumed': map<Id, Option<Node>>, sinkable': set<Id>, dependent': set<Id>)
    requires Sound(q, c, consumed, sinkable + dependent, movable) && target in c.live
    requires Noting(noted, args, target, consumed, sinkable, dependent, consumed', sinkable', dependent')
    requires LiveSet(q, c.live) && forall x: Id, d: Node ::
               IdArgument(x) in args && d in c.live && Defines(q[d], x) ==> Dominating(FlowOf(q), c.entry, d, target)
    ensures Sound(q, c, consumed', sinkable' + dependent', movable)
  {
    hide Charted, SSA.WellFormed, Dominating, Defines, InPhi;
    forall x: Id | x in consumed' && consumed'[x].Some?
      ensures consumed'[x].value in c.live && forall d: Node :: d in c.live && Defines(q[d], x) ==>
                Dominating(FlowOf(q), c.entry, d, consumed'[x].value)
    {
      if consumed'[x] != consumed[x] {
        assert IdArgument(x) in args;
      }
    }
  }

  // ---------------------------------------------------------------- a move that the pass makes

  /** The other operations of the source leave the value and its operands alone. */
  lemma RestAlone(b: IRBlock, i: nat)
    requires InOrder(b) && i < |b.operations| && b.operations[i].id != 0
    ensures RestLeavesAlone(b.operations, i)
  {
    var ops, op := b.operations, b.operations[i];
    forall j | i <= j < |ops| && ops[j].id != 0 ensures !UsesId(op, ops[j].id) {
      OpDefines(b, j);
      NotMadeBefore(b, i, j);
    }
  }

  lemma NotMadeBefore(b: IRBlock, i: nat, j: nat)
    requires InOrder(b) && i <= j < |b.operations| && b.operations[j].id != 0
    ensures !DefinesOp(b.operations[..i], b.operations[j].id) && !DefinesPhi(b, b.operations[j].id)
  {
    forall k | 0 <= k < i ensures b.operations[..i][k].id != b.operations[j].id {
      assert b.operations[k].id == b.operations[..i][k].id;
    }
  }

  /** The blocks on the way make neither the value nor its operands. */
  lemma WayAlone(q: seq<IRBlock>, c: Chart, n: Node, i: nat, b: Node)
    requires Fits(q, c) && SSA.WellFormed(q, c.live, c.entry) && n in c.live && i < |q[n].operations|
    requires q[n].operations[i].id != 0 && b in c.live && Index(c.order, b) < Index(c.order, n)
    ensures b < |q| && LeavesAlone(q[b], q[n].operations[i])
  {
    hide Defines, Dominating, ChartedAt, Reach;
    var op := q[n].operations[i];
    OpDefines(q[n], i);
    FormDominates(q, c.live, c.entry);
    forall x: Id | UsesId(op, x) ensures !Defines(q[b], x) {
      OpReads(q[n], i, x);
    }
  }

  /** Whatever reads a value has been looked at before the value is. */
  lemma ReadIsNoted(q: seq<IRBlock>, c: Chart, k: nat, i: nat, b: Node)
    requires Fits(q, c) && SSA.WellFormed(q, c.live, c.entry) && k < |c.order| && c.order[k] in c.live
    requires i < |q[c.order[k]].operations| && q[c.order[k]].operations[i].id != 0 && b in c.live
             && Reads(q[b], q[c.order[k]].operations[i].id)
    ensures (b, q[c.order[k]].operations[i].id) in NotedBefore(q, c.order, k, i + 1)
  {
    hide Defines, Dominating, ChartedAt, Reach, InOrder;
    var n := c.order[k];
    var v := q[n].operations[i].id;
    AboutChart(q, c);
    OpDefines(q[n], i);
    FormDominates(q, c.live, c.entry);
    if b == n {
      ReadLater(q[n], i);
      assert (n, v) in PartReads(n, q[n], i + 1);
    } else {
      var j := Index(c.order, b);
      assert c.order[j] == b && j <= k && j != k;
      assert c.order[..k][j] == b;
      assert (b, v) in DoneReads(q, c.order[..k]);
    }
  }

  /** A block reads what it makes only after making it. */
  lemma ReadLater(b: IRBlock, i: nat)
    requires InOrder(b) && i < |b.operations| && b.operations[i].id != 0 && Reads(b, b.operations[i].id)
    ensures TerminatorUse(b.terminator) == b.operations[i].id || ReadsOp(b.operations[i + 1..], b.operations[i].id)
  {
    hide DefinesPhi;
    var ops, v := b.operations, b.operations[i].id;
    if ReadsOp(ops, v) {
      var j :| 0 <= j < |ops| && UsesId(ops[j], v);
      OpDefines(b, i);
      var m :| 0 <= m < |ops[..j]| && ops[..j][m].id == v;
      assert ops[m].id == v && m == i;
      assert ops[i + 1..][j - i - 1] == ops[j];
    }
  }

  /** What has been noted has been read. */
  lemma NotedIsRead(q: seq<IRBlock>, order: seq<Node>, k: nat, i: nat, b: Node, x: Id)
    requires k < |order| && (b, x) in NotedBefore(q, order, k, i)
    ensures b < |q| && b in order && Reads(q[b], x)
  {
    if b < |q| && b == order[k] && (b, x) in PartReads(b, q[b], i) && TerminatorUse(q[b].terminator) != x {
      var ops := q[b].operations;
      var j :| 0 <= j < |ops[i..]| && UsesId(ops[i..][j], x);
      assert UsesId(ops[i + j], x);
    }
    assert order == order[..k] + order[k..] && order[k..][0] == order[k];
  }

  lemma {:induction false} IncomingIsListed(incoming: seq<IncomingValue>, f: Node)
    ensures IncomingFrom(incoming, f) != 0 ==>
              exists j :: 0 <= j < |incoming| && incoming[j].id == IncomingFrom(incoming, f)
  {
    if incoming != [] && incoming[0].block != f {
      IncomingIsListed(incoming[1..], f);
      if IncomingFrom(incoming[1..], f) != 0 {
        var j :| 0 <= j < |incoming[1..]| && incoming[1..][j].id == IncomingFrom(incoming[1..], f);
        assert incoming[j + 1].id == IncomingFrom(incoming, f);
      }
    }
  }

  lemma PhisApart(q: seq<IRBlock>, live: set<Node>, consumed: map<Id, Option<Node>>, flags: set<Id>, v: Id)
    requires LiveSet(q, live) && PhiFree(q, live, consumed, flags) && v in consumed && v in flags && v != 0
    ensures NotInPhis(q, live, v)
  {
    forall b: Node, f: Node, i | b in live && f in live && b in Targets(q[f].terminator) && 0 <= i < |q[b].phi|
      ensures IncomingFrom(q[b].phi[i].incoming, f) != v
    {
      var x := IncomingFrom(q[b].phi[i].incoming, f);
      IncomingIsListed(q[b].phi[i].incoming, f);
      if x != 0 {
        var j :| 0 <= j < |q[b].phi[i].incoming| && q[b].phi[i].incoming[j].id == x;
        TakenByPhi(q, live, b, i, j);
      }
    }
  }

  /** What the pass has found out is enough to move the operation. */
  lemma CanSink(q: seq<IRBlock>, c: Chart, k: nat, i: nat, target: Node, chain: seq<Node>,
                consumed: map<Id, Option<Node>>, flags: set<Id>, movable: nat -> bool)
    requires Sound(q, c, consumed, flags, movable) && k < |c.order| && c.order[k] in c.live && c.order[k] < |q|
    requires i < |q[c.order[k]].operations| && q[c.order[k]].operations[i].id != 0
    requires Tracks(NotedBefore(q, c.order, k, i + 1), consumed, flags)
    requires var v := q[c.order[k]].operations[i].id; v in flags && v in consumed && consumed[v] == Some(target)
    requires target in c.live && target != c.order[k]
    requires ChainOf(q, c.live, c.order, c.order[k], target, chain) && c.entry !in chain
    ensures Sinkable(q, c.live, c.entry, movable, Move(c.order[k], i, target, chain))
  {
    hide Charted, Dominating, Tracks, OnlyWay, LeavesAlone, Defines, Reads, PhiFree, RestLeavesAlone, InOrder, SSA.Form,
        NotedBefore, ConsumedBelow;
    var n := c.order[k];
    var v := q[n].operations[i].id;
    AboutChart(q, c);
    forall b: Node | b in chain ensures b in c.live && b < |q| && LeavesAlone(q[b], q[n].operations[i]) {
      WayAlone(q, c, n, i, b);
    }
    forall b: Node | b in c.live && b != target ensures !Reads(q[b], v) {
      if Reads(q[b], v) {
        ReadIsNoted(q, c, k, i, b);
        TrackedElsewhere(NotedBefore(q, c.order, k, i + 1), consumed, flags, b, v);
      }
    }
    PhisApart(q, c.live, consumed, flags, v);
    RestAlone(q[n], i);
  }

  lemma TrackedElsewhere(noted: Noted, consumed: map<Id, Option<Node>>, flags: set<Id>, b: Node, v: Id)
    requires Tracks(noted, consumed, flags) && (b, v) in noted && v in consumed && v in flags
    ensures consumed[v] == Some(b)
  {}

  /** Analyses look at edges only. */
  lemma ChartedSame(p: seq<IRBlock>, q: seq<IRBlock>, c: Chart)
    requires Fits(p, c) && |q| == |p| && FlowOf(q) == FlowOf(p)
    requires forall b: Node :: b < |p| ==> q[b].terminator == p[b].terminator
    ensures Fits(q, c)
  {
    hide Dominating, Reach, Targets;
    assert LiveSet(q, c.live);
    forall b: Node | b in c.live ensures ChartedAt(q, c.pred, c.predBack, c.idom, c.live, c.order, b) {
      assert ChartedAt(p, c.pred, c.predBack, c.idom, c.live, c.order, b);
    }
  }

  lemma SinkableEnds(q: seq<IRBlock>, live: set<Node>, entry: Node, movable: nat -> bool, mv: Move)
    requires Sinkable(q, live, entry, movable, mv)
    ensures InBounds(q, mv) && mv.source in live && mv.target in live && MovedOp(q, mv).id != 0
            && movable(MovedOp(q, mv).op)
  {}

  /** A move does not change what is known. */
  lemma SoundAfterMove(q: seq<IRBlock>, c: Chart, consumed: map<Id, Option<Node>>, flags: set<Id>,
                       movable: nat -> bool, mv: Move)
    requires Sound(q, c, consumed, flags, movable) && Sinkable(q, c.live, c.entry, movable, mv)
    requires Dominating(FlowOf(q), c.entry, mv.source, mv.target) && MovedOp(q, mv).id in consumed
             && consumed[MovedOp(q, mv).id] == Some(mv.target)
    ensures InBounds(q, mv) && Sound(Sunk(q, mv), c, consumed, flags, movable)
  {
    hide Charted, SSA.Form, InOrder, Dominating, Defines, MovedOp, InBounds, Sinkable, Sunk, InPhi;
    AboutSound(q, c, consumed, flags, movable);
    AboutSinkable(q, c.live, c.entry, movable, mv);
    SinkableEnds(q, c.live, c.entry, movable, mv);
    MoveKeepsForm(q, c.live, c.entry, movable, mv);
    MovedFlow(q, mv);
    ChartedSame(q, Sunk(q, mv), c);
    ConsumedAfterMove(q, c.live, c.entry, consumed, mv);
    MovableAfterMove(q, c.live, c.entry, flags, movable, mv);
    forall x: Id | InPhi(Sunk(q, mv), c.live, x) ensures InPhi(q, c.live, x) {
      PhisMoveNot(q, c.live, mv, x);
    }
  }

  lemma PhisMoveNot(q: seq<IRBlock>, live: set<Node>, mv: Move, x: Id)
    requires InBounds(q, mv)
    ensures InPhi(Sunk(q, mv), live, x) <==> InPhi(q, live, x)
  {
    MovedFlow(q, mv);
  }

  lemma ConsumedAfterMove(q: seq<IRBlock>, live: set<Node>, entry: Node, consumed: map<Id, Option<Node>>, mv: Move)
    requires SSA.WellFormed(q, live, entry) && InBounds(q, mv) && mv.source in live && mv.target in live
             && MovedOp(q, mv).id != 0
    requires ConsumedBelow(q, live, entry, consumed) && MovedOp(q, mv).id in consumed
             && consumed[MovedOp(q, mv).id] == Some(mv.target)
    requires LiveSet(Sunk(q, mv), live)
    ensures ConsumedBelow(Sunk(q, mv), live, entry, consumed)
  {
    hide Dominating, Defines, InOrder, Sunk, SSA.Form;
    var r, v := Sunk(q, mv), MovedOp(q, mv).id;
    MovedFlow(q, mv);
    forall x: Id, d: Node | x in consumed && consumed[x].Some? && d in live
        && Defines(r[d], x) ensures Dominating(FlowOf(r), entry, d, consumed[x].value) {
      MovedDefines(q, live, entry, mv, d, x);
      if x == v {
        DominatesItself(FlowOf(q), entry, mv.target);
      }
    }
  }

  lemma MovableAfterMove(q: seq<IRBlock>, live: set<Node>, entry: Node, flags: set<Id>, movable: nat -> bool, mv: Move)
    requires InBounds(q, mv) && LiveSet(q, live) && LiveSet(Sunk(q, mv), live) && mv.source in live
             && mv.target in live && movable(MovedOp(q, mv).op)
    requires MovableOps(q, live, flags, movable)
    ensures MovableOps(Sunk(q, mv), live, flags, movable)
  {
    var r := Sunk(q, mv);
    forall b: Node, i | b in live && 0 <= i < |r[b].operations| && r[b].operations[i].id != 0
    && r[b].operations[i].id in flags
      ensures movable(r[b].operations[i].op)
    {
      if b == mv.source {
        WithoutAt(q[b].operations, mv.at, i);
        assert r[b].operations[i] == q[b].operations[if i < mv.at then i else i + 1];
      } else if b == mv.target {
        assert r[b].operations[i] == if i == 0 then MovedOp(q, mv) else q[b].operations[i - 1];
      }
    }
  }
}
