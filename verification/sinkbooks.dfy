/** Who reads what: the record that sinking keeps of the blocks that consume each value. */
module SinkBooks {
  import opened Wrappers
  import opened Graphs
  import opened IR
  import opened Sinking
  import opened SinkPass
  import opened SinkFlags

  /** Reads that have been noted: the block, and the value. */
  type Noted = iset<(Node, Id)>

  ghost function DoneReads(q: seq<IRBlock>, done: seq<Node>): Noted {
    iset b: Node, x: Id | b in done && b < |q| && Reads(q[b], x) :: (b, x)
  }

  /** The reads of the terminator of `n` and of its operations from number `i` on. */
  ghost function PartReads(n: Node, b: IRBlock, i: nat): Noted {
    iset x: Id | TerminatorUse(b.terminator) == x || (i <= |b.operations| && ReadsOp(b.operations[i..], x)) :: (n, x)
  }

  ghost function ArgumentReads(n: Node, args: seq<Argument>): Noted {
    iset x: Id | IdArgument(x) in args :: (n, x)
  }

  /** What has been noted when operation `i` of block number `k` is next. */
  ghost function NotedBefore(q: seq<IRBlock>, order: seq<Node>, k: nat, i: nat): Noted
    requires k < |order|
  {
    DoneReads(q, order[..k]) + if order[k] < |q| then PartReads(order[k], q[order[k]], i) else iset{}
  }

  /** A flagged value that has been read has been read in one block only, and that block is on record. */
  ghost predicate Tracks(noted: Noted, consumed: map<Id, Option<Node>>, flags: set<Id>) {
    forall b: Node, x: Id :: (b, x) in noted && x in consumed ==>
      consumed[x].Some? && (consumed[x].value == b || x !in flags)
  }

  /** A block on record reads the value. */
  ghost predicate Recorded(noted: Noted, consumed: map<Id, Option<Node>>) {
    forall x: Id :: x in consumed && consumed[x].Some? ==> (consumed[x].value, x) in noted
  }

  /** Two blocks read the value. */
  ghost predicate TwoReaders(noted: Noted, x: Id) {
    exists a: Node, b: Node :: a != b && (a, x) in noted && (b, x) in noted
  }

  /** How the record and the flags may change while the values `args` are noted as read in `n`. */
  ghost predicate Noting(noted: Noted, args: seq<Argument>, n: Node, consumed: map<Id, Option<Node>>,
                         sinkable: set<Id>, dependent: set<Id>, consumed': map<Id, Option<Node>>, sinkable': set<Id>,
                         dependent': set<Id>) {
    && consumed'.Keys == consumed.Keys && sinkable' <= sinkable && dependent' <= dependent
    && (forall x: Id :: IdArgument(x) !in args ==> (x in sinkable' <==> x in sinkable))
    && (forall x: Id :: x in sinkable' + dependent' ==> (x in sinkable' <==> x in sinkable))
    && (forall x: Id :: x in sinkable + dependent && x !in sinkable' + dependent' ==> TwoReaders(noted, x))
    && (forall x: Id :: IdArgument(x) !in args ==>
          (x in sinkable' + dependent' <==> x in sinkable + dependent)
          && (x in consumed' && x in consumed ==> consumed'[x] == consumed[x]))
    && (forall x: Id :: x in consumed' && x in consumed && consumed'[x] != consumed[x] ==> consumed'[x] == Some(n))
    && Tracks(noted, consumed', sinkable' + dependent') && Recorded(noted, consumed')
  }

  lemma NotingNothing(noted: Noted, n: Node, consumed: map<Id, Option<Node>>, sinkable: set<Id>, dependent: set<Id>)
    requires Tracks(noted, consumed, sinkable + dependent) && Recorded(noted, consumed)
    ensures Noting(noted, [], n, consumed, sinkable, dependent, consumed, sinkable, dependent)
  {}

  /** `consume_id`, after `args`. */
  method ConsumeId(s: Sinks, x: Id, n: Node, ghost noted: Noted, ghost args: seq<Argument>,
                   ghost consumed: map<Id, Option<Node>>, ghost sinkable: set<Id>, ghost dependent: set<Id>)
    requires Noting(noted, args, n, consumed, sinkable, dependent, s.consumed, s.sinkable, s.dependent)
    modifies s
    ensures Noting(noted + iset{(n, x)}, args + [IdArgument(x)], n, consumed, sinkable, dependent, s.consumed,
                   s.sinkable, s.dependent)
  {
    ghost var args' := args + [IdArgument(x)];
    assert forall y: Id :: IdArgument(y) in args' <==> IdArgument(y) in args || y == x;
    ghost var noted' := noted + iset{(n, x)};
    assert forall y: Id :: TwoReaders(noted, y) ==> TwoReaders(noted', y);
    if x in s.consumed {
      if s.consumed[x].None? {
        s.consumed := s.consumed[x := Some(n)];
      } else if s.consumed[x].value != n {
        assert (s.consumed[x].value, x) in noted' && (n, x) in noted';
        s.Clear(x);
      }
    }
  }

  method ConsumeArguments(s: Sinks, args: seq<Argument>, n: Node, ghost noted: Noted)
    requires Tracks(noted, s.consumed, s.Flags()) && Recorded(noted, s.consumed)
    modifies s
    ensures Noting(noted + ArgumentReads(n, args), args, n, old(s.consumed), old(s.sinkable), old(s.dependent),
                   s.consumed, s.sinkable, s.dependent)
  {
    hide Noting, Tracks, Recorded;
    NotingNothing(noted, n, s.consumed, s.sinkable, s.dependent);
    assert noted + ArgumentReads(n, args[..0]) == noted && args[..0] == [];
    for j := 0 to |args|
      invariant Noting(noted + ArgumentReads(n, args[..j]), args[..j], n, old(s.consumed), old(s.sinkable),
                       old(s.dependent), s.consumed, s.sinkable, s.dependent)
    {
      ghost var now := noted + ArgumentReads(n, args[..j]);
      assert args[..j + 1] == args[..j] + [args[j]];
      if args[j].IdArgument? {
        ConsumeId(s, args[j].id, n, now, args[..j], old(s.consumed), old(s.sinkable), old(s.dependent));
        assert now + iset{(n, args[j].id)} == noted + ArgumentReads(n, args[..j + 1]);
      } else {
        assert ArgumentReads(n, args[..j]) == ArgumentReads(n, args[..j + 1]);
        NotingLiteral(now, args[..j], n, args[j], old(s.consumed), old(s.sinkable), old(s.dependent), s.consumed,
                      s.sinkable, s.dependent);
      }
    }
    assert args[..|args|] == args;
  }

  lemma NotingLiteral(noted: Noted, args: seq<Argument>, n: Node, a: Argument, consumed: map<Id, Option<Node>>,
                      sinkable: set<Id>, dependent: set<Id>, consumed': map<Id, Option<Node>>, sinkable': set<Id>,
                      dependent': set<Id>)
    requires Noting(noted, args, n, consumed, sinkable, dependent, consumed', sinkable', dependent')
    requires a.LiteralArgument?
    ensures Noting(noted, args + [a], n, consumed, sinkable, dependent, consumed', sinkable', dependent')
  {
    assert forall y: Id :: IdArgument(y) in args + [a] <==> IdArgument(y) in args;
  }

  /** What the terminator reads, as arguments. */
  function TerminatorArguments(t: Terminator): seq<Argument> {
    if t.Condition? || t.Switch? || (t.Return? && t.value != 0) then [IdArgument(TerminatorUse(t))] else []
  }

  method ConsumeTerminator(s: Sinks, t: Terminator, n: Node, ghost noted: Noted)
    requires 0 !in s.consumed && Tracks(noted, s.consumed, s.Flags()) && Recorded(noted, s.consumed)
    modifies s
    ensures Noting(noted + iset{(n, TerminatorUse(t))}, TerminatorArguments(t), n, old(s.consumed), old(s.sinkable),
                   old(s.dependent), s.consumed, s.sinkable, s.dependent)
  {
    hide Noting;
    NotingNothing(noted, n, s.consumed, s.sinkable, s.dependent);
    if t.Condition? || t.Switch? || (t.Return? && t.value != 0) {
      assert [] + [IdArgument(TerminatorUse(t))] == TerminatorArguments(t);
    }
    if t.Condition? {
      ConsumeId(s, t.conditional, n, noted, [], old(s.consumed), old(s.sinkable), old(s.dependent));
    } else if t.Switch? {
      ConsumeId(s, t.selector, n, noted, [], old(s.consumed), old(s.sinkable), old(s.dependent));
    } else if t.Return? && t.value != 0 {
      ConsumeId(s, t.value, n, noted, [], old(s.consumed), old(s.sinkable), old(s.dependent));
    } else {
      NotingZero(noted, n, old(s.consumed), old(s.sinkable), old(s.dependent));
    }
  }

  lemma NotingZero(noted: Noted, n: Node, consumed: map<Id, Option<Node>>, sinkable: set<Id>, dependent: set<Id>)
    requires Noting(noted, [], n, consumed, sinkable, dependent, consumed, sinkable, dependent) && 0 !in consumed
    ensures Noting(noted + iset{(n, 0)}, [], n, consumed, sinkable, dependent, consumed, sinkable, dependent)
  {}

  // ---------------------------------------------------------------- what has been noted, block by block

  /** One more operation of `n` has been looked at, and stays. */
  lemma NotedHere(q: seq<IRBlock>, order: seq<Node>, k: nat, i: nat)
    requires k < |order| && order[k] < |q| && i < |q[order[k]].operations|
    ensures NotedBefore(q, order, k, i)
            == NotedBefore(q, order, k, i + 1) + ArgumentReads(order[k], q[order[k]].operations[i].arguments)
  {
    var n := order[k];
    var ops := q[n].operations;
    assert ops[i..] == [ops[i]] + ops[i + 1..];
    forall x: Id ensures ReadsOp(ops[i..], x) <==> IdArgument(x) in ops[i].arguments || ReadsOp(ops[i + 1..], x) {
      ConsReads(ops[i], ops[i + 1..], x);
    }
  }

  /** One operation of `n` now belongs to a block that has been dealt with. */
  lemma NotedThere(q: seq<IRBlock>, order: seq<Node>, k: nat, mv: Move)
    requires k < |order| && InBounds(q, mv) && mv.source == order[k]
    requires mv.target in order[..k] && mv.source !in order[..k]
    ensures NotedBefore(Sunk(q, mv), order, k, mv.at)
            == NotedBefore(q, order, k, mv.at + 1) + ArgumentReads(mv.target, MovedOp(q, mv).arguments)
  {
    hide Reads;
    var r, n, done := Sunk(q, mv), mv.source, order[..k];
    assert r[n].operations[mv.at..] == q[n].operations[mv.at + 1..];
    assert PartReads(n, r[n], mv.at) == PartReads(n, q[n], mv.at + 1);
    forall b: Node, x: Id
      ensures (b, x) in DoneReads(r, done) <==>
                (b, x) in DoneReads(q, done) || (b, x) in ArgumentReads(mv.target, MovedOp(q, mv).arguments)
    {
      if b in done && b < |q| {
        ReadsAfterMove(q, mv, b, x);
      }
    }
    assert DoneReads(r, done) == DoneReads(q, done) + ArgumentReads(mv.target, MovedOp(q, mv).arguments);
  }

  lemma ReadsAfterMove(q: seq<IRBlock>, mv: Move, b: Node, x: Id)
    requires InBounds(q, mv) && b < |q| && b != mv.source
    ensures Reads(Sunk(q, mv)[b], x) <==> Reads(q[b], x) || (b == mv.target && UsesId(MovedOp(q, mv), x))
  {
    ConsReads(MovedOp(q, mv), q[mv.target].operations, x);
  }

  lemma NotedStart(q: seq<IRBlock>, order: seq<Node>, k: nat)
    requires k < |order| && order[k] < |q|
    ensures NotedBefore(q, order, k, |q[order[k]].operations|)
            == DoneReads(q, order[..k]) + iset{(order[k], TerminatorUse(q[order[k]].terminator))}
  {
    var b := q[order[k]];
    assert b.operations[|b.operations|..] == [];
  }

  lemma NotedEnd(q: seq<IRBlock>, order: seq<Node>, k: nat)
    requires k < |order| && order[k] < |q|
    ensures NotedBefore(q, order, k, 0) == DoneReads(q, order[..k + 1])
  {
    assert order[..k + 1] == order[..k] + [order[k]];
    assert q[order[k]].operations[0..] == q[order[k]].operations;
  }
}
