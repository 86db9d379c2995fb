/** Sinking values into the one block that reads them: the walk over all operations, and exactly what it moves. */
module SinkWalk {
  import opened Wrappers
  import opened Graphs
  import opened Lists
  import opened IR
  import opened TailSplit
  import opened BlockPool
  import opened Sinking
  import opened SinkPass
  import opened SinkFlags
  import opened SinkBooks
  import opened SinkRun
  import SSA

  // ---------------------------------------------------------------- which operations move, and where

  /** The value of an operation of `n` goes to `t`: in the function `q`, `t` is the one block that reads it, PHIs aside,
      it does not post-dominate `n`, and the way to it is clear. */
  ghost predicate Goes(p: seq<IRBlock>, q: seq<IRBlock>, c: Chart, postDominates: (Node, Node) -> bool, n: Node,
                       t: Node, x: Id) {
    && t in c.live && t < |q| && t != n && Reads(q[t], x)
    && (forall b: Node :: b in c.live && b < |q| && Reads(q[b], x) ==> b == t)
    && !postDominates(t, n) && ClearWay(p, c.pred, c.predBack, c.live, c.entry, n, t)
  }

  /** Operation `j` of block number `h` has been dealt with when operation `i` of block number `k` has. */
  predicate Settled(k: nat, i: nat, h: nat, j: nat) {
    h < k || (h == k && j >= i)
  }

  /** Operation `j` of block number `h` makes a value. */
  predicate MakesValue(p: seq<IRBlock>, order: seq<Node>, h: nat, j: nat) {
    h < |order| && order[h] < |p| && j < |p[order[h]].operations| && p[order[h]].operations[j].id != 0
  }

  function ValueOf(p: seq<IRBlock>, order: seq<Node>, h: nat, j: nat): Id
    requires MakesValue(p, order, h, j)
  {
    p[order[h]].operations[j].id
  }

  /** The operation was moved if it had a flag and a place to go, and then it is there. */
  ghost predicate DecidedAt(p: seq<IRBlock>, q: seq<IRBlock>, c: Chart, postDominates: (Node, Node) -> bool,
                            flags: set<Id>, moved: set<Id>, h: nat, j: nat)
    requires MakesValue(p, c.order, h, j)
  {
    var n, x := c.order[h], ValueOf(p, c.order, h, j);
    && (x in moved <==> x in flags && exists t: Node :: Goes(p, q, c, postDominates, n, t, x))
    && forall t: Node :: x in moved && Goes(p, q, c, postDominates, n, t, x) ==> DefinesOp(q[t].operations, x)
  }

  ghost predicate Decided(p: seq<IRBlock>, q: seq<IRBlock>, c: Chart, postDominates: (Node, Node) -> bool,
                          flags: set<Id>, moved: set<Id>, k: nat, i: nat) {
    forall h: nat, j: nat :: MakesValue(p, c.order, h, j) && Settled(k, i, h, j) ==>
      DecidedAt(p, q, c, postDominates, flags, moved, h, j)
  }

  /** What the flags and the record say of operation `j` of block number `h`. */
  ghost predicate BooksAt(noted: Noted, sinkable0: set<Id>, dependent0: set<Id>, sinkable: set<Id>, dependent: set<Id>,
                          moved: set<Id>, x: Id, settled: bool) {
    if settled then x in sinkable <==> x in sinkable0 && x in moved
    else
      && x !in moved && (x in sinkable + dependent ==> (x in sinkable <==> x in sinkable0))
      && (x in sinkable0 + dependent0 && x !in sinkable + dependent ==> TwoReaders(noted, x))
  }

  ghost predicate Books(p: seq<IRBlock>, c: Chart, k: nat, i: nat, noted: Noted, consumed: map<Id, Option<Node>>,
                        sinkable0: set<Id>, dependent0: set<Id>, sinkable: set<Id>, dependent: set<Id>,
                            moved: set<Id>) {
    && Tracks(noted, consumed, sinkable + dependent) && Recorded(noted, consumed)
    && sinkable <= sinkable0 && dependent <= dependent0
    && forall h: nat, j: nat :: MakesValue(p, c.order, h, j) ==>
         && (ValueOf(p, c.order, h, j) in sinkable0 + dependent0 ==> ValueOf(p, c.order, h, j) in consumed)
         && BooksAt(noted, sinkable0, dependent0, sinkable, dependent, moved, ValueOf(p, c.order, h, j),
                    Settled(k, i, h, j))
  }

  /** The blocks and operations that the walk has not come to are as they were. */
  ghost predicate Ahead(p: seq<IRBlock>, q: seq<IRBlock>, c: Chart, k: nat, i: nat)
    requires k < |c.order|
  {
    && |q| == |p| && c.order[k] < |p|
    && (forall h: nat :: k < h < |c.order| && c.order[h] < |p| ==> q[c.order[h]] == p[c.order[h]])
    && var was, now := p[c.order[k]].operations, q[c.order[k]].operations;
       && i <= |was| && i <= |now| && now[..i] == was[..i] && OpsWithin(now[i..], was[i..])
  }

  ghost predicate OpsWithin(xs: seq<Op>, ys: seq<Op>) {
    forall o: Op :: o in xs ==> o in ys
  }

  lemma AheadOp(p: seq<IRBlock>, q: seq<IRBlock>, c: Chart, k: nat, i: nat)
    requires k < |c.order| && Ahead(p, q, c, k, i + 1)
    ensures i < |p[c.order[k]].operations| && i < |q[c.order[k]].operations|
    ensures q[c.order[k]].operations[i] == p[c.order[k]].operations[i]
  {
    var was, now := p[c.order[k]].operations, q[c.order[k]].operations;
    assert now[..i + 1][i] == was[..i + 1][i];
  }

  lemma AheadStays(p: seq<IRBlock>, q: seq<IRBlock>, c: Chart, k: nat, i: nat)
    requires k < |c.order| && Ahead(p, q, c, k, i + 1)
    ensures Ahead(p, q, c, k, i)
  {
    AheadOp(p, q, c, k, i);
    var was, now := p[c.order[k]].operations, q[c.order[k]].operations;
    assert now[..i] == now[..i + 1][..i] && was[..i] == was[..i + 1][..i];
    assert now[i..] == [now[i]] + now[i + 1..] && was[i..] == [was[i]] + was[i + 1..];
  }

  lemma AheadMoves(p: seq<IRBlock>, q: seq<IRBlock>, c: Chart, k: nat, mv: Move)
    requires k < |c.order| && Ahead(p, q, c, k, mv.at + 1) && InBounds(q, mv) && mv.source == c.order[k]
    requires Distinct(c.order) && mv.target in c.order[..k]
    ensures Ahead(p, Sunk(q, mv), c, k, mv.at)
  {
    var i, n, r := mv.at, mv.source, Sunk(q, mv);
    AheadOp(p, q, c, k, i);
    var was, now := p[n].operations, q[n].operations;
    assert r[n].operations[..i] == now[..i + 1][..i] && was[..i] == was[..i + 1][..i];
    assert r[n].operations[i..] == now[i + 1..] && was[i..] == [was[i]] + was[i + 1..];
    forall h: nat | k < h < |c.order| && c.order[h] < |p| ensures r[c.order[h]] == p[c.order[h]] {
      var a := Index(c.order[..k], mv.target);
      assert c.order[a] == mv.target;
      DistinctPair(c.order, a, h);
      DistinctPair(c.order, k, h);
    }
  }

  // ---------------------------------------------------------------- one operation after the other

  /** An operation uses nothing that is made later in its block, or in a block dealt with before. */
  lemma UsesNothingSettled(p: seq<IRBlock>, c: Chart, k: nat, i: nat, h: nat, j: nat)
    requires Fits(p, c) && SSA.WellFormed(p, c.live, c.entry) && k < |c.order| && c.order[k] < |p|
    requires i < |p[c.order[k]].operations| && MakesValue(p, c.order, h, j) && Settled(k, i, h, j)
    ensures !UsesId(p[c.order[k]].operations[i], ValueOf(p, c.order, h, j))
  {
    hide Defines, Dominating, ChartedAt, Reach;
    var b, d, x := c.order[k], c.order[h], ValueOf(p, c.order, h, j);
    AboutChart(p, c);
    if UsesId(p[b].operations[i], x) {
      OpDefines(p[d], j);
      FormDominates(p, c.live, c.entry);
      OpReads(p[b], i, x);
      assert Index(c.order, d) >= Index(c.order, b);
      NotMadeBefore(p[b], i, j);
      assert false;
    }
  }

  /** Values are made once. */
  lemma ValuesDiffer(p: seq<IRBlock>, c: Chart, h: nat, j: nat, h': nat, j': nat)
    requires Fits(p, c) && SSA.WellFormed(p, c.live, c.entry)
    requires MakesValue(p, c.order, h, j) && MakesValue(p, c.order, h', j')
    requires ValueOf(p, c.order, h, j) == ValueOf(p, c.order, h', j')
    ensures h == h' && j == j'
  {
    hide Dominating, ChartedAt, Reach, SSA.WellFormed;
    SSA.AboutWellFormed(p, c.live, c.entry);
    AboutChart(p, c);
    if h != h' {
      DistinctPair(c.order, if h < h' then h else h', if h < h' then h' else h);
      MadeElsewhere(p, c.live, c.entry, c.order[h], c.order[h'], j, j');
    }
    AboutInOrder(p[c.order[h]]);
  }

  lemma ReadsKept(q: seq<IRBlock>, mv: Move, b: Node, x: Id)
    requires InBounds(q, mv) && b < |q| && !UsesId(MovedOp(q, mv), x)
    ensures Reads(Sunk(q, mv)[b], x) <==> Reads(q[b], x)
  {
    if b == mv.source {
      if ReadsOp(q[b].operations, x) {
        var i :| 0 <= i < |q[b].operations| && UsesId(q[b].operations[i], x);
        WithoutAt(q[b].operations, mv.at, if i < mv.at then i else i - 1);
        assert UsesId(Removed(q[b].operations, mv.at)[if i < mv.at then i else i - 1], x);
      }
      if ReadsOp(Removed(q[b].operations, mv.at), x) {
        WithoutReads(q[b].operations, mv.at, x);
      }
    } else {
      ReadsAfterMove(q, mv, b, x);
    }
  }

  lemma MadeKept(q: seq<IRBlock>, mv: Move, t: Node, x: Id)
    requires InBounds(q, mv) && t < |q| && DefinesOp(q[t].operations, x) && x != MovedOp(q, mv).id
    ensures DefinesOp(Sunk(q, mv)[t].operations, x)
  {
    var i :| 0 <= i < |q[t].operations| && q[t].operations[i].id == x;
    if t == mv.source {
      WithoutAt(q[t].operations, mv.at, if i < mv.at then i else i - 1);
      assert Removed(q[t].operations, mv.at)[if i < mv.at then i else i - 1].id == x;
    } else if t == mv.target {
      assert Sunk(q, mv)[t].operations[i + 1].id == x;
    }
  }

  lemma GoesKept(p: seq<IRBlock>, q: seq<IRBlock>, c: Chart, postDominates: (Node, Node) -> bool, mv: Move, n: Node,
                 t: Node, x: Id)
    requires InBounds(q, mv) && !UsesId(MovedOp(q, mv), x)
    ensures Goes(p, Sunk(q, mv), c, postDominates, n, t, x) <==> Goes(p, q, c, postDominates, n, t, x)
  {
    hide ClearWay, Reads;
    forall b: Node | b < |q| ensures Reads(Sunk(q, mv)[b], x) <==> Reads(q[b], x) {
      ReadsKept(q, mv, b, x);
    }
  }

  /** An operation that was decided on stays decided when a later one is moved. */
  lemma DecidedKept(p: seq<IRBlock>, q: seq<IRBlock>, c: Chart, postDominates: (Node, Node) -> bool, flags: set<Id>,
                    moved: set<Id>, k: nat, mv: Move, h: nat, j: nat)
    requires Fits(p, c) && SSA.WellFormed(p, c.live, c.entry) && k < |c.order| && Ahead(p, q, c, k, mv.at + 1)
    requires InBounds(q, mv) && mv.source == c.order[k] && MovedOp(q, mv).id != 0
    requires MakesValue(p, c.order, h, j) && Settled(k, mv.at + 1, h, j)
    requires DecidedAt(p, q, c, postDominates, flags, moved, h, j)
    ensures DecidedAt(p, Sunk(q, mv), c, postDominates, flags, moved + {MovedOp(q, mv).id}, h, j)
  {
    hide Goes, Fits, SSA.WellFormed, DefinesOp;
    var n, x, v := c.order[h], ValueOf(p, c.order, h, j), MovedOp(q, mv).id;
    AheadOp(p, q, c, k, mv.at);
    UsesNothingSettled(p, c, k, mv.at, h, j);
    if x == v {
      ValuesDiffer(p, c, h, j, k, mv.at);
    }
    forall t: Node
      ensures Goes(p, Sunk(q, mv), c, postDominates, n, t, x) <==> Goes(p, q, c, postDominates, n, t, x)
    {
      GoesKept(p, q, c, postDominates, mv, n, t, x);
    }
    forall t: Node | x in moved && Goes(p, q, c, postDominates, n, t, x)
      ensures t < |q| && DefinesOp(Sunk(q, mv)[t].operations, x)
    {
      GoesInRange(p, q, c, postDominates, n, t, x);
      MadeKept(q, mv, t, x);
    }
  }

  lemma GoesInRange(p: seq<IRBlock>, q: seq<IRBlock>, c: Chart, postDominates: (Node, Node) -> bool, n: Node, t: Node,
                    x: Id)
    requires Goes(p, q, c, postDominates, n, t, x)
    ensures t in c.live && t < |q| && t != n && Reads(q[t], x) && !postDominates(t, n)
    ensures ClearWay(p, c.pred, c.predBack, c.live, c.entry, n, t)
    ensures forall b: Node :: b in c.live && b < |q| && Reads(q[b], x) ==> b == t
  {}

  /** What the record says of an operation's readers when its turn comes. */
  lemma ReaderIsOnly(p: seq<IRBlock>, q: seq<IRBlock>, c: Chart, k: nat, i: nat, consumed: map<Id, Option<Node>>,
                     sinkable0: set<Id>, dependent0: set<Id>, sinkable: set<Id>, dependent: set<Id>, moved: set<Id>,
                     t: Node)
    requires Fits(q, c) && SSA.WellFormed(q, c.live, c.entry) && k < |c.order| && Ahead(p, q, c, k, i + 1)
    requires MakesValue(p, c.order, k, i)
    requires Books(p, c, k, i + 1, NotedBefore(q, c.order, k, i + 1), consumed, sinkable0, dependent0, sinkable,
                   dependent, moved)
    ensures OnlyReader(q[c.order[k]].operations[i], c.order[k], sinkable + dependent, consumed) == Some(t) <==>
              && ValueOf(p, c.order, k, i) in sinkable0 + dependent0 && t in c.live && t < |q| && t != c.order[k]
              && Reads(q[t], ValueOf(p, c.order, k, i))
              && forall b: Node :: b in c.live && b < |q| && Reads(q[b], ValueOf(p, c.order, k, i)) ==> b == t
  {
    hide Reads, NotedBefore, SSA.WellFormed, Charted;
    var x, noted := ValueOf(p, c.order, k, i), NotedBefore(q, c.order, k, i + 1);
    AheadOp(p, q, c, k, i);
    AboutChart(q, c);
    assert BooksAt(noted, sinkable0, dependent0, sinkable, dependent, moved, x, Settled(k, i + 1, k, i));
    forall b: Node ensures (b, x) in noted <==> b in c.live && b < |q| && Reads(q[b], x) {
      if (b, x) in noted {
        NotedIsRead(q, c.order, k, i + 1, b, x);
      }
      if b in c.live && b < |q| && Reads(q[b], x) {
        ReadIsNoted(q, c, k, i, b);
      }
    }
  }

  /** The only other block that reads the flagged operation, as far as is known. */
  function OnlyReader(op: Op, n: Node, flags: set<Id>, consumed: map<Id, Option<Node>>): Option<Node> {
    if op.id != 0 && op.id in flags && op.id in consumed && consumed[op.id] != Some(n) then consumed[op.id] else None
  }

  /** The decision about an operation is the right one. */
  lemma DecidedHere(p: seq<IRBlock>, q: seq<IRBlock>, r: seq<IRBlock>, c: Chart, postDominates: (Node, Node) -> bool,
                    k: nat, i: nat, consumed: map<Id, Option<Node>>, sinkable0: set<Id>, dependent0: set<Id>,
                    sinkable: set<Id>, dependent: set<Id>, moved: set<Id>, target: Node)
    requires Fits(q, c) && SSA.WellFormed(q, c.live, c.entry) && k < |c.order| && Ahead(p, q, c, k, i + 1)
    requires MakesValue(p, c.order, k, i)
    requires Books(p, c, k, i + 1, NotedBefore(q, c.order, k, i + 1), consumed, sinkable0, dependent0, sinkable,
                   dependent, moved)
    requires var reader := OnlyReader(q[c.order[k]].operations[i], c.order[k], sinkable + dependent, consumed);
             target == if reader.Some? && !postDominates(reader.value, c.order[k])
                          && ClearWay(p, c.pred, c.predBack, c.live, c.entry, c.order[k], reader.value)
                       then reader.value else c.order[k]
    requires |r| == |q| && forall b: Node :: b < |q| ==>
               (Reads(r[b], ValueOf(p, c.order, k, i)) <==> Reads(q[b], ValueOf(p, c.order, k, i)))
    requires target != c.order[k] ==> target < |r| && DefinesOp(r[target].operations, ValueOf(p, c.order, k, i))
    ensures DecidedAt(p, r, c, postDominates, sinkable0 + dependent0,
                      moved + if target != c.order[k] then {ValueOf(p, c.order, k, i)} else {}, k, i)
  {
    hide Reads, ClearWay, SSA.WellFormed, Charted, DefinesOp, OnlyReader, NotedBefore;
    var n, x := c.order[k], ValueOf(p, c.order, k, i);
    AheadOp(p, q, c, k, i);
    assert x !in moved by { NotYetMoved(p, c, k, i + 1, NotedBefore(q, c.order, k, i + 1), consumed, sinkable0,
                                        dependent0, sinkable, dependent, moved, k, i); }
    var reader := OnlyReader(q[n].operations[i], n, sinkable + dependent, consumed);
    forall t: Node | x in sinkable0 + dependent0 && Goes(p, r, c, postDominates, n, t, x) ensures reader == Some(t) {
      ReaderIsOnly(p, q, c, k, i, consumed, sinkable0, dependent0, sinkable, dependent, moved, t);
    }
    if reader.Some? {
      ReaderIsOnly(p, q, c, k, i, consumed, sinkable0, dependent0, sinkable, dependent, moved, reader.value);
    }
    if target != n {
      assert Goes(p, r, c, postDominates, n, target, x);
    }
  }

  lemma NotYetMoved(p: seq<IRBlock>, c: Chart, k: nat, i: nat, noted: Noted, consumed: map<Id, Option<Node>>,
                    sinkable0: set<Id>, dependent0: set<Id>, sinkable: set<Id>, dependent: set<Id>, moved: set<Id>,
                    h: nat, j: nat)
    requires Books(p, c, k, i, noted, consumed, sinkable0, dependent0, sinkable, dependent, moved)
    requires MakesValue(p, c.order, h, j) && !Settled(k, i, h, j)
    ensures ValueOf(p, c.order, h, j) !in moved
  {
    assert BooksAt(noted, sinkable0, dependent0, sinkable, dependent, moved, ValueOf(p, c.order, h, j),
                   Settled(k, i, h, j));
  }

  /** The books after an operation: its own flag goes if it stays, and its operands are noted. */
  lemma BooksNext(p: seq<IRBlock>, c: Chart, k: nat, i: nat, noted: Noted, noted': Noted, n: Node,
                  consumed: map<Id, Option<Node>>, sinkable0: set<Id>, dependent0: set<Id>, sinkable: set<Id>,
                  dependent: set<Id>, moved: set<Id>, moves: bool, consumed': map<Id, Option<Node>>,
                  sinkable': set<Id>, dependent': set<Id>)
    requires Fits(p, c) && SSA.WellFormed(p, c.live, c.entry) && k < |c.order| && c.order[k] < |p|
    requires i < |p[c.order[k]].operations|
    requires Books(p, c, k, i + 1, noted, consumed, sinkable0, dependent0, sinkable, dependent, moved)
    requires noted <= noted'
    requires var op := p[c.order[k]].operations[i];
             && (moves ==> op.id != 0 && op.id in sinkable + dependent)
             && Noting(noted', op.arguments, n, consumed,
                       sinkable - if !moves && op.id != 0 then {op.id} else {}, dependent, consumed', sinkable',
                       dependent')
    ensures Books(p, c, k, i, noted', consumed', sinkable0, dependent0, sinkable', dependent',
                  moved + if moves then {p[c.order[k]].operations[i].id} else {})
  {
    hide Fits, SSA.WellFormed, Tracks, Recorded;
    var op := p[c.order[k]].operations[i];
    var moved' := moved + if moves then {op.id} else {};
    forall x: Id | TwoReaders(noted, x) ensures TwoReaders(noted', x) {
      var a: Node, b: Node :| a != b && (a, x) in noted && (b, x) in noted;
      assert (a, x) in noted' && (b, x) in noted';
    }
    forall h: nat, j: nat | MakesValue(p, c.order, h, j)
      ensures BooksAt(noted', sinkable0, dependent0, sinkable', dependent', moved', ValueOf(p, c.order, h, j),
                      Settled(k, i, h, j))
    {
      var x := ValueOf(p, c.order, h, j);
      assert BooksAt(noted, sinkable0, dependent0, sinkable, dependent, moved, x, Settled(k, i + 1, h, j));
      if Settled(k, i, h, j) {
        UsesNothingSettled(p, c, k, i, h, j);
      }
      if x == op.id {
        ValuesDiffer(p, c, h, j, k, i);
      }
    }
  }

  // ---------------------------------------------------------------- what the moves have made of the function

  /** How often an operation occurs in the blocks of `order`. */
  ghost function CountOps(q: seq<IRBlock>, order: seq<Node>, o: Op): nat {
    if order == [] then 0
    else (if order[0] < |q| then multiset(q[order[0]].operations)[o] else 0) + CountOps(q, order[1..], o)
  }

  /** The blocks of `order` have the same operations, each as often as before. */
  ghost predicate SameOps(p: seq<IRBlock>, q: seq<IRBlock>, order: seq<Node>) {
    forall o: Op :: CountOps(q, order, o) == CountOps(p, order, o)
  }

  lemma {:induction false} CountOther(q: seq<IRBlock>, order: seq<Node>, b: Node, block: IRBlock, o: Op)
    requires b < |q| && b !in order
    ensures CountOps(q[b := block], order, o) == CountOps(q, order, o)
  {
    if order != [] {
      CountOther(q, order[1..], b, block, o);
    }
  }

  lemma {:induction false} CountUpdate(q: seq<IRBlock>, order: seq<Node>, b: Node, block: IRBlock, o: Op)
    requires b < |q| && b in order && Distinct(order)
    ensures CountOps(q[b := block], order, o) + multiset(q[b].operations)[o]
            == CountOps(q, order, o) + multiset(block.operations)[o]
  {
    DistinctSlice(order, 1, |order|);
    assert order[1..|order|] == order[1..] && order == [order[0]] + order[1..];
    if order[0] == b {
      assert order[..1] == [b] && b !in order[1..];
      CountOther(q, order[1..], b, block, o);
    } else {
      CountUpdate(q, order[1..], b, block, o);
    }
  }

  /** A move keeps the operations. */
  lemma MoveKeepsOps(q: seq<IRBlock>, order: seq<Node>, mv: Move, o: Op)
    requires InBounds(q, mv) && mv.source in order && mv.target in order && Distinct(order)
    ensures CountOps(Sunk(q, mv), order, o) == CountOps(q, order, o)
  {
    hide CountOps, Removed, Distinct;
    var left := q[mv.source].(operations := Removed(q[mv.source].operations, mv.at));
    var grown := q[mv.target].(operations := [MovedOp(q, mv)] + q[mv.target].operations);
    var mid := q[mv.source := left];
    CountUpdate(q, order, mv.source, left, o);
    CountUpdate(mid, order, mv.target, grown, o);
    WithoutOne(q[mv.source].operations, mv.at, o);
    WithOne(q[mv.target].operations, MovedOp(q, mv), o);
  }

  lemma WithoutOne(ops: seq<Op>, at: nat, o: Op)
    requires at < |ops|
    ensures multiset(ops)[o] == multiset(Removed(ops, at))[o] + multiset{ops[at]}[o]
  {
    assert ops == ops[..at] + ([ops[at]] + ops[at + 1..]);
  }

  lemma WithOne(ops: seq<Op>, op: Op, o: Op)
    ensures multiset([op] + ops)[o] == multiset(ops)[o] + multiset{op}[o]
  {}

  /** Edges, PHIs and barriers are where they were. */
  ghost predicate SameShape(p: seq<IRBlock>, q: seq<IRBlock>) {
    && |q| == |p|
    && forall b: Node :: b < |p| ==>
         q[b].phi == p[b].phi && q[b].terminator == p[b].terminator && (NoBarrier(q[b]) <==> NoBarrier(p[b]))
  }

  /** An operation of the function whose value has a flag. */
  ghost predicate Sinker(p: seq<IRBlock>, c: Chart, flags: set<Id>, o: Op) {
    o.id in flags && exists h: nat, j: nat :: MakesValue(p, c.order, h, j) && p[c.order[h]].operations[j] == o
  }

  /** Every block has operations of its own and operations that were moved to it. */
  ghost predicate Mixed(p: seq<IRBlock>, q: seq<IRBlock>, c: Chart, flags: set<Id>) {
    |q| == |p| && forall b: Node, o: Op :: b in c.live && b < |p| && o in q[b].operations ==>
                    o in p[b].operations || Sinker(p, c, flags, o)
  }

  /** The move takes an operation from where it was made, past nothing but what was after it there and what the blocks
      on the clear way to the target have, apart from other operations that were moved. */
  ghost predicate Straight(p: seq<IRBlock>, q: seq<IRBlock>, c: Chart, flags: set<Id>, mv: Move) {
    && InBounds(q, mv) && |q| == |p| && mv.source in c.live && mv.target in c.live && mv.source !in mv.chain
    && mv.at < |p[mv.source].operations| && p[mv.source].operations[mv.at] == MovedOp(q, mv)
    && MovedOp(q, mv).id in flags && MovedOp(q, mv).id != 0
    && OpsWithin(q[mv.source].operations[mv.at + 1..], p[mv.source].operations[mv.at + 1..])
    && ClearWay(p, c.pred, c.predBack, c.live, c.entry, mv.source, mv.target)
    && (forall b: Node :: b in mv.chain ==> b in c.live && OnTheWay(p, c.entry, mv.source, b, mv.target))
    && forall b: Node, o: Op :: b in mv.chain && b < |q| && o in q[b].operations ==>
         o in p[b].operations || Sinker(p, c, flags, o)
  }

  ghost predicate AllStraight(p: seq<IRBlock>, c: Chart, flags: set<Id>, moves: seq<Move>)
  {
    moves == [] ||
    (var before, mv := moves[..|moves| - 1], moves[|moves| - 1];
     AllStraight(p, c, flags, before) && Straight(p, AfterMoves(p, before), c, flags, mv))
  }

  /** What the moves so far have made of the function. */
  ghost predicate MovesSoFar(p: seq<IRBlock>, q: seq<IRBlock>, c: Chart, movable: nat -> bool, flags: set<Id>,
                             moves: seq<Move>) {
    && AllSinkable(p, c.live, c.entry, movable, moves) && q == AfterMoves(p, moves) && SameOps(p, q, c.order)
    && SameShape(p, q) && Mixed(p, q, c, flags) && AllStraight(p, c, flags, moves)
  }

  lemma NoMoves(p: seq<IRBlock>, c: Chart, movable: nat -> bool, flags: set<Id>)
    ensures MovesSoFar(p, p, c, movable, flags, []) && MovedIds(p, []) == {}
  {}

  lemma AboutMoves(p: seq<IRBlock>, q: seq<IRBlock>, c: Chart, movable: nat -> bool, flags: set<Id>, moves: seq<Move>)
    requires MovesSoFar(p, q, c, movable, flags, moves)
    ensures AllSinkable(p, c.live, c.entry, movable, moves) && q == AfterMoves(p, moves) && SameOps(p, q, c.order)
    ensures SameShape(p, q) && Mixed(p, q, c, flags) && AllStraight(p, c, flags, moves)
    ensures |q| == |p| && FlowOf(q) == FlowOf(p)
  {}

  lemma ShapeAfterMove(p: seq<IRBlock>, q: seq<IRBlock>, mv: Move)
    requires SameShape(p, q) && InBounds(q, mv) && !IsBarrier(MovedOp(q, mv))
    ensures SameShape(p, Sunk(q, mv))
  {
    var r := Sunk(q, mv);
    MovedFlow(q, mv);
    forall b: Node | b < |p| ensures NoBarrier(r[b]) <==> NoBarrier(q[b]) {
      if b == mv.source {
        forall i: nat | i < |r[b].operations|
          ensures r[b].operations[i] == q[b].operations[if i < mv.at then i else i + 1]
        {
          WithoutAt(q[b].operations, mv.at, i);
        }
        if NoBarrier(r[b]) {
          forall i: nat | i < |q[b].operations| ensures !IsBarrier(q[b].operations[i]) {
            if i != mv.at {
              WithoutAt(q[b].operations, mv.at, if i < mv.at then i else i - 1);
              assert r[b].operations[if i < mv.at then i else i - 1] == q[b].operations[i];
            }
          }
        }
      } else if b == mv.target {
        assert forall i: nat :: i < |q[b].operations| ==> r[b].operations[i + 1] == q[b].operations[i];
        assert forall i: nat :: i < |r[b].operations| ==>
                 r[b].operations[i] == if i == 0 then MovedOp(q, mv) else q[b].operations[i - 1];
      }
    }
  }

  lemma MixedAfterMove(p: seq<IRBlock>, q: seq<IRBlock>, c: Chart, flags: set<Id>, mv: Move)
    requires Mixed(p, q, c, flags) && InBounds(q, mv) && Sinker(p, c, flags, MovedOp(q, mv))
    ensures Mixed(p, Sunk(q, mv), c, flags)
  {
    var r := Sunk(q, mv);
    forall b: Node, o: Op | b in c.live && b < |p| && o in r[b].operations
      ensures o in q[b].operations || o == MovedOp(q, mv)
    {}
  }

  lemma OneMoreMove(p: seq<IRBlock>, q: seq<IRBlock>, c: Chart, movable: nat -> bool, flags: set<Id>,
                    moves: seq<Move>, mv: Move)
    requires MovesSoFar(p, q, c, movable, flags, moves) && Sinkable(q, c.live, c.entry, movable, mv)
    requires mv.source in c.order && mv.target in c.order && Distinct(c.order) && Straight(p, q, c, flags, mv)
    requires InBounds(q, mv) && !IsBarrier(MovedOp(q, mv)) && Sinker(p, c, flags, MovedOp(q, mv))
    ensures MovesSoFar(p, Sunk(q, mv), c, movable, flags, moves + [mv])
    ensures MovedIds(p, moves + [mv]) == MovedIds(p, moves) + {MovedOp(q, mv).id}
  {
    hide Sinkable, CountOps, InBounds, Sunk, Distinct, Straight, Sinker, Mixed, SameShape, MovedOp;
    AboutSinkable(q, c.live, c.entry, movable, mv);
    assert (moves + [mv])[..|moves|] == moves;
    forall o: Op ensures CountOps(Sunk(q, mv), c.order, o) == CountOps(p, c.order, o) {
      MoveKeepsOps(q, c.order, mv, o);
    }
    ShapeAfterMove(p, q, mv);
    MixedAfterMove(p, q, c, flags, mv);
  }

  // ---------------------------------------------------------------- the decision

  /** The way is clear, or not, whichever of the two functions is looked at. */
  lemma SameWay(p: seq<IRBlock>, g: seq<IRBlock>, c: Chart, source: Node, target: Node)
    requires Fits(p, c) && SameShape(p, g)
    ensures FlowOf(g) == FlowOf(p) && Fits(g, c)
    ensures ClearWay(g, c.pred, c.predBack, c.live, c.entry, source, target) <==>
              ClearWay(p, c.pred, c.predBack, c.live, c.entry, source, target)
  {
    hide Charted, Dominating, NoBarrier;
    assert FlowOf(g) == FlowOf(p);
    ChartedSame(p, g, c);
  }

  lemma SameChain(p: seq<IRBlock>, g: seq<IRBlock>, c: Chart, source: Node, target: Node, chain: seq<Node>)
    requires SameShape(p, g) && ChainOf(g, c.live, c.order, source, target, chain)
    ensures ChainOf(p, c.live, c.order, source, target, chain)
  {
    hide NoBarrier;
    forall i | 0 <= i < |chain| ensures EntersOnlyFrom(p, c.live, chain[i], WayIn(source, chain, i)) {
      assert EntersOnlyFrom(g, c.live, chain[i], WayIn(source, chain, i));
    }
  }

  lemma ShapesMeet(p: seq<IRBlock>, q: seq<IRBlock>, g: seq<IRBlock>)
    requires SameShape(p, q) && SameShape(p, g)
    ensures SameShape(q, g) && |q| == |p| == |g|
  {}

  /** Where the operation should go: to the only block that reads it, if the way there is clear. In a dry run `q` is the
      function that the real run would have by now; the blocks themselves are still `p`. */
  method Decide(g: Blocks, s: Sinks, idom: seq<Node>, postDominates: (Node, Node) -> bool, n: Node, i: nat,
                ghost p: seq<IRBlock>, ghost q: seq<IRBlock>, ghost c: Chart, ghost movable: nat -> bool)
    returns (target: Node, ghost chain: seq<Node>)
    requires g.Valid() && g.pred == c.pred && g.predBackEdge == c.predBack && idom == c.idom
    requires Fits(p, c) && SameShape(p, q) && SameShape(p, g.blocks) && Sound(q, c, s.consumed, s.Flags(), movable)
    requires n in c.live && n < |q| && i < |q[n].operations| && i < |g.blocks[n].operations|
    requires g.blocks[n].operations[i] == q[n].operations[i]
    modifies s`sinkable
    ensures target in c.live && Dominating(FlowOf(q), c.entry, n, target)
    ensures var reader := OnlyReader(q[n].operations[i], n, old(s.Flags()), s.consumed);
            target == if reader.Some? && !postDominates(reader.value, n)
                         && ClearWay(p, c.pred, c.predBack, c.live, c.entry, n, reader.value)
                      then reader.value else n
    ensures s.sinkable == old(s.sinkable) - if target == n && q[n].operations[i].id != 0
                                            then {q[n].operations[i].id} else {}
    ensures target != n ==>
              && ChainOf(q, c.live, c.order, n, target, chain) && c.entry !in chain
              && forall b: Node :: b in chain ==> OnTheWay(p, c.entry, n, b, target)
  {
    hide Sound, Dominating, ChainOf, FlowOf, LiveSet, ClearWay, SameShape, Charted;
    ShapesMeet(p, q, g.blocks);
    var op := g.blocks[n].operations[i];
    target, chain := n, [];
    SameWay(p, g.blocks, c, n, n);
    SameWay(p, q, c, n, n);
    DominatesItself(FlowOf(q), c.entry, n);
    AboutSound(q, c, s.consumed, s.Flags(), movable);
    if op.id != 0 && op.id in s.sinkable + s.dependent {
      var clear := false;
      if op.id in s.consumed && s.consumed[op.id].Some? && s.consumed[op.id].value != n {
        OnRecord(q, c, s.consumed, s.Flags(), movable, n, i);
        SameWay(p, g.blocks, c, n, s.consumed[op.id].value);
        clear, chain := PathIsReorderable(g.blocks, g.pred, g.predBackEdge, idom, postDominates, n,
                                          s.consumed[op.id].value, c.live, c.entry, c.order);
        if clear {
          SameChain(q, g.blocks, c, n, s.consumed[op.id].value, chain);
        }
      }
      if clear {
        target := s.consumed[op.id].value;
      } else {
        s.sinkable := s.sinkable - {op.id};
      }
    }
  }

  // ---------------------------------------------------------------- the walk

  /** What holds when operation `i` of block number `k` is next. */
  ghost predicate Walking(p: seq<IRBlock>, c: Chart, postDominates: (Node, Node) -> bool, movable: nat -> bool,
                          sinkable0: set<Id>, dependent0: set<Id>, consumed: map<Id, Option<Node>>, sinkable: set<Id>,
                          dependent: set<Id>, moves: seq<Move>, k: nat, i: nat) {
    var q := AfterMoves(p, moves);
    && k < |c.order| && Fits(p, c) && SSA.WellFormed(p, c.live, c.entry)
    && Sound(q, c, consumed, sinkable + dependent, movable)
    && MovesSoFar(p, q, c, movable, sinkable0 + dependent0, moves) && Ahead(p, q, c, k, i)
    && Books(p, c, k, i, NotedBefore(q, c.order, k, i), consumed, sinkable0, dependent0, sinkable, dependent,
             MovedIds(p, moves))
    && Decided(p, q, c, postDominates, sinkable0 + dependent0, MovedIds(p, moves), k, i)
  }

  /** The move that was decided on can be made. */
  lemma MoveIsLegal(p: seq<IRBlock>, q: seq<IRBlock>, c: Chart, movable: nat -> bool, sinkable0: set<Id>,
                    dependent0: set<Id>, consumed: map<Id, Option<Node>>, sinkable: set<Id>, dependent: set<Id>,
                    moved: set<Id>, moves: seq<Move>, k: nat, i: nat, target: Node, chain: seq<Node>)
    requires k < |c.order| && Fits(p, c) && SSA.WellFormed(p, c.live, c.entry) && BarriersMakeNothing(p, c.live)
    requires Sound(q, c, consumed, sinkable + dependent, movable)
    requires MovesSoFar(p, q, c, movable, sinkable0 + dependent0, moves) && Ahead(p, q, c, k, i + 1)
    requires Books(p, c, k, i + 1, NotedBefore(q, c.order, k, i + 1), consumed, sinkable0, dependent0, sinkable,
                   dependent, moved)
    requires OnlyReader(q[c.order[k]].operations[i], c.order[k], sinkable + dependent, consumed) == Some(target)
    requires target in c.live && target != c.order[k] && Dominating(FlowOf(q), c.entry, c.order[k], target)
    requires ClearWay(p, c.pred, c.predBack, c.live, c.entry, c.order[k], target)
    requires ChainOf(q, c.live, c.order, c.order[k], target, chain) && c.entry !in chain
    requires forall b: Node :: b in chain ==> OnTheWay(p, c.entry, c.order[k], b, target)
    ensures var mv, flags := Move(c.order[k], i, target, chain), sinkable0 + dependent0;
            && MakesValue(p, c.order, k, i) && InBounds(q, mv) && MovedOp(q, mv) == p[c.order[k]].operations[i]
            && MovedOp(q, mv).id in sinkable + dependent && MovedOp(q, mv).id in consumed
            && consumed[MovedOp(q, mv).id] == Some(target) && mv.source in c.order && mv.target in c.order[..k]
            && Distinct(c.order) && mv.source !in c.order[..k] && mv.target in c.order
            && Sinkable(q, c.live, c.entry, movable, mv) && Straight(p, q, c, flags, mv)
            && Sinker(p, c, flags, MovedOp(q, mv)) && !IsBarrier(MovedOp(q, mv))
  {
    hide Fits, SSA.WellFormed, Dominating, ChainOf, OnTheWay, Sinkable, ClearWay, NotedBefore, Ahead, SameShape,
        SameOps, Sound, Tracks, Recorded, BooksAt, Straight, Mixed, MovesSoFar, OpsWithin, Sinker;
    var n, mv, flags := c.order[k], Move(c.order[k], i, target, chain), sinkable0 + dependent0;
    AboutChart(p, c);
    AheadOp(p, q, c, k, i);
    AheadRest(p, q, c, k, i);
    AboutMoves(p, q, c, movable, flags, moves);
    assert MakesValue(p, c.order, k, i);
    IsSinker(p, c, flags, k, i);
    CanSink(q, c, k, i, target, chain, consumed, sinkable + dependent, movable);
    ChainBelow(q, c, k, target, chain);
    MoveIsStraight(p, q, c, flags, mv);
  }

  lemma IsSinker(p: seq<IRBlock>, c: Chart, flags: set<Id>, k: nat, i: nat)
    requires MakesValue(p, c.order, k, i) && ValueOf(p, c.order, k, i) in flags
    ensures Sinker(p, c, flags, p[c.order[k]].operations[i])
  {}

  lemma MoveIsStraight(p: seq<IRBlock>, q: seq<IRBlock>, c: Chart, flags: set<Id>, mv: Move)
    requires Mixed(p, q, c, flags) && InBounds(q, mv) && mv.source in c.live && mv.target in c.live
    requires mv.source !in mv.chain && mv.at < |p[mv.source].operations|
    requires p[mv.source].operations[mv.at] == q[mv.source].operations[mv.at] && MovedOp(q, mv).id in flags
    requires MovedOp(q, mv).id != 0 && ClearWay(p, c.pred, c.predBack, c.live, c.entry, mv.source, mv.target)
    requires OpsWithin(q[mv.source].operations[mv.at + 1..], p[mv.source].operations[mv.at + 1..])
    requires forall b: Node :: b in mv.chain ==> b in c.live && OnTheWay(p, c.entry, mv.source, b, mv.target)
    ensures Straight(p, q, c, flags, mv)
  {
    hide ClearWay, OnTheWay, Sinker, OpsWithin;
  }

  lemma AheadRest(p: seq<IRBlock>, q: seq<IRBlock>, c: Chart, k: nat, i: nat)
    requires k < |c.order| && Ahead(p, q, c, k, i + 1)
    ensures i + 1 <= |p[c.order[k]].operations| && i + 1 <= |q[c.order[k]].operations|
    ensures OpsWithin(q[c.order[k]].operations[i + 1..], p[c.order[k]].operations[i + 1..])
  {}

  lemma ChainBelow(q: seq<IRBlock>, c: Chart, k: nat, target: Node, chain: seq<Node>)
    requires k < |c.order| && ChainOf(q, c.live, c.order, c.order[k], target, chain) && Distinct(c.order)
    requires Index(c.order, c.order[k]) == k
    ensures target in c.order[..k] && c.order[k] !in c.order[..k] && c.order[k] !in chain && c.order[k] in c.order
    ensures forall b: Node :: b in chain ==> b in c.live
  {
    hide OnlyWay;
    assert target in chain;
    var a := Index(c.order, target);
    assert c.order[..k][a] == target;
    DistinctSlice(c.order, 0, k);
    assert c.order[0..k] == c.order[..k] && c.order[k..][0] == c.order[k];
  }

  /** The walk after an operation that stays. */
  lemma StepStays(p: seq<IRBlock>, c: Chart, postDominates: (Node, Node) -> bool, movable: nat -> bool,
                  sinkable0: set<Id>, dependent0: set<Id>, consumed: map<Id, Option<Node>>, sinkable: set<Id>,
                  dependent: set<Id>, moves: seq<Move>, k: nat, i: nat, consumed': map<Id, Option<Node>>,
                  sinkable': set<Id>, dependent': set<Id>)
    requires Walking(p, c, postDominates, movable, sinkable0, dependent0, consumed, sinkable, dependent, moves, k,
                     i + 1)
    requires var q, n := AfterMoves(p, moves), c.order[k];
             var reader := OnlyReader(q[n].operations[i], n, sinkable + dependent, consumed);
             reader.None? || postDominates(reader.value, n)
             || !ClearWay(p, c.pred, c.predBack, c.live, c.entry, n, reader.value)
    requires var q, n := AfterMoves(p, moves), c.order[k];
             Noting(NotedBefore(q, c.order, k, i + 1) + ArgumentReads(n, q[n].operations[i].arguments),
                    q[n].operations[i].arguments, n, consumed,
                    sinkable - if q[n].operations[i].id != 0 then {q[n].operations[i].id} else {}, dependent, consumed',
                    sinkable', dependent')
    ensures Walking(p, c, postDominates, movable, sinkable0, dependent0, consumed', sinkable', dependent', moves, k, i)
  {
    hide Sound, MovesSoFar, Ahead, Books, Decided, Noting, OnlyReader, ClearWay, Fits, SSA.WellFormed, NotedBefore,
        ArgumentReads, AfterMoves, MovedIds, DecidedAt;
    var q, n := AfterMoves(p, moves), c.order[k];
    var flags, moved := sinkable0 + dependent0, MovedIds(p, moves);
    AboutSound(q, c, consumed, sinkable + dependent, movable);
    AboutChart(p, c);
    AheadOp(p, q, c, k, i);
    var op := q[n].operations[i];
    var sinkable1 := sinkable - if op.id != 0 then {op.id} else {};
    AheadStays(p, q, c, k, i);
    NotedHere(q, c.order, k, i);
    BooksNext(p, c, k, i, NotedBefore(q, c.order, k, i + 1), NotedBefore(q, c.order, k, i), n, consumed, sinkable0,
              dependent0, sinkable, dependent, moved, false, consumed', sinkable', dependent');
    assert moved + {} == moved;
    FewerFlags(q, c, consumed, sinkable + dependent, sinkable1 + dependent, movable);
    DominatesItself(FlowOf(q), c.entry, n);
    ArgumentsAbove(q, c, n, i, n);
    SoundAfterNoting(q, c, movable, n, NotedBefore(q, c.order, k, i), op.arguments, consumed, sinkable1, dependent,
                     consumed', sinkable', dependent');
    forall h: nat, j: nat | MakesValue(p, c.order, h, j) && Settled(k, i, h, j)
      ensures DecidedAt(p, q, c, postDominates, flags, moved, h, j)
    {
      if Settled(k, i + 1, h, j) {
        DecidedBefore(p, q, c, postDominates, flags, moved, k, i + 1, h, j);
      } else {
        DecidedHere(p, q, q, c, postDominates, k, i, consumed, sinkable0, dependent0, sinkable, dependent, moved, n);
      }
    }
    AllDecided(p, q, c, postDominates, flags, moved, k, i);
  }

  lemma DecidedBefore(p: seq<IRBlock>, q: seq<IRBlock>, c: Chart, postDominates: (Node, Node) -> bool, flags: set<Id>,
                      moved: set<Id>, k: nat, i: nat, h: nat, j: nat)
    requires Decided(p, q, c, postDominates, flags, moved, k, i) && MakesValue(p, c.order, h, j) && Settled(k, i, h, j)
    ensures DecidedAt(p, q, c, postDominates, flags, moved, h, j)
  {}

  lemma AllDecided(p: seq<IRBlock>, q: seq<IRBlock>, c: Chart, postDominates: (Node, Node) -> bool, flags: set<Id>,
                   moved: set<Id>, k: nat, i: nat)
    requires forall h: nat, j: nat :: MakesValue(p, c.order, h, j) && Settled(k, i, h, j) ==>
               DecidedAt(p, q, c, postDominates, flags, moved, h, j)
    ensures Decided(p, q, c, postDominates, flags, moved, k, i)
  {}

  lemma ArgumentsAbove(q: seq<IRBlock>, c: Chart, n: Node, i: nat, target: Node)
    requires SSA.WellFormed(q, c.live, c.entry) && n in c.live && n < |q| && i < |q[n].operations| && LiveSet(q, c.live)
    requires Dominating(FlowOf(q), c.entry, n, target)
    ensures forall x: Id, d: Node ::
              IdArgument(x) in q[n].operations[i].arguments && d in c.live && Defines(q[d], x) ==>
                Dominating(FlowOf(q), c.entry, d, target)
  {
    hide SSA.WellFormed, Dominating, Defines;
    forall x: Id, d: Node | IdArgument(x) in q[n].operations[i].arguments && d in c.live && Defines(q[d], x)
      ensures Dominating(FlowOf(q), c.entry, d, target)
    {
      OperandsAbove(q, c.live, c.entry, n, i, target, x, d);
    }
  }

  /** The walk after an operation that moves. */
  lemma StepMoves(p: seq<IRBlock>, c: Chart, postDominates: (Node, Node) -> bool, movable: nat -> bool,
                  sinkable0: set<Id>, dependent0: set<Id>, consumed: map<Id, Option<Node>>, sinkable: set<Id>,
                  dependent: set<Id>, moves: seq<Move>, k: nat, i: nat, target: Node, chain: seq<Node>,
                  consumed': map<Id, Option<Node>>, sinkable': set<Id>, dependent': set<Id>)
    requires Walking(p, c, postDominates, movable, sinkable0, dependent0, consumed, sinkable, dependent, moves, k,
                     i + 1)
    requires BarriersMakeNothing(p, c.live) && target in c.live && target != c.order[k]
    requires OnlyReader(AfterMoves(p, moves)[c.order[k]].operations[i], c.order[k], sinkable + dependent, consumed)
             == Some(target)
    requires Dominating(FlowOf(AfterMoves(p, moves)), c.entry, c.order[k], target)
    requires !postDominates(target, c.order[k]) && ClearWay(p, c.pred, c.predBack, c.live, c.entry, c.order[k], target)
    requires ChainOf(AfterMoves(p, moves), c.live, c.order, c.order[k], target, chain) && c.entry !in chain
    requires forall b: Node :: b in chain ==> OnTheWay(p, c.entry, c.order[k], b, target)
    requires var q, n := AfterMoves(p, moves), c.order[k];
             Noting(NotedBefore(q, c.order, k, i + 1) + ArgumentReads(target, q[n].operations[i].arguments),
                    q[n].operations[i].arguments, target, consumed, sinkable, dependent, consumed', sinkable',
                    dependent')
    ensures var q, mv := AfterMoves(p, moves), Move(c.order[k], i, target, chain);
            && InBounds(q, mv) && AfterMoves(p, moves + [mv]) == Sunk(q, mv)
            && Walking(p, c, postDominates, movable, sinkable0, dependent0, consumed', sinkable', dependent',
                       moves + [mv], k, i)
  {
    hide Sound, MovesSoFar, Ahead, Books, Decided, Noting, OnlyReader, ClearWay, Fits, SSA.WellFormed, NotedBefore,
        ArgumentReads, AfterMoves, MovedIds, DecidedAt, Dominating, Sinkable, Straight, Sinker, ChainOf, InBounds, Sunk,
        MovedOp, OnTheWay, BarriersMakeNothing, DefinesOp, Distinct;
    var q, n, mv := AfterMoves(p, moves), c.order[k], Move(c.order[k], i, target, chain);
    var flags, moved := sinkable0 + dependent0, MovedIds(p, moves);
    AboutSound(q, c, consumed, sinkable + dependent, movable);
    AboutChart(p, c);
    AheadOp(p, q, c, k, i);
    MoveIsLegal(p, q, c, movable, sinkable0, dependent0, consumed, sinkable, dependent, moved, moves, k, i, target,
                chain);
    var op, r := q[n].operations[i], Sunk(q, mv);
    MovedFromHere(q, mv);
    OneMoreMove(p, q, c, movable, flags, moves, mv);
    AboutMoves(p, r, c, movable, flags, moves + [mv]);
    AheadMoves(p, q, c, k, mv);
    NotedThere(q, c.order, k, mv);
    assert sinkable - {} == sinkable;
    BooksNext(p, c, k, i, NotedBefore(q, c.order, k, i + 1), NotedBefore(r, c.order, k, i), target, consumed,
              sinkable0, dependent0, sinkable, dependent, moved, true, consumed', sinkable', dependent');
    SoundAfterMove(q, c, consumed, sinkable + dependent, movable, mv);
    AboutSound(r, c, consumed, sinkable + dependent, movable);
    DominatesItself(FlowOf(r), c.entry, target);
    ArgumentsAbove(r, c, target, 0, target);
    SoundAfterNoting(r, c, movable, target, NotedBefore(r, c.order, k, i), op.arguments, consumed, sinkable, dependent,
                     consumed', sinkable', dependent');
    forall h: nat, j: nat | MakesValue(p, c.order, h, j) && Settled(k, i, h, j)
      ensures DecidedAt(p, r, c, postDominates, flags, moved + {op.id}, h, j)
    {
      if Settled(k, i + 1, h, j) {
        DecidedBefore(p, q, c, postDominates, flags, moved, k, i + 1, h, j);
        DecidedKept(p, q, c, postDominates, flags, moved, k, mv, h, j);
      } else {
        OwnReads(p, q, c, k, mv);
        DecidedHere(p, q, r, c, postDominates, k, i, consumed, sinkable0, dependent0, sinkable, dependent, moved,
                    target);
      }
    }
    AllDecided(p, r, c, postDominates, flags, moved + {op.id}, k, i);
  }

  lemma MovedFromHere(q: seq<IRBlock>, mv: Move)
    requires InBounds(q, mv) && MovedOp(q, mv).id != 0
    ensures MovedOp(q, mv) == q[mv.source].operations[mv.at] && |Sunk(q, mv)| == |q| && FlowOf(Sunk(q, mv)) == FlowOf(q)
    ensures |Sunk(q, mv)[mv.target].operations| > 0 && Sunk(q, mv)[mv.target].operations[0] == MovedOp(q, mv)
    ensures DefinesOp(Sunk(q, mv)[mv.target].operations, MovedOp(q, mv).id)
  {
    MovedFlow(q, mv);
  }

  /** An operation does not read its own value, so moving it changes nothing about who does. */
  lemma OwnReads(p: seq<IRBlock>, q: seq<IRBlock>, c: Chart, k: nat, mv: Move)
    requires Fits(p, c) && SSA.WellFormed(p, c.live, c.entry) && k < |c.order| && Ahead(p, q, c, k, mv.at + 1)
    requires InBounds(q, mv) && mv.source == c.order[k] && MakesValue(p, c.order, k, mv.at)
    ensures |Sunk(q, mv)| == |q| && forall b: Node :: b < |q| ==>
              (Reads(Sunk(q, mv)[b], ValueOf(p, c.order, k, mv.at)) <==> Reads(q[b], ValueOf(p, c.order, k, mv.at)))
  {
    hide Fits, SSA.WellFormed, Reads;
    AheadOp(p, q, c, k, mv.at);
    UsesNothingSettled(p, c, k, mv.at, k, mv.at);
    forall b: Node | b < |q|
      ensures Reads(Sunk(q, mv)[b], ValueOf(p, c.order, k, mv.at)) <==> Reads(q[b], ValueOf(p, c.order, k, mv.at))
    {
      ReadsKept(q, mv, b, ValueOf(p, c.order, k, mv.at));
    }
  }

  /** Moves one operation, and notes what it reads where it ends up. A dry run only notes. */
  method SinkOp(g: Blocks, s: Sinks, idom: seq<Node>, postDominates: (Node, Node) -> bool, dryRun: bool, n: Node,
                i: nat, ghost k: nat, ghost p: seq<IRBlock>, ghost c: Chart, ghost movable: nat -> bool,
                ghost sinkable0: set<Id>, ghost dependent0: set<Id>, ghost moves0: seq<Move>)
    returns (ghost moves: seq<Move>)
    requires g.Valid() && g.pred == c.pred && g.predBackEdge == c.predBack && idom == c.idom
    requires k < |c.order| && c.order[k] == n && LiveSet(p, c.live) && BarriersMakeNothing(p, c.live)
    requires Walking(p, c, postDominates, movable, sinkable0, dependent0, s.consumed, s.sinkable, s.dependent, moves0,
                     k,
                     i + 1)
    requires g.blocks == if dryRun then p else AfterMoves(p, moves0)
    modifies g`blocks, s
    ensures g.Valid() && g.blocks == if dryRun then p else AfterMoves(p, moves)
    ensures Walking(p, c, postDominates, movable, sinkable0, dependent0, s.consumed, s.sinkable, s.dependent, moves, k,
                    i)
  {
    hide Walking, Sound, SameShape, Fits, SSA.WellFormed, Ahead, Books, Decided, MovesSoFar, Dominating, ChainOf,
        FlowOf, ClearWay, OnlyReader, Tracks, Recorded, Noting, NotedBefore, ArgumentReads, BarriersMakeNothing,
        OnTheWay, Sunk, InBounds, LiveSet;
    ghost var q := AfterMoves(p, moves0);
    AboutWalking(p, c, postDominates, movable, sinkable0, dependent0, s.consumed, s.sinkable, s.dependent, moves0, k,
                 i);
    var op := g.blocks[n].operations[i];
    ghost var noted := NotedBefore(q, c.order, k, i + 1);
    ghost var consumed, sinkable, dependent := s.consumed, s.sinkable, s.dependent;
    ShapeRefl(p);
    var target, chain := Decide(g, s, idom, postDominates, n, i, p, q, c, movable);
    FewerTracks(noted, consumed, sinkable + dependent, s.sinkable + dependent);
    if target != n && !dryRun {
      Apart(q, n, i, target, chain);
      g.blocks := g.blocks[n :=
                           g.blocks[n].(operations := g.blocks[n].operations[..i] + g.blocks[n].operations[i + 1..])]
                          [target := g.blocks[target].(operations := [op] + g.blocks[target].operations)];
    }
    ConsumeArguments(s, op.arguments, target, noted);
    if target != n {
      moves := moves0 + [Move(n, i, target, chain)];
      assert sinkable - {} == sinkable;
      StepMoves(p, c, postDominates, movable, sinkable0, dependent0, consumed, sinkable, dependent, moves0, k, i,
                target,
                chain, s.consumed, s.sinkable, s.dependent);
    } else {
      moves := moves0;
      ReaderIsElsewhere(q[n].operations[i], n, sinkable + dependent, consumed);
      StepStays(p, c, postDominates, movable, sinkable0, dependent0, consumed, sinkable, dependent, moves0, k, i,
                s.consumed, s.sinkable, s.dependent);
    }
  }

  lemma ReaderIsElsewhere(op: Op, n: Node, flags: set<Id>, consumed: map<Id, Option<Node>>)
    ensures OnlyReader(op, n, flags, consumed) != Some(n)
  {}

  lemma ShapeRefl(p: seq<IRBlock>)
    ensures SameShape(p, p)
  {}

  lemma FewerTracks(noted: Noted, consumed: map<Id, Option<Node>>, flags: set<Id>, flags': set<Id>)
    requires Tracks(noted, consumed, flags) && flags' <= flags
    ensures Tracks(noted, consumed, flags')
  {}

  /** What the two assignments make of the blocks. */
  lemma Apart(q: seq<IRBlock>, n: Node, i: nat, target: Node, chain: seq<Node>)
    requires n < |q| && target < |q| && target != n && i < |q[n].operations|
    ensures var op := q[n].operations[i];
            && InBounds(q, Move(n, i, target, chain))
            && Sunk(q, Move(n, i, target, chain))
               == q[n := q[n].(operations := q[n].operations[..i] + q[n].operations[i + 1..])]
                   [target := q[target].(operations := [op] + q[target].operations)]
  {}

  lemma AboutWalking(p: seq<IRBlock>, c: Chart, postDominates: (Node, Node) -> bool, movable: nat -> bool,
                     sinkable0: set<Id>, dependent0: set<Id>, consumed: map<Id, Option<Node>>, sinkable: set<Id>,
                     dependent: set<Id>, moves: seq<Move>, k: nat, i: nat)
    requires Walking(p, c, postDominates, movable, sinkable0, dependent0, consumed, sinkable, dependent, moves, k,
                     i + 1)
    ensures var q := AfterMoves(p, moves);
            && Fits(p, c) && SameShape(p, q) && Sound(q, c, consumed, sinkable + dependent, movable) && |q| == |p|
            && k < |c.order| && c.order[k] in c.live && c.order[k] < |q|
            && i < |q[c.order[k]].operations| && i < |p[c.order[k]].operations|
            && q[c.order[k]].operations[i] == p[c.order[k]].operations[i]
            && Tracks(NotedBefore(q, c.order, k, i + 1), consumed, sinkable + dependent)
            && Recorded(NotedBefore(q, c.order, k, i + 1), consumed)
            && forall b: Node :: b in c.live ==> b < |p|
  {
    hide Sound, SSA.WellFormed, Charted, Decided, SameOps, Mixed, AllStraight, AllSinkable, BooksAt, Tracks, Recorded,
        NotedBefore, SameShape, AfterMoves, MovedIds;
    AheadOp(p, AfterMoves(p, moves), c, k, i);
    AboutChart(p, c);
  }

  // ---------------------------------------------------------------- block after block

  function LengthAt(p: seq<IRBlock>, order: seq<Node>, k: nat): nat {
    if k < |order| && order[k] < |p| then |p[order[k]].operations| else 0
  }

  /** What holds when block number `k` is next. */
  ghost predicate Between(p: seq<IRBlock>, c: Chart, postDominates: (Node, Node) -> bool, movable: nat -> bool,
                          sinkable0: set<Id>, dependent0: set<Id>, consumed: map<Id, Option<Node>>, sinkable: set<Id>,
                          dependent: set<Id>, moves: seq<Move>, k: nat) {
    var q := AfterMoves(p, moves);
    && k <= |c.order| && Fits(p, c) && SSA.WellFormed(p, c.live, c.entry)
    && Sound(q, c, consumed, sinkable + dependent, movable)
    && MovesSoFar(p, q, c, movable, sinkable0 + dependent0, moves)
    && (forall h: nat :: k <= h < |c.order| && c.order[h] < |p| ==> q[c.order[h]] == p[c.order[h]])
    && Books(p, c, k, LengthAt(p, c.order, k), DoneReads(q, c.order[..k]), consumed, sinkable0, dependent0, sinkable,
             dependent, MovedIds(p, moves))
    && Decided(p, q, c, postDominates, sinkable0 + dependent0, MovedIds(p, moves), k, LengthAt(p, c.order, k))
  }

  /** A terminator reads nothing that was made in a block dealt with before. */
  lemma TerminatorReadsNothingSettled(p: seq<IRBlock>, c: Chart, k: nat, h: nat, j: nat)
    requires Fits(p, c) && SSA.WellFormed(p, c.live, c.entry) && k < |c.order| && c.order[k] < |p|
    requires MakesValue(p, c.order, h, j) && h < k
    ensures TerminatorUse(p[c.order[k]].terminator) != ValueOf(p, c.order, h, j)
  {
    hide Defines, Dominating, ChartedAt, Reach, InOrder;
    var b, d, x := c.order[k], c.order[h], ValueOf(p, c.order, h, j);
    AboutChart(p, c);
    if TerminatorUse(p[b].terminator) == x {
      OpDefines(p[d], j);
      FormDominates(p, c.live, c.entry);
      TerminatorReads(p[b]);
    }
  }

  lemma TerminatorReads(b: IRBlock)
    ensures Reads(b, TerminatorUse(b.terminator))
  {}

  /** The terminator of block number `k` has been noted. */
  lemma BlockStarts(p: seq<IRBlock>, c: Chart, postDominates: (Node, Node) -> bool, movable: nat -> bool,
                    sinkable0: set<Id>, dependent0: set<Id>, consumed: map<Id, Option<Node>>, sinkable: set<Id>,
                    dependent: set<Id>, moves: seq<Move>, k: nat, consumed': map<Id, Option<Node>>,
                    sinkable': set<Id>, dependent': set<Id>)
    requires Between(p, c, postDominates, movable, sinkable0, dependent0, consumed, sinkable, dependent, moves, k)
    requires k < |c.order| && c.order[k] < |p|
    requires var q, t := AfterMoves(p, moves), p[c.order[k]].terminator;
             Noting(DoneReads(q, c.order[..k]) + iset{(c.order[k], TerminatorUse(t))}, TerminatorArguments(t),
                    c.order[k], consumed, sinkable, dependent, consumed', sinkable', dependent')
    ensures Walking(p, c, postDominates, movable, sinkable0, dependent0, consumed', sinkable', dependent', moves, k,
                    |p[c.order[k]].operations|)
  {
    hide Sound, SSA.WellFormed, Fits, MovesSoFar, Decided, DoneReads, NotedBefore, AfterMoves, MovedIds, Tracks,
        Recorded, Books, Noting;
    var q, n := AfterMoves(p, moves), c.order[k];
    var noted, noted' := DoneReads(q, c.order[..k]), NotedBefore(q, c.order, k, |p[n].operations|);
    AboutChart(p, c);
    AboutMoves(p, q, c, movable, sinkable0 + dependent0, moves);
    NotedStart(q, c.order, k);
    assert q[n].operations[|p[n].operations|..] == [];
    TerminatorAbove(q, c, consumed, sinkable + dependent, movable, n);
    SoundAfterNoting(q, c, movable, n, noted', TerminatorArguments(p[n].terminator), consumed, sinkable, dependent,
                     consumed', sinkable', dependent');
    BooksStart(p, c, k, noted, noted', consumed, sinkable0, dependent0, sinkable, dependent, MovedIds(p, moves),
               consumed',
               sinkable', dependent');
  }

  lemma BooksStart(p: seq<IRBlock>, c: Chart, k: nat, noted: Noted, noted': Noted, consumed: map<Id, Option<Node>>,
                   sinkable0: set<Id>, dependent0: set<Id>, sinkable: set<Id>, dependent: set<Id>, moved: set<Id>,
                   consumed': map<Id, Option<Node>>, sinkable': set<Id>, dependent': set<Id>)
    requires Fits(p, c) && SSA.WellFormed(p, c.live, c.entry) && k < |c.order| && c.order[k] < |p| && noted <= noted'
    requires Books(p, c, k, LengthAt(p, c.order, k), noted, consumed, sinkable0, dependent0, sinkable, dependent, moved)
    requires Noting(noted', TerminatorArguments(p[c.order[k]].terminator), c.order[k], consumed, sinkable, dependent,
                    consumed', sinkable', dependent')
    ensures Books(p, c, k, |p[c.order[k]].operations|, noted', consumed', sinkable0, dependent0, sinkable', dependent',
                  moved)
  {
    hide Fits, SSA.WellFormed, Tracks, Recorded;
    var n := c.order[k];
    forall h: nat, j: nat | MakesValue(p, c.order, h, j)
      ensures BooksAt(noted', sinkable0, dependent0, sinkable', dependent', moved, ValueOf(p, c.order, h, j),
                      Settled(k, |p[n].operations|, h, j))
    {
      var x := ValueOf(p, c.order, h, j);
      assert BooksAt(noted, sinkable0, dependent0, sinkable, dependent, moved, x,
                     Settled(k, LengthAt(p, c.order, k), h, j));
      if h < k {
        TerminatorReadsNothingSettled(p, c, k, h, j);
      }
      if TwoReaders(noted, x) {
        var a: Node, b: Node :| a != b && (a, x) in noted && (b, x) in noted;
        assert (a, x) in noted' && (b, x) in noted';
      }
    }
  }

  lemma TerminatorAbove(q: seq<IRBlock>, c: Chart, consumed: map<Id, Option<Node>>, flags: set<Id>,
                        movable: nat -> bool, n: Node)
    requires Sound(q, c, consumed, flags, movable) && n in c.live
    ensures LiveSet(q, c.live) && n < |q| && forall x: Id, d: Node ::
              IdArgument(x) in TerminatorArguments(q[n].terminator) && d in c.live && Defines(q[d], x) ==>
                Dominating(FlowOf(q), c.entry, d, n)
  {
    hide Charted, InOrder, Dominating, Defines;
    AboutSound(q, c, consumed, flags, movable);
    FormDominates(q, c.live, c.entry);
    forall x: Id, d: Node | IdArgument(x) in TerminatorArguments(q[n].terminator) && d in c.live && Defines(q[d], x)
      ensures Dominating(FlowOf(q), c.entry, d, n)
    {
      assert Reads(q[n], x);
    }
  }

  /** All operations of block number `k` have been dealt with. */
  lemma BlockEnds(p: seq<IRBlock>, c: Chart, postDominates: (Node, Node) -> bool, movable: nat -> bool,
                  sinkable0: set<Id>, dependent0: set<Id>, consumed: map<Id, Option<Node>>, sinkable: set<Id>,
                  dependent: set<Id>, moves: seq<Move>, k: nat)
    requires Walking(p, c, postDominates, movable, sinkable0, dependent0, consumed, sinkable, dependent, moves, k, 0)
    ensures Between(p, c, postDominates, movable, sinkable0, dependent0, consumed, sinkable, dependent, moves, k + 1)
  {
    hide Sound, SSA.WellFormed, Fits, MovesSoFar, DecidedAt, BooksAt, DoneReads, NotedBefore, AfterMoves, MovedIds,
        Tracks, Recorded;
    var q := AfterMoves(p, moves);
    NotedEnd(q, c.order, k);
    forall h: nat, j: nat | MakesValue(p, c.order, h, j)
      ensures Settled(k + 1, LengthAt(p, c.order, k + 1), h, j) <==> Settled(k, 0, h, j)
    {}
  }

  /** One block, from its terminator up. */
  method SinkBlock(g: Blocks, s: Sinks, idom: seq<Node>, postDominates: (Node, Node) -> bool, dryRun: bool, n: Node,
                   ghost k: nat, ghost p: seq<IRBlock>, ghost c: Chart, ghost movable: nat -> bool,
                   ghost sinkable0: set<Id>, ghost dependent0: set<Id>, ghost moves0: seq<Move>)
    returns (ghost moves: seq<Move>)
    requires g.Valid() && g.pred == c.pred && g.predBackEdge == c.predBack && idom == c.idom
    requires k < |c.order| && c.order[k] == n && LiveSet(p, c.live) && BarriersMakeNothing(p, c.live)
    requires Between(p, c, postDominates, movable, sinkable0, dependent0, s.consumed, s.sinkable, s.dependent, moves0,
                     k)
    requires g.blocks == if dryRun then p else AfterMoves(p, moves0)
    modifies g`blocks, s
    ensures g.Valid() && g.blocks == if dryRun then p else AfterMoves(p, moves)
    ensures Between(p, c, postDominates, movable, sinkable0, dependent0, s.consumed, s.sinkable, s.dependent, moves,
                    k + 1)
  {
    hide Walking, Between, Noting, Tracks, Recorded, DoneReads, BarriersMakeNothing, LiveSet;
    moves := moves0;
    AboutBetween(p, c, postDominates, movable, sinkable0, dependent0, s.consumed, s.sinkable, s.dependent, moves, k);
    ghost var consumed, sinkable, dependent := s.consumed, s.sinkable, s.dependent;
    ConsumeTerminator(s, g.blocks[n].terminator, n, DoneReads(AfterMoves(p, moves), c.order[..k]));
    BlockStarts(p, c, postDominates, movable, sinkable0, dependent0, consumed, sinkable, dependent, moves, k,
                s.consumed,
                s.sinkable, s.dependent);
    var i: nat := |g.blocks[n].operations|;
    while i > 0
      invariant g.Valid() && g.blocks == if dryRun then p else AfterMoves(p, moves)
      invariant Walking(p, c, postDominates, movable, sinkable0, dependent0, s.consumed, s.sinkable, s.dependent, moves,
                        k, i)
      modifies g`blocks, s
    {
      i := i - 1;
      moves := SinkOp(g, s, idom, postDominates, dryRun, n, i, k, p, c, movable, sinkable0, dependent0, moves);
    }
    BlockEnds(p, c, postDominates, movable, sinkable0, dependent0, s.consumed, s.sinkable, s.dependent, moves, k);
  }

  lemma AboutBetween(p: seq<IRBlock>, c: Chart, postDominates: (Node, Node) -> bool, movable: nat -> bool,
                     sinkable0: set<Id>, dependent0: set<Id>, consumed: map<Id, Option<Node>>, sinkable: set<Id>,
                     dependent: set<Id>, moves: seq<Move>, k: nat)
    requires Between(p, c, postDominates, movable, sinkable0, dependent0, consumed, sinkable, dependent, moves, k)
    requires k < |c.order|
    ensures var q := AfterMoves(p, moves);
            && c.order[k] < |p| == |q| && q[c.order[k]] == p[c.order[k]] && 0 !in consumed
            && Tracks(DoneReads(q, c.order[..k]), consumed, sinkable + dependent)
            && Recorded(DoneReads(q, c.order[..k]), consumed)
  {
    hide SSA.WellFormed, Charted, Decided, SameOps, Mixed, AllStraight, AllSinkable, BooksAt, Tracks, Recorded,
        DoneReads, AfterMoves, MovedIds;
    AboutChart(p, c);
  }
}
