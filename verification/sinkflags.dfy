/** Which values may sink: flags that are handed on from operation to operation. */
module SinkFlags {
  import opened Wrappers
  import opened Graphs
  import opened Lists
  import opened IR
  import opened TailSplit
  import opened SinkPass
  import SSA

  /** The flags of the operations, by the values that they make, and the block on record for each value that
      could sink. */
  class Sinks {
    var sinkable: set<Id>
    var dependent: set<Id>
    var consumed: map<Id, Option<Node>>

    constructor (flagged: set<Id>)
      ensures sinkable == flagged && dependent == {} && consumed == map[]
    {
      sinkable, dependent, consumed := flagged, {}, map[];
    }

    function Flags(): set<Id>
      reads this
    {
      sinkable + dependent
    }

    /** Takes both flags off the operation. */
    method Clear(x: Id)
      modifies `sinkable, `dependent
      ensures sinkable == old(sinkable) - {x} && dependent == old(dependent) - {x}
    {
      sinkable, dependent := sinkable - {x}, dependent - {x};
    }
  }

  /** Barriers make no values. */
  ghost predicate BarriersMakeNothing(p: seq<IRBlock>, live: set<Node>)
    requires LiveSet(p, live)
  {
    forall b: Node, i :: b in live && 0 <= i < |p[b].operations| && IsBarrier(p[b].operations[i]) ==>
      p[b].operations[i].id == 0
  }

  // ---------------------------------------------------------------- handing on

  /** No barrier between the two operations. */
  ghost predicate Unbarred(ops: seq<Op>, j: int, i: int) {
    forall k :: j < k < i && 0 <= k < |ops| ==> !IsBarrier(ops[k])
  }

  /** The operation is flagged, or may move and uses the value of one before it that is, with no barrier between. */
  ghost predicate HandedOn(ops: seq<Op>, sinkable: set<Id>, movable: nat -> bool, i: nat)
    requires i < |ops|
    decreases i
  {
    ops[i].id in sinkable
    || (ops[i].id != 0 && movable(ops[i].op)
        && exists j :: 0 <= j < i && UsesId(ops[i], ops[j].id) && Unbarred(ops, j, i)
                       && HandedOn(ops, sinkable, movable, j))
  }

  /** Operation `j` still has a flag when the scan gets to operation `i`. */
  ghost predicate Flagged(ops: seq<Op>, sinkable: set<Id>, movable: nat -> bool, j: nat, i: nat) {
    j < |ops| && j < i && HandedOn(ops, sinkable, movable, j) && Unbarred(ops, j, i)
  }

  /** What the scan of the first `i` operations has made of the flags. */
  ghost predicate Scanned(ops: seq<Op>, i: nat, movable: nat -> bool, sinkable0: set<Id>, dependent0: set<Id>,
                          keys0: set<Id>, sinkable: set<Id>, dependent: set<Id>, keys: set<Id>) {
    && (forall x: Id :: x in sinkable <==>
          x in sinkable0 && forall j :: 0 <= j < i && j < |ops| && ops[j].id == x ==> Unbarred(ops, j, i))
    && (forall x: Id :: x in dependent <==>
          x in dependent0
          || (x !in sinkable0 && exists j :: 0 <= j < i && Flagged(ops, sinkable0, movable, j, i) && ops[j].id == x))
    && (forall x: Id :: x in keys <==>
          x in keys0
          || exists j :: 0 <= j < i && j < |ops| && ops[j].id == x && HandedOn(ops, sinkable0, movable, j))
  }

  /** The values that `here` holds: those flagged since the last barrier. */
  ghost predicate IsHere(ops: seq<Op>, i: nat, movable: nat -> bool, sinkable0: set<Id>, here: set<Id>) {
    forall x: Id :: x in here <==> exists j :: 0 <= j < i && Flagged(ops, sinkable0, movable, j, i) && ops[j].id == x
  }

  /** What the scan of a block asks of it: each value is made once, barriers make none, and no flag is on a missing
      value. */
  ghost predicate Scannable(ops: seq<Op>, sinkable0: set<Id>, dependent0: set<Id>) {
    && IdsApart(ops) && 0 !in sinkable0
    && forall i :: 0 <= i < |ops| ==> (IsBarrier(ops[i]) ==> ops[i].id == 0) && ops[i].id !in dependent0
  }

  lemma UnbarredNext(ops: seq<Op>, j: int, i: nat)
    requires j < i < |ops|
    ensures Unbarred(ops, j, i + 1) <==> Unbarred(ops, j, i) && (!IsBarrier(ops[i]) || j == i)
  {}

  /** The flag of operation `i` itself is asked for as it was at the start. */
  lemma OwnFlag(ops: seq<Op>, i: nat, movable: nat -> bool, sinkable0: set<Id>, dependent0: set<Id>, keys0: set<Id>,
                sinkable: set<Id>, dependent: set<Id>, keys: set<Id>)
    requires Scannable(ops, sinkable0, dependent0) && i < |ops|
    requires Scanned(ops, i, movable, sinkable0, dependent0, keys0, sinkable, dependent, keys)
    ensures ops[i].id in sinkable <==> ops[i].id in sinkable0
  {}

  lemma HandedOnHere(ops: seq<Op>, i: nat, movable: nat -> bool, sinkable0: set<Id>, here: set<Id>)
    requires i < |ops| && IsHere(ops, i, movable, sinkable0, here)
    ensures HandedOn(ops, sinkable0, movable, i) <==>
              ops[i].id in sinkable0
              || (ops[i].id != 0 && movable(ops[i].op)
                  && exists a :: a in ops[i].arguments && a.IdArgument? && a.id in here)
  {
    if a :| a in ops[i].arguments && a.IdArgument? && a.id in here {
      var j :| 0 <= j < i && Flagged(ops, sinkable0, movable, j, i) && ops[j].id == a.id;
      assert UsesId(ops[i], ops[j].id);
    }
    if j :| 0 <= j < i && UsesId(ops[i], ops[j].id) && Unbarred(ops, j, i) && HandedOn(ops, sinkable0, movable, j) {
      assert Flagged(ops, sinkable0, movable, j, i);
      assert IdArgument(ops[j].id) in ops[i].arguments && IdArgument(ops[j].id).id in here;
    }
  }

  lemma FlaggedNext(ops: seq<Op>, sinkable: set<Id>, movable: nat -> bool, j: nat, i: nat)
    requires i < |ops| && !IsBarrier(ops[i]) && j <= i
    ensures Unbarred(ops, j, i + 1) <==> Unbarred(ops, j, i)
    ensures Flagged(ops, sinkable, movable, j, i + 1) <==>
              if j == i then HandedOn(ops, sinkable, movable, i) else Flagged(ops, sinkable, movable, j, i)
  {
    hide HandedOn;
    if j < i {
      UnbarredNext(ops, j, i);
    }
  }

  /** The values that have a flag after one more operation. */
  lemma HereNext(ops: seq<Op>, i: nat, movable: nat -> bool, sinkable: set<Id>, x: Id)
    requires i < |ops| && !IsBarrier(ops[i])
    ensures (exists j :: 0 <= j < i + 1 && Flagged(ops, sinkable, movable, j, i + 1) && ops[j].id == x) <==>
              (exists j :: 0 <= j < i && Flagged(ops, sinkable, movable, j, i) && ops[j].id == x)
              || (HandedOn(ops, sinkable, movable, i) && ops[i].id == x)
  {
    hide HandedOn, Unbarred, Flagged;
    if j :| 0 <= j < i && Flagged(ops, sinkable, movable, j, i) && ops[j].id == x {
      FlaggedNext(ops, sinkable, movable, j, i);
    }
    FlaggedNext(ops, sinkable, movable, i, i);
    if j :| 0 <= j < i + 1 && Flagged(ops, sinkable, movable, j, i + 1) && ops[j].id == x {
      FlaggedNext(ops, sinkable, movable, j, i);
    }
  }

  /** An operation that is no barrier keeps the flags before it, and may have one itself. */
  lemma ScannedFlag(ops: seq<Op>, i: nat, movable: nat -> bool, sinkable0: set<Id>, dependent0: set<Id>, keys0: set<Id>,
                    sinkable: set<Id>, dependent: set<Id>, keys: set<Id>, here: set<Id>)
    requires Scannable(ops, sinkable0, dependent0) && i < |ops| && !IsBarrier(ops[i])
    requires Scanned(ops, i, movable, sinkable0, dependent0, keys0, sinkable, dependent, keys)
    requires IsHere(ops, i, movable, sinkable0, here)
    ensures var new' := if HandedOn(ops, sinkable0, movable, i) then {ops[i].id} else {};
            && Scanned(ops, i + 1, movable, sinkable0, dependent0, keys0, sinkable,
                       dependent + if ops[i].id in sinkable0 then {} else new', keys + new')
            && IsHere(ops, i + 1, movable, sinkable0, here + new')
  {
    hide HandedOn, Scannable, Unbarred, Flagged;
    var new' := if HandedOn(ops, sinkable0, movable, i) then {ops[i].id} else {};
    forall x: Id ensures x in here + new' <==>
                           exists j :: 0 <= j < i + 1 && Flagged(ops, sinkable0, movable, j, i + 1) && ops[j].id == x {
      HereNext(ops, i, movable, sinkable0, x);
    }
    forall x: Id
      ensures x in sinkable <==>
                x in sinkable0 && forall j :: 0 <= j < i + 1 && j < |ops| && ops[j].id == x ==> Unbarred(ops, j, i + 1)
    {
      KeptNext(ops, i, x);
    }
    forall x: Id
      ensures x in dependent + (if ops[i].id in sinkable0 then {} else new') <==>
                x in dependent0
                || (x !in sinkable0
                    && exists j :: 0 <= j < i + 1 && Flagged(ops, sinkable0, movable, j, i + 1) && ops[j].id == x)
    {
      HereNext(ops, i, movable, sinkable0, x);
    }
  }

  /** No barrier has come after the value's operation. */
  lemma KeptNext(ops: seq<Op>, i: nat, x: Id)
    requires i < |ops| && !IsBarrier(ops[i])
    ensures (forall j :: 0 <= j < i + 1 && j < |ops| && ops[j].id == x ==> Unbarred(ops, j, i + 1)) <==>
              forall j :: 0 <= j < i && j < |ops| && ops[j].id == x ==> Unbarred(ops, j, i)
  {
    forall j: nat {:trigger Unbarred(ops, j, i + 1)} {:trigger Unbarred(ops, j, i)} | j < i
      ensures Unbarred(ops, j, i + 1) <==> Unbarred(ops, j, i)
    {
      UnbarredNext(ops, j, i);
    }
  }

  /** A barrier takes all flags before it. */
  lemma ScannedBarrier(ops: seq<Op>, i: nat, movable: nat -> bool, sinkable0: set<Id>, dependent0: set<Id>,
                       keys0: set<Id>, sinkable: set<Id>, dependent: set<Id>, keys: set<Id>, here: set<Id>)
    requires Scannable(ops, sinkable0, dependent0) && i < |ops| && IsBarrier(ops[i])
    requires Scanned(ops, i, movable, sinkable0, dependent0, keys0, sinkable, dependent, keys)
    requires IsHere(ops, i, movable, sinkable0, here)
    ensures Scanned(ops, i + 1, movable, sinkable0, dependent0, keys0, sinkable - here, dependent - here, keys)
    ensures IsHere(ops, i + 1, movable, sinkable0, {})
  {
    assert !HandedOn(ops, sinkable0, movable, i);
    hide HandedOn;
    forall j: nat {:trigger Unbarred(ops, j, i + 1)} | j < i ensures !Unbarred(ops, j, i + 1) {
      UnbarredNext(ops, j, i);
    }
    forall x: Id | x in here ensures x !in dependent0 {
      var j :| 0 <= j < i && Flagged(ops, sinkable0, movable, j, i) && ops[j].id == x;
    }
    forall x: Id
      ensures x in sinkable - here <==>
                x in sinkable0 && forall j :: 0 <= j < i + 1 && j < |ops| && ops[j].id == x ==> Unbarred(ops, j, i + 1)
    {
      if x in sinkable {
        if j :| 0 <= j < i && ops[j].id == x {
          FlagOfSinkable(ops, sinkable0, movable, j, i);
        }
      }
      if x in sinkable && x in here {
        var j :| 0 <= j < i && Flagged(ops, sinkable0, movable, j, i) && ops[j].id == x;
      }
    }
  }

  lemma FlagOfSinkable(ops: seq<Op>, sinkable: set<Id>, movable: nat -> bool, j: nat, i: nat)
    requires j < |ops| && j < i && ops[j].id in sinkable && Unbarred(ops, j, i)
    ensures Flagged(ops, sinkable, movable, j, i)
  {}

  /** Nothing has been read yet, and no operation without a value is on record. */
  ghost predicate NoneRead(consumed: map<Id, Option<Node>>) {
    0 !in consumed && forall x: Id :: x in consumed ==> consumed[x].None?
  }

  /** Sinkability is handed on to operations that use sinkable values; a barrier takes it away from everything
      before it. */
  method PropagateBlock(s: Sinks, ops: seq<Op>, movable: nat -> bool)
    requires NoneRead(s.consumed) && Scannable(ops, s.sinkable, s.dependent)
    modifies s
    ensures NoneRead(s.consumed)
    ensures Scanned(ops, |ops|, movable, old(s.sinkable), old(s.dependent), old(s.consumed.Keys), s.sinkable,
                    s.dependent, s.consumed.Keys)
  {
    hide HandedOn, Scanned, IsHere;
    var here: set<Id> := {};
    ScannedStart(ops, movable, s.sinkable, s.dependent, s.consumed.Keys);
    for i := 0 to |ops|
      invariant NoneRead(s.consumed)
      invariant Scanned(ops, i, movable, old(s.sinkable), old(s.dependent), old(s.consumed.Keys), s.sinkable,
                        s.dependent, s.consumed.Keys)
      invariant IsHere(ops, i, movable, old(s.sinkable), here)
    {
      var op := ops[i];
      ghost var sinkable, dependent, keys, was := s.sinkable, s.dependent, s.consumed.Keys, here;
      ghost var new' := if HandedOn(ops, old(s.sinkable), movable, i) then {op.id} else {};
      OwnFlag(ops, i, movable, old(s.sinkable), old(s.dependent), old(s.consumed.Keys), s.sinkable, s.dependent,
              s.consumed.Keys);
      HandedOnHere(ops, i, movable, old(s.sinkable), here);
      if IsBarrier(op) {
        ScannedBarrier(ops, i, movable, old(s.sinkable), old(s.dependent), old(s.consumed.Keys), s.sinkable,
                       s.dependent, s.consumed.Keys, here);
      } else {
        ScannedFlag(ops, i, movable, old(s.sinkable), old(s.dependent), old(s.consumed.Keys), s.sinkable, s.dependent,
                    s.consumed.Keys, here);
      }
      if op.id in s.sinkable {
        here := here + {op.id};
        s.consumed := s.consumed[op.id := None];
      } else if op.id != 0 && movable(op.op) {
        if exists a :: a in op.arguments && a.IdArgument? && a.id in here {
          here := here + {op.id};
          s.dependent := s.dependent + {op.id};
          s.consumed := s.consumed[op.id := None];
        }
      } else if IsBarrier(op) {
        s.sinkable, s.dependent := s.sinkable - here, s.dependent - here;
        here := {};
      }
      if !IsBarrier(op) {
        assert s.sinkable == sinkable && here == was + new' && s.consumed.Keys == keys + new';
        assert s.dependent == dependent + if op.id in old(s.sinkable) then {} else new';
      }
    }
  }

  lemma ScannedStart(ops: seq<Op>, movable: nat -> bool, sinkable: set<Id>, dependent: set<Id>, keys: set<Id>)
    ensures Scanned(ops, 0, movable, sinkable, dependent, keys, sinkable, dependent, keys)
    ensures IsHere(ops, 0, movable, sinkable, {})
  {}

  // ---------------------------------------------------------------- all blocks

  /** The flags of a block's values after the scan of the block, by the flags that were given. */
  ghost predicate BlockFlags(ops: seq<Op>, given: set<Id>, movable: nat -> bool, sinkable: set<Id>, dependent: set<Id>,
                             keys: set<Id>) {
    forall j :: 0 <= j < |ops| && ops[j].id != 0 ==>
      && (ops[j].id in sinkable <==> ops[j].id in given && Flagged(ops, given, movable, j, |ops|))
      && (ops[j].id in dependent <==> ops[j].id !in given && Flagged(ops, given, movable, j, |ops|))
      && (ops[j].id in keys <==> HandedOn(ops, given, movable, j))
  }

  /** Its flags before the scan. */
  ghost predicate GivenFlags(ops: seq<Op>, given: set<Id>, sinkable: set<Id>, dependent: set<Id>, keys: set<Id>) {
    forall j :: 0 <= j < |ops| && ops[j].id != 0 ==>
      (ops[j].id in sinkable <==> ops[j].id in given) && ops[j].id !in dependent && ops[j].id !in keys
  }

  /** Only the flags of the block's own values count. */
  lemma {:induction false} SameFlags(ops: seq<Op>, given: set<Id>, sinkable: set<Id>, movable: nat -> bool, i: nat)
    requires i < |ops| && 0 !in given && 0 !in sinkable
    requires forall j :: 0 <= j < |ops| && ops[j].id != 0 ==> (ops[j].id in sinkable <==> ops[j].id in given)
    ensures HandedOn(ops, given, movable, i) <==> HandedOn(ops, sinkable, movable, i)
    decreases i
  {
    forall j: nat | j < i ensures HandedOn(ops, given, movable, j) <==> HandedOn(ops, sinkable, movable, j) {
      SameFlags(ops, given, sinkable, movable, j);
    }
  }

  lemma ScannedBlock(ops: seq<Op>, movable: nat -> bool, given: set<Id>, sinkable0: set<Id>, dependent0: set<Id>,
                     keys0: set<Id>, sinkable: set<Id>, dependent: set<Id>, keys: set<Id>)
    requires Scannable(ops, sinkable0, dependent0) && GivenFlags(ops, given, sinkable0, dependent0, keys0)
    requires Scanned(ops, |ops|, movable, sinkable0, dependent0, keys0, sinkable, dependent, keys) && 0 !in given
    ensures BlockFlags(ops, given, movable, sinkable, dependent, keys)
  {
    hide HandedOn, Unbarred;
    forall j: nat | j < |ops|
      ensures HandedOn(ops, given, movable, j) <==> HandedOn(ops, sinkable0, movable, j)
    {
      SameFlags(ops, given, sinkable0, movable, j);
    }
    forall j | 0 <= j < |ops| && ops[j].id != 0
      ensures ops[j].id in sinkable <==> ops[j].id in given && Flagged(ops, given, movable, j, |ops|)
      ensures ops[j].id in dependent <==> ops[j].id !in given && Flagged(ops, given, movable, j, |ops|)
      ensures ops[j].id in keys <==> HandedOn(ops, given, movable, j)
    {
      forall i | 0 <= i < |ops| && ops[i].id == ops[j].id ensures i == j {}
      if ops[j].id in given && Unbarred(ops, j, |ops|) {
        FlagOfSinkable(ops, given, movable, j, |ops|);
      }
      assert Flagged(ops, given, movable, j, |ops|) <==> Flagged(ops, sinkable0, movable, j, |ops|);
    }
  }

  /** A scan leaves other blocks' values alone. */
  lemma OtherFlags(ops: seq<Op>, movable: nat -> bool, sinkable0: set<Id>, dependent0: set<Id>, keys0: set<Id>,
                   sinkable: set<Id>, dependent: set<Id>, keys: set<Id>, x: Id)
    requires Scanned(ops, |ops|, movable, sinkable0, dependent0, keys0, sinkable, dependent, keys)
    requires forall j :: 0 <= j < |ops| ==> ops[j].id != x
    ensures (x in sinkable <==> x in sinkable0) && (x in dependent <==> x in dependent0) && (x in keys <==> x in keys0)
  {}

  lemma MadeElsewhere(p: seq<IRBlock>, live: set<Node>, entry: Node, b: Node, d: Node, i: nat, j: nat)
    requires SSA.WellFormed(p, live, entry) && b in live && d in live && b != d
    requires i < |p[b].operations| && j < |p[d].operations| && p[b].operations[i].id != 0
    ensures p[b].operations[i].id != p[d].operations[j].id
  {
    hide InOrder;
    OpDefines(p[b], i);
    if p[b].operations[i].id == p[d].operations[j].id {
      OpDefines(p[d], j);
    }
  }

  /** How far the scan of the blocks has come. */
  ghost predicate ScannedBlocks(p: seq<IRBlock>, order: seq<Node>, k: nat, given: set<Id>, movable: nat -> bool,
                                sinkable: set<Id>, dependent: set<Id>, keys: set<Id>) {
    forall a :: 0 <= a < |order| && order[a] < |p| ==>
      if a < k then BlockFlags(p[order[a]].operations, given, movable, sinkable, dependent, keys)
      else GivenFlags(p[order[a]].operations, given, sinkable, dependent, keys)
  }

  lemma NextScanned(p: seq<IRBlock>, live: set<Node>, entry: Node, order: seq<Node>, k: nat, given: set<Id>,
                    movable: nat -> bool, sinkable0: set<Id>, dependent0: set<Id>, keys0: set<Id>,
                    sinkable: set<Id>, dependent: set<Id>, keys: set<Id>)
    requires SSA.WellFormed(p, live, entry) && Distinct(order) && (forall b: Node :: b in live <==> b in order)
    requires k < |order| && order[k] in live && 0 !in given
    requires ScannedBlocks(p, order, k, given, movable, sinkable0, dependent0, keys0)
    requires Scannable(p[order[k]].operations, sinkable0, dependent0)
    requires Scanned(p[order[k]].operations, |p[order[k]].operations|, movable, sinkable0, dependent0, keys0, sinkable,
                     dependent, keys)
    ensures ScannedBlocks(p, order, k + 1, given, movable, sinkable, dependent, keys)
  {
    hide SSA.WellFormed, Scanned, Scannable, HandedOn, Flagged, Distinct;
    SSA.AboutWellFormed(p, live, entry);
    var n := order[k];
    ScannedBlock(p[n].operations, movable, given, sinkable0, dependent0, keys0, sinkable, dependent, keys);
    forall a | 0 <= a < |order| && order[a] < |p| && a != k
      ensures if a < k then BlockFlags(p[order[a]].operations, given, movable, sinkable, dependent, keys)
              else GivenFlags(p[order[a]].operations, given, sinkable, dependent, keys)
    {
      var b, ops := order[a], p[order[a]].operations;
      assert b in order;
      DistinctPair(order, if a < k then a else k, if a < k then k else a);
      forall j | 0 <= j < |ops| && ops[j].id != 0
        ensures (ops[j].id in sinkable <==> ops[j].id in sinkable0)
        ensures (ops[j].id in dependent <==> ops[j].id in dependent0) && (ops[j].id in keys <==> ops[j].id in keys0)
      {
        forall i | 0 <= i < |p[n].operations| ensures p[n].operations[i].id != ops[j].id {
          MadeElsewhere(p, live, entry, b, n, j, i);
        }
        OtherFlags(p[n].operations, movable, sinkable0, dependent0, keys0, sinkable, dependent, keys, ops[j].id);
      }
    }
  }

  lemma NextScannable(p: seq<IRBlock>, live: set<Node>, entry: Node, order: seq<Node>, k: nat, given: set<Id>,
                      movable: nat -> bool, sinkable: set<Id>, dependent: set<Id>, keys: set<Id>)
    requires SSA.WellFormed(p, live, entry) && LiveSet(p, live) && BarriersMakeNothing(p, live)
    requires k < |order| && order[k] in live && 0 !in sinkable && 0 !in dependent
    requires ScannedBlocks(p, order, k, given, movable, sinkable, dependent, keys)
    ensures Scannable(p[order[k]].operations, sinkable, dependent)
  {
    AboutInOrder(p[order[k]]);
  }

  lemma ScannedZero(ops: seq<Op>, i: nat, movable: nat -> bool, sinkable0: set<Id>, dependent0: set<Id>, keys0: set<Id>,
                    sinkable: set<Id>, dependent: set<Id>, keys: set<Id>)
    requires Scanned(ops, i, movable, sinkable0, dependent0, keys0, sinkable, dependent, keys)
    requires 0 !in sinkable0 && 0 !in dependent0
    ensures sinkable <= sinkable0 && 0 !in dependent
  {}

  /** The first scan. */
  method Propagate(s: Sinks, p: seq<IRBlock>, order: seq<Node>, movable: nat -> bool, ghost live: set<Node>,
                   ghost entry: Node)
    requires SSA.WellFormed(p, live, entry) && LiveSet(p, live) && BarriersMakeNothing(p, live)
    requires Distinct(order) && (forall b: Node :: b in live <==> b in order)
    requires s.consumed == map[] && s.dependent == {} && 0 !in s.sinkable
    modifies s
    ensures NoneRead(s.consumed) && s.sinkable <= old(s.sinkable)
    ensures ScannedBlocks(p, order, |order|, old(s.sinkable), movable, s.sinkable, s.dependent, s.consumed.Keys)
  {
    hide SSA.WellFormed, ScannedBlocks, Scanned, Scannable, BarriersMakeNothing, LiveSet, Distinct;
    ghost var given := s.sinkable;
    SSA.AboutWellFormed(p, live, entry);
    StartOfScan(p, order, given, movable);
    assert s.consumed.Keys == {};
    for k := 0 to |order|
      invariant NoneRead(s.consumed) && s.sinkable <= given && 0 !in s.dependent
      invariant ScannedBlocks(p, order, k, given, movable, s.sinkable, s.dependent, s.consumed.Keys)
    {
      assert order[k] in live;
      ghost var sinkable0, dependent0, keys0 := s.sinkable, s.dependent, s.consumed.Keys;
      NextScannable(p, live, entry, order, k, given, movable, sinkable0, dependent0, keys0);
      PropagateBlock(s, p[order[k]].operations, movable);
      ScannedZero(p[order[k]].operations, |p[order[k]].operations|, movable, sinkable0, dependent0, keys0, s.sinkable,
                  s.dependent, s.consumed.Keys);
      NextScanned(p, live, entry, order, k, given, movable, sinkable0, dependent0, keys0, s.sinkable, s.dependent,
                  s.consumed.Keys);
    }
  }

  lemma StartOfScan(p: seq<IRBlock>, order: seq<Node>, given: set<Id>, movable: nat -> bool)
    ensures ScannedBlocks(p, order, 0, given, movable, given, {}, {})
  {}

  // ---------------------------------------------------------------- PHIs

  /** Some PHI takes the value. */
  ghost predicate InPhi(p: seq<IRBlock>, live: set<Node>, x: Id) {
    exists b: Node, i, j ::
      b in live && b < |p| && 0 <= i < |p[b].phi| && 0 <= j < |p[b].phi[i].incoming| && p[b].phi[i].incoming[j].id == x
  }

  /** No flagged value goes into a PHI. */
  ghost predicate PhiFree(q: seq<IRBlock>, live: set<Node>, consumed: map<Id, Option<Node>>, flags: set<Id>) {
    forall x: Id :: InPhi(q, live, x) && x in consumed ==> x !in flags
  }

  ghost predicate BlockPhiFree(b: IRBlock, consumed: map<Id, Option<Node>>, flags: set<Id>) {
    forall i, j ::
      0 <= i < |b.phi| && 0 <= j < |b.phi[i].incoming| && b.phi[i].incoming[j].id in consumed ==>
        b.phi[i].incoming[j].id !in flags
  }

  /** A value that goes into a PHI is not sunk. */
  method ExcludePhis(s: Sinks, p: seq<IRBlock>, order: seq<Node>, ghost live: set<Node>)
    requires LiveSet(p, live) && (forall b: Node :: b in live <==> b in order)
    modifies s`sinkable, s`dependent
    ensures forall x: Id :: x in s.sinkable <==> x in old(s.sinkable) && !(x in s.consumed && InPhi(p, live, x))
    ensures forall x: Id :: x in s.dependent <==> x in old(s.dependent) && !(x in s.consumed && InPhi(p, live, x))
  {
    hide InPhi;
    ghost var out: set<Id> := {};
    for k := 0 to |order|
      invariant s.sinkable == old(s.sinkable) - out && s.dependent == old(s.dependent) - out
      invariant forall x: Id :: x in out ==> x in s.consumed && InPhi(p, live, x)
      invariant forall a :: 0 <= a < k && order[a] in live ==> BlockPhiFree(p[order[a]], s.consumed, s.Flags())
    {
      assert order[k] in live;
      var b := p[order[k]];
      for i := 0 to |b.phi|
        invariant s.sinkable == old(s.sinkable) - out && s.dependent == old(s.dependent) - out
        invariant forall x: Id :: x in out ==> x in s.consumed && InPhi(p, live, x)
        invariant forall a :: 0 <= a < k && order[a] in live ==> BlockPhiFree(p[order[a]], s.consumed, s.Flags())
        invariant forall h, j ::
                    0 <= h < i && 0 <= j < |b.phi[h].incoming| && b.phi[h].incoming[j].id in s.consumed ==>
                      b.phi[h].incoming[j].id !in s.Flags()
      {
        for j := 0 to |b.phi[i].incoming|
          invariant s.sinkable == old(s.sinkable) - out && s.dependent == old(s.dependent) - out
          invariant forall x: Id :: x in out ==> x in s.consumed && InPhi(p, live, x)
          invariant forall a :: 0 <= a < k && order[a] in live ==> BlockPhiFree(p[order[a]], s.consumed, s.Flags())
          invariant forall h, j ::
                      0 <= h < i && 0 <= j < |b.phi[h].incoming| && b.phi[h].incoming[j].id in s.consumed ==>
                        b.phi[h].incoming[j].id !in s.Flags()
          invariant forall h :: 0 <= h < j && b.phi[i].incoming[h].id in s.consumed ==>
                      b.phi[i].incoming[h].id !in s.Flags()
        {
          if b.phi[i].incoming[j].id in s.consumed {
            TakenByPhi(p, live, order[k], i, j);
            s.Clear(b.phi[i].incoming[j].id);
            out := out + {b.phi[i].incoming[j].id};
          }
        }
      }
    }
    forall x: Id | InPhi(p, live, x) && x in s.consumed ensures x !in s.Flags() {
      PhiIsListed(p, live, order, s.consumed, s.Flags(), x);
    }
  }

  lemma TakenByPhi(p: seq<IRBlock>, live: set<Node>, b: Node, i: nat, j: nat)
    requires b in live && b < |p| && i < |p[b].phi| && j < |p[b].phi[i].incoming|
    ensures InPhi(p, live, p[b].phi[i].incoming[j].id)
  {}

  lemma PhiIsListed(p: seq<IRBlock>, live: set<Node>, order: seq<Node>, consumed: map<Id, Option<Node>>, flags: set<Id>,
                    x: Id)
    requires LiveSet(p, live) && (forall b: Node :: b in live <==> b in order) && InPhi(p, live, x) && x in consumed
    requires forall a :: 0 <= a < |order| && order[a] in live ==> BlockPhiFree(p[order[a]], consumed, flags)
    ensures x !in flags
  {
    var b: Node, i, j :| b in live && b < |p| && 0 <= i < |p[b].phi| && 0 <= j < |p[b].phi[i].incoming|
                         && p[b].phi[i].incoming[j].id == x;
    assert order[Index(order, b)] == b;
  }

  // ---------------------------------------------------------------- what both leave

  /** Operation `j` of block `b` may sink: it is flagged or was handed a flag, no barrier comes after it in its block,
      and no PHI takes its value. */
  ghost predicate MaySink(p: seq<IRBlock>, live: set<Node>, given: set<Id>, movable: nat -> bool, b: Node, j: nat) {
    && b < |p| && j < |p[b].operations| && p[b].operations[j].id != 0
    && Flagged(p[b].operations, given, movable, j, |p[b].operations|) && !InPhi(p, live, p[b].operations[j].id)
  }

  /** The flags with which the main walk starts. */
  ghost predicate StartFlags(p: seq<IRBlock>, live: set<Node>, given: set<Id>, movable: nat -> bool, sinkable: set<Id>,
                             dependent: set<Id>, keys: set<Id>) {
    forall b: Node, j ::
      b in live && b < |p| && 0 <= j < |p[b].operations| && p[b].operations[j].id != 0 ==>
        var x := p[b].operations[j].id;
        && (x in sinkable <==> x in given && MaySink(p, live, given, movable, b, j))
        && (x in dependent <==> x !in given && MaySink(p, live, given, movable, b, j))
        && (x in sinkable + dependent ==> x in keys)
  }

  lemma FlagsToStart(p: seq<IRBlock>, live: set<Node>, order: seq<Node>, given: set<Id>, movable: nat -> bool,
                     sinkable0: set<Id>, dependent0: set<Id>, sinkable: set<Id>, dependent: set<Id>, keys: set<Id>)
    requires LiveSet(p, live) && (forall b: Node :: b in live <==> b in order)
    requires ScannedBlocks(p, order, |order|, given, movable, sinkable0, dependent0, keys)
    requires forall x: Id :: x in sinkable <==> x in sinkable0 && !(x in keys && InPhi(p, live, x))
    requires forall x: Id :: x in dependent <==> x in dependent0 && !(x in keys && InPhi(p, live, x))
    ensures StartFlags(p, live, given, movable, sinkable, dependent, keys)
  {
    hide InPhi, HandedOn, Unbarred;
    forall b: Node, j | b in live && b < |p| && 0 <= j < |p[b].operations| && p[b].operations[j].id != 0
      ensures var x := p[b].operations[j].id;
              && (x in sinkable <==> x in given && MaySink(p, live, given, movable, b, j))
              && (x in dependent <==> x !in given && MaySink(p, live, given, movable, b, j))
              && (x in sinkable + dependent ==> x in keys)
    {
      assert order[Index(order, b)] == b;
      assert BlockFlags(p[b].operations, given, movable, sinkable0, dependent0, keys);
    }
  }

  /** Only movable operations have flags. */
  lemma FlagsMovable(p: seq<IRBlock>, live: set<Node>, given: set<Id>, movable: nat -> bool, b: Node, j: nat)
    requires MaySink(p, live, given, movable, b, j)
    ensures p[b].operations[j].id in given || movable(p[b].operations[j].op)
  {}
}
