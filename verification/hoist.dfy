/** Testing in advance whether a switch will choose a given successor. */
module Hoist {
  import opened Wrappers
  import opened Graphs
  import opened Lists
  import opened IR
  import opened TailSplit
  import opened BlockPool
  import opened Rewiring

  /** OpIEqual, OpINotEqual, OpLogicalOr and OpLogicalAnd. */
  const IEQUAL: nat := 170
  const INOTEQUAL: nat := 171
  const LOGICALOR: nat := 166
  const LOGICALAND: nat := 167

  function Truth(b: bool): int {
    if b then 1 else 0
  }

  /** What these operations mean. */
  ghost predicate Standard<W(!new)>(m: Machine<W>) {
    forall a: int, b: int, w: W ::
      && m.eval(IEQUAL, [a, b], w) == (Truth(a == b), w)
      && m.eval(INOTEQUAL, [a, b], w) == (Truth(a != b), w)
      && m.eval(LOGICALOR, [a, b], w) == (Truth(a != 0 || b != 0), w)
      && m.eval(LOGICALAND, [a, b], w) == (Truth(a != 0 && b != 0), w)
  }

  /** The target of a switch. */
  function Selected(cases: seq<Case>, v: int): Option<Node> {
    match SelectCase(cases, v)
    case Some(n) => Some(n)
    case None => DefaultCase(cases)
  }

  // ---------------------------------------------------------------- the operations that are built

  /** Operations that were built, the id of their result, and the next free id. */
  datatype Built = Built(ops: seq<Op>, result: Id, next: Id)

  function Binary(op: nat, id: Id, a: Id, b: Id): Op {
    Op(op, id, [IdArgument(a), IdArgument(b)])
  }

  /** `sel` differs from every label, conjoined with `acc` if there is one. */
  function NotEquals(sel: Id, cases: seq<Case>, uints: nat -> Id, acc: Id, next: Id): Built {
    if cases == [] then Built([], acc, next)
    else if cases[0].isDefault then NotEquals(sel, cases[1..], uints, acc, next)
    else
      var neq := Binary(INOTEQUAL, next, sel, uints(cases[0].value));
      if acc != 0 then
        var rest := NotEquals(sel, cases[1..], uints, next + 1, next + 2);
        rest.(ops := [neq, Binary(LOGICALAND, next + 1, acc, next)] + rest.ops)
      else
        var rest := NotEquals(sel, cases[1..], uints, next, next + 1);
        rest.(ops := [neq] + rest.ops)
  }

  /** `CFGStructurizer::build_switch_case_equal_check`. */
  function CaseCheck(sel: Id, cases: seq<Case>, uints: nat -> Id, c: Case, next: Id): Built {
    if c.isDefault then NotEquals(sel, cases, uints, 0, next)
    else Built([Binary(IEQUAL, next, sel, uints(c.value))], next, next + 1)
  }

  /** The checks of all cases of `rest` that lead to `succ`, disjoined. */
  function AnyCase(sel: Id, cases: seq<Case>, rest: seq<Case>, uints: nat -> Id, succ: Node, acc: Id, next: Id): Built {
    if rest == [] then Built([], acc, next)
    else if rest[0].node != succ then AnyCase(sel, cases, rest[1..], uints, succ, acc, next)
    else
      var check := CaseCheck(sel, cases, uints, rest[0], next);
      if acc != 0 then
        var more := AnyCase(sel, cases, rest[1..], uints, succ, check.next, check.next + 1);
        more.(ops := check.ops + [Binary(LOGICALOR, check.next, acc, check.result)] + more.ops)
      else
        var more := AnyCase(sel, cases, rest[1..], uints, succ, check.result, check.next);
        more.(ops := check.ops + more.ops)
  }

  // ---------------------------------------------------------------- what they compute

  /** Ids below `bound` keep their values. */
  ghost predicate Keeps(bound: Id, e: Env, e': Env) {
    forall id: Id :: id < bound ==> Get(e', id) == Get(e, id)
  }

  lemma {:induction false} RunConcat<W>(m: Machine<W>, a: seq<Op>, b: seq<Op>, e: Env, w: W)
    ensures RunOps(m, a + b, e, w) == var (e', w') := RunOps(m, a, e, w); RunOps(m, b, e', w')
  {
    if a == [] {
      assert a + b == b;
    } else {
      assert (a + b)[1..] == a[1..] + b;
      var (e', w') := RunOp(m, a[0], e, w);
      RunConcat(m, a[1..], b, e', w');
    }
  }

  function BinaryValue(op: nat, x: int, y: int): int {
    Truth(if op == IEQUAL then x == y else if op == INOTEQUAL then x != y
          else if op == LOGICALOR then x != 0 || y != 0 else x != 0 && y != 0)
  }

  lemma RunBinary<W(!new)>(m: Machine<W>, op: nat, id: Id, a: Id, b: Id, e: Env, w: W)
    requires Standard(m) && id != 0 && (op == IEQUAL || op == INOTEQUAL || op == LOGICALOR || op == LOGICALAND)
    ensures RunOps(m, [Binary(op, id, a, b)], e, w) == (e[id := BinaryValue(op, Get(e, a), Get(e, b))], w)
  {
    var o := Binary(op, id, a, b);
    assert [o][1..] == [];
    assert ArgumentValues(o.arguments, e) == [Get(e, a), Get(e, b)];
  }

  /** The selector and the labels are available, below the ids that are free. */
  ghost predicate Ready(sel: Id, cases: seq<Case>, uints: nat -> Id, next: Id, e: Env, v: int) {
    && 0 < next && sel < next && Get(e, sel) == v
    && (forall i :: 0 <= i < |cases| ==>
          uints(cases[i].value) < next && Get(e, uints(cases[i].value)) == cases[i].value)
  }

  lemma ReadyLater(sel: Id, cases: seq<Case>, uints: nat -> Id, next: Id, next': Id, e: Env, e': Env, v: int)
    requires Ready(sel, cases, uints, next, e, v) && Keeps(next, e, e') && next <= next'
    ensures Ready(sel, cases, uints, next', e', v)
  {}

  lemma ReadyTail(sel: Id, cases: seq<Case>, uints: nat -> Id, next: Id, e: Env, v: int)
    requires Ready(sel, cases, uints, next, e, v) && cases != []
    ensures Ready(sel, cases[1..], uints, next, e, v)
  {
    assert forall i :: 0 <= i < |cases[1..]| ==> cases[1..][i] == cases[i + 1];
  }

  /** A truth value. */
  predicate IsBool(x: int) {
    x == 0 || x == 1
  }

  predicate NoLabel(cases: seq<Case>, v: int) {
    forall i :: 0 <= i < |cases| && !cases[i].isDefault ==> cases[i].value != v
  }

  lemma NoLabelCons(cases: seq<Case>, v: int)
    requires cases != []
    ensures NoLabel(cases, v) <==> (cases[0].isDefault || cases[0].value != v) && NoLabel(cases[1..], v)
  {
    assert forall i :: 0 <= i < |cases[1..]| ==> cases[1..][i] == cases[i + 1];
    if NoLabel(cases[1..], v) {
      forall i | 1 <= i < |cases| && !cases[i].isDefault ensures cases[i].value != v {
        assert cases[i] == cases[1..][i - 1];
      }
    }
  }

  predicate AllDefault(cases: seq<Case>) {
    forall i :: 0 <= i < |cases| ==> cases[i].isDefault
  }

  lemma AllDefaultCons(cases: seq<Case>)
    requires cases != []
    ensures AllDefault(cases) <==> cases[0].isDefault && AllDefault(cases[1..])
  {
    assert forall i :: 0 <= i < |cases[1..]| ==> cases[1..][i] == cases[i + 1];
    if AllDefault(cases[1..]) && cases[0].isDefault {
      forall i | 0 <= i < |cases| ensures cases[i].isDefault {
        if i > 0 {
          assert cases[i] == cases[1..][i - 1];
        }
      }
    }
  }

  /** Running the operations changes nothing that was there, and gives the result the value `b`. */
  ghost predicate Yields<W>(m: Machine<W>, built: Built, next: Id, e: Env, w: W, none: bool, b: bool) {
    var (e', w') := RunOps(m, built.ops, e, w);
    && w' == w && next <= built.next && Keeps(next, e, e') && built.result < built.next
    && (built.result == 0 <==> none) && (!none ==> Get(e', built.result) == Truth(b))
  }

  /** One more operation in front. */
  lemma YieldsAfter<W(!new)>(m: Machine<W>, op: Op, rest: Built, next: Id, next': Id, e: Env, e': Env, w: W,
                             none: bool, b: bool)
    requires RunOps(m, [op], e, w) == (e', w) && Keeps(next, e, e') && next <= next'
             && Yields(m, rest, next', e', w, none, b)
    ensures Yields(m, rest.(ops := [op] + rest.ops), next, e, w, none, b)
  {
    hide RunOps;
    RunConcat(m, [op], rest.ops, e, w);
  }

  /** The conjunction of inequalities holds when no label is selected. */
  lemma {:induction false} NotEqualsHolds<W(!new)>(m: Machine<W>, sel: Id, cases: seq<Case>, uints: nat -> Id, acc: Id,
                                                   next: Id, e: Env, w: W, v: int)
    requires Standard(m) && Ready(sel, cases, uints, next, e, v) && acc < next && (acc != 0 ==> IsBool(Get(e, acc)))
    ensures Yields(m, NotEquals(sel, cases, uints, acc, next), next, e, w, acc == 0 && AllDefault(cases),
                   (acc == 0 || Get(e, acc) == 1) && NoLabel(cases, v))
    decreases |cases|
  {
    hide Standard, Yields, NoLabel, AllDefault;
    if cases == [] {
      NothingBuilt(m, acc, next, e, w, v);
    } else {
      ReadyTail(sel, cases, uints, next, e, v);
      NoLabelCons(cases, v);
      AllDefaultCons(cases);
      if cases[0].isDefault {
        NotEqualsHolds(m, sel, cases[1..], uints, acc, next, e, w, v);
      } else {
        var neq := Binary(INOTEQUAL, next, sel, uints(cases[0].value));
        RunBinary(m, INOTEQUAL, next, sel, uints(cases[0].value), e, w);
        var e1 := e[next := Truth(v != cases[0].value)];
        assert RunOps(m, [neq], e, w) == (e1, w);
        if acc != 0 {
          var land := Binary(LOGICALAND, next + 1, acc, next);
          RunBinary(m, LOGICALAND, next + 1, acc, next, e1, w);
          var e2 := e1[next + 1 := Truth(Get(e1, acc) != 0 && Get(e1, next) != 0)];
          assert RunOps(m, [land], e1, w) == (e2, w);
          ReadyLater(sel, cases[1..], uints, next, next + 2, e, e2, v);
          NotEqualsHolds(m, sel, cases[1..], uints, next + 1, next + 2, e2, w, v);
          var rest := NotEquals(sel, cases[1..], uints, next + 1, next + 2);
          var b := (acc == 0 || Get(e, acc) == 1) && NoLabel(cases, v);
          YieldsAfter(m, land, rest, next + 1, next + 2, e1, e2, w, false, b);
          YieldsAfter(m, neq, rest.(ops := [land] + rest.ops), next, next + 1, e, e1, w, false, b);
          assert [neq, land] + rest.ops == [neq] + ([land] + rest.ops);
        } else {
          ReadyLater(sel, cases[1..], uints, next, next + 1, e, e1, v);
          NotEqualsHolds(m, sel, cases[1..], uints, next, next + 1, e1, w, v);
          YieldsAfter(m, neq, NotEquals(sel, cases[1..], uints, next, next + 1), next, next + 1, e, e1, w, false,
                      NoLabel(cases, v));
        }
      }
    }
  }

  lemma NothingBuilt<W(!new)>(m: Machine<W>, acc: Id, next: Id, e: Env, w: W, v: int)
    requires acc < next && (acc != 0 ==> IsBool(Get(e, acc)))
    ensures NoLabel([], v) && AllDefault([])
    ensures Yields(m, Built([], acc, next), next, e, w, acc == 0, acc == 0 || Get(e, acc) == 1)
  {}

  // ---------------------------------------------------------------- the checks of several cases

  /** The labels are distinct and there is one default. */
  ghost predicate WellFormedCases(cases: seq<Case>) {
    && (forall i, j :: 0 <= i < j < |cases| && !cases[i].isDefault && !cases[j].isDefault ==>
          cases[i].value != cases[j].value)
    && (exists i :: 0 <= i < |cases| && cases[i].isDefault)
    && (forall i, j :: 0 <= i < j < |cases| ==> !(cases[i].isDefault && cases[j].isDefault))
    && !AllDefault(cases)
  }

  /** Case `c` is the one that is taken. */
  predicate Taken(cases: seq<Case>, c: Case, v: int) {
    if c.isDefault then NoLabel(cases, v) else c.value == v
  }

  lemma CaseCheckHolds<W(!new)>(m: Machine<W>, sel: Id, cases: seq<Case>, uints: nat -> Id, c: Case, next: Id, e: Env,
                                w: W, v: int)
    requires Standard(m) && Ready(sel, cases, uints, next, e, v) && c in cases && !AllDefault(cases)
    ensures Yields(m, CaseCheck(sel, cases, uints, c, next), next, e, w, false, Taken(cases, c, v))
  {
    if c.isDefault {
      hide Yields, Standard;
      NotEqualsHolds(m, sel, cases, uints, 0, next, e, w, v);
    } else {
      hide Standard;
      RunBinary(m, IEQUAL, next, sel, uints(c.value), e, w);
    }
  }

  /** Some case of `rest` that leads to `succ` is taken. */
  predicate AnyTaken(cases: seq<Case>, rest: seq<Case>, succ: Node, v: int) {
    exists i :: 0 <= i < |rest| && rest[i].node == succ && Taken(cases, rest[i], v)
  }

  lemma AnyTakenCons(cases: seq<Case>, rest: seq<Case>, succ: Node, v: int)
    requires rest != []
    ensures AnyTaken(cases, rest, succ, v) <==>
              (rest[0].node == succ && Taken(cases, rest[0], v)) || AnyTaken(cases, rest[1..], succ, v)
  {
    hide Taken;
    if AnyTaken(cases, rest[1..], succ, v) {
      var k :| 0 <= k < |rest[1..]| && rest[1..][k].node == succ && Taken(cases, rest[1..][k], v);
      assert rest[k + 1] == rest[1..][k];
    }
    if k :| 0 < k < |rest| && rest[k].node == succ && Taken(cases, rest[k], v) {
      assert rest[k] == rest[1..][k - 1];
    }
  }

  predicate NoneLead(rest: seq<Case>, succ: Node) {
    forall i :: 0 <= i < |rest| ==> rest[i].node != succ
  }

  lemma NoneLeadCons(rest: seq<Case>, succ: Node)
    requires rest != []
    ensures NoneLead(rest, succ) <==> rest[0].node != succ && NoneLead(rest[1..], succ)
  {
    assert forall i :: 0 <= i < |rest[1..]| ==> rest[1..][i] == rest[i + 1];
    assert forall i :: 1 <= i < |rest| ==> rest[i] == rest[1..][i - 1];
  }

  /** A block of operations in front. */
  lemma YieldsAppend<W(!new)>(m: Machine<W>, ops: seq<Op>, rest: Built, next: Id, next': Id, e: Env, e': Env, w: W,
                              none: bool, b: bool)
    requires RunOps(m, ops, e, w) == (e', w) && Keeps(next, e, e') && next <= next'
             && Yields(m, rest, next', e', w, none, b)
    ensures Yields(m, rest.(ops := ops + rest.ops), next, e, w, none, b)
  {
    hide RunOps;
    RunConcat(m, ops, rest.ops, e, w);
  }

  /** The disjunction of the checks holds exactly when the switch would choose `succ`. */
  lemma {:induction false} AnyCaseHolds<W(!new)>(m: Machine<W>, sel: Id, cases: seq<Case>, rest: seq<Case>,
                                                 uints: nat -> Id, succ: Node, acc: Id, next: Id,
                                                 e: Env, w: W, v: int)
    requires Standard(m) && Ready(sel, cases, uints, next, e, v) && !AllDefault(cases)
             && (forall i :: 0 <= i < |rest| ==> rest[i] in cases)
    requires acc < next && (acc != 0 ==> IsBool(Get(e, acc)))
    ensures Yields(m, AnyCase(sel, cases, rest, uints, succ, acc, next), next, e, w, acc == 0 && NoneLead(rest, succ),
                   (acc != 0 && Get(e, acc) == 1) || AnyTaken(cases, rest, succ, v))
    decreases |rest|
  {
    hide Standard, Yields, Taken, AnyTaken, NoneLead, AllDefault, RunOps, CaseCheck;
    if rest == [] {
      NothingChecked(m, cases, succ, acc, next, e, w, v);
    } else {
      assert forall i :: 0 <= i < |rest[1..]| ==> rest[1..][i] == rest[i + 1];
      AnyTakenCons(cases, rest, succ, v);
      NoneLeadCons(rest, succ);
      if rest[0].node != succ {
        AnyCaseHolds(m, sel, cases, rest[1..], uints, succ, acc, next, e, w, v);
      } else {
        assert rest[0] in cases;
        CaseCheckHolds(m, sel, cases, uints, rest[0], next, e, w, v);
        var check := CaseCheck(sel, cases, uints, rest[0], next);
        var (e1, w1) := RunOps(m, check.ops, e, w);
        Yielded(m, check, next, e, w, e1, false, Taken(cases, rest[0], v));
        if acc != 0 {
          var lor := Binary(LOGICALOR, check.next, acc, check.result);
          RunBinary(m, LOGICALOR, check.next, acc, check.result, e1, w);
          var e2 := e1[check.next := Truth(Get(e1, acc) != 0 || Get(e1, check.result) != 0)];
          ReadyLater(sel, cases, uints, next, check.next + 1, e, e2, v);
          AnyCaseHolds(m, sel, cases, rest[1..], uints, succ, check.next, check.next + 1, e2, w, v);
          var more := AnyCase(sel, cases, rest[1..], uints, succ, check.next, check.next + 1);
          var b := (acc != 0 && Get(e, acc) == 1) || AnyTaken(cases, rest, succ, v);
          YieldsAfter(m, lor, more, check.next, check.next + 1, e1, e2, w, false, b);
          YieldsAppend(m, check.ops, more.(ops := [lor] + more.ops), next, check.next, e, e1, w, false, b);
          assert check.ops + [lor] + more.ops == check.ops + ([lor] + more.ops);
        } else {
          ReadyLater(sel, cases, uints, next, check.next, e, e1, v);
          AnyCaseHolds(m, sel, cases, rest[1..], uints, succ, check.result, check.next, e1, w, v);
          YieldsAppend(m, check.ops, AnyCase(sel, cases, rest[1..], uints, succ, check.result, check.next), next,
                       check.next, e, e1, w, false,
                       AnyTaken(cases, rest, succ, v));
        }
      }
    }
  }

  lemma NothingChecked<W(!new)>(m: Machine<W>, cases: seq<Case>, succ: Node, acc: Id, next: Id, e: Env, w: W, v: int)
    requires acc < next && (acc != 0 ==> IsBool(Get(e, acc)))
    ensures NoneLead([], succ) && !AnyTaken(cases, [], succ, v)
    ensures Yields(m, Built([], acc, next), next, e, w, acc == 0, acc != 0 && Get(e, acc) == 1)
  {}

  lemma Yielded<W(!new)>(m: Machine<W>, built: Built, next: Id, e: Env, w: W, e1: Env, none: bool, b: bool)
    requires Yields(m, built, next, e, w, none, b) && e1 == RunOps(m, built.ops, e, w).0
    ensures RunOps(m, built.ops, e, w) == (e1, w) && next <= built.next && Keeps(next, e, e1)
            && built.result < built.next
    ensures (built.result == 0 <==> none) && (!none ==> Get(e1, built.result) == Truth(b))
  {}

  // ---------------------------------------------------------------- what a switch selects

  lemma {:induction false} SelectFirst(cases: seq<Case>, v: int, i: nat)
    requires i < |cases| && !cases[i].isDefault && cases[i].value == v
    requires forall j :: 0 <= j < i ==> cases[j].isDefault || cases[j].value != v
    ensures SelectCase(cases, v) == Some(cases[i].node)
    decreases i
  {
    if i > 0 {
      assert forall k :: 0 <= k < |cases[1..]| ==> cases[1..][k] == cases[k + 1];
      SelectFirst(cases[1..], v, i - 1);
    }
  }

  lemma {:induction false} SelectNone(cases: seq<Case>, v: int)
    requires NoLabel(cases, v)
    ensures SelectCase(cases, v) == None
  {
    if cases != [] {
      NoLabelCons(cases, v);
      SelectNone(cases[1..], v);
    }
  }

  lemma {:induction false} DefaultIs(cases: seq<Case>, i: nat)
    requires i < |cases| && cases[i].isDefault && forall j :: 0 <= j < i ==> !cases[j].isDefault
    ensures DefaultCase(cases) == Some(cases[i].node)
    decreases i
  {
    if i > 0 {
      assert forall k :: 0 <= k < |cases[1..]| ==> cases[1..][k] == cases[k + 1];
      DefaultIs(cases[1..], i - 1);
    }
  }

  /** The taken case is the one whose node is selected. */
  lemma TakenIsSelected(cases: seq<Case>, i: nat, v: int)
    requires WellFormedCases(cases) && i < |cases| && Taken(cases, cases[i], v)
    ensures Selected(cases, v) == Some(cases[i].node)
  {
    if cases[i].isDefault {
      SelectNone(cases, v);
      DefaultIs(cases, i);
    } else {
      SelectFirst(cases, v, i);
    }
  }

  lemma SomeCaseTaken(cases: seq<Case>, v: int) returns (i: nat)
    requires WellFormedCases(cases)
    ensures i < |cases| && Taken(cases, cases[i], v)
  {
    if k :| 0 <= k < |cases| && !cases[k].isDefault && cases[k].value == v {
      i := k;
    } else {
      i :| 0 <= i < |cases| && cases[i].isDefault;
    }
  }

  /** Some case that leads to `succ` is taken exactly when the switch selects `succ`. */
  lemma AnyTakenIsSelected(cases: seq<Case>, succ: Node, v: int)
    requires WellFormedCases(cases)
    ensures AnyTaken(cases, cases, succ, v) <==> Selected(cases, v) == Some(succ)
  {
    hide Taken, WellFormedCases, Selected;
    if AnyTaken(cases, cases, succ, v) {
      var i :| 0 <= i < |cases| && cases[i].node == succ && Taken(cases, cases[i], v);
      TakenIsSelected(cases, i, v);
    }
    var i := SomeCaseTaken(cases, v);
    TakenIsSelected(cases, i, v);
  }

  // ---------------------------------------------------------------- building the checks

  /** Pushes an operation with a new result. */
  method Push(f: Blocks, insert: Node, op: nat, a: Id, b: Id) returns (id: Id)
    requires insert < |f.blocks|
    modifies f`blocks, f`nextId
    ensures id == old(f.nextId) && f.nextId == id + 1
    ensures f.blocks == old(f.blocks)[insert :=
                                      old(f.blocks[insert]).(operations :=
                                                             old(f.blocks[insert]).operations + [Binary(op, id, a, b)])]
  {
    id := f.nextId;
    f.nextId := f.nextId + 1;
    f.blocks := f.blocks[insert :=
                         f.blocks[insert].(operations := f.blocks[insert].operations + [Binary(op, id, a, b)])];
  }

  /** What is pushed for one more label, and what remains. */
  lemma NotEqualsStep(ops: seq<Op>, sel: Id, cases: seq<Case>, i: nat, uints: nat -> Id, acc: Id, next: Id)
    requires i < |cases|
    ensures cases[i].isDefault ==>
              NotEquals(sel, cases[i..], uints, acc, next) == NotEquals(sel, cases[i + 1..], uints, acc, next)
    ensures !cases[i].isDefault ==>
              (var whole, neq := NotEquals(sel, cases[i..], uints, acc, next),
               Binary(INOTEQUAL, next, sel, uints(cases[i].value));
               if acc != 0 then
                 var rest := NotEquals(sel, cases[i + 1..], uints, next + 1, next + 2);
                 rest.result == whole.result && rest.next == whole.next
                 && ops + [neq] + [Binary(LOGICALAND, next + 1, acc, next)] + rest.ops == ops + whole.ops
               else
                 var rest := NotEquals(sel, cases[i + 1..], uints, next, next + 1);
                 rest.result == whole.result && rest.next == whole.next && ops + [neq] + rest.ops == ops + whole.ops)
  {
    assert cases[i..][0] == cases[i] && cases[i..][1..] == cases[i + 1..];
  }

  /** The loop of `build_switch_case_equal_check` over the labels, for the default case. */
  method BuildNotEquals(f: Blocks, sel: Id, cases: seq<Case>, uints: nat -> Id, insert: Node) returns (neqAnd: Id)
    requires insert < |f.blocks| && f.nextId > 0
    modifies f`blocks, f`nextId
    ensures |f.blocks| == |old(f.blocks)|
    ensures var built := NotEquals(sel, cases, uints, 0, old(f.nextId));
            && neqAnd == built.result && f.nextId == built.next
            && f.blocks == old(f.blocks)[insert :=
                                         old(f.blocks[insert]).(operations :=
                                                                old(f.blocks[insert]).operations + built.ops)]
  {
    hide NotEquals, Binary;
    neqAnd := 0;
    ghost var was := f.blocks[insert];
    ghost var whole := NotEquals(sel, cases, uints, 0, f.nextId);
    var i := 0;
    assert cases[0..] == cases;
    while i < |cases|
      invariant i <= |cases| && f.nextId > 0 && |f.blocks| == |old(f.blocks)|
      invariant var rest := NotEquals(sel, cases[i..], uints, neqAnd, f.nextId);
                rest.result == whole.result && rest.next == whole.next
                && f.blocks[insert].operations + rest.ops == was.operations + whole.ops
      invariant f.blocks == old(f.blocks)[insert := was.(operations := f.blocks[insert].operations)]
    {
      var c := cases[i];
      NotEqualsStep(f.blocks[insert].operations, sel, cases, i, uints, neqAnd, f.nextId);
      if !c.isDefault {
        var neq := Push(f, insert, INOTEQUAL, sel, uints(c.value));
        if neqAnd != 0 {
          neqAnd := Push(f, insert, LOGICALAND, neqAnd, neq);
        } else {
          neqAnd := neq;
        }
      }
      i := i + 1;
    }
    NothingLeft(sel, uints, neqAnd, f.nextId);
    assert cases[|cases|..] == [] && f.blocks[insert].operations + [] == f.blocks[insert].operations;
  }

  lemma NothingLeft(sel: Id, uints: nat -> Id, acc: Id, next: Id)
    ensures NotEquals(sel, [], uints, acc, next) == Built([], acc, next)
  {}

  method BuildSwitchCaseEqualCheck(f: Blocks, sel: Id, cases: seq<Case>, uints: nat -> Id, c: Case,
                                   insert: Node) returns (ieq: Id)
    requires insert < |f.blocks| && f.nextId > 0
    modifies f`blocks, f`nextId
    ensures |f.blocks| == |old(f.blocks)|
    ensures var built := CaseCheck(sel, cases, uints, c, old(f.nextId));
            && ieq == built.result && f.nextId == built.next
            && f.blocks == old(f.blocks)[insert :=
                                         old(f.blocks[insert]).(operations :=
                                                                old(f.blocks[insert]).operations + built.ops)]
  {
    if c.isDefault {
      ieq := BuildNotEquals(f, sel, cases, uints, insert);
    } else {
      ieq := Push(f, insert, IEQUAL, sel, uints(c.value));
    }
  }

  lemma {:induction false} NextGrows(sel: Id, cases: seq<Case>, uints: nat -> Id, acc: Id, next: Id)
    requires next > 0
    ensures NotEquals(sel, cases, uints, acc, next).next >= next
  {
    if cases != [] {
      if cases[0].isDefault {
        NextGrows(sel, cases[1..], uints, acc, next);
      } else if acc != 0 {
        NextGrows(sel, cases[1..], uints, next + 1, next + 2);
      } else {
        NextGrows(sel, cases[1..], uints, next, next + 1);
      }
    }
  }

  /** The loop over the cases that lead to `succ`. */
  method BuildAnyCase(f: Blocks, sel: Id, cases: seq<Case>, uints: nat -> Id, succ: Node,
                      insert: Node) returns (cond: Id)
    requires insert < |f.blocks| && f.nextId > 0
    modifies f`blocks, f`nextId
    ensures |f.blocks| == |old(f.blocks)|
    ensures var built := AnyCase(sel, cases, cases, uints, succ, 0, old(f.nextId));
            && cond == built.result && f.nextId == built.next
            && f.blocks == old(f.blocks)[insert :=
                                         old(f.blocks[insert]).(operations :=
                                                                old(f.blocks[insert]).operations + built.ops)]
  {
    hide CaseCheck;
    cond := 0;
    ghost var was := f.blocks[insert];
    ghost var whole := AnyCase(sel, cases, cases, uints, succ, 0, f.nextId);
    var i := 0;
    assert cases[0..] == cases;
    while i < |cases|
      invariant i <= |cases| && f.nextId > 0 && |f.blocks| == |old(f.blocks)|
      invariant var rest := AnyCase(sel, cases, cases[i..], uints, succ, cond, f.nextId);
                rest.result == whole.result && rest.next == whole.next
                && f.blocks[insert].operations + rest.ops == was.operations + whole.ops
      invariant f.blocks == old(f.blocks)[insert := was.(operations := f.blocks[insert].operations)]
    {
      var c := cases[i];
      assert cases[i..][0] == c && cases[i..][1..] == cases[i + 1..];
      if c.node == succ {
        ghost var next := f.nextId;
        ghost var before := f.blocks[insert].operations;
        ghost var check := CaseCheck(sel, cases, uints, c, next);
        CheckGrows(sel, cases, uints, c, next);
        var ieq := BuildSwitchCaseEqualCheck(f, sel, cases, uints, c, insert);
        if cond != 0 {
          ghost var more := AnyCase(sel, cases, cases[i + 1..], uints, succ, check.next, check.next + 1);
          ghost var bor := Binary(LOGICALOR, f.nextId, cond, ieq);
          cond := Push(f, insert, LOGICALOR, cond, ieq);
          assert before + (check.ops + [bor] + more.ops) == before + check.ops + [bor] + more.ops;
        } else {
          ghost var more := AnyCase(sel, cases, cases[i + 1..], uints, succ, check.result, check.next);
          cond := ieq;
          assert before + (check.ops + more.ops) == before + check.ops + more.ops;
        }
      }
      i := i + 1;
    }
    assert cases[|cases|..] == [] && f.blocks[insert].operations + [] == f.blocks[insert].operations;
  }

  lemma CheckGrows(sel: Id, cases: seq<Case>, uints: nat -> Id, c: Case, next: Id)
    requires next > 0
    ensures CaseCheck(sel, cases, uints, c, next).next >= next
  {
    NextGrows(sel, cases, uints, 0, next);
  }

  // ---------------------------------------------------------------- the graph

  /** `pred` takes over the edge from `node` to `succ`, and `node` branches to `merge` instead. */
  function EdgeHoisted(v: Links, node: Node, pred: Node, succ: Node, merge: Node): (r: Links)
    requires Shaped(v) && node < |v.blocks| && pred < |v.blocks| && succ < |v.blocks| && merge < |v.blocks|
    ensures Shaped(r) && |r.blocks| == |v.blocks|
  {
    var p1 := v.pred[succ := ReplaceAll(v.pred[succ], node, pred)];
    var p2 := p1[merge := AddUnique(p1[merge], node)];
    v.(blocks := v.blocks[node := v.blocks[node].(terminator := Retargeted(v.blocks[node].terminator, succ, merge))],
       succ := v.succ[node := AddUnique(Erase(v.succ[node], succ), merge)][pred := AddUnique(v.succ[pred], succ)],
       pred := p2[succ := AddUnique(p2[succ], pred)])
  }

  lemma AddUniqueMembers(xs: seq<Node>, x: Node)
    requires Distinct(xs)
    ensures Distinct(AddUnique(xs, x)) && forall y: Node :: y in AddUnique(xs, x) <==> y in xs || y == x
  {
    if x !in xs {
      DistinctSnoc(xs, x);
    }
  }

  lemma HoistedPreds(v: Links, s: set<Node>, node: Node, pred: Node, succ: Node, merge: Node, t: Node)
    requires Wired(v, s) && node in s && pred in s && node != pred && succ in v.succ[node] && succ !in v.succ[pred]
             && merge < |v.blocks| && t < |v.blocks|
    ensures succ < |v.blocks| && Distinct(EdgeHoisted(v, node, pred, succ, merge).pred[t])
    ensures forall f: Node :: f in EdgeHoisted(v, node, pred, succ, merge).pred[t] <==>
              (f in v.pred[t] && !(f == node && t == succ)) || (f == pred && t == succ) || (f == node && t == merge)
  {
    assert WiredAt(v, node) && PredsSound(v, succ) && PredsSound(v, t) && PredsSound(v, merge);
    ReplaceAllMembers(v.pred[succ], node, pred);
    var p1 := v.pred[succ := ReplaceAll(v.pred[succ], node, pred)];
    AddUniqueMembers(p1[merge], node);
    var p2 := p1[merge := AddUnique(p1[merge], node)];
    AddUniqueMembers(p2[succ], pred);
  }

  lemma HoistedSucc(v: Links, s: set<Node>, node: Node, pred: Node, succ: Node, merge: Node, b: Node)
    requires Wired(v, s) && node in s && pred in s && node != pred && succ in v.succ[node] && succ !in v.succ[pred]
             && merge < |v.blocks|
    requires b < |v.blocks|
    ensures succ < |v.blocks| && ((b in s ==> Distinct(EdgeHoisted(v, node, pred, succ, merge).succ[b])))
    ensures forall t: Node :: t in EdgeHoisted(v, node, pred, succ, merge).succ[b] <==>
              (t in v.succ[b] && !(b == node && t == succ)) || (b == pred && t == succ) || (b == node && t == merge)
  {
    assert WiredAt(v, node) && WiredAt(v, pred) && (b in s ==> WiredAt(v, b));
    EraseMembers(v.succ[node], succ);
    AddUniqueMembers(Erase(v.succ[node], succ), merge);
    AddUniqueMembers(v.succ[pred], succ);
  }

  lemma EdgeHoistedWired(v: Links, s: set<Node>, node: Node, pred: Node, succ: Node, merge: Node)
    requires Wired(v, s) && node in s && pred in s && node != pred && succ in v.succ[node] && succ !in v.succ[pred]
             && merge < |v.blocks|
    ensures succ < |v.blocks| && node < |v.blocks| && pred < |v.blocks|
            && Wired(EdgeHoisted(v, node, pred, succ, merge), s)
  {
    hide EdgeHoisted, Distinct;
    SuccKnows(v, s, node, succ);
    var r := EdgeHoisted(v, node, pred, succ, merge);
    HoistedTerminators(v, node, pred, succ, merge);
    forall b: Node | b in s ensures b < |r.blocks| && WiredAt(r, b) {
      assert WiredAt(v, b);
      HoistedSucc(v, s, node, pred, succ, merge, b);
      RetargetedTargets(v.blocks[b].terminator, succ, merge);
      forall t: Node | t in r.succ[b] ensures t < |r.blocks| && b in r.pred[t] {
        HoistedPreds(v, s, node, pred, succ, merge, t);
      }
    }
    forall t: Node | t < |r.blocks| ensures PredsSound(r, t) {
      assert PredsSound(v, t);
      HoistedPreds(v, s, node, pred, succ, merge, t);
      forall f: Node | f in r.pred[t] ensures f < |r.blocks| && t in r.succ[f] {
        HoistedSucc(v, s, node, pred, succ, merge, f);
      }
    }
  }

  lemma HoistedTerminators(v: Links, node: Node, pred: Node, succ: Node, merge: Node)
    requires Shaped(v) && node < |v.blocks| && pred < |v.blocks| && succ < |v.blocks| && merge < |v.blocks|
    ensures var r := EdgeHoisted(v, node, pred, succ, merge);
            r.blocks == v.blocks[node :=
                                 v.blocks[node].(terminator := Retargeted(v.blocks[node].terminator, succ, merge))]
                                 && r.succBack == v.succBack
  {}

  // ---------------------------------------------------------------- the whole rewrite

  /** The switch block and its new predecessor after `succ` was hoisted: `hop` is `succ` or leads to it. */
  ghost predicate Hoisted(was: IRBlock, q: seq<IRBlock>, node: Node, pred: Node, succ: Node, hop: Node, merge: Node,
                          uints: nat -> Id, next: Id)
    requires was.terminator.Switch?
  {
    var sel, cases := was.terminator.selector, was.terminator.cases;
    var built := AnyCase(sel, cases, cases, uints, succ, 0, next);
    && node < |q| && pred < |q|
    && q[node].operations == [] && q[node].terminator == Switch(sel, RetargetedCases(cases, succ, merge))
    && q[pred].operations == was.operations + built.ops && q[pred].terminator == Condition(built.result, hop, node)
    && (hop == succ || (hop < |q| && q[hop] == IRBlock([], [], Branch(succ))))
  }

  /** Nothing to hoist: the switch block only has a block in front of it. */
  ghost predicate Unhoisted(was: IRBlock, q: seq<IRBlock>, node: Node, pred: Node) {
    && node < |q| && pred < |q|
    && q[node].operations == [] && q[node].terminator == was.terminator
    && q[pred].operations == was.operations && q[pred].terminator == Branch(node)
  }

  lemma SelectRetargeted(cases: seq<Case>, from: Node, to: Node, v: int)
    ensures Selected(RetargetedCases(cases, from, to), v) == Moved(Selected(cases, v), from, to)
  {
    RetargetedCasesSelect(cases, v, from, to);
  }

  /** For every value of the selector control goes where the switch sent it: to `succ` before the switch
      is entered exactly when the switch would have chosen `succ`, and otherwise to the old target. */
  lemma HoistKeepsTarget<W(!new)>(m: Machine<W>, was: IRBlock, q: seq<IRBlock>, node: Node, pred: Node, succ: Node,
                                  hop: Node, merge: Node,
                                  uints: nat -> Id, next: Id, e: Env, w: W)
    requires was.terminator.Switch? && WellFormedCases(was.terminator.cases)
             && Hoisted(was, q, node, pred, succ, hop, merge, uints, next)
    requires exists i :: 0 <= i < |was.terminator.cases| && was.terminator.cases[i].node == succ
    requires Standard(m)
    requires Ready(was.terminator.selector, was.terminator.cases, uints, next, RunOps(m, was.operations, e, w).0,
                   Get(RunOps(m, was.operations, e, w).0, was.terminator.selector))
    ensures var (e1, w1) := RunOps(m, was.operations, e, w);
            var (e2, w2) := RunOps(m, q[pred].operations, e, w);
            && w2 == w1 && Keeps(next, e1, e2)
            && (Next(was.terminator, e1) == Some(succ) ==> Next(q[pred].terminator, e2) == Some(hop))
            && (Next(was.terminator, e1) != Some(succ) ==>
                  Next(q[pred].terminator, e2) == Some(node)
                  && Next(q[node].terminator, e2) == Next(was.terminator, e1))
  {
    hide Standard, Yields, AnyCase, WellFormedCases, RunOps, AllDefault;
    var sel, cases := was.terminator.selector, was.terminator.cases;
    var (e1, w1) := RunOps(m, was.operations, e, w);
    var v := Get(e1, sel);
    var built := AnyCase(sel, cases, cases, uints, succ, 0, next);
    NotAllDefault(cases);
    AnyCaseHolds(m, sel, cases, cases, uints, succ, 0, next, e1, w1, v);
    var e2 := RunOps(m, built.ops, e1, w1).0;
    Yielded(m, built, next, e1, w1, e2, NoneLead(cases, succ), AnyTaken(cases, cases, succ, v));
    RunConcat(m, was.operations, built.ops, e, w);
    AnyTakenIsSelected(cases, succ, v);
    SelectRetargeted(cases, succ, merge, v);
  }

  lemma NotAllDefault(cases: seq<Case>)
    requires WellFormedCases(cases)
    ensures !AllDefault(cases)
  {}

  /** Without a hoisted successor nothing changes but the block in front. */
  lemma NoHoistKeepsTarget<W>(m: Machine<W>, was: IRBlock, q: seq<IRBlock>, node: Node, pred: Node, e: Env, w: W)
    requires Unhoisted(was, q, node, pred)
    ensures var (e1, w1) := RunOps(m, was.operations, e, w);
            RunOps(m, q[pred].operations, e, w) == (e1, w1) && Next(q[pred].terminator, e1) == Some(node)
            && RunOps(m, q[node].operations, e1, w1) == (e1, w1)
            && Next(q[node].terminator, e1) == Next(was.terminator, e1)
  {}

  /** `CFGStructurizer::hoist_switch_branches_to_frontier`. */
  method HoistSwitchBranchesToFrontier(f: Blocks, node: Node, merge: Node, candidate: Node, reaches: Node -> bool,
                                       uints: nat -> Id, ghost s: set<Node>)
    returns (pred: Node, hoisted: Option<Node>, hop: Node)
    requires f.Valid() && Wired(f.View(), s) && node in s && node < |f.blocks| && merge < |f.blocks|
             && candidate < |f.blocks| && f.nextId > 0
    requires f.blocks[node].terminator.Switch? && node !in f.succ[node] && candidate != node
    requires forall b: Node :: b in s ==> b < |f.blocks|
    modifies f
    ensures f.Valid() && pred == |old(f.blocks)|
    ensures hoisted.None? ==>
              Unhoisted(old(f.blocks[node]), f.blocks, node, pred) && forall t: Node :: t in old(f.succ[node]) ==>
                !reaches(t)
    ensures hoisted.Some? ==>
              (hoisted.value in old(f.succ[node]) && reaches(hoisted.value)
               && Hoisted(old(f.blocks[node]), f.blocks, node, pred, hoisted.value, hop, merge, uints, old(f.nextId))
               && (hop == hoisted.value || hop >= |old(f.blocks)|)
               && (hop == hoisted.value <==> hoisted.value != candidate))
    ensures hoisted.Some? ==> exists i :: 0 <= i < |old(f.succ[node])| && old(f.succ[node])[i] == hoisted.value
                                          && forall k :: 0 <= k < i ==> !reaches(old(f.succ[node])[k])
    ensures pred < |f.succ| && f.succ[pred] == [node] + if hoisted.Some? then [hop] else []
    ensures forall t: Node :: t in f.succ[node] <==>
              (t in old(f.succ[node]) && hoisted != Some(t)) || (hoisted.Some? && t == merge)
    ensures |old(f.blocks)| <= |f.blocks| && forall b: Node :: b < |old(f.blocks)| && b != node ==>
              && f.succ[b]
                 == (if b in old(f.pred)[node] then ReplaceAll(old(f.succ)[b], node, pred) else old(f.succ)[b])
              && f.blocks[b] == Aside(old(f.blocks)[b], node, pred, b in old(f.pred)[node],
                                      hoisted == Some(candidate) && b == candidate)
    ensures Wired(f.View(), s + {pred} + if hoisted.Some? && hop != hoisted.value then {hop} else {})
  {
    hide WiredAt, PredsSound, AnyCase, EdgeHoisted, BlocksTo, SuccTo, Retarget, Created, Distinct, Aside, ReplaceAll,
        Hoisted;
    FrontedElsewhere(f.View(), node);
    ghost var was := f.blocks[node];
    ghost var s' := s + {|f.blocks|};
    hop := 0;
    FrontedWired(f.View(), s, node);
    FrontedNode(f.View(), s, node);
    pred := CreateHelperPredBlock(f, node, s);
    SwappedWired(f.View(), s', pred, node);
    f.blocks := f.blocks[pred := f.blocks[pred].(operations := f.blocks[node].operations)][node :=
            f.blocks[node].(operations := f.blocks[pred].operations)];
    var succs := f.succ[node];
    var i := 0;
    while i < |succs| && !reaches(succs[i])
      invariant i <= |succs| && forall k :: 0 <= k < i ==> !reaches(succs[k])
    {
      i := i + 1;
    }
    if i == |succs| {
      return pred, None, 0;
    }
    var succ: Node := succs[i];
    assert succ in succs;
    hoisted := Some(succ);
    hop := HoistOne(f, node, pred, succ, merge, candidate, uints, was, s');
  }

  lemma FrontedElsewhere(v: Links, node: Node)
    requires Shaped(v) && node < |v.blocks|
    ensures forall b: Node :: b < |v.blocks| && b != node ==>
              && Fronted(v, node).succ[b]
                 == (if b in v.pred[node] then ReplaceAll(v.succ[b], node, |v.blocks|) else v.succ[b])
              && Fronted(v, node).blocks[b] == Aside(v.blocks[b], node, |v.blocks|, b in v.pred[node], false)
    ensures forall block: IRBlock, before: bool, target: bool, pred: Node ::
              Aside(Aside(block, node, pred, before, false), node, pred, false, target)
              == Aside(block, node, pred, before, target)
  {
    hide Retargeted, ReplaceAll, MovedPhis;
  }

  lemma FrontedNode(v: Links, s: set<Node>, node: Node)
    requires Wired(v, s) && node in s && node < |v.blocks| && node !in v.succ[node] && forall b: Node :: b in s ==>
               b < |v.blocks|
    ensures var r := Fronted(v, node);
            && r.blocks[node] == v.blocks[node] && r.succ[node] == v.succ[node]
            && r.blocks[|v.blocks|] == IRBlock([], [], Branch(node))
            && r.succ[|v.blocks|] == [node]
    ensures |v.blocks| !in v.succ[node]
  {
    assert WiredAt(v, node) && PredsSound(v, node);
  }

  /** Moving operations between blocks does not touch the edges. */
  lemma SwappedWired(v: Links, s: set<Node>, a: Node, b: Node)
    requires Wired(v, s) && a < |v.blocks| && b < |v.blocks|
    ensures Wired(v.(blocks :=
                     v.blocks[a := v.blocks[a].(operations := v.blocks[b].operations)][b :=
                             v.blocks[b].(operations := v.blocks[a].operations)]), s)
  {
    var r := v.(blocks :=
                v.blocks[a := v.blocks[a].(operations := v.blocks[b].operations)][b :=
                        v.blocks[b].(operations := v.blocks[a].operations)]);
    forall x: Node | x in s ensures x < |r.blocks| && WiredAt(r, x) {
      assert WiredAt(v, x);
    }
    forall t: Node | t < |r.blocks| ensures PredsSound(r, t) {
      assert PredsSound(v, t);
    }
  }

  /** Only terminators matter for the edges. */
  lemma SameTerminatorsWired(v: Links, s: set<Node>, blocks: seq<IRBlock>)
    requires Wired(v, s) && |blocks| == |v.blocks| && forall b: Node :: b < |blocks| ==>
               blocks[b].terminator == v.blocks[b].terminator
    ensures Wired(v.(blocks := blocks), s)
  {
    var r := v.(blocks := blocks);
    forall x: Node | x in s ensures x < |r.blocks| && WiredAt(r, x) {
      assert WiredAt(v, x);
    }
    forall t: Node | t < |r.blocks| ensures PredsSound(r, t) {
      assert PredsSound(v, t);
    }
  }

  /** What becomes of any other block: it branches to `pred` if it branched to `node`, and if it is the hoisted
      successor itself, its entries for `node` are for `pred`. */
  function Aside(block: IRBlock, node: Node, pred: Node, before: bool, target: bool): IRBlock {
    block.(phi := if target then MovedPhis(block.phi, node, pred) else block.phi,
           terminator := if before then Retargeted(block.terminator, node, pred) else block.terminator)
  }

  /** The rewrite for the one successor that reaches the frontier. */
  method HoistOne(f: Blocks, node: Node, pred: Node, succ: Node, merge: Node, candidate: Node, uints: nat -> Id,
                  ghost was: IRBlock, ghost s: set<Node>)
    returns (hop: Node)
    requires f.Valid() && Wired(f.View(), s) && node in s && pred in s && node < |f.blocks| && pred < |f.blocks|
             && node != pred && f.nextId > 0
    requires merge < |f.blocks| && candidate < |f.blocks| && candidate != node && candidate != pred
    requires succ in f.succ[node] && succ != node && succ != pred && f.succ[pred] == [node]
    requires was.terminator.Switch? && f.blocks[node].terminator == was.terminator && f.blocks[node].operations == []
    requires f.blocks[pred].operations == was.operations && f.blocks[pred].terminator == Branch(node)
    modifies f
    ensures f.Valid() && Hoisted(was, f.blocks, node, pred, succ, hop, merge, uints, old(f.nextId))
            && (hop == succ || hop >= |old(f.blocks)|) && (hop == succ <==> succ != candidate)
    ensures |old(f.blocks)| <= |f.blocks| && forall b: Node :: b < |old(f.blocks)| && b != node && b != pred ==>
              && f.succ[b] == old(f.succ)[b]
              && f.blocks[b] == Aside(old(f.blocks)[b], node, pred, false, b == succ == candidate)
    ensures f.succ[pred] == [node, hop]
    ensures forall t: Node :: t in f.succ[node] <==> (t in old(f.succ)[node] && t != succ) || t == merge
    ensures Wired(f.View(), s + if hop != succ then {hop} else {})
  {
    hide Wired, AnyCase, EdgeHoisted, Retarget, Created, Distinct, MovedPhis, ReplaceAll, RetargetedCases,
        ReplaceFirst, InRange, Hoisted;
    SuccKnows(f.View(), s, node, succ);
    var terminator := f.blocks[node].terminator;
    ghost var built := AnyCase(terminator.selector, terminator.cases, terminator.cases, uints, succ, 0, f.nextId);
    ghost var v0 := f.View();
    var cond := BuildAnyCase(f, terminator.selector, terminator.cases, uints, succ, pred);
    if succ == candidate {
      var phis := MovePhis(f.blocks[candidate].phi, node, pred);
      f.blocks := f.blocks[candidate := f.blocks[candidate].(phi := phis)];
    }
    SameTerminatorsWired(v0, s, f.blocks);
    MoveEdge(f, node, pred, succ, merge, s);
    hop := BranchBefore(f, node, pred, succ, candidate, cond, s);
    IsHoisted(was, f.blocks, node, pred, succ, hop, merge, uints, old(f.nextId));
  }

  /** Gives the new predecessor its two ways on, with a block of its own towards the candidate. */
  method BranchBefore(f: Blocks, node: Node, pred: Node, succ: Node, candidate: Node, cond: Id,
                      ghost s: set<Node>) returns (hop: Node)
    requires f.Valid() && Wired(f.View(), s) && node in s && pred in s && node < |f.blocks| && pred < |f.blocks|
             && node != pred
    requires f.succ[pred] == [node, succ] && succ != pred && succ != node && f.blocks[pred].terminator == Branch(node)
    modifies f
    ensures f.Valid() && f.nextId == old(f.nextId) && |old(f.blocks)| <= |f.blocks|
    ensures forall b: Node :: b < |old(f.blocks)| ==>
              f.blocks[b] == if b == pred then old(f.blocks[pred]).(terminator := Condition(cond, hop, node))
              else old(f.blocks)[b]
    ensures hop == succ || (|old(f.blocks)| <= hop < |f.blocks| && hop != pred
                            && f.blocks[hop] == IRBlock([], [], Branch(succ)))
    ensures (hop == succ <==> succ != candidate) && f.succ[pred] == [node, hop]
    ensures forall b: Node :: b < |old(f.succ)| && b < |f.succ| && b != pred ==> f.succ[b] == old(f.succ)[b]
    ensures Wired(f.View(), s + if hop != succ then {hop} else {})
  {
    hide Wired, Retarget, Created, Distinct;
    hop := succ;
    ghost var s1 := s;
    if succ == candidate {
      ghost var w := f.View();
      hop := RewriteThroughIntermediate(f, pred, candidate, candidate, s);
      s1 := s + {hop};
      ThroughIs(w, pred, candidate);
    }
    assert s1 == s + if hop != succ then {hop} else {};
    TerminatorWired(f.View(), s1, pred, f.blocks[pred].(terminator := Condition(cond, hop, node)));
    f.blocks := f.blocks[pred := f.blocks[pred].(terminator := Condition(cond, hop, node))];
  }

  lemma IsHoisted(was: IRBlock, q: seq<IRBlock>, node: Node, pred: Node, succ: Node, hop: Node, merge: Node,
                  uints: nat -> Id, next: Id)
    requires was.terminator.Switch? && node < |q| && pred < |q|
    requires q[node].operations == [] && q[node].terminator == Retargeted(was.terminator, succ, merge)
    requires var built :=
             AnyCase(was.terminator.selector, was.terminator.cases, was.terminator.cases, uints, succ, 0, next);
             q[pred].operations == was.operations + built.ops
             && q[pred].terminator == Condition(built.result, hop, node)
    requires hop == succ || (hop < |q| && q[hop] == IRBlock([], [], Branch(succ)))
    ensures Hoisted(was, q, node, pred, succ, hop, merge, uints, next)
  {
    hide AnyCase;
  }

  /** Rewrites the edge lists and the cases. */
  method MoveEdge(f: Blocks, node: Node, pred: Node, succ: Node, merge: Node, ghost s: set<Node>)
    requires f.Valid() && Wired(f.View(), s) && node in s && pred in s && node < |f.blocks| && pred < |f.blocks|
             && node != pred
    requires merge < |f.blocks| && succ in f.succ[node] && succ != node && f.succ[pred] == [node]
    modifies f`blocks, f`succ, f`pred
    ensures f.Valid() && Wired(f.View(), s) && f.succ[pred] == [node, succ] && |f.succ| == |old(f.succ)|
    ensures forall t: Node :: t in f.succ[node] <==> (t in old(f.succ)[node] && t != succ) || t == merge
    ensures forall b: Node :: b < |f.succ| && b != node && b != pred ==> f.succ[b] == old(f.succ)[b]
    ensures f.blocks == old(f.blocks)[node :=
                                      old(f.blocks[node]).(terminator :=
                                                           Retargeted(old(f.blocks[node].terminator), succ, merge))]
  {
    hide Wired, EdgeHoisted, Distinct, ReplaceAll, Erase, AddUnique, Retargeted;
    ghost var v := f.View();
    SuccKnows(v, s, node, succ);
    EdgeHoistedWired(v, s, node, pred, succ, merge);
    EdgeHoistedIs(v, node, pred, succ, merge);
    PredBranches(v, s, node, pred, succ, merge);
    HoistedTerminators(v, node, pred, succ, merge);
    NodeBranches(v, s, node, pred, succ, merge);
    var succPreds := ReplaceSucc(f.pred[succ], node, pred);
    f.pred := f.pred[succ := succPreds];
    f.blocks := f.blocks[node := f.blocks[node].(terminator := Retargeted(f.blocks[node].terminator, succ, merge))];
    f.succ := f.succ[node := Erase(f.succ[node], succ)];
    f.AddBranch(node, merge);
    f.AddBranch(pred, succ);
    assert f.View() == EdgeHoisted(v, node, pred, succ, merge);
  }

  lemma EdgeHoistedIs(v: Links, node: Node, pred: Node, succ: Node, merge: Node)
    requires Shaped(v) && node < |v.blocks| && pred < |v.blocks| && succ < |v.blocks| && merge < |v.blocks|
             && node != pred
    ensures EdgeHoisted(v, node, pred, succ, merge) ==
            (var p1 := v.pred[succ := ReplaceAll(v.pred[succ], node, pred)];
             var p2 := p1[merge := AddUnique(p1[merge], node)];
             var s1 := v.succ[node := Erase(v.succ[node], succ)];
             var s2 := s1[node := AddUnique(s1[node], merge)];
             v.(blocks := v.blocks[node :=
                                   v.blocks[node].(terminator := Retargeted(v.blocks[node].terminator, succ, merge))],
                succ := s2[pred := AddUnique(s2[pred], succ)], pred := p2[succ := AddUnique(p2[succ], pred)]))
  {}

  lemma NodeBranches(v: Links, s: set<Node>, node: Node, pred: Node, succ: Node, merge: Node)
    requires Wired(v, s) && node in s && node < |v.blocks| && pred < |v.blocks| && succ < |v.blocks|
    requires merge < |v.blocks| && node != pred && succ in v.succ[node]
    ensures var r := EdgeHoisted(v, node, pred, succ, merge);
            && (forall t: Node :: t in r.succ[node] <==> (t in v.succ[node] && t != succ) || t == merge)
            && forall b: Node :: b < |v.succ| && b != node && b != pred ==> r.succ[b] == v.succ[b]
  {
    hide PredsSound, ReplaceAll, Erase, AddUnique, Retargeted;
    assert WiredAt(v, node);
    EraseMembers(v.succ[node], succ);
    AddUniqueMembers(Erase(v.succ[node], succ), merge);
  }

  lemma PredBranches(v: Links, s: set<Node>, node: Node, pred: Node, succ: Node, merge: Node)
    requires Shaped(v) && node < |v.blocks| && pred < |v.blocks| && succ < |v.blocks| && merge < |v.blocks|
             && node != pred
    requires v.succ[pred] == [node] && succ != node
    ensures EdgeHoisted(v, node, pred, succ, merge).succ[pred] == [node, succ]
  {}

  lemma ThroughIs(w: Links, pred: Node, to: Node)
    requires Shaped(w) && pred < |w.blocks| && to < |w.blocks| && to != pred && |w.succ[pred]| == 2
             && w.succ[pred][1] == to && w.succ[pred][0] != to
    requires w.blocks[pred].terminator.Branch? && w.blocks[pred].terminator.direct == w.succ[pred][0]
    ensures var r, n := Retarget(Created(w, Some(to)), pred, to, |w.blocks|), |w.blocks|;
            && r.blocks == w.blocks + [IRBlock([], [], Branch(to))] && r.succ[pred] == [w.succ[pred][0], n]
            && forall b: Node :: b < |w.succ| && b != pred ==> r.succ[b] == w.succ[b]
  {
    var xs := w.succ[pred];
    assert xs == [xs[0], to] && xs[1..] == [to];
    assert ReplaceFirst([to], to, |w.blocks|) == [|w.blocks|];
  }
}
